/** The CSV reader (`VW::parsers::csv::parser`): each line is trimmed like a
    text-format line, split at the separator, and either kept as the header
    or turned into an example. One column is the label; every other column
    becomes one feature of the default (space) namespace, named by the
    header. */
module CsvParser {
  import opened Base
  import opened Features
  import opened TextUtils
  import opened LineReader
  import opened CsvSplit

  /** The workspace services the reader calls; they are not part of this
      model. `stof` is `std::stof` on the bytes `StofText` gives: `None`
      when it throws. */
  datatype CsvEnv = CsvEnv(
    hasher: (string, bv64) -> bv64,
    uniformHash: (string, bv64) -> bv64,
    stof: string -> Option<FloatValue>,
    hashSeed: bv64,
    parseMask: bv64)

  /** The reader's options: header on the first line, separator, and the
      configured label column (negative counts from the end). */
  datatype CsvConfig = CsvConfig(withHeader: bool, separator: char, labelIndex: int)

  datatype CsvError =
    | ArityMismatch(elements: nat, headerSize: nat)
    | LabelIndexOutOfRange
    | HeaderMissing

  /** All elements are spans of the line. */
  predicate InLine(line: string, elems: seq<Span>)
  {
    forall k :: 0 <= k < |elems| ==> SpanIn(elems[k], line)
  }

  // ------------------------------------------------------------------ label

  /** The label column of a row with `n` elements. */
  function ResolveLabelIndex(labelIndex: int, n: nat): (r: Option<nat>)
    ensures r.Some? <==> -(n as int) <= labelIndex < n
    ensures r.Some? ==> r.value < n
    ensures r.Some? && labelIndex >= 0 ==> r.value == labelIndex
    ensures r.Some? && labelIndex < 0 ==> r.value + (-labelIndex) == n
  {
    var idx := if labelIndex < 0 then n + labelIndex else labelIndex;
    if idx >= n || idx < 0 then None else Some(idx)
  }

  /** `parser::parse_label`: the resolved label column and the words of
      that element handed to the label parser (the default label when it has
      none). */
  function ParseLabel(cfg: CsvConfig, line: string, elems: seq<Span>): (r: Result<(nat, Label), CsvError>)
    requires InLine(line, elems)
    ensures r.Failure? <==> ResolveLabelIndex(cfg.labelIndex, |elems|).None?
    ensures r.Failure? ==> r.error == LabelIndexOutOfRange
    ensures r.Success? ==>
              && r.value.0 == ResolveLabelIndex(cfg.labelIndex, |elems|).value
              && var text := SpanText(line, elems[r.value.0]);
                 var words := Tokenize(text, ' ');
                 r.value.1 == (if words == [] then DefaultLabel else ParsedFrom(Texts(text, words)))
  {
    match ResolveLabelIndex(cfg.labelIndex, |elems|)
    case None => Failure(LabelIndexOutOfRange)
    case Some(idx) =>
      var text := SpanText(line, elems[idx]);
      var words := Tokenize(text, ' ');
      Success((idx, if words == [] then DefaultLabel else ParsedFrom(Texts(text, words))))
  }

  /** A label index of -1 is the last column and 0 the first, for any row. */
  lemma LabelIndexEnds(n: nat)
    requires n > 0
    ensures ResolveLabelIndex(-1, n) == Some(n - 1)
    ensures ResolveLabelIndex(0, n) == Some(0)
  {
  }

  // --------------------------------------------------------------- features

  /** What `std::stof(string_feature_value.data())` reads. The element's
      view is not NUL-terminated, so the conversion starts at the element's
      first byte and may go on past the element and past the end of the
      line, into the line ending and the rest of the buffer (`after`). */
  function StofText(line: string, sp: Span, after: string): string
    requires SpanIn(sp, line)
  {
    line[sp.start..] + after
  }

  /** The conversion sees the element's own bytes first, then the rest of
      the line, then every byte after the line. */
  lemma StofTextExtends(line: string, sp: Span, after: string)
    requires SpanIn(sp, line)
    ensures var t := StofText(line, sp, after);
            && SpanText(line, sp) <= t
            && |t| == |line| - sp.start + |after|
            && t[|line| - sp.start..] == after
  {
  }

  /** The conversion of column `j`: `None` when `std::stof` throws. */
  function StofAt(env: CsvEnv, line: string, after: string, elems: seq<Span>, j: nat): Option<FloatValue>
    requires InLine(line, elems) && j < |elems|
  {
    env.stof(StofText(line, elems[j], after))
  }

  /** A last field made only of trim-list bytes (quotes, blanks) gives an
      empty element placed at the end of the line, so the conversion reads
      nothing of the line and everything after it. */
  lemma BlankLastField(s: string, f: Span, after: string)
    requires SpanIn(f, s) && f.start < |s| && f.End() == |s|
    requires forall m :: f.start <= m < f.End() ==> InTrimList(s[m])
    ensures SplitElement(s, f) == Span(|s|, 0)
    ensures StofText(s, SplitElement(s, f), after) == after
  {
    var k := SkipTrim(s, f.start, f.End());
    assert k == f.End();
  }

  /** The buffer of the example below: the row `1,""`, then the row `7,8`. */
  const TwoRows: string := "1,\"\"\n7,8\n"

  /** Its first line, and the bytes that follow that line. */
  lemma TwoRowsFirstLine()
    ensures TrimLine(ReadTo(TwoRows).0) == "1,\"\""
    ensures AfterLine(TwoRows) == "\n7,8\n"
  {
    var chunk, rest := "1,\"\"\n", "7,8\n";
    assert TwoRows == chunk + rest;
    ReadToLine(chunk, rest);
    assert !StartsWithBom(chunk);
    assert TrimLine(chunk) == chunk[0..4] == "1,\"\"";
    assert chunk[4..] + rest == "\n7,8\n";
  }

  /** Where the conversion reads past the line. In the buffer `TwoRows`,
      the first line is `1,""` and the bytes after it are the line ending
      and the next row (`TwoRowsFirstLine`). The field after the separator
      is empty once its quotes are trimmed, and its view starts at the end
      of the line, so the conversion is handed the line ending and the next
      row; `std::stof` skips leading white space, so a column named `b`
      there reads as 7. */
  lemma StofReadsNextRow(env: CsvEnv, ch: bv64, v: FloatValue)
    requires env.stof("\n7,8\n") == Some(v) && v != Num(0.0)
    ensures var e := SplitElement("1,\"\"", Span(2, 2));
            && e == Span(4, 0)
            && StofText("1,\"\"", e, "\n7,8\n") == "\n7,8\n"
            && ColumnFeature(env, ch, "b", "1,\"\"", "\n7,8\n", e, 0)
               == (Some(Feature(v, env.hasher("b", ch) & env.parseMask)), 0)
  {
    var line := "1,\"\"";
    assert line[2] == '"' && line[3] == '"';
    BlankLastField(line, Span(2, 2), "\n7,8\n");
  }

  /** One column's contribution and the anonymous counter after it: a value
      that is not a float gives value 1 and the chain hash of value and
      name; a float gives the name's hash, or `channel_hash + anon` (counter
      advanced) when the header name is empty; a zero value gives nothing. */
  function ColumnFeature(env: CsvEnv, ch: bv64, name: string, line: string, after: string, sp: Span, anon: bv64)
    : (r: (Option<Feature>, bv64))
    requires SpanIn(sp, line)
    ensures r.0.Some? ==> r.0.value.value != Num(0.0)
    ensures env.stof(StofText(line, sp, after)).None? ==>
              && r.1 == anon
              && r.0 == Some(Feature(Num(1.0),
                              env.hasher(SpanText(line, sp), env.hasher(name, ch)) & env.parseMask))
    ensures env.stof(StofText(line, sp, after)).Some? ==>
              && r.1 == (if name == [] then anon + 1 else anon)
              && (r.0.None? <==> env.stof(StofText(line, sp, after)).value == Num(0.0))
              && (r.0.Some? ==> r.0.value.value == env.stof(StofText(line, sp, after)).value)
              && (r.0.Some? && name != [] ==> r.0.value.hash == env.hasher(name, ch) & env.parseMask)
              && (r.0.Some? && name == [] ==> r.0.value.hash == ch + anon)
  {
    match env.stof(StofText(line, sp, after))
    case None =>
      (Some(Feature(Num(1.0), env.hasher(SpanText(line, sp), env.hasher(name, ch)) & env.parseMask)), anon)
    case Some(v) =>
      // the namespace value is fixed at 1, so the value is the float itself
      var h := if name != [] then env.hasher(name, ch) & env.parseMask else ch + anon;
      var anon' := if name != [] then anon else anon + 1;
      if v == Num(0.0) then (None, anon') else (Some(Feature(v, h)), anon')
  }

  /** Number of columns from `i` on, other than the label, that have no
      header name. */
  function MissingNames(n: nat, labelCol: nat, h: nat, i: nat): nat
  {
    var lo := if i < h then h else i;
    if lo >= n then 0 else n - lo - (if lo <= labelCol < n then 1 else 0)
  }

  /** `parser::parse_features` from column `i` on, with `anon` anonymous
      float columns seen so far. Reading the header name of a column the
      header does not have is out of range in the source (the header is
      empty when the reader runs without one); it is a failure here. */
  function ParseFeaturesFrom(env: CsvEnv, header: seq<string>, line: string, after: string, elems: seq<Span>,
                             labelCol: nat, ch: bv64, i: nat, anon: bv64): (r: Result<seq<Feature>, CsvError>)
    requires InLine(line, elems) && i <= |elems|
    ensures r.Failure? <==> MissingNames(|elems|, labelCol, |header|, i) > 0
    ensures r.Failure? ==> r.error == HeaderMissing
    ensures r.Success? ==> |r.value| <= |elems| - i
    ensures r.Success? ==> forall m :: 0 <= m < |r.value| ==> r.value[m].value != Num(0.0)
    decreases |elems| - i
  {
    if i == |elems| then Success([])
    else if i == labelCol then ParseFeaturesFrom(env, header, line, after, elems, labelCol, ch, i + 1, anon)
    else if i >= |header| then Failure(HeaderMissing)
    else
      var (f, anon') := ColumnFeature(env, ch, header[i], line, after, elems[i], anon);
      var rest :- ParseFeaturesFrom(env, header, line, after, elems, labelCol, ch, i + 1, anon');
      Success(if f.Some? then [f.value] + rest else rest)
  }

  /** The label column is passed over: the counter and the features go on
      from the next column. */
  lemma SkipLabel(env: CsvEnv, header: seq<string>, line: string, after: string, elems: seq<Span>,
                  labelCol: nat, ch: bv64, anon: bv64)
    requires InLine(line, elems) && labelCol < |elems|
    ensures ParseFeaturesFrom(env, header, line, after, elems, labelCol, ch, labelCol, anon)
         == ParseFeaturesFrom(env, header, line, after, elems, labelCol, ch, labelCol + 1, anon)
  {
  }

  /** The label column's content is never read as a feature. */
  lemma {:induction false} LabelColumnIgnored(env: CsvEnv, header: seq<string>, line: string, after: string,
                                              elems: seq<Span>, labelCol: nat, ch: bv64, i: nat, anon: bv64, sp: Span)
    requires InLine(line, elems) && i <= |elems| && labelCol < |elems| && SpanIn(sp, line)
    ensures ParseFeaturesFrom(env, header, line, after, elems[labelCol := sp], labelCol, ch, i, anon)
         == ParseFeaturesFrom(env, header, line, after, elems, labelCol, ch, i, anon)
    decreases |elems| - i
  {
    var elems' := elems[labelCol := sp];
    if i < |elems| {
      if i == labelCol {
        LabelColumnIgnored(env, header, line, after, elems, labelCol, ch, i + 1, anon, sp);
      } else if i < |header| {
        assert elems'[i] == elems[i];
        var (f, anon') := ColumnFeature(env, ch, header[i], line, after, elems[i], anon);
        LabelColumnIgnored(env, header, line, after, elems, labelCol, ch, i + 1, anon', sp);
      }
    }
  }

  /** Column `j` is read as a float and has no header name: it takes the
      next value of the anonymous counter, whether or not it is zero. */
  predicate TakesCounter(env: CsvEnv, header: seq<string>, line: string, after: string, elems: seq<Span>,
                         labelCol: nat, j: nat)
    requires InLine(line, elems) && j < |elems|
  {
    j != labelCol && j < |header| && header[j] == [] && StofAt(env, line, after, elems, j).Some?
  }

  /** Column `j` gives a feature: it is not the label and not a float equal
      to zero. */
  predicate Yields(env: CsvEnv, line: string, after: string, elems: seq<Span>, labelCol: nat, j: nat)
    requires InLine(line, elems) && j < |elems|
  {
    j != labelCol && (StofAt(env, line, after, elems, j).None? || StofAt(env, line, after, elems, j).value != Num(0.0))
  }

  /** The anonymous counter after column `i` (a `size_t`, so it wraps). */
  function NextCounter(env: CsvEnv, header: seq<string>, line: string, after: string, elems: seq<Span>,
                       labelCol: nat, i: nat, anon: bv64): bv64
    requires InLine(line, elems) && i < |elems|
  {
    if TakesCounter(env, header, line, after, elems, labelCol, i) then anon + 1 else anon
  }

  /** The anonymous counter when column `j` is reached, starting from
      `anon` at column `i`: one more for every column in between that takes
      it. */
  function CounterAt(env: CsvEnv, header: seq<string>, line: string, after: string, elems: seq<Span>,
                     labelCol: nat, i: nat, j: nat, anon: bv64): bv64
    requires InLine(line, elems) && i <= j <= |elems|
    decreases j - i
  {
    if i == j then anon
    else CounterAt(env, header, line, after, elems, labelCol, i + 1, j,
                   NextCounter(env, header, line, after, elems, labelCol, i, anon))
  }

  /** Number of columns in `[i, j)` that give a feature. */
  function KeptBefore(env: CsvEnv, line: string, after: string, elems: seq<Span>, labelCol: nat, i: nat, j: nat): nat
    requires InLine(line, elems) && i <= j <= |elems|
    decreases j - i
  {
    if i == j then 0
    else (if Yields(env, line, after, elems, labelCol, i) then 1 else 0)
         + KeptBefore(env, line, after, elems, labelCol, i + 1, j)
  }

  /** One column of a row that parses: it gives its feature, if it gives
      one, in front of the features of the columns after it, which are read
      with the counter it leaves. */
  lemma ParseStep(env: CsvEnv, header: seq<string>, line: string, after: string, elems: seq<Span>,
                  labelCol: nat, ch: bv64, i: nat, anon: bv64)
    requires InLine(line, elems) && i < |elems|
    requires ParseFeaturesFrom(env, header, line, after, elems, labelCol, ch, i, anon).Success?
    ensures var r := ParseFeaturesFrom(env, header, line, after, elems, labelCol, ch, i, anon).value;
            var rest := ParseFeaturesFrom(env, header, line, after, elems, labelCol, ch, i + 1,
                                          NextCounter(env, header, line, after, elems, labelCol, i, anon));
            && rest.Success?
            && (Yields(env, line, after, elems, labelCol, i) ==>
                  && i < |header|
                  && Some(r[0]) == ColumnFeature(env, ch, header[i], line, after, elems[i], anon).0
                  && r[1..] == rest.value)
            && (!Yields(env, line, after, elems, labelCol, i) ==> r == rest.value)
  {
    if i != labelCol {
      assert i < |header|;
      var cf := ColumnFeature(env, ch, header[i], line, after, elems[i], anon);
      assert cf.0.Some? <==> Yields(env, line, after, elems, labelCol, i);
      assert cf.1 == NextCounter(env, header, line, after, elems, labelCol, i, anon);
    }
  }

  /** Where each column's feature lands. When the row parses, a column that
      gives a feature comes right after the features of the columns before
      it, built with the counter advanced once per anonymous float column
      before it (zero-valued ones included, the label left out). */
  lemma {:induction false} ColumnPlaced(env: CsvEnv, header: seq<string>, line: string, after: string,
                                        elems: seq<Span>, labelCol: nat, ch: bv64, i: nat, anon: bv64, j: nat)
    requires InLine(line, elems) && i <= j < |elems|
    requires ParseFeaturesFrom(env, header, line, after, elems, labelCol, ch, i, anon).Success?
    requires Yields(env, line, after, elems, labelCol, j)
    ensures var r := ParseFeaturesFrom(env, header, line, after, elems, labelCol, ch, i, anon).value;
            var k := KeptBefore(env, line, after, elems, labelCol, i, j);
            var n := CounterAt(env, header, line, after, elems, labelCol, i, j, anon);
            && j < |header| && k < |r|
            && Some(r[k]) == ColumnFeature(env, ch, header[j], line, after, elems[j], n).0
    decreases j - i
  {
    if i == j {
      PlacedHere(env, header, line, after, elems, labelCol, ch, j, anon);
    } else {
      ParseStep(env, header, line, after, elems, labelCol, ch, i, anon);
      var next := NextCounter(env, header, line, after, elems, labelCol, i, anon);
      ColumnPlaced(env, header, line, after, elems, labelCol, ch, i + 1, next, j);
      assert CounterAt(env, header, line, after, elems, labelCol, i, j, anon)
          == CounterAt(env, header, line, after, elems, labelCol, i + 1, j, next);
      assert KeptBefore(env, line, after, elems, labelCol, i, j)
          == (if Yields(env, line, after, elems, labelCol, i) then 1 else 0)
             + KeptBefore(env, line, after, elems, labelCol, i + 1, j);
      ShiftIndex(ParseFeaturesFrom(env, header, line, after, elems, labelCol, ch, i, anon).value,
                 ParseFeaturesFrom(env, header, line, after, elems, labelCol, ch, i + 1, next).value,
                 Yields(env, line, after, elems, labelCol, i),
                 KeptBefore(env, line, after, elems, labelCol, i + 1, j));
    }
  }

  /** So an anonymous float column's feature, zero or not, is hashed
      `channel_hash + anon` with the counter it reaches: the number of
      anonymous float columns before it, the label left out. */
  lemma AnonymousPlaced(env: CsvEnv, header: seq<string>, line: string, after: string,
                        elems: seq<Span>, labelCol: nat, ch: bv64, j: nat)
    requires InLine(line, elems) && j < |elems|
    requires ParseFeaturesFrom(env, header, line, after, elems, labelCol, ch, 0, 0).Success?
    requires TakesCounter(env, header, line, after, elems, labelCol, j)
    requires StofAt(env, line, after, elems, j).value != Num(0.0)
    ensures var r := ParseFeaturesFrom(env, header, line, after, elems, labelCol, ch, 0, 0).value;
            var k := KeptBefore(env, line, after, elems, labelCol, 0, j);
            && k < |r|
            && r[k] == Feature(StofAt(env, line, after, elems, j).value,
                               ch + CounterAt(env, header, line, after, elems, labelCol, 0, j, 0))
  {
    ColumnPlaced(env, header, line, after, elems, labelCol, ch, 0, 0, j);
  }

  /** A column that gives a feature, at the start of the row's remainder. */
  lemma PlacedHere(env: CsvEnv, header: seq<string>, line: string, after: string,
                   elems: seq<Span>, labelCol: nat, ch: bv64, j: nat, anon: bv64)
    requires InLine(line, elems) && j < |elems|
    requires ParseFeaturesFrom(env, header, line, after, elems, labelCol, ch, j, anon).Success?
    requires Yields(env, line, after, elems, labelCol, j)
    ensures var r := ParseFeaturesFrom(env, header, line, after, elems, labelCol, ch, j, anon).value;
            && j < |header| && 0 < |r|
            && Some(r[0]) == ColumnFeature(env, ch, header[j], line, after, elems[j], anon).0
  {
    ParseStep(env, header, line, after, elems, labelCol, ch, j, anon);
  }

  /** Dropping one element in front, or none, shifts the positions by as
      much. */
  lemma ShiftIndex(r: seq<Feature>, rest: seq<Feature>, front: bool, k: nat)
    requires front ==> 0 < |r| && r[1..] == rest
    requires !front ==> r == rest
    requires k < |rest|
    ensures (if front then 1 else 0) + k < |r| && r[(if front then 1 else 0) + k] == rest[k]
  {
  }

  /** ... and nothing else is there: the row gives one feature per column
      that gives one. */
  lemma {:induction false} FeatureCount(env: CsvEnv, header: seq<string>, line: string, after: string,
                                        elems: seq<Span>, labelCol: nat, ch: bv64, i: nat, anon: bv64)
    requires InLine(line, elems) && i <= |elems|
    requires ParseFeaturesFrom(env, header, line, after, elems, labelCol, ch, i, anon).Success?
    ensures |ParseFeaturesFrom(env, header, line, after, elems, labelCol, ch, i, anon).value|
         == KeptBefore(env, line, after, elems, labelCol, i, |elems|)
    decreases |elems| - i
  {
    if i < |elems| {
      ParseStep(env, header, line, after, elems, labelCol, ch, i, anon);
      FeatureCount(env, header, line, after, elems, labelCol, ch, i + 1,
                   NextCounter(env, header, line, after, elems, labelCol, i, anon));
    }
  }

  /** Number of columns from `i` on other than the label. */
  function NonLabelColumns(n: nat, labelCol: nat, i: nat): nat
    requires i <= n
  {
    n - i - (if i <= labelCol < n then 1 else 0)
  }

  /** Column `j` has no header name and holds a non-zero float. */
  predicate AnonymousFloat(env: CsvEnv, header: seq<string>, line: string, after: string, elems: seq<Span>, j: nat)
    requires InLine(line, elems) && j < |elems| && j < |header|
  {
    && header[j] == []
    && StofAt(env, line, after, elems, j).Some?
    && StofAt(env, line, after, elems, j).value != Num(0.0)
  }

  /** One anonymous non-zero float column: its feature, hashed with the
      counter, comes first and the counter moves on by one. */
  lemma AnonymousColumnStep(env: CsvEnv, header: seq<string>, line: string, after: string, elems: seq<Span>,
                            labelCol: nat, ch: bv64, i: nat, anon: bv64)
    requires InLine(line, elems) && i < |elems| && i < |header| && i != labelCol
    requires AnonymousFloat(env, header, line, after, elems, i)
    ensures var r := ParseFeaturesFrom(env, header, line, after, elems, labelCol, ch, i, anon);
            var rest := ParseFeaturesFrom(env, header, line, after, elems, labelCol, ch, i + 1, anon + 1);
            && (r.Success? <==> rest.Success?)
            && (r.Success? ==> r.value == [Feature(StofAt(env, line, after, elems, i).value, ch + anon)] + rest.value)
  {
    var cf := ColumnFeature(env, ch, header[i], line, after, elems[i], anon);
    assert cf == (Some(Feature(StofAt(env, line, after, elems, i).value, ch + anon)), anon + 1);
    var r := ParseFeaturesFrom(env, header, line, after, elems, labelCol, ch, i, anon);
    var rest := ParseFeaturesFrom(env, header, line, after, elems, labelCol, ch, i + 1, anon + 1);
    if rest.Success? {
      assert r == Success([cf.0.value] + rest.value);
    } else {
      assert r.Failure?;
    }
  }

  /** When every column but the label is an anonymous non-zero float, each
      gives exactly one feature. */
  lemma {:induction false} AnonymousAllKept(env: CsvEnv, header: seq<string>, line: string, after: string,
                                            elems: seq<Span>, labelCol: nat, ch: bv64, i: nat, anon: bv64)
    requires InLine(line, elems) && i <= |elems| && |elems| <= |header|
    requires forall j :: i <= j < |elems| && j != labelCol ==> AnonymousFloat(env, header, line, after, elems, j)
    ensures var r := ParseFeaturesFrom(env, header, line, after, elems, labelCol, ch, i, anon);
            r.Success? && |r.value| == NonLabelColumns(|elems|, labelCol, i)
    decreases |elems| - i
  {
    if i < |elems| {
      if i == labelCol {
        SkipLabel(env, header, line, after, elems, labelCol, ch, anon);
        AnonymousAllKept(env, header, line, after, elems, labelCol, ch, i + 1, anon);
      } else {
        AnonymousColumnStep(env, header, line, after, elems, labelCol, ch, i, anon);
        AnonymousAllKept(env, header, line, after, elems, labelCol, ch, i + 1, anon + 1);
      }
    }
  }

  /** The hashes of a feature list, in order. */
  function Hashes(fs: seq<Feature>): (r: seq<bv64>)
    ensures |r| == |fs|
  {
    if fs == [] then [] else [fs[0].hash] + Hashes(fs[1..])
  }

  /** `n` successive values of the anonymous counter added to the channel
      hash, starting from `anon` (a `size_t`, so it wraps). */
  function Counters(ch: bv64, anon: bv64, n: nat): (r: seq<bv64>)
    ensures |r| == n
    decreases n
  {
    if n == 0 then [] else [ch + anon] + Counters(ch, anon + 1, n - 1)
  }

  /** One more feature in front, hashed with the counter's current value. */
  lemma CountersCons(f: Feature, rest: seq<Feature>, ch: bv64, anon: bv64, n: nat)
    requires n > 0 && f.hash == ch + anon && Hashes(rest) == Counters(ch, anon + 1, n - 1)
    ensures Hashes([f] + rest) == Counters(ch, anon, n)
  {
    assert ([f] + rest)[1..] == rest;
  }

  /** One anonymous column in front of consecutive counters keeps them
      consecutive. */
  lemma ConsecutiveStep(env: CsvEnv, header: seq<string>, line: string, after: string, elems: seq<Span>,
                        labelCol: nat, ch: bv64, i: nat, anon: bv64)
    requires InLine(line, elems) && i < |elems| && i < |header| && i != labelCol
    requires AnonymousFloat(env, header, line, after, elems, i)
    requires var rest := ParseFeaturesFrom(env, header, line, after, elems, labelCol, ch, i + 1, anon + 1);
             rest.Success? && Hashes(rest.value) == Counters(ch, anon + 1, NonLabelColumns(|elems|, labelCol, i + 1))
    ensures var r := ParseFeaturesFrom(env, header, line, after, elems, labelCol, ch, i, anon);
            r.Success? && Hashes(r.value) == Counters(ch, anon, NonLabelColumns(|elems|, labelCol, i))
  {
    AnonymousColumnStep(env, header, line, after, elems, labelCol, ch, i, anon);
    var rest := ParseFeaturesFrom(env, header, line, after, elems, labelCol, ch, i + 1, anon + 1).value;
    var f := Feature(StofAt(env, line, after, elems, i).value, ch + anon);
    CountersCons(f, rest, ch, anon, NonLabelColumns(|elems|, labelCol, i));
  }

  /** Past the last column there are no features and no counters. */
  lemma ConsecutiveEnd(env: CsvEnv, header: seq<string>, line: string, after: string, elems: seq<Span>,
                       labelCol: nat, ch: bv64, anon: bv64)
    requires InLine(line, elems)
    ensures var r := ParseFeaturesFrom(env, header, line, after, elems, labelCol, ch, |elems|, anon);
            r.Success? && Hashes(r.value) == Counters(ch, anon, NonLabelColumns(|elems|, labelCol, |elems|))
  {
    assert ParseFeaturesFrom(env, header, line, after, elems, labelCol, ch, |elems|, anon) == Success([]);
    assert Counters(ch, anon, 0) == [];
  }

  /** Passing over the label keeps the counter hashes consecutive. */
  lemma ConsecutiveSkip(env: CsvEnv, header: seq<string>, line: string, after: string, elems: seq<Span>,
                        labelCol: nat, ch: bv64, anon: bv64)
    requires InLine(line, elems) && labelCol < |elems|
    requires var rest := ParseFeaturesFrom(env, header, line, after, elems, labelCol, ch, labelCol + 1, anon);
             rest.Success? && Hashes(rest.value) == Counters(ch, anon, NonLabelColumns(|elems|, labelCol, labelCol + 1))
    ensures var r := ParseFeaturesFrom(env, header, line, after, elems, labelCol, ch, labelCol, anon);
            r.Success? && Hashes(r.value) == Counters(ch, anon, NonLabelColumns(|elems|, labelCol, labelCol))
  {
    SkipLabel(env, header, line, after, elems, labelCol, ch, anon);
  }

  /** ... and their hashes are `channel_hash + anon`, `+ anon + 1`, ... in
      column order. */
  lemma {:induction false} AnonymousConsecutive(env: CsvEnv, header: seq<string>, line: string, after: string,
                                                elems: seq<Span>, labelCol: nat, ch: bv64, i: nat, anon: bv64)
    requires InLine(line, elems) && i <= |elems| && |elems| <= |header|
    requires forall j :: i <= j < |elems| && j != labelCol ==> AnonymousFloat(env, header, line, after, elems, j)
    ensures var r := ParseFeaturesFrom(env, header, line, after, elems, labelCol, ch, i, anon);
            r.Success? && Hashes(r.value) == Counters(ch, anon, NonLabelColumns(|elems|, labelCol, i))
    decreases |elems| - i
  {
    if i == |elems| {
      ConsecutiveEnd(env, header, line, after, elems, labelCol, ch, anon);
    } else if i == labelCol {
      AnonymousConsecutive(env, header, line, after, elems, labelCol, ch, i + 1, anon);
      ConsecutiveSkip(env, header, line, after, elems, labelCol, ch, anon);
    } else {
      AnonymousConsecutive(env, header, line, after, elems, labelCol, ch, i + 1, anon + 1);
      ConsecutiveStep(env, header, line, after, elems, labelCol, ch, i, anon);
    }
  }

  /** `parser::parse_namespaces`: all features go to the space namespace,
      which is recorded in `indices` when it went from empty to non-empty. */
  function ParseNamespaces(env: CsvEnv, header: seq<string>, line: string, after: string, elems: seq<Span>,
                           labelCol: nat, ex: Example): (r: Result<Example, CsvError>)
    requires InLine(line, elems)
    ensures r.Failure? <==> ParseFeaturesFrom(env, header, line, after, elems, labelCol,
                              SpaceChannelHash(env.uniformHash, env.hashSeed), 0, 0).Failure?
    ensures r.Success? ==>
              FeaturesOf(r.value, ' ') == FeaturesOf(ex, ' ') +
                ParseFeaturesFrom(env, header, line, after, elems, labelCol,
                                  SpaceChannelHash(env.uniformHash, env.hashSeed), 0, 0).value
    ensures r.Success? ==> forall o :: o != ' ' ==> FeaturesOf(r.value, o) == FeaturesOf(ex, o)
    ensures r.Success? ==>
              r.value.indices ==
                ex.indices + (if |FeaturesOf(ex, ' ')| == 0 && |FeaturesOf(r.value, ' ')| > 0 then [' '] else [])
    ensures r.Success? ==> r.value.tag == ex.tag && r.value.labelInput == ex.labelInput
    ensures r.Success? && IndicesMatch(ex) ==> IndicesMatch(r.value)
  {
    var ch := SpaceChannelHash(env.uniformHash, env.hashSeed);
    var newIndex := |FeaturesOf(ex, ' ')| == 0;
    var fs :- ParseFeaturesFrom(env, header, line, after, elems, labelCol, ch, 0, 0);
    var ex1 := PushAll(ex, ' ', fs);
    if newIndex && |FeaturesOf(ex1, ' ')| > 0 then Success(AddIndex(ex1, ' ')) else Success(ex1)
  }

  /** `parser::parse_example`: the label, then the features. */
  function ParseExample(cfg: CsvConfig, env: CsvEnv, header: seq<string>, line: string, after: string,
                        elems: seq<Span>, ex: Example): (r: Result<Example, CsvError>)
    requires InLine(line, elems)
    ensures ParseLabel(cfg, line, elems).Failure? ==> r == Failure(LabelIndexOutOfRange)
    ensures ParseLabel(cfg, line, elems).Success? ==>
              var l := ParseLabel(cfg, line, elems).value;
              && r == ParseNamespaces(env, header, line, after, elems, l.0, ex.(labelInput := l.1))
              && (r.Success? ==> r.value.labelInput == l.1 && r.value.tag == ex.tag)
    ensures r.Success? && IndicesMatch(ex) ==> IndicesMatch(r.value)
  {
    var l :- ParseLabel(cfg, line, elems);
    ParseNamespaces(env, header, line, after, elems, l.0, ex.(labelInput := l.1))
  }

  // ------------------------------------------------------------------ lines

  /** What one `read_line` leaves behind: the raw byte count, the header,
      the example, and the unread input. */
  datatype CsvRead = CsvRead(consumed: nat, header: seq<string>, ex: Example, rest: string)

  /** `parser::read_line`. */
  function ReadLine(cfg: CsvConfig, env: CsvEnv, header: seq<string>, ex: Example, buf: string)
    : (r: Result<CsvRead, CsvError>)
    // the raw byte count, terminator and byte-order mark included
    ensures r.Success? ==> r.value.consumed == |ReadTo(buf).0| && r.value.rest == ReadTo(buf).1
    ensures r.Success? ==> r.value.consumed + |r.value.rest| == |buf|
    // end of input, or an empty line: a newline example, header unchanged
    ensures buf == [] ==> r == Success(CsvRead(0, header, ex, []))
    ensures buf != [] && TrimLine(ReadTo(buf).0) == [] ==>
              r.Success? && r.value.header == header && r.value.ex == ex.(isNewline := true)
    // otherwise the row is split, checked against the header, and used
    ensures var line := TrimLine(ReadTo(buf).0);
            line != [] ==>
              var elems := Split(line, cfg.separator);
              && (header != [] && |elems| != |header| ==> r == Failure(ArityMismatch(|elems|, |header|)))
              && (header == [] && cfg.withHeader ==>
                    r.Success? && r.value.header == Texts(line, elems) && r.value.ex == ex)
              && ((header != [] && |elems| == |header|) || (header == [] && !cfg.withHeader) ==>
                    && (r.Success? <==> ParseExample(cfg, env, header, line, AfterLine(buf), elems, ex).Success?)
                    && (r.Success? ==> r.value.header == header &&
                                       r.value.ex == ParseExample(cfg, env, header, line, AfterLine(buf), elems, ex).value))
  {
    var (chunk, rest) := ReadTo(buf);
    if |chunk| == 0 then Success(CsvRead(0, header, ex, rest))
    else
      var line := TrimLine(chunk);
      if line == [] then Success(CsvRead(|chunk|, header, ex.(isNewline := true), rest))
      else
        var elems := Split(line, cfg.separator);
        if header != [] && |elems| != |header| then Failure(ArityMismatch(|elems|, |header|))
        else if cfg.withHeader && header == [] then Success(CsvRead(|chunk|, Texts(line, elems), ex, rest))
        else
          var e :- ParseExample(cfg, env, header, line, AfterLine(buf), elems, ex);
          Success(CsvRead(|chunk|, header, e, rest))
  }

  /** A header row becomes a header with one name per separator plus one,
      so the header is never empty afterwards. */
  lemma HeaderRowSetsHeader(cfg: CsvConfig, env: CsvEnv, ex: Example, buf: string)
    requires cfg.withHeader && TrimLine(ReadTo(buf).0) != []
    ensures var line := TrimLine(ReadTo(buf).0);
            var r := ReadLine(cfg, env, [], ex, buf);
            && r.Success?
            && |r.value.header| == CountFrom(line, cfg.separator, 0) + 1
            && r.value.header != []
  {
    SplitCount(TrimLine(ReadTo(buf).0), cfg.separator);
  }

  /** `parser::parse_csv`: one line, or two when a header is expected and
      none has been read yet; the byte counts are added up. */
  function ParseCsv(cfg: CsvConfig, env: CsvEnv, header: seq<string>, ex: Example, buf: string)
    : (r: Result<CsvRead, CsvError>)
    ensures !(cfg.withHeader && header == []) ==> r == ReadLine(cfg, env, header, ex, buf)
    ensures cfg.withHeader && header == [] ==>
              match ReadLine(cfg, env, header, ex, buf)
              case Failure(e) => r == Failure(e)
              case Success(first) =>
                match ReadLine(cfg, env, first.header, first.ex, first.rest)
                case Failure(e) => r == Failure(e)
                case Success(second) =>
                  && r.Success?
                  && r.value.consumed == first.consumed + second.consumed
                  && r.value.header == second.header && r.value.ex == second.ex
                  && r.value.rest == second.rest
                  && r.value.consumed + |r.value.rest| == |buf|
  {
    var firstRead := header == [];
    var r1 :- ReadLine(cfg, env, header, ex, buf);
    if cfg.withHeader && firstRead then
      var r2 :- ReadLine(cfg, env, r1.header, r1.ex, r1.rest);
      Success(CsvRead(r1.consumed + r2.consumed, r2.header, r2.ex, r2.rest))
    else Success(r1)
  }
}
