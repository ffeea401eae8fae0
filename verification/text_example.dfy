/** One line of the text format turned into an example: the label and tag
    are read from the part before the first '|', the namespaces from the
    rest (`substring_to_example`), plus the three entry points that feed it
    (`read_features_string`, `VW::read_line`, `VW::read_lines`). */
module TextExample {
  import opened Base
  import opened Features
  import opened TextUtils
  import opened LineReader
  import opened TextParser

  /** `find(c)`: the first position of `c`, or `None` for `npos`. */
  function Find(s: string, c: char): (r: Option<nat>)
    ensures r.Some? ==> r.value < |s| && s[r.value] == c
    ensures r.Some? ==> forall k :: 0 <= k < r.value ==> s[k] != c
    ensures r.None? <==> forall k :: 0 <= k < |s| ==> s[k] != c
  {
    if s == [] then None
    else if s[0] == c then Some(0)
    else match Find(s[1..], c)
      case None => None
      case Some(k) => Some(k + 1)
  }

  /** The text the label parser and the tag rule look at: everything before
      the first '|' (or the whole line), after its first tab. */
  function LabelRegion(text: string): (r: string)
    ensures var head := if Find(text, '|').Some? then text[..Find(text, '|').value] else text;
            Find(head, '\t').None? ==> r == head
    ensures var head := if Find(text, '|').Some? then text[..Find(text, '|').value] else text;
            Find(head, '\t').Some? ==> r == head[Find(head, '\t').value + 1..]
    ensures forall k :: 0 <= k < |r| ==> r[k] != '|'
  {
    var head := match Find(text, '|') case Some(b) => text[..b] case None => text;
    match Find(head, '\t')
    case Some(t) => head[t + 1..]
    case None => head
  }

  /** The label words and the tag of a label region. */
  datatype LabelSplit = LabelSplit(words: seq<Span>, tag: Option<Span>)

  /** The last token is the tag when it reaches the end of the region or
      starts with a quote. */
  predicate IsTagToken(region: string, t: Span)
    requires SpanIn(t, region) && t.len > 0
  {
    t.End() == |region| || region[t.start] == '\''
  }

  function SplitLabel(region: string): (r: LabelSplit)
    ensures var ts := Tokenize(region, ' ');
            r.tag.Some? <==> |ts| > 0 && IsTagToken(region, ts[|ts| - 1])
    ensures var ts := Tokenize(region, ' ');
            r.tag.Some? ==> r.tag.value == ts[|ts| - 1] && r.words == ts[..|ts| - 1]
    ensures r.tag.None? ==> r.words == Tokenize(region, ' ')
  {
    var ts := Tokenize(region, ' ');
    if |ts| > 0 && IsTagToken(region, ts[|ts| - 1]) then LabelSplit(ts[..|ts| - 1], Some(ts[|ts| - 1]))
    else LabelSplit(ts, None)
  }

  /** Nothing of the region is lost: every non-space byte lies in a label
      word or in the tag. */
  lemma SplitLabelCovers(region: string, p: nat)
    requires p < |region| && region[p] != ' '
    ensures var s := SplitLabel(region);
            Covered(s.words, p) || (s.tag.Some? && s.tag.value.start <= p < s.tag.value.End())
  {
    TokensCover(region, ' ', 0, p);
    var ts := Tokenize(region, ' ');
    var k :| 0 <= k < |ts| && ts[k].start <= p < ts[k].End();
    var s := SplitLabel(region);
    if s.tag.Some? && k < |ts| - 1 {
      assert s.words[k] == ts[k];
    }
  }

  /** A region ending in a space has no unquoted tag: "1 |..." is a label. */
  lemma TrailingSpaceMeansQuotedTag(region: string)
    requires |region| > 0 && region[|region| - 1] == ' '
    ensures var s := SplitLabel(region);
            s.tag.Some? ==> region[s.tag.value.start] == '\''
  {
    var ts := Tokenize(region, ' ');
    if |ts| > 0 {
      var t := ts[|ts| - 1];
      assert IsToken(region, ' ', t);
      assert t.End() != |region|;
    }
  }

  /** The tag text with its leading quote, if any, removed. */
  function TagText(region: string, t: Span): (r: string)
    requires SpanIn(t, region) && t.len > 0
    ensures region[t.start] == '\'' ==> r == SpanText(region, t)[1..]
    ensures region[t.start] != '\'' ==> r == SpanText(region, t)
  {
    var s := SpanText(region, t);
    if s[0] == '\'' then s[1..] else s
  }

  /** The label half of `substring_to_example`: the newline flag, the
      default label, the tag, and the words handed to the label parser. The
      source skips this when the line starts with '|'; the region is then
      empty and nothing would be found anyway. */
  function LabelPart(ex: Example, text: string): (r: Example)
    ensures r.space == ex.space && r.indices == ex.indices
    ensures r.isNewline == (ex.isNewline || text == [])
    ensures var region := LabelRegion(text);
            var s := SplitLabel(region);
            && (s.tag.None? ==> r.tag == ex.tag)
            && (s.tag.Some? ==> r.tag == ex.tag + TagText(region, s.tag.value))
            && r.labelInput == (if s.words == [] then DefaultLabel else ParsedFrom(Texts(region, s.words)))
  {
    var region := LabelRegion(text);
    var s := SplitLabel(region);
    assert Find(text, '|') == Some(0) ==> region == [] && Tokenize(region, ' ') == [];
    var tag := match s.tag
      case Some(t) => ex.tag + TagText(region, t)
      case None => ex.tag;
    var lbl := if s.words == [] then DefaultLabel else ParsedFrom(Texts(region, s.words));
    ex.(isNewline := ex.isNewline || text == [], labelInput := lbl, tag := tag)
  }

  /** `substring_to_example`: the label half, then the namespaces from the
      first '|' on. */
  function SubstringToExample(env: TextEnv, ex: Example, text: string): (r: Result<Example, ParseError>)
    ensures text == [] ==> r == Success(ex.(isNewline := true, labelInput := DefaultLabel))
    // without '|' there is no namespace: only the label and the tag are set
    ensures Find(text, '|').None? ==> r == Success(LabelPart(ex, text))
    // the namespaces never touch the label, the tag or the newline flag
    ensures r.Success? ==>
              var l := LabelPart(ex, text);
              r.value.tag == l.tag && r.value.labelInput == l.labelInput && r.value.isNewline == l.isNewline
    ensures r.Success? && IndicesMatch(ex) ==> IndicesMatch(r.value)
  {
    var l := LabelPart(ex, text);
    match Find(text, '|')
    case None => Success(l)
    case Some(b) => TcParse(text[b..], env, l)
  }

  /** `VW::read_line`: drop every trailing '\n', then parse. */
  function StripNewlines(line: string): (r: string)
    ensures |r| <= |line| && r == line[..|r|]
    ensures r == [] || r[|r| - 1] != '\n'
    ensures forall k :: |r| <= k < |line| ==> line[k] == '\n'
  {
    if line != [] && line[|line| - 1] == '\n' then StripNewlines(line[..|line| - 1]) else line
  }

  function ReadLine(env: TextEnv, ex: Example, line: string): (r: Result<Example, ParseError>)
    ensures StripNewlines(line) == [] ==> r == Success(ex.(isNewline := true, labelInput := DefaultLabel))
    ensures r.Success? && IndicesMatch(ex) ==> IndicesMatch(r.value)
  {
    SubstringToExample(env, ex, StripNewlines(line))
  }

  /** `read_features`: the raw chunk up to the first '\n', its trimmed view,
      and the number of bytes consumed, which counts the BOM and the line
      terminator. */
  datatype RawLine = RawLine(consumed: nat, line: string, rest: string)

  function ReadFeatures(buf: string): (r: RawLine)
    ensures r.consumed + |r.rest| == |buf| && r.rest == buf[r.consumed..]
    ensures r.consumed == 0 <==> buf == []
    ensures r.line == TrimLine(buf[..r.consumed])
    ensures |r.line| <= r.consumed <= |r.line| + 5
  {
    var (chunk, rest) := ReadTo(buf);
    assert buf[..|chunk|] == chunk && buf[|chunk|..] == rest;
    RawLine(|chunk|, TrimLine(chunk), rest)
  }

  /** `read_features_string`: at end of input nothing is parsed and 0 is
      returned; otherwise the trimmed line fills the example and the raw
      byte count is returned. */
  function ReadFeaturesString(env: TextEnv, buf: string, ex: Example): (r: Result<(nat, Example, string), ParseError>)
    ensures buf == [] ==> r == Success((0, ex, []))
    ensures r.Success? && buf != [] ==>
              && r.value.0 > 0
              && r.value.0 + |r.value.2| == |buf|
              && r.value.1.isNewline == (ex.isNewline || ReadFeatures(buf).line == [])
    ensures r.Success? && IndicesMatch(ex) ==> IndicesMatch(r.value.1)
  {
    var raw := ReadFeatures(buf);
    if raw.consumed < 1 then Success((raw.consumed, ex, raw.rest))
    else
      var e :- SubstringToExample(env, ex, raw.line);
      Success((raw.consumed, e, raw.rest))
  }

  /** The example line `k` is read into: the caller's, or a fresh one. */
  function Prior(examples: seq<Example>, k: nat): Example
  {
    if k < |examples| then examples[k] else EmptyExample
  }

  /** `VW::read_lines`: one example per non-empty line; missing examples are
      fresh empty ones, surplus examples are left as they are. */
  method ReadLines(env: TextEnv, buf: string, examples: seq<Example>) returns (r: Result<seq<Example>, ParseError>)
    ensures r.Success? ==>
              var lines := Texts(buf, Tokenize(buf, '\n'));
              && |r.value| == (if |examples| < |lines| then |lines| else |examples|)
              && (forall i :: |lines| <= i < |examples| ==> r.value[i] == examples[i])
              && (forall i :: 0 <= i < |lines| ==> ReadLine(env, Prior(examples, i), lines[i]) == Success(r.value[i]))
    ensures r.Failure? ==>
              var lines := Texts(buf, Tokenize(buf, '\n'));
              exists i :: 0 <= i < |lines| && ReadLine(env, Prior(examples, i), lines[i]).Failure?
  {
    r := ReadEach((ex, line) => ReadLine(env, ex, line), Texts(buf, Tokenize(buf, '\n')), examples);
  }

  /** The loop of `VW::read_lines` over the lines already split out, with
      `read` reading one line into an example. */
  method ReadEach(read: (Example, string) -> Result<Example, ParseError>, lines: seq<string>, examples: seq<Example>)
    returns (r: Result<seq<Example>, ParseError>)
    ensures r.Success? ==>
              && |r.value| == (if |examples| < |lines| then |lines| else |examples|)
              && (forall i :: |lines| <= i < |examples| ==> r.value[i] == examples[i])
              && (forall i :: 0 <= i < |lines| ==> read(Prior(examples, i), lines[i]) == Success(r.value[i]))
    ensures r.Failure? ==>
              exists i :: 0 <= i < |lines| && read(Prior(examples, i), lines[i]).Failure?
  {
    var out := examples;
    var i := 0;
    while i < |lines|
      invariant 0 <= i <= |lines|
      invariant |out| == (if |examples| < i then i else |examples|)
      invariant forall k :: i <= k < |examples| ==> out[k] == examples[k]
      invariant forall k :: 0 <= k < i ==> read(Prior(examples, k), lines[k]) == Success(out[k])
    {
      // the source first appends a fresh example when `out` is too short
      var e := read(Prior(examples, i), lines[i]);
      if e.Failure? {
        return Failure(e.error);
      }
      out := if i < |out| then out[i := e.value] else out + [e.value];
      i := i + 1;
    }
    r := Success(out);
  }
}
