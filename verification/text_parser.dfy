/** The hand-written recursive-descent parser of the text format, applied to
    the part of a line that starts at the first '|' (class `TC_parser`):

      ListNameSpace -> ('|' NameSpace)*
      NameSpace     -> ListFeatures | NameSpaceInfo ListFeatures
      NameSpaceInfo -> String NameSpaceInfoValue
      ListFeatures  -> ((' ' | '\t') MaybeFeature)*
      MaybeFeature  -> empty | String FeatureValue

    Each production is a function from parser state to parser state. A
    `parserWarning` is a failure in strict mode and is otherwise ignored (the
    log message is not modelled). */
module TextParser {
  import opened Base
  import opened Features
  import opened DerivedFeatures

  /** `parseFloat(start, end_read, end)`: a value and the number of bytes it
      consumed (0 when no number could be read). */
  type FloatParser = f: string -> (FloatValue, nat) | forall s :: f(s).1 <= |s|
    witness (s: string) => (NaN, 0)

  /** What the parser reads from the workspace; the hash functions and the
      float parser are not part of this model and are given here. */
  datatype TextEnv = TextEnv(
    strict: bool,
    hasher: (string, bv64) -> bv64,
    hashString: (string, bv64) -> bv64,
    uniformHash: (string, bv64) -> bv64,
    parseFloat: FloatParser,
    hashSeed: bv64,
    parseMask: bv64,
    redefineSome: bool,
    redefine: char -> char,
    affixFeatures: char -> nat,
    spellingFeatures: char -> bool,
    affixNamespace: char,
    spellingNamespace: char,
    affixConstant: bv64,
    quadraticConstant: bv64)

  /** The conditions under which `parserWarning` is raised. */
  datatype ParseError =
    | MalformedFeatureValue
    | InvalidFeatureValue
    | FloatExpected
    | InvalidNamespaceValue
    | MalformedNamespaceValue
    | StringExpected
    | MalformedFeatureList
    | MalformedNamespace
    | MalformedLine

  /** The mutable fields of `TC_parser` plus the example being filled. */
  datatype TcState = TcState(
    idx: nat,
    curChannelV: real,
    newIndex: bool,
    anon: nat,
    channelHash: bv64,
    index: char,
    ex: Example)

  function Warn<T>(env: TextEnv, e: ParseError, v: T): (r: Result<T, ParseError>)
    ensures r.Success? <==> !env.strict
    ensures r.Success? ==> r.value == v
  {
    if env.strict then Failure(e) else Success(v)
  }

  /** End of line, space, tab, '|' or '\r' at position i. */
  predicate EndsField(line: string, i: nat)
  {
    i >= |line| || line[i] == ' ' || line[i] == '\t' || line[i] == '|' || line[i] == '\r'
  }

  predicate IsNameStop(c: char)
  {
    c == ' ' || c == ':' || c == '\t' || c == '|' || c == '\r'
  }

  predicate IsWs(c: char)
  {
    c == ' ' || c == '\t' || c == '\r' || c == '\n'
  }

  // ---------------------------------------------------------------- tokens

  /** `read_name`: the name is `line[i..NameEnd(line, i)]`, the maximal run
      without space, ':', tab, '|' or '\r'; the read index moves to its end. */
  function NameEnd(line: string, i: nat): (j: nat)
    requires i <= |line|
    ensures i <= j <= |line|
    ensures forall k :: i <= k < j ==> !IsNameStop(line[k])
    ensures j == |line| || IsNameStop(line[j])
    decreases |line| - i
  {
    if i == |line| || IsNameStop(line[i]) then i else NameEnd(line, i + 1)
  }

  /** After a name the parser always stands at a field end or at ':', so the
      "malformed" branch of `isFeatureValueFloat` is never taken from
      `maybeFeature`. */
  lemma NameEndIsValueStart(line: string, i: nat)
    requires i <= |line|
    ensures EndsField(line, NameEnd(line, i)) || line[NameEnd(line, i)] == ':'
  {
  }

  function FirstNonWs(line: string, i: nat): (k: nat)
    requires i <= |line|
    ensures i <= k <= |line|
    ensures forall m :: i <= m < k ==> IsWs(line[m])
    ensures k == |line| || !IsWs(line[k])
    decreases |line| - i
  {
    if i == |line| || !IsWs(line[i]) then i else FirstNonWs(line, i + 1)
  }

  function FirstWs(line: string, i: nat): (k: nat)
    requires i <= |line|
    ensures i <= k <= |line|
    ensures forall m :: i <= m < k ==> !IsWs(line[m])
    ensures k == |line| || IsWs(line[k])
    decreases |line| - i
  {
    if i == |line| || IsWs(line[i]) then i else FirstWs(line, i + 1)
  }

  /** `stringFeatureValue(line.substr(i))`: skip leading whitespace, return
      the token up to the next whitespace (a '|' does not end it) and the new
      read index, which has moved over the skipped bytes and the token. */
  function StringFeatureValue(line: string, i: nat): (r: (string, nat))
    requires i <= |line|
    ensures i <= r.1 <= |line| && |r.0| <= r.1 - i
    ensures r.0 == line[r.1 - |r.0| .. r.1]
    ensures forall m :: i <= m < r.1 - |r.0| ==> IsWs(line[m])
    ensures forall m :: 0 <= m < |r.0| ==> !IsWs(r.0[m])
    ensures r.1 == |line| || IsWs(line[r.1])
    ensures r.0 == [] <==> r.1 == i
  {
    var k := FirstNonWs(line, i);
    var start := if k < |line| then k else i;
    var end := FirstWs(line, start);
    (line[start..end], end)
  }

  /** Outcome of `isFeatureValueFloat`. */
  datatype ValueRead = FloatRead(v: real, next: nat) | NotFloat(next: nat)

  /** `isFeatureValueFloat` at read index i. */
  function IsFeatureValueFloat(line: string, env: TextEnv, i: nat): (r: Result<ValueRead, ParseError>)
    requires i <= |line|
    ensures r.Success? ==> i <= r.value.next <= |line|
    ensures EndsField(line, i) ==> r == Success(FloatRead(1.0, i))
    ensures !EndsField(line, i) && line[i] == ':' ==>
              var p := env.parseFloat(line[i + 1..]);
              && (p.1 == 0 <==> r == Success(NotFloat(i + 1)))
              && (p.1 > 0 && p.0.Num? ==> r == Success(FloatRead(p.0.x, i + 1 + p.1)))
              && (p.1 > 0 && p.0.NaN? ==> r == Warn(env, InvalidFeatureValue, FloatRead(0.0, i + 1 + p.1)))
  {
    if EndsField(line, i) then Success(FloatRead(1.0, i))
    else if line[i] == ':' then
      var p := env.parseFloat(line[i + 1..]);
      if p.1 == 0 then Success(NotFloat(i + 1))
      else match p.0
        case NaN => Warn(env, InvalidFeatureValue, FloatRead(0.0, i + 1 + p.1))
        case Num(x) => Success(FloatRead(x, i + 1 + p.1))
    else Warn(env, MalformedFeatureValue, FloatRead(0.0, i))
  }

  // -------------------------------------------------------------- features

  /** The lexical part of one feature: its name, its string value (empty
      unless the value after ':' is not a number), its value before hashing,
      and the read index after it. */
  datatype FeatureText = FeatureText(name: string, stringValue: string, value: real, next: nat)

  function ReadFeatureText(line: string, env: TextEnv, idx: nat, channelV: real): (r: Result<FeatureText, ParseError>)
    requires idx < |line| && !EndsField(line, idx)
    ensures r.Success? ==> idx < r.value.next <= |line|
    ensures r.Success? ==> r.value.name == line[idx .. NameEnd(line, idx)]
    // no ':' after the name: the value is the namespace value times 1
    ensures r.Success? && EndsField(line, NameEnd(line, idx)) ==>
              r.value.value == channelV && r.value.stringValue == [] &&
              r.value.next == NameEnd(line, idx)
    // a string value gives value 1
    ensures r.Success? && r.value.stringValue != [] ==> r.value.value == 1.0
  {
    var nameEnd := NameEnd(line, idx);
    var name := line[idx..nameEnd];
    var read :- IsFeatureValueFloat(line, env, nameEnd);
    match read
    case NotFloat(j) =>
      var sv := StringFeatureValue(line, j);
      Success(FeatureText(name, sv.0, 1.0, sv.1))
    case FloatRead(v, j) =>
      Success(FeatureText(name, [], channelV * v, j))
  }

  /** The hash of a feature and the anonymous counter after it: the chain
      hash of value and name for a string value, the name's hash for a named
      float feature, and `channel_hash + anon` (counter then advanced) for an
      anonymous one. */
  function FeatureHash(env: TextEnv, channelHash: bv64, name: string, stringValue: string, anon: nat): (r: (bv64, nat))
    ensures stringValue != [] ==>
              r == (env.hasher(stringValue, env.hasher(name, channelHash)) & env.parseMask, anon)
    ensures stringValue == [] && name != [] ==> r == (env.hasher(name, channelHash) & env.parseMask, anon)
    ensures stringValue == [] && name == [] ==> r == (AnonHash(channelHash, anon), anon + 1)
  {
    if stringValue != [] then (env.hasher(stringValue, env.hasher(name, channelHash)) & env.parseMask, anon)
    else if name != [] then (env.hasher(name, channelHash) & env.parseMask, anon)
    else (AnonHash(channelHash, anon), anon + 1)
  }

  /** Everything `maybeFeature` reads for one feature. */
  datatype FeatureToken = FeatureToken(
    name: string,
    stringValue: string,
    value: real,
    hash: bv64,
    next: nat,
    anon: nat)

  /** One feature read at `idx`, in a namespace with scale `channelV` and
      hash `channelHash`, with the anonymous counter at `anon`. */
  function ReadFeatureToken(line: string, env: TextEnv, idx: nat, channelV: real, channelHash: bv64, anon: nat): (r: Result<FeatureToken, ParseError>)
    requires idx < |line| && !EndsField(line, idx)
    ensures r.Success? ==> idx < r.value.next <= |line|
    ensures r.Success? ==>
              var h := FeatureHash(env, channelHash, r.value.name, r.value.stringValue, anon);
              r.value.hash == h.0 && r.value.anon == h.1
  {
    var t :- ReadFeatureText(line, env, idx, channelV);
    var h := FeatureHash(env, channelHash, t.name, t.stringValue, anon);
    Success(FeatureToken(t.name, t.stringValue, t.value, h.0, t.next, h.1))
  }

  /** The hash of one affix feature: the hash of the affix text times
      `affix_constant + code * quadratic_constant`, in `uint64_t`. */
  function AffixHash(env: TextEnv, channelHash: bv64, a: Affix): bv64
  {
    env.hasher(a.text, channelHash) * (env.affixConstant + ToU64(a.code) * env.quadraticConstant)
  }

  /** The affix features of a name, in decoding order. */
  function AffixFeatures(env: TextEnv, channelHash: bv64, v: real, affs: seq<Affix>): (fs: seq<Feature>)
    ensures |fs| == |affs|
  {
    seq(|affs|, k requires 0 <= k < |affs| => Feature(Num(v), AffixHash(env, channelHash, affs[k])))
  }

  /** Iteration `k` of the affix loop pushes the hash of the affix text
      times `affix_constant + (affix & 0xF) * quadratic_constant`, where
      `affix` has been shifted right by four bits `k` times; bit 0 of that
      nibble picks prefix or suffix and bits 1-3 the length. */
  lemma AffixFeatureHashes(env: TextEnv, channelHash: bv64, v: real, word: nat, name: string, k: nat)
    requires k < |Affixes(word, name)|
    ensures var c := Shifted(word, k) % 16;
            AffixFeatures(env, channelHash, v, Affixes(word, name))[k] ==
              Feature(Num(v), AffixHash(env, channelHash, Affix(c % 2 == 1, c / 2, c, AffixText(name, c % 2 == 1, c / 2))))
  {
    AffixAt(word, name, k);
  }

  /** Push a run of derived features into namespace `ns`, recording `ns` in
      `indices` when it was still empty. */
  function PushDerived(e: Example, ns: char, fs: seq<Feature>): (r: Example)
    requires |fs| > 0
    ensures FeaturesOf(r, ns) == FeaturesOf(e, ns) + fs
    ensures forall o :: o != ns ==> FeaturesOf(r, o) == FeaturesOf(e, o)
    ensures r.indices == if |FeaturesOf(e, ns)| == 0 then e.indices + [ns] else e.indices
    ensures r.tag == e.tag && r.isNewline == e.isNewline && r.labelInput == e.labelInput
  {
    var e1 := if |FeaturesOf(e, ns)| == 0 then AddIndex(e, ns) else e;
    PushAll(e1, ns, fs)
  }

  /** Inside a namespace, `indices` agrees with the feature lists for every
      other namespace; the current one is listed exactly when `newIndex` is
      off, and then it holds features. */
  predicate InNamespace(e: Example, index: char, newIndex: bool)
  {
    && (forall ns :: ns != index ==> (ns in e.indices <==> |FeaturesOf(e, ns)| > 0))
    && (index in e.indices <==> !newIndex)
    && (!newIndex ==> |FeaturesOf(e, index)| > 0)
  }

  /** Only the feature lists and `indices` change while features are read. */
  predicate SameExtras(a: Example, b: Example)
  {
    a.tag == b.tag && a.isNewline == b.isNewline && a.labelInput == b.labelInput
  }

  /** A derived push keeps the namespace invariant: the target namespace is
      listed exactly when it holds features, and the current namespace, which
      already holds features, is not newly listed. */
  lemma PushDerivedInNamespace(e: Example, ns: char, fs: seq<Feature>, index: char, newIndex: bool)
    requires |fs| > 0 && |FeaturesOf(e, index)| > 0
    requires InNamespace(e, index, newIndex)
    ensures InNamespace(PushDerived(e, ns, fs), index, newIndex)
    ensures FeaturesOf(PushDerived(e, ns, fs), index)[..|FeaturesOf(e, index)|] == FeaturesOf(e, index)
  {
    var r := PushDerived(e, ns, fs);
    forall o | o != index
      ensures o in r.indices <==> |FeaturesOf(r, o)| > 0
    {
      if o != ns {
        assert o in r.indices <==> o in e.indices;
      }
    }
    assert index in r.indices <==> index in e.indices;
  }

  /** Pushing into the current namespace keeps the namespace invariant. */
  lemma PushCurrentInNamespace(e: Example, index: char, fs: seq<Feature>, newIndex: bool)
    ensures InNamespace(e, index, newIndex) ==> InNamespace(PushAll(e, index, fs), index, newIndex)
  {
    var r := PushAll(e, index, fs);
    forall o | o != index
      ensures o in r.indices <==> o in e.indices
      ensures |FeaturesOf(r, o)| == |FeaturesOf(e, o)|
    {
    }
  }

  /** The namespace features are pushed into while `listFeatures` runs:
      its index, whether it was empty when entered, and its hash. */
  datatype Ns = Ns(index: char, newIndex: bool, channelHash: bv64)

  function NsOf(st: TcState): Ns
  {
    Ns(st.index, st.newIndex, st.channelHash)
  }

  /** The affix step of `maybeFeature`: for a named feature in a namespace
      with a non-zero affix word, one feature per decoded affix code. */
  function EmitAffixes(env: TextEnv, ns: Ns, e: Example, name: string, v: real): (r: Example)
    requires |FeaturesOf(e, ns.index)| > 0
    ensures InNamespace(e, ns.index, ns.newIndex) ==> InNamespace(r, ns.index, ns.newIndex)
    ensures |FeaturesOf(e, ns.index)| <= |FeaturesOf(r, ns.index)|
    ensures FeaturesOf(r, ns.index)[..|FeaturesOf(e, ns.index)|] == FeaturesOf(e, ns.index)
    ensures SameExtras(r, e)
  {
    var word := env.affixFeatures(ns.index);
    if word > 0 && name != [] then
      var fs := AffixFeatures(env, ns.channelHash, v, Affixes(word, name));
      if InNamespace(e, ns.index, ns.newIndex) then
        PushDerivedInNamespace(e, env.affixNamespace, fs, ns.index, ns.newIndex);
        PushDerived(e, env.affixNamespace, fs)
      else
        PushDerived(e, env.affixNamespace, fs)
    else e
  }

  /** The spelling step of `maybeFeature`: one feature hashing the name's
      spelling, in the spelling namespace. */
  function EmitSpelling(env: TextEnv, ns: Ns, e: Example, name: string, v: real): (r: Example)
    requires |FeaturesOf(e, ns.index)| > 0
    ensures InNamespace(e, ns.index, ns.newIndex) ==> InNamespace(r, ns.index, ns.newIndex)
    ensures |FeaturesOf(e, ns.index)| <= |FeaturesOf(r, ns.index)|
    ensures FeaturesOf(r, ns.index)[..|FeaturesOf(e, ns.index)|] == FeaturesOf(e, ns.index)
    ensures env.spellingFeatures(ns.index) ==>
              var sp := FeaturesOf(r, env.spellingNamespace);
              |sp| > 0 && sp[|sp| - 1] == Feature(Num(v), env.hashString(Spelling(name), ns.channelHash))
    ensures SameExtras(r, e)
  {
    if env.spellingFeatures(ns.index) then
      var fs := [Feature(Num(v), env.hashString(Spelling(name), ns.channelHash))];
      PushDerivedPrefix(e, env.spellingNamespace, fs, ns.index);
      if InNamespace(e, ns.index, ns.newIndex) then
        PushDerivedInNamespace(e, env.spellingNamespace, fs, ns.index, ns.newIndex);
        PushDerived(e, env.spellingNamespace, fs)
      else
        PushDerived(e, env.spellingNamespace, fs)
    else e
  }

  /** A derived push only appends: every namespace's list keeps its old
      features in front, and the target's last feature is the last pushed. */
  lemma PushDerivedPrefix(e: Example, ns: char, fs: seq<Feature>, index: char)
    requires |fs| > 0
    ensures var r := PushDerived(e, ns, fs);
            && |FeaturesOf(e, index)| <= |FeaturesOf(r, index)|
            && FeaturesOf(r, index)[..|FeaturesOf(e, index)|] == FeaturesOf(e, index)
            && |FeaturesOf(r, ns)| > 0 && FeaturesOf(r, ns)[|FeaturesOf(r, ns)| - 1] == fs[|fs| - 1]
  {
    var r := PushDerived(e, ns, fs);
    if index == ns {
      assert FeaturesOf(r, index)[..|FeaturesOf(e, index)|] == FeaturesOf(e, index);
    }
  }

  /** The pushes of `maybeFeature` once a token is read: nothing for a zero
      value; otherwise the feature itself, then its affixes, then its
      spelling (dictionary lookups are not modelled). */
  function EmitFeature(env: TextEnv, ns: Ns, e: Example, tok: FeatureToken): (r: Example)
    ensures tok.value == 0.0 ==> r == e
    ensures tok.value != 0.0 ==>
              var old_ := FeaturesOf(e, ns.index);
              |old_| < |FeaturesOf(r, ns.index)| &&
              FeaturesOf(r, ns.index)[..|old_| + 1] == old_ + [Feature(Num(tok.value), tok.hash)]
    ensures tok.value != 0.0 && env.spellingFeatures(ns.index) ==>
              var sp := FeaturesOf(r, env.spellingNamespace);
              |sp| > 0 && sp[|sp| - 1] ==
                Feature(Num(tok.value), env.hashString(Spelling(tok.name), ns.channelHash))
    ensures InNamespace(e, ns.index, ns.newIndex) ==> InNamespace(r, ns.index, ns.newIndex)
    ensures SameExtras(r, e)
  {
    if tok.value == 0.0 then e
    else
      var f := Feature(Num(tok.value), tok.hash);
      var e1 := PushAll(e, ns.index, [f]);
      PushCurrentInNamespace(e, ns.index, [f], ns.newIndex);
      var e2 := EmitAffixes(env, ns, e1, tok.name, tok.value);
      var e3 := EmitSpelling(env, ns, e2, tok.name, tok.value);
      var n := |FeaturesOf(e, ns.index)|;
      assert FeaturesOf(e2, ns.index)[..n + 1] == FeaturesOf(e1, ns.index);
      assert FeaturesOf(e3, ns.index)[..n + 1] == FeaturesOf(e1, ns.index);
      e3
  }

  /** `maybeFeature`. */
  function MaybeFeature(line: string, env: TextEnv, st: TcState): (r: Result<TcState, ParseError>)
    requires st.idx <= |line|
    ensures EndsField(line, st.idx) ==> r == Success(st)
    ensures r.Success? ==> st.idx <= r.value.idx <= |line|
    ensures r.Success? ==> r.value == st.(idx := r.value.idx, anon := r.value.anon, ex := r.value.ex)
    ensures r.Success? ==> SameExtras(r.value.ex, st.ex)
    ensures r.Success? && InNamespace(st.ex, st.index, st.newIndex) ==>
              InNamespace(r.value.ex, st.index, st.newIndex)
    // at a feature: one token is read, then pushed
    ensures !EndsField(line, st.idx) ==>
              var tok := ReadFeatureToken(line, env, st.idx, st.curChannelV, st.channelHash, st.anon);
              && (r.Failure? <==> tok.Failure?)
              && (tok.Success? ==>
                    r.value == st.(idx := tok.value.next, anon := tok.value.anon, ex := EmitFeature(env, NsOf(st), st.ex, tok.value)))
  {
    if EndsField(line, st.idx) then Success(st)
    else
      var tok :- ReadFeatureToken(line, env, st.idx, st.curChannelV, st.channelHash, st.anon);
      Success(st.(idx := tok.next, anon := tok.anon, ex := EmitFeature(env, NsOf(st), st.ex, tok)))
  }

  /** `listFeatures`. It agrees with the reference loop `FeatureTokens`:
      it succeeds exactly when the tokens can be read, leaves the
      anonymous counter advanced past them, and leaves the example their
      pushes give. */
  function ListFeatures(line: string, env: TextEnv, st: TcState): (r: Result<TcState, ParseError>)
    requires st.idx <= |line|
    ensures r.Success? ==> st.idx <= r.value.idx <= |line|
    ensures r.Success? ==> r.value == st.(idx := r.value.idx, anon := r.value.anon, ex := r.value.ex)
    ensures r.Success? ==> SameExtras(r.value.ex, st.ex)
    ensures r.Success? && env.strict ==>
              r.value.idx == |line| || line[r.value.idx] == '|' || line[r.value.idx] == '\r'
    ensures r.Success? && InNamespace(st.ex, st.index, st.newIndex) ==>
              InNamespace(r.value.ex, st.index, st.newIndex)
    ensures AgreesWith(env, st, TokensFrom(line, env, st), r)
    decreases |line| - st.idx
  {
    if st.idx < |line| && (line[st.idx] == ' ' || line[st.idx] == '\t') then
      TokensFailure(line, env, st.idx, st.curChannelV, st.channelHash, st.anon);
      var st1 :- MaybeFeature(line, env, st.(idx := st.idx + 1));
      var r := ListFeatures(line, env, st1);
      StepAgrees(line, env, st, st1, r);
      r
    else if !(st.idx >= |line| || line[st.idx] == '|' || line[st.idx] == '\r') then
      Warn(env, MalformedFeatureList, st)
    else Success(st)
  }

  // ---------------------------------------------------- anonymous features

  /** A feature read with neither a name nor a string value. */
  predicate Anonymous(t: FeatureToken)
  {
    t.name == [] && t.stringValue == []
  }

  /** The anonymous counter after token `t`: one more after an anonymous
      token, unchanged after any other. */
  function CounterStep(t: FeatureToken, anon: nat): nat
  {
    if Anonymous(t) then anon + 1 else anon
  }

  /** The anonymous counter when token `m` of `ts` is read, starting from
      `anon`: `anon` plus the number of anonymous tokens before it (as a
      `size_t`, so it wraps). */
  function CounterAt(ts: seq<FeatureToken>, m: nat, anon: nat): nat
    requires m <= |ts|
  {
    if m == 0 then anon else CounterStep(ts[m - 1], CounterAt(ts, m - 1, anon))
  }

  /** Reference for the loop of `listFeatures`: the tokens it reads from
      `idx` on, in order, without the pushes. */
  function FeatureTokens(line: string, env: TextEnv, idx: nat, channelV: real, channelHash: bv64, anon: nat): (r: Result<seq<FeatureToken>, ParseError>)
    requires idx <= |line|
    decreases |line| - idx
  {
    if idx < |line| && (line[idx] == ' ' || line[idx] == '\t') then
      if EndsField(line, idx + 1) then FeatureTokens(line, env, idx + 1, channelV, channelHash, anon)
      else
        var tok :- ReadFeatureToken(line, env, idx + 1, channelV, channelHash, anon);
        var rest :- FeatureTokens(line, env, tok.next, channelV, channelHash, tok.anon);
        Success([tok] + rest)
    else if !(idx >= |line| || line[idx] == '|' || line[idx] == '\r') then
      Warn(env, MalformedFeatureList, [])
    else Success([])
  }

  /** The tokens `listFeatures` reads from state `st`. */
  function TokensFrom(line: string, env: TextEnv, st: TcState): Result<seq<FeatureToken>, ParseError>
    requires st.idx <= |line|
  {
    FeatureTokens(line, env, st.idx, st.curChannelV, st.channelHash, st.anon)
  }

  /** The example `e` after the pushes for `ts`, in order, into namespace
      `ns`. */
  function EmitTokens(env: TextEnv, ns: Ns, e: Example, ts: seq<FeatureToken>): Example
    decreases |ts|
  {
    if ts == [] then e else EmitTokens(env, ns, EmitFeature(env, ns, e, ts[0]), ts[1..])
  }

  /** Every anonymous token of `ts` hashes to the channel hash plus the
      counter it is read with. */
  predicate AnonNumbered(ts: seq<FeatureToken>, channelHash: bv64, anon: nat)
  {
    forall m :: 0 <= m < |ts| && Anonymous(ts[m]) ==> ts[m].hash == AnonHash(channelHash, CounterAt(ts, m, anon))
  }

  /** With one more token in front, the counters of the others start one
      step later. */
  lemma {:induction false} CounterCons(t: FeatureToken, rest: seq<FeatureToken>, anon: nat, m: nat)
    requires 0 < m <= |rest| + 1
    ensures CounterAt([t] + rest, m, anon) == CounterAt(rest, m - 1, CounterStep(t, anon))
  {
    if m > 1 {
      CounterCons(t, rest, anon, m - 1);
      assert ([t] + rest)[m - 1] == rest[m - 2];
    }
  }

  lemma AnonNumberedCons(t: FeatureToken, rest: seq<FeatureToken>, channelHash: bv64, anon: nat)
    requires Anonymous(t) ==> t.hash == AnonHash(channelHash, anon)
    requires AnonNumbered(rest, channelHash, CounterStep(t, anon))
    ensures AnonNumbered([t] + rest, channelHash, anon)
  {
    var ts := [t] + rest;
    forall m | 0 <= m < |ts| && Anonymous(ts[m])
      ensures ts[m].hash == AnonHash(channelHash, CounterAt(ts, m, anon))
    {
      if m > 0 {
        CounterCons(t, rest, anon, m);
        assert ts[m] == rest[m - 1];
      }
    }
  }

  /** The anonymous tokens hash to `channel_hash + anon`, `+ anon + 1`, ...
      in the order they are read; named and string-valued tokens in between
      leave the counter alone. */
  lemma {:induction false} TokensAnonymous(line: string, env: TextEnv, idx: nat, channelV: real, channelHash: bv64, anon: nat)
    requires idx <= |line|
    ensures var r := FeatureTokens(line, env, idx, channelV, channelHash, anon);
            r.Success? ==> AnonNumbered(r.value, channelHash, anon)
    decreases |line| - idx
  {
    if idx < |line| && (line[idx] == ' ' || line[idx] == '\t') {
      if EndsField(line, idx + 1) {
        TokensAnonymous(line, env, idx + 1, channelV, channelHash, anon);
      } else {
        var tok := ReadFeatureToken(line, env, idx + 1, channelV, channelHash, anon);
        if tok.Success? {
          var t := tok.value;
          TokensAnonymous(line, env, t.next, channelV, channelHash, t.anon);
          var rest := FeatureTokens(line, env, t.next, channelV, channelHash, t.anon);
          if rest.Success? {
            assert t.anon == CounterStep(t, anon);
            AnonNumberedCons(t, rest.value, channelHash, anon);
          }
        }
      }
    }
  }

  lemma EmitTokensCons(env: TextEnv, ns: Ns, e: Example, t: FeatureToken, rest: seq<FeatureToken>)
    ensures EmitTokens(env, ns, e, [t] + rest) == EmitTokens(env, ns, EmitFeature(env, ns, e, t), rest)
  {
    assert ([t] + rest)[1..] == rest;
  }

  /** `r` is what `listFeatures` from `st` gives when it reads the tokens
      `ts`: success exactly when the tokens can be read, the counter advanced
      past them, and the example their pushes give. */
  predicate AgreesWith(env: TextEnv, st: TcState, ts: Result<seq<FeatureToken>, ParseError>, r: Result<TcState, ParseError>)
  {
    && (r.Success? <==> ts.Success?)
    && (r.Success? ==> r.value.anon == CounterAt(ts.value, |ts.value|, st.anon)
                       && r.value.ex == EmitTokens(env, NsOf(st), st.ex, ts.value))
  }

  /** A blank at the end of a field is skipped by the reference loop. */
  lemma TokensBlank(line: string, env: TextEnv, idx: nat, channelV: real, channelHash: bv64, anon: nat)
    requires idx < |line| && (line[idx] == ' ' || line[idx] == '\t') && EndsField(line, idx + 1)
    ensures FeatureTokens(line, env, idx, channelV, channelHash, anon) == FeatureTokens(line, env, idx + 1, channelV, channelHash, anon)
  {
  }

  /** A blank then a feature: the reference loop reads that feature first,
      then the tokens after it. */
  lemma TokensCons(line: string, env: TextEnv, idx: nat, channelV: real, channelHash: bv64, anon: nat, tok: Result<FeatureToken, ParseError>)
    requires idx + 1 < |line| && (line[idx] == ' ' || line[idx] == '\t') && !EndsField(line, idx + 1)
    requires tok == ReadFeatureToken(line, env, idx + 1, channelV, channelHash, anon)
    ensures tok.Failure? ==> FeatureTokens(line, env, idx, channelV, channelHash, anon).Failure?
    ensures tok.Success? ==>
              FeatureTokens(line, env, idx, channelV, channelHash, anon) ==
                (var rest :- FeatureTokens(line, env, tok.value.next, channelV, channelHash, tok.value.anon); Success([tok.value] + rest))
  {
  }

  /** A feature that cannot be read fails the reference loop. */
  lemma TokensFailure(line: string, env: TextEnv, idx: nat, channelV: real, channelHash: bv64, anon: nat)
    requires idx < |line| && (line[idx] == ' ' || line[idx] == '\t')
    ensures !EndsField(line, idx + 1) && ReadFeatureToken(line, env, idx + 1, channelV, channelHash, anon).Failure? ==>
              FeatureTokens(line, env, idx, channelV, channelHash, anon).Failure?
  {
  }

  /** The agreement after token `t`, whose pushes leave `e1`, gives the
      agreement before it. */
  lemma TokenAgrees(env: TextEnv, st: TcState, t: FeatureToken, e1: Example, rest: Result<seq<FeatureToken>, ParseError>, r: Result<TcState, ParseError>)
    requires t.anon == CounterStep(t, st.anon)
    requires e1 == EmitFeature(env, NsOf(st), st.ex, t)
    requires AgreesWith(env, st.(idx := t.next, anon := t.anon, ex := e1), rest, r)
    ensures AgreesWith(env, st, (var rs :- rest; Success([t] + rs)), r)
  {
    if rest.Success? {
      CounterCons(t, rest.value, st.anon, |rest.value| + 1);
      EmitTokensCons(env, NsOf(st), st.ex, t, rest.value);
    }
  }

  /** A round of the `listFeatures` loop that reads a feature keeps the
      agreement. */
  lemma TokenStepAgrees(line: string, env: TextEnv, st: TcState, st1: TcState, tok: Result<FeatureToken, ParseError>, r: Result<TcState, ParseError>)
    requires st.idx + 1 < |line| && (line[st.idx] == ' ' || line[st.idx] == '\t') && !EndsField(line, st.idx + 1)
    requires tok == ReadFeatureToken(line, env, st.idx + 1, st.curChannelV, st.channelHash, st.anon)
    requires tok.Success? && st1 == st.(idx := tok.value.next, anon := tok.value.anon, ex := EmitFeature(env, NsOf(st), st.ex, tok.value))
    requires AgreesWith(env, st1, TokensFrom(line, env, st1), r)
    ensures AgreesWith(env, st, TokensFrom(line, env, st), r)
  {
    TokensCons(line, env, st.idx, st.curChannelV, st.channelHash, st.anon, tok);
    TokenAgrees(env, st, tok.value, st1.ex, TokensFrom(line, env, st1), r);
  }

  /** One round of the `listFeatures` loop keeps the agreement: whatever
      agrees with the reference loop after the round agrees with it before. */
  lemma StepAgrees(line: string, env: TextEnv, st: TcState, st1: TcState, r: Result<TcState, ParseError>)
    requires st.idx < |line| && (line[st.idx] == ' ' || line[st.idx] == '\t')
    requires MaybeFeature(line, env, st.(idx := st.idx + 1)) == Success(st1)
    requires st1.idx <= |line| && AgreesWith(env, st1, TokensFrom(line, env, st1), r)
    ensures AgreesWith(env, st, TokensFrom(line, env, st), r)
  {
    if EndsField(line, st.idx + 1) {
      TokensBlank(line, env, st.idx, st.curChannelV, st.channelHash, st.anon);
    } else {
      var tok := ReadFeatureToken(line, env, st.idx + 1, st.curChannelV, st.channelHash, st.anon);
      TokenStepAgrees(line, env, st, st1, tok, r);
    }
  }

  // ------------------------------------------------------------ namespaces

  /** `nameSpaceInfoValue`: an optional ':' and float scaling every feature
      of the namespace. A NaN scale becomes 1; a number that runs to the end
      of the line is reported as "Float expected" (as the source does). */
  function NameSpaceInfoValue(line: string, env: TextEnv, st: TcState): (r: Result<TcState, ParseError>)
    requires st.idx <= |line|
    ensures EndsField(line, st.idx) ==> r == Success(st)
    ensures r.Success? ==> st.idx <= r.value.idx <= |line|
    ensures r.Success? ==> r.value == st.(idx := r.value.idx, curChannelV := r.value.curChannelV)
    ensures !EndsField(line, st.idx) && line[st.idx] == ':' && r.Success? ==>
              var p := env.parseFloat(line[st.idx + 1..]);
              r.value.curChannelV == (if p.0.Num? then p.0.x else 1.0)
  {
    if EndsField(line, st.idx) then Success(st)
    else if line[st.idx] == ':' then
      var j := st.idx + 1;
      var p := env.parseFloat(line[j..]);
      var _ :- if p.1 + j >= |line| then Warn(env, FloatExpected, ()) else Success(());
      var _ :- if p.0.NaN? then Warn(env, InvalidNamespaceValue, ()) else Success(());
      Success(st.(curChannelV := if p.0.Num? then p.0.x else 1.0, idx := j + p.1))
    else Warn(env, MalformedNamespaceValue, st)
  }

  /** `nameSpaceInfo`: the namespace's first byte (possibly redefined) is its
      index, and the hash of the whole name seeds the feature hashes. */
  function NameSpaceInfo(line: string, env: TextEnv, st: TcState): (r: Result<TcState, ParseError>)
    requires st.idx <= |line|
    ensures r.Success? ==> st.idx <= r.value.idx <= |line|
    ensures r.Success? ==> r.value.ex == st.ex && r.value.anon == st.anon
    ensures r.Success? && !EndsField(line, st.idx) && line[st.idx] != ':' ==>
              && r.value.index == (if env.redefineSome then env.redefine(line[st.idx]) else line[st.idx])
              && r.value.channelHash == env.hasher(line[st.idx .. NameEnd(line, st.idx)], env.hashSeed)
              && r.value.newIndex == (st.newIndex || |FeaturesOf(st.ex, r.value.index)| == 0)
  {
    if st.idx >= |line| || line[st.idx] == '|' || line[st.idx] == ' ' || line[st.idx] == '\t' ||
       line[st.idx] == ':' || line[st.idx] == '\r' then
      Warn(env, StringExpected, st)
    else
      var index := if env.redefineSome then env.redefine(line[st.idx]) else line[st.idx];
      var newIndex := if |FeaturesOf(st.ex, index)| == 0 then true else st.newIndex;
      var nameEnd := NameEnd(line, st.idx);
      var ch := env.hasher(line[st.idx..nameEnd], env.hashSeed);
      NameSpaceInfoValue(line, env,
        st.(index := index, newIndex := newIndex, idx := nameEnd, channelHash := ch))
  }

  /** The namespace header of `nameSpace`: the state `listFeatures` starts
      from, or `None` after the syntax warning for a ':' where the name
      should be, when no features are read. */
  function NameSpaceStart(line: string, env: TextEnv, st: TcState): (r: Result<Option<TcState>, ParseError>)
    requires st.idx <= |line|
    ensures r.Success? && r.value.Some? ==>
              var h := r.value.value;
              && st.idx <= h.idx <= |line| && h.ex == st.ex && h.anon == st.anon
              && h.newIndex == (st.newIndex || |FeaturesOf(st.ex, h.index)| == 0)
    ensures r.Success? && r.value.Some? && EndsField(line, st.idx) ==>
              r.value.value.index == ' ' && r.value.value.channelHash == SpaceChannelHash(env.uniformHash, env.hashSeed)
    ensures r.Success? && r.value.None? ==> !EndsField(line, st.idx) && line[st.idx] == ':'
  {
    if EndsField(line, st.idx) then
      Success(Some(st.(index := ' ', newIndex := st.newIndex || |FeaturesOf(st.ex, ' ')| == 0,
                       channelHash := SpaceChannelHash(env.uniformHash, env.hashSeed))))
    else if line[st.idx] != ':' then
      var h :- NameSpaceInfo(line, env, st);
      Success(Some(h))
    else Warn(env, MalformedNamespace, None)
  }

  /** The namespace header and its feature list, before the index is
      recorded. The header leaves `newIndex` set exactly when the namespace
      had no features yet. */
  function NameSpaceBody(line: string, env: TextEnv, st: TcState): (r: Result<TcState, ParseError>)
    requires st.idx <= |line|
    requires !st.newIndex
    ensures r.Success? ==> st.idx <= r.value.idx <= |line|
    ensures r.Success? && IndicesMatch(st.ex) ==>
              || InNamespace(r.value.ex, r.value.index, r.value.newIndex)
              || (r.value.ex == st.ex && !r.value.newIndex)
    ensures r.Success? ==> SameExtras(r.value.ex, st.ex)
    ensures r.Success? && EndsField(line, st.idx) ==>
              r.value.index == ' ' && r.value.channelHash == SpaceChannelHash(env.uniformHash, env.hashSeed)
  {
    var start :- NameSpaceStart(line, env, st);
    match start
    case None => Success(st)
    case Some(h) => ListFeatures(line, env, h)
  }

  /** The per-namespace fields `nameSpace` resets first: scale 1, index 0,
      not new, anonymous counter 0. */
  function ResetNamespace(st: TcState): TcState
  {
    st.(curChannelV := 1.0, index := '\0', newIndex := false, anon := 0)
  }

  /** `nameSpace`: resets the per-namespace fields (scale 1, anonymous
      counter 0), reads the namespace header and its features, and records
      the index in `indices` when the namespace went from empty to
      non-empty. */
  function NameSpace(line: string, env: TextEnv, st: TcState): (r: Result<TcState, ParseError>)
    requires st.idx <= |line|
    ensures r.Success? ==> st.idx <= r.value.idx <= |line|
    ensures r.Success? && IndicesMatch(st.ex) ==> IndicesMatch(r.value.ex)
    ensures r.Success? ==> SameExtras(r.value.ex, st.ex)
    ensures r.Success? && EndsField(line, st.idx) ==>
              r.value.index == ' ' && r.value.channelHash == SpaceChannelHash(env.uniformHash, env.hashSeed)
  {
    var body :- NameSpaceBody(line, env, ResetNamespace(st));
    if body.newIndex && |FeaturesOf(body.ex, body.index)| > 0 then
      Success(body.(ex := AddIndex(body.ex, body.index)))
    else Success(body)
  }

  /** Every namespace numbers its anonymous features from 0: after the
      header the counter is 0, the namespace succeeds exactly when its
      tokens can be read, the `k`-th anonymous token hashes to
      `channel_hash + k`, and the feature lists are those the tokens' pushes
      give. */
  lemma NameSpaceAnonymous(line: string, env: TextEnv, st: TcState)
    requires st.idx <= |line|
    ensures var start := NameSpaceStart(line, env, ResetNamespace(st));
            start.Success? && start.value.Some? ==>
              var h := start.value.value;
              var ts := TokensFrom(line, env, h);
              var r := NameSpace(line, env, st);
              && h.anon == 0
              && (r.Success? <==> ts.Success?)
              && (ts.Success? ==>
                    && r.value.anon == CounterAt(ts.value, |ts.value|, 0)
                    && (forall o :: FeaturesOf(r.value.ex, o) == FeaturesOf(EmitTokens(env, NsOf(h), h.ex, ts.value), o))
                    && AnonNumbered(ts.value, h.channelHash, 0))
  {
    var start := NameSpaceStart(line, env, ResetNamespace(st));
    if start.Success? && start.value.Some? {
      var h := start.value.value;
      TokensAnonymous(line, env, h.idx, h.curChannelV, h.channelHash, h.anon);
    }
  }

  /** `listNameSpace`. */
  function ListNameSpace(line: string, env: TextEnv, st: TcState): (r: Result<TcState, ParseError>)
    requires st.idx <= |line|
    ensures r.Success? ==> st.idx <= r.value.idx <= |line|
    ensures r.Success? && IndicesMatch(st.ex) ==> IndicesMatch(r.value.ex)
    ensures r.Success? ==> SameExtras(r.value.ex, st.ex)
    ensures r.Success? && env.strict ==> r.value.idx == |line| || line[r.value.idx] == '\r'
    decreases |line| - st.idx
  {
    if st.idx < |line| && line[st.idx] == '|' then
      var st1 :- NameSpace(line, env, st.(idx := st.idx + 1));
      ListNameSpace(line, env, st1)
    else if st.idx < |line| && line[st.idx] != '\r' then Warn(env, MalformedLine, st)
    else Success(st)
  }

  /** The `TC_parser` constructor: an empty line marks a newline example,
      anything else is parsed from its first byte. */
  function TcParse(line: string, env: TextEnv, ex: Example): (r: Result<Example, ParseError>)
    ensures line == [] ==> r == Success(ex.(isNewline := true))
    ensures r.Success? && IndicesMatch(ex) ==> IndicesMatch(r.value)
    ensures r.Success? && line != [] ==>
              r.value.tag == ex.tag && r.value.labelInput == ex.labelInput && r.value.isNewline == ex.isNewline
  {
    if line == [] then Success(ex.(isNewline := true))
    else
      var st :- ListNameSpace(line, env, TcState(0, 1.0, false, 0, 0, '\0', ex));
      Success(st.ex)
  }
}
