/** The part of an example that the two line parsers fill in: one feature
    list per namespace index, the list of namespace indices in the order they
    were first populated, the tag, the newline flag, and what was handed to
    the label parser. */
module Features {
  import opened Base

  /** One entry of a namespace's `features`: value and hashed index. */
  datatype Feature = Feature(value: FloatValue, hash: bv64)

  /** The label as far as this model follows it: either the label parser's
      default, or the words that were given to `lbl_parser.parse_label`. */
  datatype Label = DefaultLabel | ParsedFrom(words: seq<string>)

  datatype Example = Example(
    space: map<char, seq<Feature>>,
    indices: seq<char>,
    tag: string,
    isNewline: bool,
    labelInput: Label)

  const EmptyExample: Example := Example(map[], [], [], false, DefaultLabel)

  /** `feature_space[ns]`: empty until something is pushed. */
  function FeaturesOf(e: Example, ns: char): seq<Feature>
  {
    if ns in e.space then e.space[ns] else []
  }

  /** `feature_space[ns].push_back(...)` for a run of features. */
  function PushAll(e: Example, ns: char, fs: seq<Feature>): (r: Example)
    ensures FeaturesOf(r, ns) == FeaturesOf(e, ns) + fs
    ensures forall o :: o != ns ==> FeaturesOf(r, o) == FeaturesOf(e, o)
    ensures r.indices == e.indices && r.tag == e.tag
    ensures r.isNewline == e.isNewline && r.labelInput == e.labelInput
  {
    e.(space := e.space[ns := FeaturesOf(e, ns) + fs])
  }

  /** `indices.push_back(ns)`. */
  function AddIndex(e: Example, ns: char): (r: Example)
    ensures r.indices == e.indices + [ns]
    ensures forall o :: FeaturesOf(r, o) == FeaturesOf(e, o)
  {
    e.(indices := e.indices + [ns])
  }

  /** `indices` lists exactly the namespaces that hold features. */
  predicate IndicesMatch(e: Example)
  {
    forall ns :: ns in e.indices <==> |FeaturesOf(e, ns)| > 0
  }

  /** The channel hash of the default (space) namespace: 0 for seed 0,
      otherwise the seeded hash of the empty string. */
  function SpaceChannelHash(uniformHash: (string, bv64) -> bv64, seed: bv64): (h: bv64)
    ensures seed == 0 ==> h == 0
    ensures seed != 0 ==> h == uniformHash([], seed)
  {
    if seed == 0 then 0 else uniformHash([], seed)
  }

  /** The hash of an anonymous feature, `channel_hash + anon` in `uint64_t`
      arithmetic: the anonymous counter offsets the namespace's hash. */
  function AnonHash(channelHash: bv64, anon: nat): bv64
  {
    channelHash + ToU64(anon)
  }
}
