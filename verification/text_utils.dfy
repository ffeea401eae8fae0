/** `VW::tokenize(delim, s, out)` with empty pieces disallowed: the tokens are
    the maximal runs of `s` that contain no delimiter. Tokens are returned as
    spans so that callers can ask where a token ends (the tag rule of the
    text format does). */
module TextUtils {
  import opened Base

  /** End of the delimiter-free run starting at `i`. */
  function RunEnd(s: string, d: char, i: nat): (j: nat)
    requires i <= |s|
    ensures i <= j <= |s|
    ensures forall k :: i <= k < j ==> s[k] != d
    ensures j == |s| || s[j] == d
    decreases |s| - i
  {
    if i == |s| || s[i] == d then i else RunEnd(s, d, i + 1)
  }

  /** `t` is one token of `s`: non-empty, delimiter-free, bounded by
      delimiters or the ends of `s`. */
  predicate IsToken(s: string, d: char, t: Span)
  {
    && t.len > 0
    && SpanIn(t, s)
    && (forall k :: t.start <= k < t.End() ==> s[k] != d)
    && (t.start == 0 || s[t.start - 1] == d)
    && (t.End() == |s| || s[t.End()] == d)
  }

  /** Tokens appear left to right, separated by at least one delimiter. */
  predicate Ascending(ts: seq<Span>)
  {
    forall k :: 0 <= k < |ts| - 1 ==> ts[k].End() < ts[k + 1].start
  }

  function TokensFrom(s: string, d: char, i: nat): (ts: seq<Span>)
    requires i <= |s|
    requires i == 0 || s[i - 1] == d
    ensures forall k :: 0 <= k < |ts| ==> IsToken(s, d, ts[k]) && i <= ts[k].start
    ensures Ascending(ts)
    decreases |s| - i
  {
    if i == |s| then []
    else if s[i] == d then TokensFrom(s, d, i + 1)
    else
      var j := RunEnd(s, d, i);
      if j == |s| then [Span(i, j - i)]
      else
        var rest := TokensFrom(s, d, j + 1);
        ConsToken(s, d, Span(i, j - i), rest, i);
        [Span(i, j - i)] + rest
  }

  /** A token followed by tokens that start after it. */
  lemma ConsToken(s: string, d: char, t: Span, rest: seq<Span>, lo: nat)
    requires IsToken(s, d, t) && lo <= t.start
    requires forall k :: 0 <= k < |rest| ==> IsToken(s, d, rest[k]) && t.End() < rest[k].start
    requires Ascending(rest)
    ensures forall k :: 0 <= k < |[t] + rest| ==> IsToken(s, d, ([t] + rest)[k]) && lo <= ([t] + rest)[k].start
    ensures Ascending([t] + rest)
  {
    var ts := [t] + rest;
    assert forall k :: 1 <= k < |ts| ==> ts[k] == rest[k - 1];
  }

  function Tokenize(s: string, d: char): (ts: seq<Span>)
    ensures forall k :: 0 <= k < |ts| ==> IsToken(s, d, ts[k])
    ensures Ascending(ts)
  {
    TokensFrom(s, d, 0)
  }

  /** The texts of a sequence of spans. */
  function Texts(s: string, ts: seq<Span>): (r: seq<string>)
    requires forall k :: 0 <= k < |ts| ==> SpanIn(ts[k], s)
    ensures |r| == |ts|
    ensures forall k :: 0 <= k < |ts| ==> r[k] == SpanText(s, ts[k])
  {
    seq(|ts|, k requires 0 <= k < |ts| => SpanText(s, ts[k]))
  }

  /** Position `p` lies inside one of the spans `ts`. */
  predicate Covered(ts: seq<Span>, p: nat)
  {
    exists k :: 0 <= k < |ts| && ts[k].start <= p < ts[k].End()
  }

  lemma CoveredByHead(t: Span, rest: seq<Span>, p: nat)
    requires t.start <= p < t.End()
    ensures Covered([t] + rest, p)
  {
    assert ([t] + rest)[0] == t;
  }

  lemma CoveredByRest(t: Span, rest: seq<Span>, p: nat)
    requires Covered(rest, p)
    ensures Covered([t] + rest, p)
  {
    var k :| 0 <= k < |rest| && rest[k].start <= p < rest[k].End();
    assert ([t] + rest)[k + 1] == rest[k];
  }

  /** Every non-delimiter byte at or after `i` lies inside some token: no
      text is lost by tokenizing. */
  lemma {:induction false} TokensCover(s: string, d: char, i: nat, p: nat)
    requires i <= |s|
    requires i == 0 || s[i - 1] == d
    requires i <= p < |s| && s[p] != d
    ensures Covered(TokensFrom(s, d, i), p)
    decreases |s| - i
  {
    if s[i] == d {
      assert TokensFrom(s, d, i) == TokensFrom(s, d, i + 1);
      TokensCover(s, d, i + 1, p);
    } else {
      var j := RunEnd(s, d, i);
      if j == |s| {
        assert TokensFrom(s, d, i) == [Span(i, j - i)] + [];
        CoveredByHead(Span(i, j - i), [], p);
      } else {
        var rest := TokensFrom(s, d, j + 1);
        assert TokensFrom(s, d, i) == [Span(i, j - i)] + rest;
        if p < j {
          CoveredByHead(Span(i, j - i), rest, p);
        } else {
          assert p != j;
          TokensCover(s, d, j + 1, p);
          CoveredByRest(Span(i, j - i), rest, p);
        }
      }
    }
  }
}
