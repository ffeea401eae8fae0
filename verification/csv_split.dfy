/** `parser::split` of the CSV reader: a non-empty line is cut at every
    separator, and each element loses its leading bytes from the trim list.
    Elements are spans into the line, because the float conversion later
    reads from an element's first byte onwards. */
module CsvSplit {
  import opened Base
  import opened TextUtils

  /** The trim list "\r\n\t'\"\xef\xbb\xbf\f\v ", one char per byte. */
  const TrimList: set<char> :=
    {'\r', '\n', '\t', '\'', '"', '\U{EF}', '\U{BB}', '\U{BF}', '\U{0C}', '\U{0B}', ' '}

  predicate InTrimList(c: char)
  {
    c in TrimList
  }

  /** `find_first_not_of(trim_list)` on `s[lo..hi]`, as an absolute
      position; `hi` stands for `npos` clamped to the size. */
  function SkipTrim(s: string, lo: nat, hi: nat): (k: nat)
    requires lo <= hi <= |s|
    ensures lo <= k <= hi
    ensures forall m :: lo <= m < k ==> InTrimList(s[m])
    ensures k == hi || !InTrimList(s[k])
    decreases hi - lo
  {
    if lo == hi || !InTrimList(s[lo]) then lo else SkipTrim(s, lo + 1, hi)
  }

  /** Both trimming steps of an element as the source writes them: remove
      `min(find_first_not_of, size)` bytes from the front, then the same
      quantity, measured on what is left, from the back. The second step
      never removes anything: what is left is empty or starts with a byte
      outside the trim list. */
  function TrimElement(s: string, sp: Span): (r: Span)
    requires SpanIn(sp, s)
    ensures r.start == SkipTrim(s, sp.start, sp.End())
    ensures r.End() == sp.End()
  {
    var p := SkipTrim(s, sp.start, sp.End()) - sp.start;
    var e := Span(sp.start + p, sp.len - p);
    var q := SkipTrim(s, e.start, e.End()) - e.start;
    Span(e.start, e.len - q)
  }

  /** No separator inside the span. */
  predicate SepFree(s: string, sep: char, sp: Span)
    requires SpanIn(sp, s)
  {
    forall m :: sp.start <= m < sp.End() ==> s[m] != sep
  }

  /** One element of `split` from its raw field: the field trimmed, except
      that the empty field after a trailing separator is placed on that
      separator (the source builds it from `&sv[pointer - 1]`). */
  function SplitElement(s: string, f: Span): (r: Span)
    requires SpanIn(f, s) && |s| > 0
    ensures SpanIn(r, s)
    ensures r.len == 0 || !InTrimList(s[r.start])
    ensures r.len == 0 || (f.start <= r.start && r.End() == f.End())
    ensures f.start == |s| ==> r == Span(|s| - 1, 0)
  {
    if f.start == |s| then Span(|s| - 1, 0) else TrimElement(s, f)
  }

  /** An element holds no separator and does not start with a trim-list
      byte. */
  predicate Clean(s: string, sep: char, e: Span)
    requires SpanIn(e, s)
  {
    SepFree(s, sep, e) && (e.len == 0 || !InTrimList(s[e.start]))
  }

  /** The element built from a separator-free field is clean. */
  lemma ElementClean(s: string, sep: char, f: Span)
    requires SpanIn(f, s) && |s| > 0 && SepFree(s, sep, f)
    ensures Clean(s, sep, SplitElement(s, f))
  {
  }

  /** What `split` returns for the fields from position `from` on: the raw
      fields are the runs between separators, empty ones included, and each
      becomes one element. */
  function SplitFrom(s: string, sep: char, from: nat): (r: seq<Span>)
    requires 0 < |s| && from <= |s|
    ensures |r| > 0
    ensures forall k :: 0 <= k < |r| ==> SpanIn(r[k], s) && Clean(s, sep, r[k])
    decreases |s| - from
  {
    var j := RunEnd(s, sep, from);
    var e := SplitElement(s, Span(from, j - from));
    ElementClean(s, sep, Span(from, j - from));
    if j == |s| then [e]
    else
      var rest := SplitFrom(s, sep, j + 1);
      assert forall k :: 1 <= k < |[e] + rest| ==> ([e] + rest)[k] == rest[k - 1];
      [e] + rest
  }

  /** `parser::split`: the loop over the line keeps the start of the
      current field in `pointer` and emits one element per separator, plus
      the last one after the loop. */
  function Split(s: string, sep: char): (r: seq<Span>)
    requires |s| > 0
    ensures |r| > 0
    ensures forall k :: 0 <= k < |r| ==> SpanIn(r[k], s) && Clean(s, sep, r[k])
  {
    SplitFrom(s, sep, 0)
  }

  /** Number of occurrences of `c` in `s` at or after `i`. */
  function CountFrom(s: string, c: char, i: nat): nat
    requires i <= |s|
    decreases |s| - i
  {
    if i == |s| then 0 else (if s[i] == c then 1 else 0) + CountFrom(s, c, i + 1)
  }

  lemma {:induction false} CountFromRun(s: string, c: char, i: nat, j: nat)
    requires i <= j <= |s|
    requires forall m :: i <= m < j ==> s[m] != c
    ensures CountFrom(s, c, i) == CountFrom(s, c, j)
    decreases j - i
  {
    if i < j {
      CountFromRun(s, c, i + 1, j);
    }
  }

  /** One element more than separators. */
  lemma {:induction false} SplitFromCount(s: string, sep: char, from: nat)
    requires 0 < |s| && from <= |s|
    ensures |SplitFrom(s, sep, from)| == CountFrom(s, sep, from) + 1
    decreases |s| - from
  {
    var j := RunEnd(s, sep, from);
    CountFromRun(s, sep, from, j);
    if j < |s| {
      SplitFromCount(s, sep, j + 1);
      assert CountFrom(s, sep, j) == 1 + CountFrom(s, sep, j + 1);
      assert |SplitFrom(s, sep, from)| == 1 + |SplitFrom(s, sep, j + 1)|;
    }
  }

  lemma SplitCount(s: string, sep: char)
    requires |s| > 0
    ensures |Split(s, sep)| == CountFrom(s, sep, 0) + 1
  {
    SplitFromCount(s, sep, 0);
  }

  /** A trailing separator yields an empty last element, placed on that
      separator. */
  lemma {:induction false} TrailingSeparator(s: string, sep: char, from: nat)
    requires 0 < |s| && from <= |s| && s[|s| - 1] == sep
    ensures var r := SplitFrom(s, sep, from);
            r[|r| - 1] == Span(|s| - 1, 0)
    decreases |s| - from
  {
    var j := RunEnd(s, sep, from);
    if j < |s| {
      TrailingSeparator(s, sep, j + 1);
    } else {
      assert from == |s|;
    }
  }

  /** Without a separator the whole line, trimmed, is the only element. */
  lemma NoSeparatorOneElement(s: string, sep: char)
    requires |s| > 0 && forall m :: 0 <= m < |s| ==> s[m] != sep
    ensures Split(s, sep) == [TrimElement(s, Span(0, |s|))]
  {
    assert RunEnd(s, sep, 0) == |s|;
  }
}
