/** The two families of features the text parser derives from a feature's
    name: the spelling shape (each byte replaced by its character class) and
    the affixes (prefixes and suffixes selected by a per-namespace word of
    4-bit codes). */
module DerivedFeatures {

  /** The classes a spelling can use. */
  predicate IsSpellingClass(d: char)
  {
    d == '0' || d == 'a' || d == 'A' || d == '.' || d == '#'
  }

  /** The class of one byte: digits, lower-case letters, upper-case letters,
      the dot, and everything else. */
  function SpellingClass(c: char): (d: char)
    ensures IsSpellingClass(d)
    ensures d == '0' <==> '0' <= c <= '9'
    ensures d == 'a' <==> 'a' <= c <= 'z'
    ensures d == 'A' <==> 'A' <= c <= 'Z'
    ensures d == '.' <==> c == '.'
  {
    if '0' <= c <= '9' then '0'
    else if 'a' <= c <= 'z' then 'a'
    else if 'A' <= c <= 'Z' then 'A'
    else if c == '.' then '.'
    else '#'
  }

  /** The spelling string of a feature name. */
  function Spelling(name: string): (r: string)
    ensures |r| == |name|
    ensures forall i :: 0 <= i < |name| ==> r[i] == SpellingClass(name[i])
  {
    if name == [] then [] else [SpellingClass(name[0])] + Spelling(name[1..])
  }

  /** A spelling is its own spelling: the classes are fixed points. */
  lemma SpellingIdempotent(name: string)
    ensures Spelling(Spelling(name)) == Spelling(name)
  {
    var s := Spelling(name);
    assert forall i :: 0 <= i < |s| ==> SpellingClass(s[i]) == s[i];
  }

  /** Names of the same shape have the same spelling, and only those. */
  lemma SpellingCharacterizesShape(a: string, b: string)
    requires |a| == |b|
    ensures Spelling(a) == Spelling(b) <==>
            forall i :: 0 <= i < |a| ==> SpellingClass(a[i]) == SpellingClass(b[i])
  {
    if Spelling(a) == Spelling(b) {
      forall i | 0 <= i < |a|
        ensures SpellingClass(a[i]) == SpellingClass(b[i])
      {
        assert Spelling(a)[i] == Spelling(b)[i];
      }
    }
  }

  /** One decoded 4-bit affix code. */
  datatype Affix = Affix(isPrefix: bool, len: nat, code: nat, text: string)

  /** The affix of `name` a code selects: the first or last `len` bytes, or
      the whole name when it is not longer than `len`. */
  function AffixText(name: string, isPrefix: bool, len: nat): (t: string)
    ensures |t| == if |name| > len then len else |name|
    ensures isPrefix ==> t == name[..|t|]
    ensures !isPrefix ==> t == name[|name| - |t|..]
  {
    if |name| > len then
      if isPrefix then name[..len] else name[|name| - len..]
    else name
  }

  /** Decoding the affix word 4 bits at a time, lowest nibble first: bit 0 is
      the prefix flag and bits 1-3 the length. The loop stops when the
      remaining word is zero. */
  function Affixes(word: nat, name: string): (r: seq<Affix>)
    ensures word == 0 <==> r == []
    ensures forall k :: 0 <= k < |r| ==>
              && r[k].code < 16
              && r[k].len < 8
              && r[k].len == r[k].code / 2
              && r[k].isPrefix == (r[k].code % 2 == 1)
              && r[k].text == AffixText(name, r[k].isPrefix, r[k].len)
    decreases word
  {
    if word == 0 then []
    else
      var code := word % 16;
      var isPrefix := code % 2 == 1;
      var len := (word / 2) % 8;
      NibbleFields(word);
      var a := Affix(isPrefix, len, code, AffixText(name, isPrefix, len));
      var rest := Affixes(word / 16, name);
      assert forall k :: 1 <= k < |[a] + rest| ==> ([a] + rest)[k] == rest[k - 1];
      [a] + rest
  }

  /** Bits 1-3 of a word are the high three bits of its lowest nibble. */
  lemma NibbleFields(word: nat)
    ensures (word / 2) % 8 == (word % 16) / 2
  {
    var q, r := word / 16, word % 16;
    assert word == 16 * q + r;
    assert word / 2 == 8 * q + r / 2;
  }

  /** The affix word after `k` iterations of `affix >>= 4`. */
  function Shifted(word: nat, k: nat): nat
  {
    if k == 0 then word else Shifted(word / 16, k - 1)
  }

  /** The `k`-th decoded code is `affix & 0xF` in the `k`-th iteration of the
      decoding loop. */
  lemma {:induction false} AffixCodeIsNibble(word: nat, name: string, k: nat)
    requires k < |Affixes(word, name)|
    ensures Affixes(word, name)[k].code == Shifted(word, k) % 16
    decreases k
  {
    if k > 0 {
      var r := Affixes(word, name);
      assert r[k] == Affixes(word / 16, name)[k - 1];
      AffixCodeIsNibble(word / 16, name, k - 1);
    }
  }

  /** The `k`-th decoded affix, in terms of that nibble. */
  lemma AffixAt(word: nat, name: string, k: nat)
    requires k < |Affixes(word, name)|
    ensures var c := Shifted(word, k) % 16;
            Affixes(word, name)[k] == Affix(c % 2 == 1, c / 2, c, AffixText(name, c % 2 == 1, c / 2))
  {
    AffixCodeIsNibble(word, name, k);
  }

  /** Re-assembling the codes, lowest nibble first. */
  function EncodeAffixes(r: seq<Affix>): nat
  {
    if r == [] then 0 else r[0].code + 16 * EncodeAffixes(r[1..])
  }

  /** The decoded codes are exactly the nibbles of the word: nothing is
      skipped or invented. */
  lemma {:induction false} AffixesRoundTrip(word: nat, name: string)
    ensures EncodeAffixes(Affixes(word, name)) == word
    decreases word
  {
    if word != 0 {
      AffixesRoundTrip(word / 16, name);
      var r := Affixes(word, name);
      assert r[1..] == Affixes(word / 16, name);
    }
  }

  /** The number of affix features is the number of nibbles up to the
      highest non-zero one. */
  function NibbleCount(word: nat): nat
    decreases word
  {
    if word == 0 then 0 else 1 + NibbleCount(word / 16)
  }

  lemma {:induction false} AffixesCount(word: nat, name: string)
    ensures |Affixes(word, name)| == NibbleCount(word)
    decreases word
  {
    if word != 0 {
      AffixesCount(word / 16, name);
    }
  }
}
