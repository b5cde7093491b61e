/**
 * Character classes used by the cleaner. Whitespace is Python's `str.isspace`
 * set, which is also what the `\s` escape of `re` matches on `str` patterns and
 * what `str.strip()` and `str.split()` remove; digits, word characters and case
 * mapping are the ASCII ones.
 */
module Chars {

  /** Python's whitespace: the characters for which `str.isspace()` holds. */
  predicate IsSpace(c: char) {
    || ('\t' <= c <= '\r')                 // tab, line feed, vertical tab, form feed, carriage return
    || ('\U{1C}' <= c <= '\U{1F}')         // file, group, record and unit separators
    || c == ' '
    || c == '\U{85}'                       // next line
    || c == '\U{A0}'                       // no-break space
    || c == '\U{1680}'
    || ('\U{2000}' <= c <= '\U{200A}')
    || c == '\U{2028}' || c == '\U{2029}'
    || c == '\U{202F}' || c == '\U{205F}' || c == '\U{3000}'
  }

  predicate IsDigit(c: char) { '0' <= c <= '9' }

  predicate IsUpper(c: char) { 'A' <= c <= 'Z' }

  predicate IsLower(c: char) { 'a' <= c <= 'z' }

  /** A character of `\w`: a letter, a digit or the underscore. */
  predicate IsWordChar(c: char) { IsUpper(c) || IsLower(c) || IsDigit(c) || c == '_' }

  function ToLower(c: char): (d: char)
    ensures IsUpper(c) ==> IsLower(d)
    ensures !IsUpper(c) ==> d == c
  {
    if IsUpper(c) then (c as int + 32) as char else c
  }

  function ToUpper(c: char): (d: char)
    ensures IsLower(c) ==> IsUpper(d)
    ensures !IsLower(c) ==> d == c
  {
    if IsLower(c) then (c as int - 32) as char else c
  }

  /** `str.lower()` over ASCII letters. */
  function Lower(s: string): (r: string)
    ensures |r| == |s|
    ensures forall i :: 0 <= i < |s| ==> r[i] == ToLower(s[i])
  {
    if s == [] then [] else [ToLower(s[0])] + Lower(s[1..])
  }

  /** Lower-casing twice is lower-casing once. */
  lemma LowerIdempotent(s: string)
    ensures Lower(Lower(s)) == Lower(s)
  {
    var l := Lower(s);
    forall i | 0 <= i < |s|
      ensures Lower(l)[i] == l[i]
    {
      assert !IsUpper(l[i]);
    }
  }

  /** `sub` occurs in `s` starting at position i + j, from its j-th character on. */
  predicate AgreesFrom(s: string, sub: string, i: nat, j: nat)
    decreases |sub| - j
  {
    j >= |sub| || (i + j < |s| && s[i + j] == sub[j] && AgreesFrom(s, sub, i, j + 1))
  }

  /** `sub` occurs in `s` at some position at or after i. */
  predicate OccursFrom(s: string, sub: string, i: nat)
    decreases |s| - i
  {
    AgreesFrom(s, sub, i, 0) || (i < |s| && OccursFrom(s, sub, i + 1))
  }

  /** `sub in s`: `sub` occurs in `s` at some position. */
  predicate Contains(s: string, sub: string) {
    OccursFrom(s, sub, 0)
  }

  /** The slice of `s` at position k is `sub`: the reference meaning of an occurrence. */
  predicate OccursAt(s: string, sub: string, k: nat) {
    k + |sub| <= |s| && s[k..k + |sub|] == sub
  }

  lemma {:induction false} AgreesFromSlice(s: string, sub: string, i: nat, j: nat)
    requires j <= |sub|
    ensures AgreesFrom(s, sub, i, j) <==> (j < |sub| ==> i + |sub| <= |s| && s[i + j..i + |sub|] == sub[j..])
    decreases |sub| - j
  {
    if j < |sub| {
      AgreesFromSlice(s, sub, i, j + 1);
      if i + |sub| <= |s| {
        assert s[i + j..i + |sub|] == [s[i + j]] + s[i + j + 1..i + |sub|];
        assert sub[j..] == [sub[j]] + sub[j + 1..];
      }
    }
  }

  /** Containment means that some slice of `s` is `sub`. */
  lemma ContainsIff(s: string, sub: string)
    ensures Contains(s, sub) <==> exists k: nat :: OccursAt(s, sub, k)
  {
    OccursFromIff(s, sub, 0);
  }

  lemma {:induction false} OccursFromIff(s: string, sub: string, i: nat)
    requires i <= |s|
    ensures OccursFrom(s, sub, i) <==> exists k: nat :: i <= k && OccursAt(s, sub, k)
    decreases |s| - i
  {
    AgreesFromSlice(s, sub, i, 0);
    assert AgreesFrom(s, sub, i, 0) <==> OccursAt(s, sub, i);
    if sub == [] {
      assert OccursAt(s, sub, i);
    } else if i < |s| {
      OccursFromIff(s, sub, i + 1);
      if exists k: nat :: i <= k && OccursAt(s, sub, k) {
        var k: nat :| i <= k && OccursAt(s, sub, k);
        if k > i {
          assert i + 1 <= k;
        }
      }
    }
  }
}
