/**
 * The two string operations the matcher relies on: `str.lower()` and the
 * substring test `needle in hay`. Lower-casing is modelled on ASCII letters
 * only; every other character is its own lower-case form.
 */
module Text {

  predicate IsUpper(c: char) { 'A' <= c <= 'Z' }

  predicate IsLower(c: char) { 'a' <= c <= 'z' }

  /** Lower-case form of one character. */
  function LowerChar(c: char): (r: char)
    ensures !IsUpper(r)
    ensures IsUpper(c) || r == c
    ensures IsUpper(c) ==> IsLower(r)
    ensures IsUpper(c) ==> UpperChar(r) == c
  {
    if IsUpper(c) then (c as int + 32) as char else c
  }

  /** Upper-case form of one character (used only to state case-insensitivity). */
  function UpperChar(c: char): (r: char)
    ensures !IsLower(r)
    ensures IsLower(c) || r == c
    ensures IsLower(c) ==> IsUpper(r)
  {
    if IsLower(c) then (c as int - 32) as char else c
  }

  /** `s.lower()`: the string with every character lower-cased, position by position. */
  function Lower(s: string): (r: string)
    ensures |r| == |s|
    ensures forall i :: 0 <= i < |s| ==> r[i] == LowerChar(s[i])
  {
    if s == [] then [] else [LowerChar(s[0])] + Lower(s[1..])
  }

  /** `s.upper()`: the string with every character upper-cased, position by position. */
  function Upper(s: string): (r: string)
    ensures |r| == |s|
    ensures forall i :: 0 <= i < |s| ==> r[i] == UpperChar(s[i])
  {
    if s == [] then [] else [UpperChar(s[0])] + Upper(s[1..])
  }

  /** The two strings differ at most in the case of their letters. */
  predicate SameUpToCase(a: string, b: string) {
    Lower(a) == Lower(b)
  }

  /** Lower-casing and upper-casing only change case: lower-casing is idempotent. */
  lemma {:induction false} CaseChangesAreCaseOnly(s: string)
    ensures SameUpToCase(Lower(s), s)
    ensures SameUpToCase(Upper(s), s)
  {
    if s != [] {
      CaseChangesAreCaseOnly(s[1..]);
      assert Lower(s) == [LowerChar(s[0])] + Lower(s[1..]);
      assert Upper(s) == [UpperChar(s[0])] + Upper(s[1..]);
      assert Lower(Lower(s)) == [LowerChar(LowerChar(s[0]))] + Lower(Lower(s[1..]));
      assert Lower(Upper(s)) == [LowerChar(UpperChar(s[0]))] + Lower(Upper(s[1..]));
    }
  }

  /** `needle` occurs in `hay` starting at position `i`. */
  predicate OccursAt(needle: string, hay: string, i: int) {
    0 <= i && i + |needle| <= |hay| && hay[i..i + |needle|] == needle
  }

  /**
   * An occurrence in `hay[1..]` is an occurrence in `hay` one position later,
   * and every occurrence in `hay` after position 0 is one in `hay[1..]`.
   */
  lemma OccursShift(needle: string, hay: string)
    requires hay != []
    ensures (exists i :: OccursAt(needle, hay[1..], i)) <==> (exists i :: i != 0 && OccursAt(needle, hay, i))
  {
    forall i | OccursAt(needle, hay[1..], i)
      ensures OccursAt(needle, hay, i + 1)
    {
      assert hay[1..][i..i + |needle|] == hay[i + 1..i + 1 + |needle|];
    }
    forall i | i != 0 && OccursAt(needle, hay, i)
      ensures OccursAt(needle, hay[1..], i - 1)
    {
      assert hay[1..][i - 1..i - 1 + |needle|] == hay[i..i + |needle|];
    }
  }

  /**
   * Python's `needle in hay` for strings: a scan over the start positions,
   * true exactly when `needle` occurs somewhere in `hay`.
   */
  function Contains(needle: string, hay: string): (r: bool)
    ensures r <==> exists i :: OccursAt(needle, hay, i)
    decreases |hay|
  {
    if |needle| > |hay| then false
    else if hay[..|needle|] == needle then
      assert OccursAt(needle, hay, 0);
      true
    else
      OccursShift(needle, hay);
      Contains(needle, hay[1..])
  }

  /** The empty string is contained in every string, the empty one included. */
  lemma EmptyIsContained(hay: string)
    ensures Contains("", hay)
  {
    assert hay[..0] == "";
  }
}
