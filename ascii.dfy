/** Character classes and case mapping restricted to ASCII, and substring search. */
module Ascii {

  predicate IsUpper(c: char) { 'A' <= c <= 'Z' }
  predicate IsLower(c: char) { 'a' <= c <= 'z' }
  predicate IsDigit(c: char) { '0' <= c <= '9' }

  /** `toLowerCase` on one character, ASCII only: A-Z become a-z, everything else is kept. */
  function LowerChar(c: char): (r: char)
    ensures !IsUpper(r)
    ensures IsUpper(c) ==> IsLower(r) && r as int - c as int == 32
    ensures !IsUpper(c) ==> r == c
  {
    if IsUpper(c) then (c as int + 32) as char else c
  }

  /** `toLowerCase` on a string, ASCII only. */
  function Lower(s: string): (r: string)
    ensures |r| == |s|
    ensures forall i :: 0 <= i < |s| ==> r[i] == LowerChar(s[i])
  {
    seq(|s|, i requires 0 <= i < |s| => LowerChar(s[i]))
  }

  /** `q` occurs in `s` starting at index `i`. */
  predicate OccursAt(s: string, q: string, i: int) {
    0 <= i <= |s| - |q| && s[i..i + |q|] == q
  }

  /** Substring search: `q` is a contiguous part of `s`. */
  predicate Contains(s: string, q: string)
    ensures Contains(s, q) ==> |q| <= |s|
    ensures Contains(s, q) ==> forall c :: c in q ==> c in s
  {
    exists i :: 0 <= i <= |s| - |q| && OccursAt(s, q, i)
  }

  /** Two strings that are equal up to the letter case of each position. */
  predicate DifferOnlyInCase(a: string, b: string) {
    |a| == |b| &&
    forall i :: 0 <= i < |a| ==>
      a[i] == b[i] ||
      (IsUpper(a[i]) && b[i] == LowerChar(a[i])) ||
      (IsUpper(b[i]) && a[i] == LowerChar(b[i]))
  }

  lemma EmptyIsContained(s: string)
    ensures Contains(s, "")
  {
    assert OccursAt(s, "", 0);
  }

  /** Strings that differ only in letter case have the same lower-case form. */
  lemma DifferOnlyInCaseLower(a: string, b: string)
    requires DifferOnlyInCase(a, b)
    ensures Lower(a) == Lower(b)
  {
    forall i | 0 <= i < |a|
      ensures Lower(a)[i] == Lower(b)[i]
    {
      if !(a[i] == b[i]) {
        if IsUpper(a[i]) && b[i] == LowerChar(a[i]) {
          assert LowerChar(b[i]) == b[i];
        } else {
          assert IsUpper(b[i]) && a[i] == LowerChar(b[i]);
          assert LowerChar(a[i]) == a[i];
        }
      }
    }
  }
}
