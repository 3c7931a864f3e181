// The two string operations the search filter relies on: lower-casing and
// the substring test of JavaScript's `String.prototype.includes`.
// Lower-casing is modelled on ASCII letters only.

module Text {

  predicate IsUpper(c: char) {
    'A' <= c <= 'Z'
  }

  /** Lower-cases one character: an upper-case ASCII letter becomes the
      lower-case letter at the same position of the alphabet; anything else
      is left alone. */
  function LowerChar(c: char): (r: char)
    ensures !IsUpper(r)
    ensures !IsUpper(c) ==> r == c
    ensures IsUpper(c) ==> 'a' <= r <= 'z' && r as int - 'a' as int == c as int - 'A' as int
  {
    if IsUpper(c) then (c as int - 'A' as int + 'a' as int) as char else c
  }

  /** Lower-cases a string character by character. */
  function Lower(s: string): (r: string)
    ensures |r| == |s|
    ensures forall i :: 0 <= i < |s| ==> r[i] == LowerChar(s[i])
  {
    if s == [] then [] else [LowerChar(s[0])] + Lower(s[1..])
  }

  /** Lower-casing twice is lower-casing once. */
  lemma LowerIdempotent(s: string)
    ensures Lower(Lower(s)) == Lower(s)
  {
    var l := Lower(s);
    assert forall i :: 0 <= i < |l| ==> Lower(l)[i] == l[i];
  }

  /** `sub` occurs in `s` starting at index `i`. */
  predicate OccursAt(s: string, sub: string, i: int) {
    0 <= i && i + |sub| <= |s| && s[i..i + |sub|] == sub
  }

  /** The substring test of `includes`: whether `sub` occurs anywhere in `s`.
      The empty string occurs in every string. */
  function Includes(s: string, sub: string): (r: bool)
    ensures r <==> exists i :: OccursAt(s, sub, i)
    decreases |s|
  {
    if |sub| > |s| then
      false
    else if s[..|sub|] == sub then
      assert OccursAt(s, sub, 0);
      true
    else
      ShiftOccurrences(s, sub);
      Includes(s[1..], sub)
  }

  /** When `sub` does not occur at the head of `s`, its occurrences in `s` are
      those in `s[1..]`, shifted by one. */
  lemma ShiftOccurrences(s: string, sub: string)
    requires |sub| <= |s| && s[..|sub|] != sub
    ensures (exists i :: OccursAt(s, sub, i)) <==> (exists j :: OccursAt(s[1..], sub, j))
  {
    if i :| OccursAt(s, sub, i) {
      assert i != 0;
      assert s[1..][i - 1..i - 1 + |sub|] == s[i..i + |sub|];
      assert OccursAt(s[1..], sub, i - 1);
    }
    if j :| OccursAt(s[1..], sub, j) {
      assert s[j + 1..j + 1 + |sub|] == s[1..][j..j + |sub|];
      assert OccursAt(s, sub, j + 1);
    }
  }

  /** The empty string is a substring of every string. */
  lemma IncludesEmpty(s: string)
    ensures Includes(s, "")
  {
    assert OccursAt(s, "", 0);
  }

  /** Every string contains itself. */
  lemma IncludesSelf(s: string)
    ensures Includes(s, s)
  {
    assert OccursAt(s, s, 0);
  }

  /** A non-empty string whose first character never appears in `s` is not a
      substring of `s`. */
  lemma NotIncludes(s: string, sub: string)
    requires sub != [] && sub[0] !in s
    ensures !Includes(s, sub)
  {
  }

  /** A lower-case letter that appears in `s` in neither case does not appear
      in `Lower(s)`. */
  lemma LowerExcludes(s: string, c: char)
    requires 'a' <= c <= 'z'
    requires c !in s && (c as int - 'a' as int + 'A' as int) as char !in s
    ensures c !in Lower(s)
  {
  }
}
