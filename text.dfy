/** The string operations the feed uses: `toLowerCase`, `includes` and the
    label capitalisation `charAt(0).toUpperCase() + slice(1)`.  Case mapping
    is restricted to the ASCII letters. */
module Text {

  predicate IsUpper(c: char) { 'A' <= c <= 'Z' }

  predicate IsLower(c: char) { 'a' <= c <= 'z' }

  function LowerChar(c: char): (r: char)
    ensures !IsUpper(r)
    ensures !IsUpper(c) ==> r == c
  {
    if IsUpper(c) then (c as int - 'A' as int + 'a' as int) as char else c
  }

  function UpperChar(c: char): (r: char)
    ensures !IsLower(r)
    ensures !IsLower(c) ==> r == c
  {
    if IsLower(c) then (c as int - 'a' as int + 'A' as int) as char else c
  }

  /** Upper-casing a character does not change its lower-case form. */
  lemma LowerOfUpper(c: char)
    ensures LowerChar(UpperChar(c)) == LowerChar(c)
  {
  }

  /** `s.toLowerCase()`: same length, every character lower-cased. */
  function Lower(s: string): (r: string)
    ensures |r| == |s|
    ensures forall i :: 0 <= i < |s| ==> r[i] == LowerChar(s[i])
  {
    if s == [] then [] else [LowerChar(s[0])] + Lower(s[1..])
  }

  /** Lower-casing twice is lower-casing once. */
  lemma LowerIdempotent(s: string)
    ensures Lower(Lower(s)) == Lower(s)
  {
  }

  /** A string with no upper-case letter is its own lower-case form. */
  lemma LowerOfLowerCase(s: string)
    requires forall i :: 0 <= i < |s| ==> !IsUpper(s[i])
    ensures Lower(s) == s
  {
  }

  /** `t` occurs in `s` starting at position `i`. */
  predicate OccursAt(s: string, t: string, i: int)
  {
    0 <= i <= |s| - |t| && s[i..i + |t|] == t
  }

  /** `s.includes(t)`: `t` occurs in `s` at some position.  A term longer
      than `s` never occurs in it, and one of the same length occurs exactly
      when it is `s`. */
  function Contains(s: string, t: string): (r: bool)
    ensures r ==> |t| <= |s|
    ensures |t| == |s| ==> (r <==> t == s)
  {
    assert s[0..|s|] == s;
    assert t == s ==> OccursAt(s, t, 0);
    exists i | 0 <= i <= |s| - |t| :: OccursAt(s, t, i)
  }

  /** The empty string occurs in every string. */
  lemma ContainsEmpty(s: string)
    ensures Contains(s, "")
  {
    assert OccursAt(s, "", 0);
  }

  /** Every string occurs in itself. */
  lemma ContainsSelf(s: string)
    ensures Contains(s, s)
  {
    assert OccursAt(s, s, 0);
  }

  /** What occurs in a part of `s` occurs in `s`. */
  lemma ContainsTransitive(s: string, t: string, w: string)
    requires Contains(s, t) && Contains(t, w)
    ensures Contains(s, w)
  {
    var i :| 0 <= i <= |s| - |t| && OccursAt(s, t, i);
    var j :| 0 <= j <= |t| - |w| && OccursAt(t, w, j);
    assert forall k :: 0 <= k < |w| ==> s[i + j + k] == t[j + k] == w[k] by {
      forall k | 0 <= k < |w| ensures s[i + j + k] == t[j + k] == w[k] {
        assert s[i..i + |t|][j + k] == t[j + k];
        assert t[j..j + |w|][k] == w[k];
      }
    }
    assert OccursAt(s, w, i + j);
  }

  /** `s.charAt(0).toUpperCase() + s.slice(1)`; for the empty string
      `charAt(0)` is empty, so the result is empty too. */
  function Capitalize(s: string): (r: string)
    ensures |r| == |s|
    ensures |s| > 0 ==> !IsLower(r[0]) && r[1..] == s[1..]
    ensures Lower(r) == Lower(s)
  {
    if s == [] then s
    else
      var r := [UpperChar(s[0])] + s[1..];
      LowerOfUpper(s[0]);
      assert forall i :: 0 <= i < |s| ==> Lower(r)[i] == Lower(s)[i];
      r
  }
}
