/**
  Case folding and substring search, as used by the catalog search box
  (`toLowerCase` and `includes` on strings).

  `toLowerCase` is modelled on the ASCII range only: upper-case Latin letters
  map to their lower-case forms and every other character is left alone.
 */
module Text {

  predicate IsUpper(c: char) {
    'A' <= c <= 'Z'
  }

  function LowerChar(c: char): (r: char)
    ensures !IsUpper(r)
    ensures !IsUpper(c) ==> r == c
    ensures IsUpper(c) ==> r as int - c as int == 'a' as int - 'A' as int
  {
    if IsUpper(c) then (c as int - 'A' as int + 'a' as int) as char else c
  }

  /** Lower-cases every character; the result has no upper-case letter left. */
  function Lower(s: string): (r: string)
    ensures |r| == |s|
    ensures forall i :: 0 <= i < |r| ==> !IsUpper(r[i])
    ensures forall i :: 0 <= i < |s| && !IsUpper(s[i]) ==> r[i] == s[i]
    ensures forall i :: 0 <= i < |s| && IsUpper(s[i]) ==> r[i] as int == s[i] as int + ('a' as int - 'A' as int)
  {
    seq(|s|, i requires 0 <= i < |s| => LowerChar(s[i]))
  }

  /** Lower-casing an already lower-cased string changes nothing. */
  lemma LowerIdempotent(s: string)
    ensures Lower(Lower(s)) == Lower(s)
  {
  }

  /** `t` occurs in `s` starting at index `i`. */
  ghost predicate OccursAt(s: string, t: string, i: int) {
    0 <= i && i + |t| <= |s| && s[i..i + |t|] == t
  }

  /** An occurrence in the tail of `s` is an occurrence in `s` one place further right. */
  lemma OccursInTail(s: string, t: string)
    requires |s| > 0
    requires !OccursAt(s, t, 0)
    ensures (exists i :: OccursAt(s[1..], t, i)) <==> (exists i :: OccursAt(s, t, i))
  {
    if exists i :: OccursAt(s[1..], t, i) {
      var i :| OccursAt(s[1..], t, i);
      assert s[i + 1..i + 1 + |t|] == s[1..][i..i + |t|];
      assert OccursAt(s, t, i + 1);
    }
    if exists i :: OccursAt(s, t, i) {
      var i :| OccursAt(s, t, i);
      assert i != 0;
      assert s[1..][i - 1..i - 1 + |t|] == s[i..i + |t|];
      assert OccursAt(s[1..], t, i - 1);
    }
  }

  /**
    `s.includes(t)`: true exactly when `t` occurs somewhere in `s`. The empty
    string occurs in every string.
   */
  function Contains(s: string, t: string): (r: bool)
    ensures r <==> exists i :: OccursAt(s, t, i)
    decreases |s|
  {
    if |t| > |s| then
      false
    else if s[..|t|] == t then
      assert OccursAt(s, t, 0);
      true
    else
      OccursInTail(s, t);
      Contains(s[1..], t)
  }

  /** A string holding a character that `s` lacks cannot occur in `s`. */
  lemma MissingCharNotContained(s: string, t: string, k: int)
    requires 0 <= k < |t|
    requires t[k] !in s
    ensures !Contains(s, t)
  {
  }

  /**
    Case-insensitive form of the above: when no character of `s` lower-cases
    to the lower-cased `t[k]`, the lower-cased `t` does not occur in the
    lower-cased `s`.
   */
  lemma LowerMissingCharNotContained(s: string, t: string, k: int)
    requires 0 <= k < |t|
    requires forall i :: 0 <= i < |s| ==> LowerChar(s[i]) != LowerChar(t[k])
    ensures !Contains(Lower(s), Lower(t))
  {
    assert Lower(t)[k] == LowerChar(t[k]);
    MissingCharNotContained(Lower(s), Lower(t), k);
  }

  lemma ContainsEmpty(s: string)
    ensures Contains(s, "")
  {
    assert OccursAt(s, "", 0);
  }
}
