/** String primitives the chat pipeline relies on: lower-casing (ASCII only)
    and Python's `needle in haystack` substring test. */
module Text {

  predicate IsUpper(c: char) {
    'A' <= c <= 'Z'
  }

  /** Lower-cases one ASCII capital letter; every other character is kept. */
  function LowerChar(c: char): (r: char)
    ensures !IsUpper(r)
    ensures r == c <==> !IsUpper(c)
    ensures IsUpper(c) ==> r as int - c as int == 'a' as int - 'A' as int
  {
    if IsUpper(c) then (c as int + ('a' as int - 'A' as int)) as char else c
  }

  /** Lower-cases a whole string, character by character, keeping its length:
      no capital letter is left and every other character stays in place. */
  function Lower(s: string): (r: string)
    ensures |r| == |s|
    ensures forall i :: 0 <= i < |s| ==> r[i] == LowerChar(s[i])
    ensures forall i :: 0 <= i < |r| ==> !IsUpper(r[i])
    ensures forall i :: 0 <= i < |s| && !IsUpper(s[i]) ==> r[i] == s[i]
  {
    seq(|s|, i requires 0 <= i < |s| => LowerChar(s[i]))
  }

  /** Lower-casing a lower-cased string changes nothing. */
  lemma LowerIdempotent(s: string)
    ensures Lower(Lower(s)) == Lower(s)
  {
  }

  /** Lower-casing commutes with concatenation. */
  lemma LowerConcat(a: string, b: string)
    ensures Lower(a + b) == Lower(a) + Lower(b)
  {
  }

  /** `p` occurs in `s` starting at position `i`. */
  ghost predicate OccursAt(p: string, s: string, i: int) {
    0 <= i && i + |p| <= |s| && s[i..i + |p|] == p
  }

  /** Python's `p in s` for strings: `p` is a contiguous piece of `s`
      (the empty string is a piece of every string). */
  ghost predicate IsSubstring(p: string, s: string) {
    exists i :: OccursAt(p, s, i)
  }

  /** An occurrence in `s[1..]` is an occurrence in `s` one position later. */
  lemma OccursAtTail(p: string, s: string, i: int)
    requires |s| > 0 && 0 <= i
    ensures OccursAt(p, s[1..], i) <==> OccursAt(p, s, i + 1)
  {
  }

  /** Decides `p in s` by trying every start position from the left. */
  function Contains(s: string, p: string): (r: bool)
    ensures r <==> IsSubstring(p, s)
    decreases |s|
  {
    if |s| < |p| then
      false
    else if s[..|p|] == p then
      assert OccursAt(p, s, 0);
      true
    else
      assert !OccursAt(p, s, 0);
      assert |s| > 0;
      var tail := Contains(s[1..], p);
      assert tail ==> IsSubstring(p, s) by {
        if tail {
          var i :| OccursAt(p, s[1..], i);
          OccursAtTail(p, s, i);
        }
      }
      assert IsSubstring(p, s) ==> tail by {
        if IsSubstring(p, s) {
          var i :| OccursAt(p, s, i);
          assert i != 0;
          OccursAtTail(p, s, i - 1);
        }
      }
      tail
  }

  /** A piece of `s` remains a piece of `s` with text added on either side. */
  lemma SubstringInContext(p: string, s: string, pre: string, post: string)
    requires IsSubstring(p, s)
    ensures IsSubstring(p, pre + s + post)
  {
    var i :| OccursAt(p, s, i);
    var t := pre + s + post;
    assert t[|pre| + i..|pre| + i + |p|] == s[i..i + |p|];
    assert OccursAt(p, t, |pre| + i);
  }

  /** A string holding a character that `s` lacks is not a piece of `s`. */
  lemma MissingCharNotSubstring(p: string, s: string, c: char)
    requires c in p && c !in s
    ensures !IsSubstring(p, s)
  {
  }

}
