/** The Python `str` operations the program relies on: `strip()`, `lower()` and `in`. */
module Text {

  /** The characters Python's `str.strip()` removes when called without arguments. */
  const Whitespace: set<char> := {
    '\t', '\n', '\U{0B}', '\U{0C}', '\r', '\U{1C}', '\U{1D}', '\U{1E}', '\U{1F}', ' ',
    '\U{85}', '\U{A0}', '\U{1680}',
    '\U{2000}', '\U{2001}', '\U{2002}', '\U{2003}', '\U{2004}', '\U{2005}',
    '\U{2006}', '\U{2007}', '\U{2008}', '\U{2009}', '\U{200A}',
    '\U{2028}', '\U{2029}', '\U{202F}', '\U{205F}', '\U{3000}'
  }

  predicate IsSpace(c: char)
  {
    c in Whitespace
  }

  /** The index of the first non-whitespace character of `s` at or after `lo`, or `|s|`. */
  function ContentStart(s: string, lo: nat): (i: nat)
    requires lo <= |s|
    ensures lo <= i <= |s|
    ensures forall k :: lo <= k < i ==> IsSpace(s[k])
    ensures i == |s| || !IsSpace(s[i])
    decreases |s| - lo
  {
    if lo < |s| && IsSpace(s[lo]) then ContentStart(s, lo + 1) else lo
  }

  /** The index just past the last non-whitespace character of `s` before `hi` and not before `lo`, or `lo`. */
  function ContentEnd(s: string, lo: nat, hi: nat): (j: nat)
    requires lo <= hi <= |s|
    ensures lo <= j <= hi
    ensures forall k :: j <= k < hi ==> IsSpace(s[k])
    ensures j == lo || !IsSpace(s[j - 1])
  {
    if lo < hi && IsSpace(s[hi - 1]) then ContentEnd(s, lo, hi - 1) else hi
  }

  /** `r` is `s` with exactly the `i` characters before it and all characters after it removed, all of them whitespace. */
  ghost predicate StrippedAt(s: string, i: int, r: string)
  {
    && 0 <= i && i + |r| <= |s|
    && r == s[i..i + |r|]
    && (forall k :: 0 <= k < i ==> IsSpace(s[k]))
    && (forall k :: i + |r| <= k < |s| ==> IsSpace(s[k]))
    && (r == [] || (!IsSpace(r[0]) && !IsSpace(r[|r| - 1])))
  }

  /** Python's `s.strip()`: drops the leading whitespace, then the trailing whitespace of what is left. */
  function Strip(s: string): (r: string)
    ensures exists i :: StrippedAt(s, i, r)
    ensures r == [] <==> forall k :: 0 <= k < |s| ==> IsSpace(s[k])
  {
    var i := ContentStart(s, 0);
    var j := ContentEnd(s, i, |s|);
    assert StrippedAt(s, i, s[i..j]);
    StrippedEmptyIffBlank(s, i, s[i..j]);
    s[i..j]
  }

  lemma StrippedEmptyIffBlank(s: string, i: int, r: string)
    requires StrippedAt(s, i, r)
    ensures r == [] <==> forall k :: 0 <= k < |s| ==> IsSpace(s[k])
  {
    if r != [] {
      assert s[i] == r[0];
    }
  }

  /** Python's `c.lower()` on the ASCII letters; every other character is kept. */
  function LowerChar(c: char): char
  {
    if 'A' <= c <= 'Z' then (c as int + 32) as char else c
  }

  /** Python's `s.lower()`, character by character. */
  function Lower(s: string): (r: string)
    ensures |r| == |s|
    ensures forall k :: 0 <= k < |s| ==> r[k] == LowerChar(s[k])
  {
    if s == [] then [] else [LowerChar(s[0])] + Lower(s[1..])
  }

  /** `w` occurs in `t` starting at index `i`. */
  ghost predicate OccursAt(w: string, t: string, i: int)
  {
    0 <= i && i + |w| <= |t| && t[i..i + |w|] == w
  }

  lemma OccursAtShift(w: string, t: string, i: int)
    requires t != [] && 1 <= i
    ensures OccursAt(w, t, i) <==> OccursAt(w, t[1..], i - 1)
  {
  }

  /** Python's `w in t` for strings: `w` is a contiguous substring of `t` (the empty string is in every string). */
  function Contains(t: string, w: string): (r: bool)
    ensures r <==> exists i :: OccursAt(w, t, i)
    decreases |t|
  {
    if |w| > |t| then
      false
    else if t[..|w|] == w then
      assert OccursAt(w, t, 0);
      true
    else
      var r := Contains(t[1..], w);
      assert r ==> exists i :: OccursAt(w, t, i) by {
        if r {
          var i :| OccursAt(w, t[1..], i);
          OccursAtShift(w, t, i + 1);
        }
      }
      assert (exists i :: OccursAt(w, t, i)) ==> r by {
        if i :| OccursAt(w, t, i) {
          assert i != 0;
          OccursAtShift(w, t, i);
        }
      }
      r
  }
}
