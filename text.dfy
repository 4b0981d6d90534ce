/**
 * The three string primitives the chat engine uses on the text typed into
 * the terminal: `String.prototype.trim`, `String.prototype.toLowerCase`
 * (restricted to ASCII letters) and `String.prototype.includes`.
 */
module Text {

  /** A JavaScript WhiteSpace or LineTerminator code point, the set `trim` strips. */
  predicate IsSpace(c: char) {
    var n := c as int;
    (9 <= n <= 13) || n == 0x20 || n == 0xA0 || n == 0x1680 ||
    (0x2000 <= n <= 0x200A) || n == 0x2028 || n == 0x2029 ||
    n == 0x202F || n == 0x205F || n == 0x3000 || n == 0xFEFF
  }

  predicate AllSpace(s: string) {
    forall i :: 0 <= i < |s| ==> IsSpace(s[i])
  }

  /** Drops leading white space. */
  function TrimStart(s: string): string {
    if |s| > 0 && IsSpace(s[0]) then TrimStart(s[1..]) else s
  }

  /** The result of `TrimStart` is the suffix that starts at the first non-space. */
  lemma {:induction false} TrimStartSpec(s: string)
    ensures var r := TrimStart(s);
      |r| <= |s| && r == s[|s| - |r|..] && AllSpace(s[..|s| - |r|]) && (r == [] || !IsSpace(r[0]))
  {
    if |s| > 0 && IsSpace(s[0]) {
      TrimStartSpec(s[1..]);
      var r := TrimStart(s[1..]);
      assert s[1..][..|s| - 1 - |r|] == s[1..|s| - |r|];
    }
  }

  /** Drops trailing white space. */
  function TrimEnd(s: string): string {
    if |s| > 0 && IsSpace(s[|s| - 1]) then TrimEnd(s[..|s| - 1]) else s
  }

  /** The result of `TrimEnd` is the prefix that ends at the last non-space. */
  lemma {:induction false} TrimEndSpec(s: string)
    ensures var r := TrimEnd(s);
      |r| <= |s| && r == s[..|r|] && AllSpace(s[|r|..]) && (r == [] || !IsSpace(r[|r| - 1]))
  {
    if |s| > 0 && IsSpace(s[|s| - 1]) {
      TrimEndSpec(s[..|s| - 1]);
      var r := TrimEnd(s[..|s| - 1]);
      assert s[..|s| - 1][|r|..] + [s[|s| - 1]] == s[|r|..];
    }
  }

  /** `trim()`: strips white space at both ends. */
  function Trim(s: string): string {
    TrimEnd(TrimStart(s))
  }

  /** Trim keeps a contiguous slice of the input, strips only white space, and leaves none at either edge. */
  lemma TrimSlice(s: string)
    ensures var r := Trim(s);
      exists i, j :: 0 <= i <= j <= |s| && r == s[i..j] && AllSpace(s[..i]) && AllSpace(s[j..])
    ensures Trim(s) == [] || (!IsSpace(Trim(s)[0]) && !IsSpace(Trim(s)[|Trim(s)| - 1]))
  {
    var t := TrimStart(s);
    TrimStartSpec(s);
    var r := TrimEnd(t);
    TrimEndSpec(t);
    var i := |s| - |t|;
    var j := i + |r|;
    assert r == s[i..j];
    assert s[j..] == t[|r|..];
    if r != [] {
      assert r[0] == t[0];
    }
  }

  /** A string trims to nothing exactly when it consists of white space only. */
  lemma TrimEmptyIffBlank(s: string)
    ensures Trim(s) == [] <==> AllSpace(s)
  {
    var t := TrimStart(s);
    TrimStartSpec(s);
    TrimEndSpec(t);
    if Trim(s) == [] {
      assert t[0..] == t;
      assert s == s[..|s| - |t|] + t;
    } else {
      var k := |s| - |t|;
      assert !IsSpace(s[k]) by { assert s[k] == t[0]; }
    }
  }

  /** Trimming an already trimmed string changes nothing. */
  lemma TrimIdempotent(s: string)
    ensures Trim(Trim(s)) == Trim(s)
  {
    var r := Trim(s);
    TrimSlice(s);
    TrimmedIsFixed(r);
  }

  lemma TrimmedIsFixed(r: string)
    requires r == [] || (!IsSpace(r[0]) && !IsSpace(r[|r| - 1]))
    ensures Trim(r) == r
  {
    assert TrimStart(r) == r;
  }

  /** ASCII upper-case letters map to lower case; every other character is kept. */
  function LowerChar(c: char): (d: char)
    ensures 'A' <= c <= 'Z' ==> d as int == c as int + 32
    ensures !('A' <= c <= 'Z') ==> d == c
  {
    if 'A' <= c <= 'Z' then (c as int + 32) as char else c
  }

  /** `toLowerCase()` on the ASCII range. */
  function ToLower(s: string): string {
    seq(|s|, i requires 0 <= i < |s| => LowerChar(s[i]))
  }

  /** The result of lower-casing holds no upper-case ASCII letter, so lower-casing twice is lower-casing once. */
  lemma ToLowerIdempotent(s: string)
    ensures |ToLower(s)| == |s|
    ensures forall i :: 0 <= i < |s| ==> ToLower(s)[i] == LowerChar(s[i]) && !('A' <= ToLower(s)[i] <= 'Z')
    ensures ToLower(ToLower(s)) == ToLower(s)
  {
  }

  /** Lower-casing never turns white space into a letter nor a letter into white space. */
  lemma LowerCharKeepsSpace(c: char)
    ensures IsSpace(LowerChar(c)) <==> IsSpace(c)
  {
  }

  /** The normal form the engine matches against: `input.trim().toLowerCase()`. */
  function Normalize(s: string): string {
    ToLower(Trim(s))
  }

  /** Normalizing a normalized string changes nothing. */
  lemma NormalizeIdempotent(s: string)
    ensures Normalize(Normalize(s)) == Normalize(s)
  {
    var t := Trim(s);
    var l := ToLower(t);
    TrimSlice(s);
    if l != [] {
      LowerCharKeepsSpace(t[0]);
      LowerCharKeepsSpace(t[|t| - 1]);
    }
    TrimmedIsFixed(l);
    ToLowerIdempotent(t);
  }

  /** `p` occurs in `s` starting at index `i`. */
  predicate OccursAt(s: string, p: string, i: int) {
    0 <= i && i + |p| <= |s| && s[i..i + |p|] == p
  }

  /** `s.includes(p)`: the pattern occurs at some position of the text. */
  predicate Contains(s: string, p: string) {
    exists i | 0 <= i <= |s| - |p| :: OccursAt(s, p, i)
  }

  /** The left-to-right search that `includes` performs: try a match here, else move one character on. */
  predicate Includes(s: string, p: string)
    decreases |s|
  {
    p <= s || (|s| > 0 && Includes(s[1..], p))
  }

  /** The search succeeds exactly when the pattern occurs somewhere. */
  lemma {:induction false} IncludesIffContains(s: string, p: string)
    ensures Includes(s, p) <==> Contains(s, p)
    decreases |s|
  {
    if p <= s {
      assert OccursAt(s, p, 0);
    } else if |s| == 0 {
      assert forall i :: !OccursAt(s, p, i);
    } else {
      IncludesIffContains(s[1..], p);
      if Includes(s[1..], p) {
        var i :| OccursAt(s[1..], p, i);
        assert OccursAt(s[1..], p, i);
        assert s[i + 1..i + 1 + |p|] == s[1..][i..i + |p|];
        assert OccursAt(s, p, i + 1);
      } else {
        NoMatchFurtherOn(s, p);
      }
    }
  }

  /** A pattern that is not a prefix and does not occur after the first character does not occur at all. */
  lemma NoMatchFurtherOn(s: string, p: string)
    requires |s| > 0 && !(p <= s) && !Contains(s[1..], p)
    ensures !Contains(s, p)
  {
    forall i
      ensures !OccursAt(s, p, i)
    {
      if i == 0 && |p| <= |s| {
        assert s[..|p|] != p;
      } else if 1 <= i && i + |p| <= |s| {
        assert s[1..][i - 1..i - 1 + |p|] == s[i..i + |p|];
        assert !OccursAt(s[1..], p, i - 1);
      }
    }
  }

  /** Matching is plain substring containment: a pattern found inside a word is found in any text around it. */
  lemma ContainsInContext(u: string, s: string, v: string, p: string)
    requires Contains(s, p)
    ensures Contains(u + s + v, p)
  {
    var i :| OccursAt(s, p, i);
    assert OccursAt(s, p, i);
    var w := u + s + v;
    assert w[|u| + i..|u| + i + |p|] == s[i..i + |p|];
    assert OccursAt(w, p, |u| + i);
  }

  /** A pattern placed between any two strings is found. */
  lemma FoundBetween(u: string, p: string, v: string)
    ensures Contains(u + p + v, p)
  {
    assert OccursAt(p, p, 0);
    ContainsInContext(u, p, v, p);
  }

  /** Nothing longer than the text occurs in it; in particular the empty text contains no keyword. */
  lemma ContainsNeedsRoom(s: string, p: string)
    requires |s| < |p|
    ensures !Contains(s, p)
  {
  }

  /** A pattern with a character the text lacks does not occur in it. */
  lemma MissingChar(s: string, p: string, k: nat)
    requires k < |p| && p[k] !in s
    ensures !Contains(s, p)
  {
    forall i
      ensures !OccursAt(s, p, i)
    {
      if 0 <= i && i + |p| <= |s| {
        assert s[i..i + |p|][k] == s[i + k];
      }
    }
  }

  /** When the pattern's first character is missing from `u`, any occurrence in `u + v` lies within `v`. */
  lemma OccurrenceAfter(u: string, v: string, p: string)
    requires |p| > 0 && p[0] !in u
    ensures Contains(u + v, p) ==> Contains(v, p)
  {
    var w := u + v;
    forall i | i < |u|
      ensures !OccursAt(w, p, i)
    {
      if 0 <= i && i + |p| <= |w| {
        assert w[i..i + |p|][0] == u[i];
      }
    }
    forall i | |u| <= i && OccursAt(w, p, i)
      ensures OccursAt(v, p, i - |u|)
    {
      assert v[i - |u|..i - |u| + |p|] == w[i..i + |p|];
    }
  }

  /** A character where no match starts can be skipped. */
  lemma SkipNonMatch(c: char, v: string, p: string)
    requires !OccursAt([c] + v, p, 0)
    ensures Contains([c] + v, p) ==> Contains(v, p)
  {
    OccurrenceAfter([], [c] + v, p);
    var w := [c] + v;
    forall i | OccursAt(w, p, i)
      ensures OccursAt(v, p, i - 1)
    {
      assert w[i..i + |p|] == v[i - 1..i - 1 + |p|];
    }
  }
}
