/**
 * The string tests the page relies on: the case-insensitive regular
 * expressions it applies to input names and to the head of a model file, and
 * `String.prototype.trim`. The expressions are compiled without the `u` flag.
 * Every pattern the page uses is ASCII, and without that flag no non-ASCII
 * character canonicalises to an ASCII one, so for these patterns case folding
 * only identifies an ASCII letter with its other case. Patterns with
 * non-ASCII letters (which would fold more widely) are not modelled. `\b`
 * separates `[A-Za-z0-9_]` from every other character.
 */
module Text {
  import opened Wrappers

  /** ASCII lower-casing; every other character is left alone. */
  function Lower(c: char): (l: char)
    ensures 'A' <= c <= 'Z' ==> l as int == c as int + 32
    ensures !('A' <= c <= 'Z') ==> l == c
  {
    if 'A' <= c <= 'Z' then (c as int + 32) as char else c
  }

  /**
   * Two characters fold to the same character exactly when they are equal or
   * are the same ASCII letter in its two cases.
   */
  lemma LowerEqIff(c: char, d: char)
    ensures Lower(c) == Lower(d) <==>
      c == d || ('A' <= c <= 'Z' && d as int == c as int + 32) || ('A' <= d <= 'Z' && c as int == d as int + 32)
  {
  }

  /** The literal pattern `p` matches `s` at offset `k`, ignoring ASCII case. */
  predicate MatchesAt(s: string, k: nat, p: string) {
    k + |p| <= |s| && forall j :: 0 <= j < |p| ==> Lower(s[k + j]) == Lower(p[j])
  }

  /** The first offset at or after `from` where `p` matches, scanning left to right. */
  function FirstMatch(s: string, p: string, from: nat): (r: Option<nat>)
    ensures r.Some? ==> from <= r.value && MatchesAt(s, r.value, p)
    ensures r.Some? ==> forall k: nat :: from <= k < r.value ==> !MatchesAt(s, k, p)
    ensures r.None? ==> forall k: nat :: from <= k ==> !MatchesAt(s, k, p)
    decreases |s| - from
  {
    if from + |p| > |s| then None
    else if MatchesAt(s, from, p) then Some(from)
    else FirstMatch(s, p, from + 1)
  }

  /** `/p/i.test(s)` for an ASCII pattern `p` without metacharacters. */
  predicate ContainsCI(s: string, p: string) {
    FirstMatch(s, p, 0).Some?
  }

  /** The search finds a match exactly when the pattern occurs somewhere, ignoring ASCII case. */
  lemma ContainsCIIff(s: string, p: string)
    ensures ContainsCI(s, p) <==> exists k: nat :: MatchesAt(s, k, p)
  {
  }

  /** The characters `\b` counts as word characters. */
  predicate IsWordChar(c: char) {
    'a' <= c <= 'z' || 'A' <= c <= 'Z' || '0' <= c <= '9' || c == '_'
  }

  /** `/t\b/i` matches at `k`: a `t` or `T` that no word character follows. */
  predicate TEndsWordAt(s: string, k: nat) {
    k < |s| && Lower(s[k]) == 't' && (k + 1 == |s| || !IsWordChar(s[k + 1]))
  }

  /** Scans for a `t` ending a word, from offset `from` on. */
  function TEndsWordFrom(s: string, from: nat): (b: bool)
    ensures b <==> exists k: nat :: from <= k && TEndsWordAt(s, k)
    decreases |s| - from
  {
    if from >= |s| then false
    else TEndsWordAt(s, from) || TEndsWordFrom(s, from + 1)
  }

  /** `/t\b/i.test(s)`. */
  predicate TEndsWord(s: string) {
    TEndsWordFrom(s, 0)
  }

  /** `/t\b/i` matches exactly when some `t` ends a word. */
  lemma TEndsWordIff(s: string)
    ensures TEndsWord(s) <==> exists k: nat :: TEndsWordAt(s, k)
  {
  }

  /** A pattern letter that occurs in neither case in `s` rules out every match. */
  lemma LetterAbsent(s: string, p: string, j: nat)
    requires j < |p| && 'a' <= p[j] <= 'z'
    requires p[j] !in s && (p[j] as int - 32) as char !in s
    ensures !ContainsCI(s, p)
  {
    ContainsCIIff(s, p);
    forall k: nat
      ensures !MatchesAt(s, k, p)
    {
      if k + |p| <= |s| {
        assert s[k + j] in s;
        assert Lower(s[k + j]) != Lower(p[j]);
      }
    }
  }

  /** A string without `t` or `T` has no `t` ending a word. */
  lemma NoT(s: string)
    requires 't' !in s && 'T' !in s
    ensures !TEndsWord(s)
  {
    TEndsWordIff(s);
    forall k: nat
      ensures !TEndsWordAt(s, k)
    {
      if k < |s| {
        assert s[k] in s;
      }
    }
  }

  /** ASCII lower-casing of a whole string. */
  function LowerString(s: string): (r: string)
    ensures |r| == |s| && forall i :: 0 <= i < |s| ==> r[i] == Lower(s[i])
  {
    seq(|s|, i requires 0 <= i < |s| => Lower(s[i]))
  }

  /** Matching ignores case: lower-casing the subject changes no match. */
  lemma MatchesAtLowered(s: string, k: nat, p: string)
    ensures MatchesAt(LowerString(s), k, p) <==> MatchesAt(s, k, p)
  {
    var l := LowerString(s);
    forall i | 0 <= i < |s|
      ensures Lower(l[i]) == Lower(s[i])
    {
      assert l[i] == Lower(s[i]);
    }
  }

  /** `/p/i.test` gives the same answer on a string and on its lower-cased copy. */
  lemma ContainsCILowered(s: string, p: string)
    ensures ContainsCI(LowerString(s), p) == ContainsCI(s, p)
  {
    ContainsCIIff(s, p);
    ContainsCIIff(LowerString(s), p);
    if ContainsCI(s, p) {
      var k: nat :| MatchesAt(s, k, p);
      MatchesAtLowered(s, k, p);
    }
    if ContainsCI(LowerString(s), p) {
      var k: nat :| MatchesAt(LowerString(s), k, p);
      MatchesAtLowered(s, k, p);
    }
  }

  /** `/t\b/i.test` gives the same answer on a string and on its lower-cased copy. */
  lemma TEndsWordLowered(s: string)
    ensures TEndsWord(LowerString(s)) == TEndsWord(s)
  {
    var l := LowerString(s);
    TEndsWordIff(s);
    TEndsWordIff(l);
    forall k: nat
      ensures TEndsWordAt(l, k) <==> TEndsWordAt(s, k)
    {
      if k + 1 < |s| {
        assert IsWordChar(l[k + 1]) <==> IsWordChar(s[k + 1]);
      }
    }
  }

  /** The characters `String.prototype.trim` removes: white space and line terminators. */
  predicate IsJsSpace(c: char) {
    c == '\t' || c == '\n' || c == '\U{000B}' || c == '\U{000C}' || c == '\r' || c == ' '
    || c == '\U{00A0}' || c == '\U{1680}' || ('\U{2000}' <= c <= '\U{200A}')
    || c == '\U{2028}' || c == '\U{2029}' || c == '\U{202F}' || c == '\U{205F}'
    || c == '\U{3000}' || c == '\U{FEFF}'
  }

  predicate AllSpace(s: string) {
    forall i :: 0 <= i < |s| ==> IsJsSpace(s[i])
  }

  /** A non-empty string is all white space exactly when its first character and the rest are. */
  lemma AllSpaceFirst(s: string)
    requires s != []
    ensures AllSpace(s) <==> IsJsSpace(s[0]) && AllSpace(s[1..])
  {
    assert forall i :: 0 < i < |s| ==> s[i] == s[1..][i - 1];
  }

  /** A non-empty string is all white space exactly when its last character and the rest are. */
  lemma AllSpaceLast(s: string)
    requires s != []
    ensures AllSpace(s) <==> IsJsSpace(s[|s| - 1]) && AllSpace(s[..|s| - 1])
  {
    assert forall i :: 0 <= i < |s| - 1 ==> s[i] == s[..|s| - 1][i];
  }

  /** Drops leading white space: the result is a suffix of `s` that starts with a non-space, or is empty. */
  function TrimStart(s: string): (r: string)
    ensures |r| <= |s| && r == s[|s| - |r|..]
    ensures r != [] ==> !IsJsSpace(r[0])
    ensures AllSpace(s[..|s| - |r|])
    ensures r == [] <==> AllSpace(s)
  {
    if s != [] && IsJsSpace(s[0]) then
      var r := TrimStart(s[1..]);
      AllSpaceFirst(s);
      var dropped := s[..|s| - |r|];
      assert dropped[1..] == s[1..][..|s| - 1 - |r|];
      AllSpaceFirst(dropped);
      r
    else s
  }

  /** Drops trailing white space: the result is a prefix of `s` that ends with a non-space, or is empty. */
  function TrimEnd(s: string): (r: string)
    ensures |r| <= |s| && r == s[..|r|]
    ensures r != [] ==> !IsJsSpace(r[|r| - 1])
    ensures AllSpace(s[|r|..])
    ensures r == [] <==> AllSpace(s)
  {
    if s != [] && IsJsSpace(s[|s| - 1]) then
      var init := s[..|s| - 1];
      var r := TrimEnd(init);
      AllSpaceLast(s);
      var dropped := s[|r|..];
      assert dropped[..|dropped| - 1] == init[|r|..];
      AllSpaceLast(dropped);
      r
    else s
  }

  /** `s.trim()`. */
  function Trim(s: string): string {
    TrimEnd(TrimStart(s))
  }

  /** A prompt trims to the empty string exactly when every character of it is white space. */
  lemma TrimEmptyIff(s: string)
    ensures Trim(s) == [] <==> AllSpace(s)
  {
    var t := TrimStart(s);
    if t != [] {
      assert !AllSpace(t) by { assert !IsJsSpace(t[0]); }
    }
  }

  /** Trimming leaves no white space at either end and keeps a contiguous part of the prompt. */
  lemma TrimEnds(s: string)
    ensures Trim(s) != [] ==> !IsJsSpace(Trim(s)[0]) && !IsJsSpace(Trim(s)[|Trim(s)| - 1])
    ensures exists a, b :: 0 <= a <= b <= |s| && Trim(s) == s[a..b] && AllSpace(s[..a]) && AllSpace(s[b..])
  {
    var t := TrimStart(s);
    var r := TrimEnd(t);
    var a := |s| - |t|;
    assert r == s[a..a + |r|];
  }
}
