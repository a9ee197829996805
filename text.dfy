/**
 * The string primitives of Go's standard library that the authorization
 * pipeline relies on: strings.TrimSpace (with unicode.IsSpace) and
 * strings.ToLower. Strings are sequences of runes.
 */
module Text {

  /** unicode.IsSpace: the runes with the Unicode White_Space property. */
  predicate IsSpace(c: char) {
    var n := c as int;
    if n <= 0x20 then n == 0x20 || 0x09 <= n <= 0x0D
    else if n < 0x85 then false
    else WideSpace(n)
  }

  /** The White_Space runes above U+0084. */
  predicate WideSpace(n: int) {
    || n == 0x85 || n == 0xA0 || n == 0x1680
    || 0x2000 <= n <= 0x200A
    || n == 0x2028 || n == 0x2029 || n == 0x202F || n == 0x205F || n == 0x3000
  }

  /** Neither end of `s` is white space. */
  predicate IsTrimmed(s: string) {
    s == [] || (!IsSpace(s[0]) && !IsSpace(s[|s| - 1]))
  }

  /** Every rune of `s` is white space. */
  predicate AllSpace(s: string) {
    s == [] || (IsSpace(s[0]) && AllSpace(s[1..]))
  }

  /** AllSpace read rune by rune. */
  lemma {:induction false} AllSpaceMeans(s: string)
    ensures AllSpace(s) <==> forall i :: 0 <= i < |s| ==> IsSpace(s[i])
  {
    if s != [] {
      AllSpaceMeans(s[1..]);
      assert forall i :: 1 <= i < |s| ==> s[1..][i - 1] == s[i];
    }
  }

  /** Two runs of white space make one. */
  lemma {:induction false} AllSpaceConcat(x: string, y: string)
    requires AllSpace(x) && AllSpace(y)
    ensures AllSpace(x + y)
  {
    if x != [] {
      AllSpaceConcat(x[1..], y);
      assert (x + y)[1..] == x[1..] + y;
    } else {
      assert x + y == y;
    }
  }

  /** Drops the leading white space: the longest suffix of `s` that does not start with a space. */
  function TrimLeft(s: string): (r: string)
    ensures |r| <= |s| && r == s[|s| - |r|..]
    ensures AllSpace(s[..|s| - |r|])
    ensures r == [] || !IsSpace(r[0])
  {
    if s != [] && IsSpace(s[0]) then
      var r := TrimLeft(s[1..]);
      assert s[..|s| - |r|][1..] == s[1..][..|s| - 1 - |r|];
      r
    else s
  }

  /** Drops the trailing white space: the longest prefix of `s` that does not end with a space. */
  function TrimRight(s: string): (r: string)
    ensures |r| <= |s| && r == s[..|r|]
    ensures AllSpace(s[|r|..])
    ensures r == [] || !IsSpace(r[|r| - 1])
  {
    if s != [] && IsSpace(s[|s| - 1]) then
      var r := TrimRight(s[..|s| - 1]);
      assert s[|r|..] == s[..|s| - 1][|r|..] + [s[|s| - 1]];
      AllSpaceConcat(s[..|s| - 1][|r|..], [s[|s| - 1]]);
      r
    else s
  }

  /** strings.TrimSpace: the white space at both ends removed; a string already trimmed is returned unchanged. */
  function TrimSpace(s: string): (r: string)
    ensures IsTrimmed(r)
    ensures IsTrimmed(s) ==> r == s
  {
    var t := TrimLeft(s);
    assert IsTrimmed(s) && s != [] ==> t == s;
    var r := TrimRight(t);
    assert r != [] ==> r[0] == t[0];
    r
  }

  /**
   * TrimSpace removes white space and nothing else: `s` is a run of white
   * space, then TrimSpace(s), then another run of white space.
   */
  lemma TrimSpaceSplit(s: string) returns (lead: string, trail: string)
    ensures s == lead + TrimSpace(s) + trail
    ensures AllSpace(lead) && AllSpace(trail)
  {
    lead := TrimLeftSplit(s);
    trail := TrimRightSplit(TrimLeft(s));
    Assoc(lead, TrimRight(TrimLeft(s)), trail);
  }

  /** `s` is a run of white space followed by TrimLeft(s). */
  lemma TrimLeftSplit(s: string) returns (lead: string)
    ensures s == lead + TrimLeft(s) && AllSpace(lead)
  {
    lead := s[..|s| - |TrimLeft(s)|];
    assert s == lead + s[|s| - |TrimLeft(s)|..];
  }

  /** `s` is TrimRight(s) followed by a run of white space. */
  lemma TrimRightSplit(s: string) returns (trail: string)
    ensures s == TrimRight(s) + trail && AllSpace(trail)
  {
    trail := s[|TrimRight(s)|..];
    assert s == s[..|TrimRight(s)|] + trail;
  }

  /**
   * Concatenation regroups. Kept as a lemma of its own: proved inside
   * TrimSpaceSplit, beside the facts about both trims, it is too costly.
   */
  lemma Assoc(a: string, b: string, c: string)
    ensures a + (b + c) == a + b + c
  {
  }

  /** unicode.ToLower restricted to ASCII: 'A'..'Z' become 'a'..'z', every other rune is kept. */
  function LowerChar(c: char): char {
    if 'A' <= c <= 'Z' then (c as int + 32) as char else c
  }

  /** strings.ToLower over ASCII letters. */
  function Lower(s: string): (r: string)
    ensures |r| == |s|
    ensures forall i :: 0 <= i < |s| ==> r[i] == LowerChar(s[i])
  {
    if s == [] then [] else [LowerChar(s[0])] + Lower(s[1..])
  }
}
