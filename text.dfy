/** The JavaScript string operations the handlers rely on: `trim`, `startsWith`,
    `s || fallback`, and the case-insensitive `contains` of the database filter. */
module Text {
  import opened Wrappers

  /** The characters JavaScript's `trim` removes: WhiteSpace and LineTerminator. */
  predicate IsSpace(c: char) {
    || c == '\t' || c == '\n' || c == '\U{000B}' || c == '\U{000C}' || c == '\r' || c == ' '
    || c == '\U{00A0}' || c == '\U{1680}' || ('\U{2000}' <= c <= '\U{200A}')
    || c == '\U{2028}' || c == '\U{2029}' || c == '\U{202F}' || c == '\U{205F}'
    || c == '\U{3000}' || c == '\U{FEFF}'
  }

  /** Every character of `s` is white space (the empty string included). */
  ghost predicate AllSpace(s: string) {
    forall k :: 0 <= k < |s| ==> IsSpace(s[k])
  }

  /** Number of leading white-space characters. */
  function LeadingSpace(s: string): (i: nat)
    ensures i <= |s|
    ensures AllSpace(s[..i])
    ensures i < |s| ==> !IsSpace(s[i])
  {
    if s == [] || !IsSpace(s[0]) then 0
    else
      var i := 1 + LeadingSpace(s[1..]);
      assert s[..i] == [s[0]] + s[1..][..i - 1];
      i
  }

  /** Length of `s` once its trailing white space is cut off. */
  function TrailingCut(s: string): (j: nat)
    ensures j <= |s|
    ensures AllSpace(s[j..])
    ensures j > 0 ==> !IsSpace(s[j - 1])
  {
    if s == [] || !IsSpace(s[|s| - 1]) then |s|
    else
      var j := TrailingCut(s[..|s| - 1]);
      assert s[j..] == s[..|s| - 1][j..] + [s[|s| - 1]];
      j
  }

  /** JavaScript `String.prototype.trim`. */
  function Trim(s: string): (t: string)
  {
    var u := s[LeadingSpace(s)..];
    u[..TrailingCut(u)]
  }

  /** `s.trim()` is falsy. */
  predicate IsBlank(s: string) {
    Trim(s) == ""
  }

  /** Trim keeps a contiguous middle part, cuts only white space, and leaves no
      white space at either end of what it keeps. */
  lemma TrimIsMiddle(s: string)
    ensures exists i, j :: 0 <= i <= j <= |s| && Trim(s) == s[i..j] && AllSpace(s[..i]) && AllSpace(s[j..])
    ensures Trim(s) != "" ==> !IsSpace(Trim(s)[0]) && !IsSpace(Trim(s)[|Trim(s)| - 1])
  {
    var i := LeadingSpace(s);
    var u := s[i..];
    var j := TrailingCut(u);
    assert Trim(s) == s[i..i + j];
    assert s[i + j..] == u[j..];
  }

  /** A string is blank exactly when all of its characters are white space. */
  lemma BlankIffAllSpace(s: string)
    ensures IsBlank(s) <==> AllSpace(s)
  {
    var i := LeadingSpace(s);
    if i == |s| {
      assert s[..i] == s;
      assert s[i..] == [];
    } else {
      var u := s[i..];
      assert u[0] == s[i];
      var j := TrailingCut(u);
      assert j != 0 by {
        assert u[0..] == u;
      }
      assert Trim(s) == u[..j];
    }
  }

  /** Trimming twice is trimming once. */
  lemma TrimIdempotent(s: string)
    ensures Trim(Trim(s)) == Trim(s)
  {
    var t := Trim(s);
    TrimIsMiddle(s);
    if t != [] {
      assert LeadingSpace(t) == 0;
      assert t[0..] == t;
      assert TrailingCut(t) == |t|;
    }
  }

  /** JavaScript `s.startsWith(p)`. */
  predicate StartsWith(s: string, p: string) {
    |p| <= |s| && s[..|p|] == p
  }

  /** `value || fallback` for a string that may be `null`: the empty string falls back too. */
  function OrElse(value: Option<string>, fallback: string): string {
    if value.Some? && value.value != "" then value.value else fallback
  }

  /** `value || null` for a string that may be absent: the empty string becomes absent. */
  function NonEmpty(value: Option<string>): Option<string> {
    if value.Some? && value.value != "" then value else None
  }

  /** A character outside the Basic Multilingual Plane, which UTF-16 writes
      as a surrogate pair. */
  predicate Astral(c: char) {
    c as int > 0xFFFF
  }

  /** JavaScript `s.length`: the number of UTF-16 code units, one per
      character of the Basic Multilingual Plane and two per astral character. */
  function Utf16Length(s: string): (n: nat)
    ensures |s| <= n <= 2 * |s|
    ensures n == |s| <==> forall k :: 0 <= k < |s| ==> !Astral(s[k])
  {
    if s == [] then 0 else (if Astral(s[0]) then 2 else 1) + Utf16Length(s[1..])
  }

  /** A lone astral character, an emoji say, is two code units long. */
  lemma AstralLength(c: char)
    requires Astral(c)
    ensures Utf16Length([c]) == 2
  {
    assert [c][1..] == [];
  }

  /** ASCII lower-casing of one character. */
  function LowerChar(c: char): char {
    if 'A' <= c <= 'Z' then (c as int + 32) as char else c
  }

  function Lower(s: string): (r: string)
    ensures |r| == |s|
    ensures forall k :: 0 <= k < |s| ==> r[k] == LowerChar(s[k])
  {
    if s == [] then [] else [LowerChar(s[0])] + Lower(s[1..])
  }

  /** `needle` occurs somewhere inside `hay`. */
  predicate Contains(hay: string, needle: string)
    decreases |hay|
  {
    StartsWith(hay, needle) || (hay != [] && Contains(hay[1..], needle))
  }

  /** The database's case-insensitive `contains` filter. */
  predicate ContainsIgnoreCase(hay: string, needle: string) {
    Contains(Lower(hay), Lower(needle))
  }
}
