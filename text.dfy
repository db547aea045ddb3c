/**
 * The two string operations the Word Mine validator applies to every guess:
 * JavaScript's `String.prototype.toLowerCase` (on the ASCII letters) and
 * `String.prototype.trim` (on the ECMAScript white-space and line-terminator
 * characters).
 */
module Text {

  /** Lower-cases one character; only 'A'..'Z' are affected. */
  function LowerChar(c: char): (r: char)
    ensures 'A' <= c <= 'Z' ==> 'a' <= r <= 'z' && r as int == c as int + 32
    ensures !('A' <= c <= 'Z') ==> r == c
    ensures !('A' <= r <= 'Z')
  {
    if 'A' <= c <= 'Z' then (c as int + 32) as char else c
  }

  /** `s.toLowerCase()`: the string with every character lower-cased. */
  function Lower(s: string): (r: string)
    ensures |r| == |s|
    ensures forall i :: 0 <= i < |s| ==> r[i] == LowerChar(s[i])
  {
    seq(|s|, i requires 0 <= i < |s| => LowerChar(s[i]))
  }

  /** A string that `toLowerCase` leaves as it is. */
  predicate IsLower(s: string) {
    forall i :: 0 <= i < |s| ==> !('A' <= s[i] <= 'Z')
  }

  lemma LowerIsLower(s: string)
    ensures IsLower(Lower(s))
  {
  }

  /** Lower-casing is idempotent, and fixes exactly the lower-case strings. */
  lemma LowerFixes(s: string)
    ensures Lower(s) == s <==> IsLower(s)
    ensures Lower(Lower(s)) == Lower(s)
  {
    if IsLower(s) {
      assert forall i :: 0 <= i < |s| ==> Lower(s)[i] == s[i];
    }
    if Lower(s) == s {
      LowerIsLower(s);
    }
    LowerIsLower(s);
    var t := Lower(s);
    assert forall i :: 0 <= i < |t| ==> Lower(t)[i] == t[i];
  }

  /** The characters `trim` removes: WhiteSpace and LineTerminator of ECMAScript. */
  predicate IsWhitespace(c: char) {
    c == ' ' || c == '\t' || c == '\n' || c == '\r' || c == '\U{000B}' || c == '\U{000C}'
    || c == '\U{00A0}' || c == '\U{1680}' || ('\U{2000}' <= c <= '\U{200A}')
    || c == '\U{2028}' || c == '\U{2029}' || c == '\U{202F}' || c == '\U{205F}'
    || c == '\U{3000}' || c == '\U{FEFF}'
  }

  /** Drops the leading white space: the longest white prefix is removed. */
  function TrimStart(s: string): (r: string)
    ensures |r| <= |s| && r == s[|s| - |r|..]
    ensures forall i :: 0 <= i < |s| - |r| ==> IsWhitespace(s[i])
    ensures r != [] ==> !IsWhitespace(r[0])
  {
    if s != [] && IsWhitespace(s[0]) then TrimStart(s[1..]) else s
  }

  /** Drops the trailing white space: the longest white suffix is removed. */
  function TrimEnd(s: string): (r: string)
    ensures |r| <= |s| && r == s[..|r|]
    ensures forall i :: |r| <= i < |s| ==> IsWhitespace(s[i])
    ensures r != [] ==> !IsWhitespace(r[|r| - 1])
  {
    if s != [] && IsWhitespace(s[|s| - 1]) then TrimEnd(s[..|s| - 1]) else s
  }

  /** `s.trim()`. */
  function Trim(s: string): (r: string)
    ensures |r| <= |s|
    ensures Trimmed(r)
  {
    TrimEnd(TrimStart(s))
  }

  /** Every character of `s` is white space. */
  predicate AllWhite(s: string) {
    forall i :: 0 <= i < |s| ==> IsWhitespace(s[i])
  }

  /** What `TrimStart` drops is white. */
  lemma TrimStartDropsWhite(s: string)
    ensures AllWhite(s[..|s| - |TrimStart(s)|])
  {
    var a := |s| - |TrimStart(s)|;
    assert forall i :: 0 <= i < a ==> s[..a][i] == s[i];
  }

  /** What `TrimEnd` drops is white. */
  lemma TrimEndDropsWhite(t: string)
    ensures AllWhite(t[|TrimEnd(t)|..])
  {
    var b := |TrimEnd(t)|;
    assert forall i :: 0 <= i < |t| - b ==> t[b..][i] == t[b + i];
  }

  /** `trim` drops only white space, from each end: its result is the slice
      `s[a..b]` with `s[..a]` and `s[b..]` white (and, by the contract of `Trim`,
      nothing white left at either end of the slice). */
  lemma TrimSlice(s: string)
    ensures exists a, b :: 0 <= a <= b <= |s| && Trim(s) == s[a..b] && AllWhite(s[..a]) && AllWhite(s[b..])
  {
    var t := TrimStart(s);
    var u := TrimEnd(t);
    var a := |s| - |t|;
    var b := a + |u|;
    TrimStartDropsWhite(s);
    TrimEndDropsWhite(t);
    assert t == s[a..] && u == t[..|u|];
    assert s[a..][..|u|] == s[a..b];
    assert s[b..] == t[|u|..];
    assert Trim(s) == s[a..b] && AllWhite(s[..a]) && AllWhite(s[b..]);
  }

  /** Trimming is idempotent. */
  lemma TrimIdempotent(s: string)
    ensures Trim(Trim(s)) == Trim(s)
  {
    var r := Trim(s);
    TrimSlice(s);
    assert TrimStart(r) == r;
    assert TrimEnd(r) == r;
  }

  /** The guess normalisation of the Word Mine: `input.toLowerCase().trim()`. */
  function Normalize(s: string): (r: string)
    ensures |r| <= |s|
    ensures Trimmed(r)
  {
    Trim(Lower(s))
  }

  /** A string with no white space at either end. */
  predicate Trimmed(s: string) {
    s == [] || (!IsWhitespace(s[0]) && !IsWhitespace(s[|s| - 1]))
  }

  /** A trimmed string is its own trim. */
  lemma TrimmedFixed(s: string)
    requires Trimmed(s)
    ensures Trim(s) == s
  {
    assert TrimStart(s) == s;
  }

  /** A slice of a lower-case string is lower-case. */
  lemma SliceIsLower(s: string, a: int, b: int)
    requires 0 <= a <= b <= |s| && IsLower(s)
    ensures IsLower(s[a..b])
  {
  }

  /** A normalised string is lower-case and trimmed. */
  lemma NormalizeShape(s: string)
    ensures IsLower(Normalize(s)) && Trimmed(Normalize(s))
  {
    var l := Lower(s);
    LowerIsLower(s);
    TrimSlice(l);
    var a, b :| 0 <= a <= b <= |l| && Trim(l) == l[a..b];
    SliceIsLower(l, a, b);
  }

  /** Normalisation leaves a lower-case, trimmed string as it is. */
  lemma NormalFixed(w: string)
    requires IsLower(w) && Trimmed(w)
    ensures Normalize(w) == w
  {
    LowerFixes(w);
    TrimmedFixed(w);
  }

  /** The strings normalisation fixes are exactly the lower-case, trimmed ones;
      in particular normalising twice is normalising once. */
  lemma NormalizeFixes(w: string)
    ensures Normalize(w) == w <==> IsLower(w) && Trimmed(w)
    ensures Normalize(Normalize(w)) == Normalize(w)
  {
    if IsLower(w) && Trimmed(w) {
      NormalFixed(w);
    }
    NormalizeShape(w);
    NormalFixed(Normalize(w));
  }
}
