/**
 * Whitespace trimming and blank tests as the two stacks perform them:
 * JavaScript's `String.prototype.trim` and Kotlin's `trim()` / `isBlank()`.
 * The two differ only in which characters count as whitespace.
 */
module Text {

  /** ECMAScript WhiteSpace and LineTerminator code points (what `trim()` strips). */
  predicate IsJsWhitespace(c: char) {
    c == '\t' || c == '\n' || c == '\U{000B}' || c == '\U{000C}' || c == '\r' || c == ' '
    || c == '\U{00A0}' || c == '\U{1680}' || ('\U{2000}' <= c <= '\U{200A}')
    || c == '\U{2028}' || c == '\U{2029}' || c == '\U{202F}' || c == '\U{205F}'
    || c == '\U{3000}' || c == '\U{FEFF}'
  }

  /** Kotlin's `Char.isWhitespace()` on the JVM: Java whitespace or a Unicode space separator. */
  predicate IsKotlinWhitespace(c: char) {
    c == '\t' || c == '\n' || c == '\U{000B}' || c == '\U{000C}' || c == '\r'
    || ('\U{001C}' <= c <= '\U{001F}') || c == ' '
    || c == '\U{00A0}' || c == '\U{1680}' || ('\U{2000}' <= c <= '\U{200A}')
    || c == '\U{2028}' || c == '\U{2029}' || c == '\U{202F}' || c == '\U{205F}'
    || c == '\U{3000}'
  }

  /** Every character of `s` is whitespace (in particular, the empty string is blank). */
  predicate IsBlank(s: string, ws: char -> bool) {
    forall i :: 0 <= i < |s| ==> ws(s[i])
  }

  /** Drops the leading whitespace: a suffix of `s` that is empty or starts with a non-whitespace character. */
  function TrimStart(s: string, ws: char -> bool): (r: string)
    ensures |r| <= |s| && r == s[|s| - |r|..]
    ensures IsBlank(s[..|s| - |r|], ws)
    ensures r != [] ==> !ws(r[0])
  {
    if s != [] && ws(s[0]) then
      var r := TrimStart(s[1..], ws);
      assert s[1..][|s| - 1 - |r|..] == s[|s| - |r|..];
      assert forall i :: 1 <= i < |s| - |r| ==> s[i] == s[1..][..|s| - 1 - |r|][i - 1];
      r
    else s
  }

  /** Drops the trailing whitespace: a prefix of `s` that is empty or ends with a non-whitespace character. */
  function TrimEnd(s: string, ws: char -> bool): (r: string)
    ensures |r| <= |s| && r == s[..|r|]
    ensures IsBlank(s[|r|..], ws)
    ensures r != [] ==> !ws(r[|r| - 1])
  {
    if s != [] && ws(s[|s| - 1]) then
      var r := TrimEnd(s[..|s| - 1], ws);
      assert s[..|s| - 1][..|r|] == s[..|r|];
      assert forall i :: |r| <= i < |s| - 1 ==> s[i] == s[..|s| - 1][|r|..][i - |r|];
      r
    else s
  }

  /** Drops whitespace at both ends. */
  function Trim(s: string, ws: char -> bool): string {
    TrimEnd(TrimStart(s, ws), ws)
  }

  /**
   * The trimmed text is a contiguous slice of the input, with only whitespace
   * cut away on either side and non-whitespace at both of its own ends.
   */
  lemma TrimIsSlice(s: string, ws: char -> bool) returns (i: nat, j: nat)
    ensures i <= j <= |s| && Trim(s, ws) == s[i..j]
    ensures IsBlank(s[..i], ws) && IsBlank(s[j..], ws)
    ensures Trim(s, ws) != [] ==> !ws(Trim(s, ws)[0]) && !ws(Trim(s, ws)[|Trim(s, ws)| - 1])
  {
    var t := TrimStart(s, ws);
    var r := TrimEnd(t, ws);
    i := |s| - |t|;
    j := i + |r|;
    assert r == s[i..j];
    assert s[j..] == t[|r|..];
  }

  /** The trimmed text is empty exactly when the input is blank. */
  lemma TrimEmptyIffBlank(s: string, ws: char -> bool)
    ensures Trim(s, ws) == [] <==> IsBlank(s, ws)
  {
    var t := TrimStart(s, ws);
    var i := |s| - |t|;
    assert t == s[i..];
    if Trim(s, ws) == [] {
      assert IsBlank(t[0..], ws);
      forall k | 0 <= k < |s| ensures ws(s[k]) {
        if k < i {
          assert s[k] == s[..i][k];
        } else {
          assert s[k] == t[k - i];
        }
      }
    } else if t != [] {
      assert t[0] == s[i];
    }
  }

  /** Trimming twice is trimming once. */
  lemma TrimIdempotent(s: string, ws: char -> bool)
    ensures Trim(Trim(s, ws), ws) == Trim(s, ws)
  {
    var r := Trim(s, ws);
    var i, j := TrimIsSlice(s, ws);
    if r != [] {
      assert TrimStart(r, ws) == r;
      assert TrimEnd(r, ws) == r;
    }
  }

  function JsTrim(s: string): string { Trim(s, IsJsWhitespace) }
  function KotlinTrim(s: string): string { Trim(s, IsKotlinWhitespace) }
  predicate KotlinIsBlank(s: string) { IsBlank(s, IsKotlinWhitespace) }
}
