/**
 * The two pieces of JavaScript string semantics the credential forms rely
 * on: `String.prototype.trim` and `String.prototype.length`, which counts
 * UTF-16 code units rather than characters.
 */
module Text {

  /**
   * ECMAScript WhiteSpace and LineTerminator code points: tab, vertical
   * tab, form feed, the byte order mark, every space separator (Zs), and
   * line feed, carriage return, line and paragraph separator.
   */
  function IsWhitespace(c: char): (b: bool)
    ensures c as int < 0x80 ==>
              (b <==> c == '\t' || c == '\n' || c == '\U{000B}' || c == '\U{000C}' || c == '\r' || c == ' ')
    ensures b ==> c as int <= 0xFFFF
  {
    || c == '\t' || c == '\n' || c == '\U{000B}' || c == '\U{000C}' || c == '\r'
    || c == ' ' || c == '\U{00A0}' || c == '\U{1680}'
    || ('\U{2000}' <= c <= '\U{200A}')
    || c == '\U{2028}' || c == '\U{2029}' || c == '\U{202F}' || c == '\U{205F}'
    || c == '\U{3000}' || c == '\U{FEFF}'
  }

  /** Every character of `s` is whitespace (vacuously so for the empty string). */
  predicate IsBlank(s: string)
  {
    forall i :: 0 <= i < |s| ==> IsWhitespace(s[i])
  }

  /** The first index at or after `lo` that holds a non-whitespace character, or `|s|`. */
  function SkipSpace(s: string, lo: nat): (k: nat)
    requires lo <= |s|
    ensures lo <= k <= |s|
    ensures forall i :: lo <= i < k ==> IsWhitespace(s[i])
    ensures k < |s| ==> !IsWhitespace(s[k])
    decreases |s| - lo
  {
    if lo == |s| || !IsWhitespace(s[lo]) then lo else SkipSpace(s, lo + 1)
  }

  /** The end of `s[lo..hi]` once its trailing whitespace is dropped. */
  function DropTrailingSpace(s: string, lo: nat, hi: nat): (e: nat)
    requires lo <= hi <= |s|
    ensures lo <= e <= hi
    ensures forall i :: e <= i < hi ==> IsWhitespace(s[i])
    ensures lo < e ==> !IsWhitespace(s[e - 1])
    decreases hi - lo
  {
    if lo < hi && IsWhitespace(s[hi - 1]) then DropTrailingSpace(s, lo, hi - 1) else hi
  }

  /** `s.trim()`: `s` without its leading and trailing whitespace. */
  function Trim(s: string): (r: string)
    ensures |r| <= |s|
    ensures r == [] <==> IsBlank(s)
    ensures r != [] ==> !IsWhitespace(r[0]) && !IsWhitespace(r[|r| - 1])
    ensures exists a, e :: 0 <= a <= e <= |s| && r == s[a..e] && IsBlank(s[..a]) && IsBlank(s[e..])
  {
    var a := SkipSpace(s, 0);
    var e := DropTrailingSpace(s, a, |s|);
    assert IsBlank(s[..a]) && IsBlank(s[e..]);
    s[a..e]
  }

  /** A string without surrounding whitespace is its own trim. */
  lemma TrimOfTrimmed(s: string)
    requires s == [] || (!IsWhitespace(s[0]) && !IsWhitespace(s[|s| - 1]))
    ensures Trim(s) == s
  {
  }

  /** Number of UTF-16 code units: code points above U+FFFF take a surrogate pair. */
  function Utf16Length(s: string): (n: nat)
    ensures |s| <= n <= 2 * |s|
    ensures |s| == 1 ==> n == (if s[0] as int > 0xFFFF then 2 else 1)
  {
    if s == [] then 0
    else (if s[0] as int > 0xFFFF then 2 else 1) + Utf16Length(s[1..])
  }

  /** Within the Basic Multilingual Plane, `.length` is the character count. */
  lemma {:induction false} Utf16LengthOfBmp(s: string)
    requires forall i :: 0 <= i < |s| ==> s[i] as int <= 0xFFFF
    ensures Utf16Length(s) == |s|
    decreases |s|
  {
    if s != [] {
      Utf16LengthOfBmp(s[1..]);
    }
  }

  /** `.length` is additive: together with the one-character case this fixes every count. */
  lemma {:induction false} Utf16LengthAppend(a: string, b: string)
    ensures Utf16Length(a + b) == Utf16Length(a) + Utf16Length(b)
    decreases |a|
  {
    if a == [] {
      assert a + b == b;
    } else {
      assert (a + b)[0] == a[0];
      assert (a + b)[1..] == a[1..] + b;
      Utf16LengthAppend(a[1..], b);
    }
  }

  /** One more astral character adds two code units, any other character one. */
  lemma Utf16LengthSnoc(s: string, c: char)
    ensures Utf16Length(s + [c]) == Utf16Length(s) + (if c as int > 0xFFFF then 2 else 1)
  {
    Utf16LengthAppend(s, [c]);
  }
}
