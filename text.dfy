/** The string operations the source applies to user input: `trim`, the digit
    filter `replace(/\D/g, '')` and `toUpperCase`. */
module Text {

  /** The characters `String.prototype.trim` strips: ECMAScript WhiteSpace and
      LineTerminator code points. */
  predicate IsWhitespace(c: char)
  {
    || c == ' ' || c == '\t' || c == '\n' || c == '\r'
    || c == '\U{B}' || c == '\U{C}' || c == '\U{A0}' || c == '\U{1680}'
    || ('\U{2000}' <= c <= '\U{200A}')
    || c == '\U{2028}' || c == '\U{2029}' || c == '\U{202F}' || c == '\U{205F}'
    || c == '\U{3000}' || c == '\U{FEFF}'
  }

  /** Every character of `s` at a position in `[lo, hi)` is whitespace. */
  predicate BlankBetween(s: string, lo: nat, hi: nat)
    requires lo <= hi <= |s|
  {
    forall k :: lo <= k < hi ==> IsWhitespace(s[k])
  }

  /** Every character of `s` is whitespace (the empty string included). */
  predicate IsBlank(s: string)
  {
    BlankBetween(s, 0, |s|)
  }

  /** The first position at or after `i` that holds no whitespace (or `|s|`),
      given that everything before `i` is whitespace. */
  function StartIndex(s: string, i: nat): (j: nat)
    requires i <= |s| && BlankBetween(s, 0, i)
    ensures i <= j <= |s| && BlankBetween(s, 0, j)
    ensures j < |s| ==> !IsWhitespace(s[j])
    decreases |s| - i
  {
    if i < |s| && IsWhitespace(s[i]) then StartIndex(s, i + 1) else i
  }

  /** The last position at or before `j` after which `s` holds only whitespace
      (or `0`), given that everything from `j` on is whitespace. */
  function EndIndex(s: string, j: nat): (i: nat)
    requires j <= |s| && BlankBetween(s, j, |s|)
    ensures i <= j && BlankBetween(s, i, |s|)
    ensures 0 < i ==> !IsWhitespace(s[i - 1])
  {
    if 0 < j && IsWhitespace(s[j - 1]) then EndIndex(s, j - 1) else j
  }

  /** `s` with its leading whitespace removed: a suffix of `s` that does not
      start with whitespace, preceded in `s` only by whitespace. */
  function TrimStart(s: string): (r: string)
    ensures |r| <= |s| && r == s[|s| - |r|..]
    ensures BlankBetween(s, 0, |s| - |r|)
    ensures r != [] ==> !IsWhitespace(r[0])
  {
    s[StartIndex(s, 0)..]
  }

  /** `s` with its trailing whitespace removed: a prefix of `s` that does not
      end with whitespace, followed in `s` only by whitespace. */
  function TrimEnd(s: string): (r: string)
    ensures |r| <= |s| && r == s[..|r|]
    ensures BlankBetween(s, |r|, |s|)
    ensures r != [] ==> !IsWhitespace(r[|r| - 1])
  {
    s[..EndIndex(s, |s|)]
  }

  /** `String.prototype.trim`. The result is empty exactly when the input is
      blank, which is what every `x.trim() === ''` test in the source asks. */
  function Trim(s: string): (r: string)
    ensures |r| <= |s|
    ensures r == [] <==> IsBlank(s)
  {
    TrimEnd(TrimStart(s))
  }

  predicate IsDigit(c: char)
  {
    '0' <= c <= '9'
  }

  predicate AllDigits(s: string)
  {
    forall i :: 0 <= i < |s| ==> IsDigit(s[i])
  }

  /** `s.replace(/\D/g, '')`: the digits of `s`, in order. The result holds only
      digits taken from `s`, and a string of digits is left as it is. */
  function KeepDigits(s: string): (r: string)
    ensures |r| <= |s|
    ensures AllDigits(r)
    ensures forall i :: 0 <= i < |r| ==> r[i] in s
    ensures AllDigits(s) ==> r == s
  {
    if s == [] then []
    else (if IsDigit(s[0]) then [s[0]] else []) + KeepDigits(s[1..])
  }

  /** The filter works piecewise, so it keeps the digits in their original
      order: filtering a concatenation concatenates the filtered parts. */
  lemma {:induction false} KeepDigitsAppend(a: string, b: string)
    ensures KeepDigits(a + b) == KeepDigits(a) + KeepDigits(b)
  {
    if a == [] {
      assert a + b == b;
    } else {
      assert (a + b)[1..] == a[1..] + b;
      KeepDigitsAppend(a[1..], b);
    }
  }

  /** Filtering twice is filtering once. */
  lemma KeepDigitsIdempotent(s: string)
    ensures KeepDigits(KeepDigits(s)) == KeepDigits(s)
  {
  }

  /** `s.replace(/\D/g, '').slice(0, n)`: at most the first `n` digits of `s`,
      in their original order. */
  function DigitsPrefix(s: string, n: nat): (r: string)
    ensures |r| <= n && AllDigits(r)
    ensures |r| == if |KeepDigits(s)| < n then |KeepDigits(s)| else n
    ensures r == KeepDigits(s)[..|r|]
  {
    var d := KeepDigits(s);
    if |d| <= n then d else d[..n]
  }

  /** The input filter is stable: re-filtering what it produced changes nothing. */
  lemma DigitsPrefixIdempotent(s: string, n: nat)
    ensures DigitsPrefix(DigitsPrefix(s, n), n) == DigitsPrefix(s, n)
  {
    var r := DigitsPrefix(s, n);
    assert KeepDigits(r) == r;
  }

  /** `toUpperCase` on one character, for the ASCII letters. */
  function UpperChar(c: char): char
  {
    if 'a' <= c <= 'z' then (c as int - 'a' as int + 'A' as int) as char else c
  }

  predicate IsLowerAscii(c: char)
  {
    'a' <= c <= 'z'
  }

  /** `String.prototype.toUpperCase` restricted to ASCII: same length, every
      lower-case letter replaced by its capital, nothing else changed. */
  function ToUpper(s: string): (r: string)
    ensures |r| == |s|
    ensures forall i :: 0 <= i < |s| ==> r[i] == UpperChar(s[i])
    ensures forall i :: 0 <= i < |r| ==> !IsLowerAscii(r[i])
  {
    if s == [] then [] else [UpperChar(s[0])] + ToUpper(s[1..])
  }

  /** Upper-casing twice is upper-casing once. */
  lemma ToUpperIdempotent(s: string)
    ensures ToUpper(ToUpper(s)) == ToUpper(s)
  {
  }
}
