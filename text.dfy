/**
 * The pieces of JavaScript string behaviour the actors rely on: ASCII case folding as the
 * `i` regular-expression flag applies it, the `\s` / `String.prototype.trim` whitespace set,
 * `Array.prototype.join` over strings and the decimal rendering of integers.
 */
module Text {

  predicate IsDigit(c: char) { '0' <= c <= '9' }

  predicate IsLowerAsciiLetter(c: char) { 'a' <= c <= 'z' }

  predicate IsAsciiLetter(c: char) { 'a' <= c <= 'z' || 'A' <= c <= 'Z' }

  /** Lower-cases ASCII letters and leaves every other character alone. */
  function LowerAscii(c: char): (r: char)
    ensures IsAsciiLetter(c) <==> IsLowerAsciiLetter(r)
    ensures !IsAsciiLetter(c) ==> r == c
  {
    if 'A' <= c <= 'Z' then (c as int + 32) as char else c
  }

  /**
   * Equality up to ASCII case. A non-Unicode JavaScript regular expression with the `i` flag
   * never folds a non-ASCII character onto an ASCII one, so for the ASCII patterns of the
   * actors this is exactly what `i` means.
   */
  predicate EqualsIgnoreCase(a: string, b: string)
  {
    |a| == |b| && forall i | 0 <= i < |a| :: LowerAscii(a[i]) == LowerAscii(b[i])
  }

  predicate StartsWith(s: string, prefix: string)
  {
    |prefix| <= |s| && s[..|prefix|] == prefix
  }

  predicate StartsWithIgnoreCase(s: string, prefix: string)
  {
    |prefix| <= |s| && EqualsIgnoreCase(s[..|prefix|], prefix)
  }

  /** `word` occurs at index `i` of `s`, up to ASCII case. */
  predicate IgnoreCaseAt(s: string, i: nat, word: string)
  {
    i + |word| <= |s| && EqualsIgnoreCase(s[i..i + |word|], word)
  }

  /** Character `t` of a case-insensitive occurrence of `word` at `i`. */
  lemma IgnoreCaseAtChar(s: string, i: nat, word: string, t: nat)
    requires IgnoreCaseAt(s, i, word) && t < |word|
    ensures i + t < |s| && LowerAscii(s[i + t]) == LowerAscii(word[t])
  {
    assert s[i..i + |word|][t] == s[i + t];
  }

  /** The three parts of a concatenation, read back by slicing. */
  lemma ConcatSlices<T>(a: seq<T>, b: seq<T>, c: seq<T>)
    ensures (a + b + c)[..|a|] == a
    ensures (a + b + c)[|a|..|a| + |b|] == b
    ensures (a + b + c)[|a| + |b|..] == c
  {
    assert (a + b + c)[|a|..] == b + c;
  }

  /** A word occurs, up to case, where it occurs exactly. */
  lemma IgnoreCaseAtExact(s: string, i: nat, word: string)
    requires i + |word| <= |s| && s[i..i + |word|] == word
    ensures IgnoreCaseAt(s, i, word)
  {
  }

  /** An occurrence of `a + b` is an occurrence of `a` directly followed by one of `b`. */
  lemma IgnoreCaseAtConcat(s: string, i: nat, a: string, b: string)
    ensures IgnoreCaseAt(s, i, a + b) <==> IgnoreCaseAt(s, i, a) && IgnoreCaseAt(s, i + |a|, b)
  {
    if IgnoreCaseAt(s, i, a) && IgnoreCaseAt(s, i + |a|, b) {
      forall t | 0 <= t < |a + b|
        ensures LowerAscii(s[i..i + |a + b|][t]) == LowerAscii((a + b)[t])
      {
        if t < |a| {
          IgnoreCaseAtChar(s, i, a, t);
        } else {
          IgnoreCaseAtChar(s, i + |a|, b, t - |a|);
        }
      }
    }
    if IgnoreCaseAt(s, i, a + b) {
      forall t | 0 <= t < |a|
        ensures LowerAscii(s[i..i + |a|][t]) == LowerAscii(a[t])
      {
        IgnoreCaseAtChar(s, i, a + b, t);
      }
      forall t | 0 <= t < |b|
        ensures LowerAscii(s[i + |a|..i + |a| + |b|][t]) == LowerAscii(b[t])
      {
        IgnoreCaseAtChar(s, i, a + b, |a| + t);
      }
    }
  }

  /** An occurrence that lies inside a prefix of `s` is seen the same way in `s` and in the prefix. */
  lemma IgnoreCaseAtPrefix(s: string, p: string, i: nat, word: string)
    requires |p| <= |s| && p == s[..|p|] && i + |word| <= |p|
    ensures IgnoreCaseAt(p, i, word) <==> IgnoreCaseAt(s, i, word)
  {
    assert p[i..i + |word|] == s[i..i + |word|];
  }

  /** ECMAScript LineTerminator: the characters the regular-expression `.` does not match. */
  predicate IsLineTerminator(c: char)
  {
    c == '\n' || c == '\r' || c == '\U{2028}' || c == '\U{2029}'
  }

  /** ECMAScript WhiteSpace or LineTerminator: the class `\s`, and what `trim` removes. */
  predicate IsJsWhitespace(c: char)
  {
    || c == '\t' || c == '\U{000B}' || c == '\U{000C}' || c == ' '
    || c == '\U{00A0}' || c == '\U{1680}' || ('\U{2000}' <= c <= '\U{200A}')
    || c == '\U{202F}' || c == '\U{205F}' || c == '\U{3000}' || c == '\U{FEFF}'
    || IsLineTerminator(c)
  }

  function TrimStart(s: string): (r: string)
    ensures |r| <= |s| && r == s[|s| - |r|..]
    ensures forall i | 0 <= i < |s| - |r| :: IsJsWhitespace(s[i])
    ensures r == [] || !IsJsWhitespace(r[0])
  {
    if s != [] && IsJsWhitespace(s[0]) then TrimStart(s[1..]) else s
  }

  function TrimEnd(s: string): (r: string)
    ensures |r| <= |s| && r == s[..|r|]
    ensures forall i | |r| <= i < |s| :: IsJsWhitespace(s[i])
    ensures r == [] || !IsJsWhitespace(r[|r| - 1])
  {
    if s != [] && IsJsWhitespace(s[|s| - 1]) then TrimEnd(s[..|s| - 1]) else s
  }

  /**
   * `String.prototype.trim`: the result is a contiguous piece of `s` whose removed
   * surroundings are all whitespace and which neither starts nor ends with whitespace.
   */
  function Trim(s: string): (r: string)
    ensures exists lo, hi | 0 <= lo <= hi <= |s| :: r == s[lo..hi] && TrimmedAround(s, lo, hi)
    ensures r == [] || (!IsJsWhitespace(r[0]) && !IsJsWhitespace(r[|r| - 1]))
  {
    var t := TrimStart(s);
    var r := TrimEnd(t);
    var lo := |s| - |t|;
    assert r == s[lo..][..|r|] == s[lo..lo + |r|];
    assert TrimmedAround(s, lo, lo + |r|);
    r
  }

  /** A string with no whitespace at either end is its own trim. */
  lemma TrimUnchanged(s: string)
    requires s == [] || (!IsJsWhitespace(s[0]) && !IsJsWhitespace(s[|s| - 1]))
    ensures Trim(s) == s
  {
  }

  /** Trimming twice is trimming once. */
  lemma TrimIdempotent(s: string)
    ensures Trim(Trim(s)) == Trim(s)
  {
    TrimUnchanged(Trim(s));
  }

  /** Everything of `s` outside `s[lo..hi]` is whitespace. */
  predicate TrimmedAround(s: string, lo: nat, hi: nat)
    requires lo <= hi <= |s|
  {
    forall i | 0 <= i < |s| && !(lo <= i < hi) :: IsJsWhitespace(s[i])
  }

  /** `Array.prototype.join` over strings. */
  function Join(parts: seq<string>, sep: string): string
  {
    if |parts| == 0 then ""
    else if |parts| == 1 then parts[0]
    else parts[0] + sep + Join(parts[1..], sep)
  }

  function DigitChar(d: nat): (c: char)
    requires d < 10
    ensures IsDigit(c) && DigitValue(c) == d
  {
    ('0' as int + d) as char
  }

  function DigitValue(c: char): nat
    requires IsDigit(c)
  {
    c as int - '0' as int
  }

  /** The decimal digits of `n`, most significant first, without leading zeros. */
  function NatToString(n: nat): (r: string)
    ensures |r| >= 1
    ensures forall i | 0 <= i < |r| :: IsDigit(r[i])
    ensures r[0] == '0' ==> n == 0
  {
    if n < 10 then [DigitChar(n)] else NatToString(n / 10) + [DigitChar(n % 10)]
  }

  /** The decimal rendering of an integer, as `String(n)` and template literals produce it. */
  function IntToString(n: int): string
  {
    if n < 0 then "-" + NatToString(-n) else NatToString(n)
  }

  /** Reads a string of decimal digits back as a number. */
  function ParseDigits(s: string): nat
    requires forall i | 0 <= i < |s| :: IsDigit(s[i])
  {
    if s == [] then 0 else ParseDigits(s[..|s| - 1]) * 10 + DigitValue(s[|s| - 1])
  }

  /** The decimal rendering loses nothing: reading it back gives the number. */
  lemma {:induction false} NatToStringRoundTrip(n: nat)
    ensures ParseDigits(NatToString(n)) == n
  {
    if n >= 10 {
      NatToStringRoundTrip(n / 10);
      var s := NatToString(n);
      assert s[..|s| - 1] == NatToString(n / 10);
    }
  }

  /**
   * `r` is the canonical decimal notation of `n`: an optional `-` for a negative number, then
   * digits without a leading zero that read back as the magnitude.
   */
  ghost predicate IsDecimalOf(r: string, n: int)
  {
    && (n < 0 ==> |r| >= 1 && r[0] == '-')
    && var digits := if n < 0 then r[1..] else r;
    && |digits| >= 1
    && (forall i | 0 <= i < |digits| :: IsDigit(digits[i]))
    && (|digits| > 1 ==> digits[0] != '0')
    && ParseDigits(digits) == if n < 0 then -n else n
  }

  /** `String(n)` is the decimal notation of `n`, so reading it back gives `n`. */
  lemma IntToStringIsDecimal(n: int)
    ensures IsDecimalOf(IntToString(n), n)
  {
    var m := if n < 0 then -n else n;
    NatToStringRoundTrip(m);
    var digits := NatToString(m);
    if |digits| > 1 {
      assert m >= 10;
    }
    if n < 0 {
      assert IntToString(n)[1..] == digits;
    }
  }

  /** A three-digit number renders as its three digits. */
  lemma ThreeDigits(n: nat)
    requires 100 <= n <= 999
    ensures NatToString(n) == [DigitChar(n / 100), DigitChar(n / 10 % 10), DigitChar(n % 10)]
  {
    assert NatToString(n / 10) == [DigitChar(n / 100), DigitChar(n / 10 % 10)];
  }
}
