/**
 * Python's `int(text)` on strings and `str(n)` on integers, for the ASCII subset of their syntax:
 * surrounding whitespace, one optional sign, one or more decimal digits, leading zeros allowed.
 */
module PyInt {
  import opened Wrappers

  predicate IsDigit(c: char) {
    '0' <= c <= '9'
  }

  /**
   * The ASCII characters `int()` skips around a literal: space, tab, line feed, carriage return,
   * vertical tab and form feed. The separators U+001C to U+001F, which `str.isspace()` accepts, are
   * not among them.
   */
  predicate IsSpace(c: char) {
    c == ' ' || c == '\t' || c == '\n' || c == '\r' || c == '\U{B}' || c == '\U{C}'
  }

  predicate AllDigits(s: string) {
    forall i :: 0 <= i < |s| ==> IsDigit(s[i])
  }

  function DigitValue(c: char): nat
    requires IsDigit(c)
  {
    c as int - '0' as int
  }

  /** The value of a string of decimal digits, most significant first. */
  function DigitsValue(s: string): nat
    requires AllDigits(s)
    decreases |s|
  {
    if s == [] then 0 else DigitsValue(s[..|s| - 1]) * 10 + DigitValue(s[|s| - 1])
  }

  /** `s` without its leading whitespace. */
  function TrimStart(s: string): string
    decreases |s|
  {
    if s != [] && IsSpace(s[0]) then TrimStart(s[1..]) else s
  }

  /** `s` without its trailing whitespace. */
  function TrimEnd(s: string): string
    decreases |s|
  {
    if s != [] && IsSpace(s[|s| - 1]) then TrimEnd(s[..|s| - 1]) else s
  }

  /** `TrimStart` removes a prefix made only of whitespace, and what is left does not start with any. */
  lemma {:induction false} TrimStartShape(s: string)
    ensures var r := TrimStart(s);
      && |r| <= |s| && r == s[|s| - |r|..]
      && (forall i :: 0 <= i < |s| - |r| ==> IsSpace(s[i]))
      && (r != [] ==> !IsSpace(r[0]))
    decreases |s|
  {
    if s != [] && IsSpace(s[0]) {
      TrimStartShape(s[1..]);
    }
  }

  /** `TrimEnd` removes a suffix made only of whitespace, and what is left does not end with any. */
  lemma {:induction false} TrimEndShape(s: string)
    ensures var r := TrimEnd(s);
      && |r| <= |s| && r == s[..|r|]
      && (forall i :: |r| <= i < |s| ==> IsSpace(s[i]))
      && (r != [] ==> !IsSpace(r[|r| - 1]))
    decreases |s|
  {
    if s != [] && IsSpace(s[|s| - 1]) {
      TrimEndShape(s[..|s| - 1]);
    }
  }

  /** `int(s)`: `None` where Python raises `ValueError`. */
  function ParseInt(s: string): Option<int> {
    ParseLiteral(TrimEnd(TrimStart(s)))
  }

  /** A literal with the surrounding whitespace already removed: an optional sign, then digits. */
  function ParseLiteral(t: string): Option<int> {
    if t != [] && (t[0] == '+' || t[0] == '-') then
      var digits := t[1..];
      if digits != [] && AllDigits(digits) then
        var magnitude: int := DigitsValue(digits);
        Some(if t[0] == '-' then -magnitude else magnitude)
      else None
    else if t != [] && AllDigits(t) then Some(DigitsValue(t))
    else None
  }

  function DigitChar(d: nat): (c: char)
    requires d < 10
    ensures IsDigit(c) && DigitValue(c) == d
  {
    ('0' as int + d) as char
  }

  /** The shortest decimal digits of `n`. */
  function DigitsOf(n: nat): (s: string)
    ensures s != [] && AllDigits(s)
    ensures |s| > 1 ==> s[0] != '0'
    decreases n
  {
    if n < 10 then [DigitChar(n)] else DigitsOf(n / 10) + [DigitChar(n % 10)]
  }

  /** `str(n)`. */
  function Decimal(n: int): (s: string)
    ensures s != [] && (IsDigit(s[0]) || s[0] == '-') && IsDigit(s[|s| - 1])
  {
    if n < 0 then "-" + DigitsOf(-n) else DigitsOf(n)
  }

  lemma {:induction false} DigitsRoundTrip(n: nat)
    ensures DigitsValue(DigitsOf(n)) == n
    decreases n
  {
    if n >= 10 {
      var s := DigitsOf(n);
      DigitsRoundTrip(n / 10);
      assert s[..|s| - 1] == DigitsOf(n / 10);
    }
  }

  /** A string that neither starts nor ends with whitespace is left as it is by the trimming. */
  lemma TrimUnchanged(t: string)
    requires t != [] && !IsSpace(t[0]) && !IsSpace(t[|t| - 1])
    ensures TrimEnd(TrimStart(t)) == t
  {
  }

  lemma DigitsLiteral(n: nat)
    ensures ParseLiteral(DigitsOf(n)) == Some(n)
  {
    DigitsRoundTrip(n);
  }

  lemma NegativeLiteral(n: int)
    requires n < 0
    ensures ParseLiteral(Decimal(n)) == Some(n)
  {
    var s := Decimal(n);
    assert s[1..] == DigitsOf(-n);
    DigitsRoundTrip(-n);
  }

  /**
   * `int(str(n)) == n`: the decimal form parses back to the same value. Every integer has one here;
   * CPython refuses literals of more than 4300 digits, which this model does not limit.
   */
  lemma DecimalRoundTrip(n: int)
    ensures ParseInt(Decimal(n)) == Some(n)
  {
    TrimUnchanged(Decimal(n));
    if n < 0 {
      NegativeLiteral(n);
    } else {
      DigitsLiteral(n);
    }
  }

  predicate AllSpace(s: string) {
    forall i :: 0 <= i < |s| ==> IsSpace(s[i])
  }

  lemma {:induction false} TrimStartSpaces(pre: string, rest: string)
    requires AllSpace(pre)
    requires rest == [] || !IsSpace(rest[0])
    ensures TrimStart(pre + rest) == rest
    decreases |pre|
  {
    if pre != [] {
      assert (pre + rest)[1..] == pre[1..] + rest;
      TrimStartSpaces(pre[1..], rest);
    }
  }

  lemma {:induction false} TrimEndSpaces(rest: string, post: string)
    requires AllSpace(post)
    requires rest == [] || !IsSpace(rest[|rest| - 1])
    ensures TrimEnd(rest + post) == rest
    decreases |post|
  {
    if post != [] {
      assert (rest + post)[..|rest + post| - 1] == rest + post[..|post| - 1];
      TrimEndSpaces(rest, post[..|post| - 1]);
    }
  }

  /** Whitespace before and after the literal is ignored. */
  lemma ParseIntIgnoresSpace(pre: string, literal: string, post: string)
    requires AllSpace(pre) && AllSpace(post)
    requires literal != [] && !IsSpace(literal[0]) && !IsSpace(literal[|literal| - 1])
    ensures ParseInt(pre + literal + post) == ParseLiteral(literal)
  {
    assert pre + literal + post == pre + (literal + post);
    TrimStartSpaces(pre, literal + post);
    TrimEndSpaces(literal, post);
  }

  lemma {:induction false} ZerosValue(z: string)
    requires forall i :: 0 <= i < |z| ==> z[i] == '0'
    ensures AllDigits(z) && DigitsValue(z) == 0
    decreases |z|
  {
    if z != [] {
      ZerosValue(z[..|z| - 1]);
    }
  }

  lemma {:induction false} LeadingZerosValue(z: string, d: string)
    requires forall i :: 0 <= i < |z| ==> z[i] == '0'
    requires AllDigits(d)
    ensures AllDigits(z + d) && DigitsValue(z + d) == DigitsValue(d)
    decreases |d|
  {
    ZerosValue(z);
    if d == [] {
      assert z + d == z;
    } else {
      assert (z + d)[..|z + d| - 1] == z + d[..|d| - 1];
      LeadingZerosValue(z, d[..|d| - 1]);
    }
  }

  /** A bare string of digits is read as its decimal value. */
  lemma ParseDigits(t: string)
    requires t != [] && AllDigits(t)
    ensures ParseInt(t) == Some(DigitsValue(t))
  {
    assert IsDigit(t[0]) && IsDigit(t[|t| - 1]);
    TrimUnchanged(t);
    assert ParseLiteral(t) == Some(DigitsValue(t));
  }

  lemma ZerosThenDigits(z: string, n: nat)
    requires forall i :: 0 <= i < |z| ==> z[i] == '0'
    ensures ParseInt(z + DigitsOf(n)) == Some(n)
  {
    LeadingZerosValue(z, DigitsOf(n));
    DigitsRoundTrip(n);
    ParseDigits(z + DigitsOf(n));
  }

  /** Leading zeros do not change the value: `int("007") == 7`. */
  lemma ParseIntLeadingZeros(z: string, n: nat)
    requires forall i :: 0 <= i < |z| ==> z[i] == '0'
    ensures ParseInt(z + Decimal(n)) == Some(n)
  {
    ZerosThenDigits(z, n);
  }

  /**
   * A character that is neither a digit, nor whitespace, nor a sign makes `int()` raise
   * `ValueError`, whatever surrounds it.
   */
  lemma ParseIntRejects(s: string, j: nat)
    requires j < |s| && !IsDigit(s[j]) && !IsSpace(s[j]) && s[j] != '+' && s[j] != '-'
    ensures ParseInt(s) == None
  {
    var r := TrimStart(s);
    var t := TrimEnd(r);
    TrimStartShape(s);
    TrimEndShape(r);
    var k := j - (|s| - |r|);
    assert 0 <= k < |r| && r[k] == s[j];
    assert k < |t| && t[k] == s[j];
    if t[0] == '+' || t[0] == '-' {
      assert t[1..][k - 1] == s[j];
    } else {
      assert !IsDigit(t[k]);
    }
  }

  /** A file separator (U+001C) before the digits is not skipped: `int("\x1c75")` raises `ValueError`. */
  lemma SeparatorRejected()
    ensures ParseInt("\U{1C}75") == None
  {
    ParseIntRejects("\U{1C}75", 0);
  }
}
