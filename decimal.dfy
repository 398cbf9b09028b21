/** Decimal text: `atoi` and the one-byte truncation of `get_decimal_value`
    on the way in, `sprintf("%i")` on the way out. */
module Decimal {
  import opened Protocol

  predicate IsDigit(c: char) {
    '0' <= c <= '9'
  }

  /** The characters C's `isspace` accepts in the "C" locale. */
  predicate IsSpace(c: char) {
    c == ' ' || c == '\t' || c == '\n' || c == '\U{000B}' || c == '\U{000C}' || c == '\r'
  }

  predicate AllDigits(d: string) {
    forall k :: 0 <= k < |d| ==> IsDigit(d[k])
  }

  function DigitValue(c: char): nat
    requires IsDigit(c)
  {
    c as int - '0' as int
  }

  function DigitChar(n: nat): (c: char)
    requires n < 10
    ensures IsDigit(c) && DigitValue(c) == n
  {
    ('0' as int + n) as char
  }

  /** The longest prefix of `s` made of decimal digits: where `atoi` stops reading. */
  function DigitRun(s: string): (d: string)
    ensures d <= s && AllDigits(d)
    ensures |d| < |s| ==> !IsDigit(s[|d|])
  {
    if s == [] || !IsDigit(s[0]) then []
    else
      var rest := DigitRun(s[1..]);
      assert forall k :: 1 <= k < |rest| + 1 ==> ([s[0]] + rest)[k] == rest[k - 1];
      [s[0]] + rest
  }

  /** The number a string of decimal digits denotes (most significant first). */
  function DigitsValue(d: string): nat
    requires AllDigits(d)
  {
    if d == [] then 0 else DigitsValue(d[..|d| - 1]) * 10 + DigitValue(d[|d| - 1])
  }

  /** `atoi`: leading white space, an optional sign, then the run of digits;
      0 when there are no digits. Overflow of `int` is not modelled. */
  function Atoi(s: string): (r: int)
    ensures (forall k :: 0 <= k < |s| ==> !IsDigit(s[k])) ==> r == 0
  {
    if s != [] && IsSpace(s[0]) then Atoi(s[1..])
    else if s != [] && s[0] == '-' then 0 - DigitsValue(DigitRun(s[1..]))
    else if s != [] && s[0] == '+' then DigitsValue(DigitRun(s[1..]))
    else DigitsValue(DigitRun(s))
  }

  /** `get_decimal_value`: 0 for a NULL string, otherwise `atoi` cast to
      `uint8`, which keeps the value modulo 256. */
  function DecimalValue(s: Option<string>): (r: byte)
    ensures s.None? ==> r == 0
    ensures s.Some? ==> (r - Atoi(s.value)) % 256 == 0
  {
    match s
    case None => 0
    case Some(text) => Atoi(text) % 256
  }

  /** The digits `%i` prints for a non-negative number. */
  function Digits(n: nat): (d: string)
    ensures |d| > 0 && AllDigits(d)
  {
    if n < 10 then [DigitChar(n)] else Digits(n / 10) + [DigitChar(n % 10)]
  }

  /** `sprintf(buffer, "%i", n)`: it starts with a minus sign exactly when
      the number is negative (FormatCharacters: the rest is digits). */
  function Format(n: int): (r: string)
    ensures r != [] && (r[0] == '-' <==> n < 0)
  {
    if n < 0 then "-" + Digits(-n) else Digits(n)
  }

  lemma {:induction false} DigitsValueOfDigits(n: nat)
    ensures DigitsValue(Digits(n)) == n
  {
    var d := Digits(n);
    if n >= 10 {
      assert d[..|d| - 1] == Digits(n / 10);
      DigitsValueOfDigits(n / 10);
    }
  }

  lemma {:induction false} DigitRunOfDigits(d: string)
    requires AllDigits(d)
    ensures DigitRun(d) == d
  {
    if d != [] {
      DigitRunOfDigits(d[1..]);
    }
  }

  /** Reading back what `%i` printed gives the number again. */
  lemma {:induction false} FormatRoundTrip(n: int)
    ensures Atoi(Format(n)) == n
  {
    var m := if n < 0 then -n else n;
    var d := Digits(m);
    DigitsValueOfDigits(m);
    DigitRunOfDigits(d);
    if n < 0 {
      assert ("-" + d)[1..] == d;
      AtoiNegative("-" + d);
    } else {
      AtoiDigits(d);
    }
  }

  lemma AtoiNegative(s: string)
    requires s != [] && s[0] == '-'
    ensures Atoi(s) == 0 - DigitsValue(DigitRun(s[1..]))
  {
    assert !IsSpace(s[0]);
  }

  lemma AtoiDigits(s: string)
    requires s != [] && IsDigit(s[0])
    ensures Atoi(s) == DigitsValue(DigitRun(s))
  {
    assert !IsSpace(s[0]);
  }

  /** So a byte printed with `%i` goes through `get_decimal_value` unchanged. */
  lemma DecimalValueOfFormat(b: byte)
    ensures DecimalValue(Some(Format(b))) == b
  {
    FormatRoundTrip(b);
  }

  /** `%i` prints a byte with at most three digits. */
  lemma {:induction false} FormatByteLength(b: byte)
    ensures 1 <= |Format(b)| <= 3
    ensures b < 10 ==> |Format(b)| == 1
  {
    if b >= 10 {
      assert |Digits(b / 10)| == 1 || |Digits(b / 10)| == 2 by {
        if b / 10 >= 10 {
          assert b / 10 / 10 < 10;
        }
      }
    }
  }

  /** A decimal rendering is an optional minus sign and digits, so it holds
      neither a colon nor a terminator. */
  lemma FormatCharacters(n: int)
    ensures forall k :: 0 <= k < |Format(n)| ==> Format(n)[k] == '-' || IsDigit(Format(n)[k])
    ensures ':' !in Format(n) && '\0' !in Format(n)
  {
    var d := Digits(if n < 0 then -n else n);
    if n < 0 {
      assert forall k :: 1 <= k < |Format(n)| ==> Format(n)[k] == d[k - 1];
    }
  }
}
