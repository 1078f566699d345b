/**
  Bytes, and decimal numerals as Rust prints and parses them: no leading zeros are written, but
  any number of them is read, and one sign of either kind.
 */
module Numerals {
  import opened Wrappers

  type byte = b: int | 0 <= b < 256

  predicate IsDigit(c: char) { '0' <= c <= '9' }

  function DigitChar(d: nat): (c: char)
    requires d < 10
    ensures IsDigit(c) && DigitValue(c) == d
  {
    '0' + d as char
  }

  function DigitValue(c: char): (d: nat)
    requires IsDigit(c)
    ensures d < 10
  {
    (c - '0') as nat
  }

  /** `format!("{}", n)` of an unsigned number. */
  function Decimal(n: nat): (s: string)
    ensures 0 < |s| && forall i | 0 <= i < |s| :: IsDigit(s[i])
  {
    if n < 10 then [DigitChar(n)] else Decimal(n / 10) + [DigitChar(n % 10)]
  }

  function ParseDigits(s: string): Option<nat> {
    if s == "" then Some(0)
    else
      var front := ParseDigits(s[..|s| - 1]);
      var last := s[|s| - 1];
      if front.Some? && IsDigit(last) then Some(10 * front.value + DigitValue(last)) else None
  }

  lemma {:induction false} DecimalRoundTrip(n: nat)
    ensures ParseDigits(Decimal(n)) == Some(n)
  {
    if n < 10 {
      assert [DigitChar(n)][..0] == "";
    } else {
      DecimalRoundTrip(n / 10);
      assert Decimal(n)[..|Decimal(n)| - 1] == Decimal(n / 10);
    }
  }

  lemma DecimalIsInjective(m: nat, n: nat)
    requires Decimal(m) == Decimal(n)
    ensures m == n
  {
    DecimalRoundTrip(m);
    DecimalRoundTrip(n);
  }

  /** `format!("{}", n)` of a signed number. */
  function Signed(n: int): (s: string)
    ensures 0 < |s|
  {
    if n < 0 then "-" + Decimal(-n) else Decimal(n)
  }

  /** `str::parse` of a signed integer type with the given bounds. */
  function ParseSigned(s: string, min: int, max: int): Option<int> {
    var negative := "-" <= s;
    var digits := if negative || "+" <= s then s[1..] else s;
    if digits == "" then None
    else
      match ParseDigits(digits)
      case None => None
      case Some(n) =>
        var value := if negative then -(n as int) else n as int;
        if min <= value <= max then Some(value) else None
  }

  lemma SignedRoundTrip(n: int, min: int, max: int)
    ensures ParseSigned(Signed(n), min, max) == if min <= n <= max then Some(n) else None
  {
    var magnitude := if n < 0 then -n else n;
    DecimalRoundTrip(magnitude);
    if n < 0 {
      assert Signed(n)[1..] == Decimal(magnitude);
    } else {
      assert IsDigit(Signed(n)[0]);
    }
  }

  // ---------- which texts are numerals ----------

  predicate AllDigits(s: string) { forall i | 0 <= i < |s| :: IsDigit(s[i]) }

  lemma {:induction false} DigitsExactly(s: string)
    ensures ParseDigits(s).Some? <==> AllDigits(s)
  {
    if s == "" {
    } else {
      var front := s[..|s| - 1];
      DigitsExactly(front);
      assert AllDigits(s) <==> AllDigits(front) && IsDigit(s[|s| - 1]);
    }
  }

  function Zeros(k: nat): (s: string)
    ensures |s| == k && AllDigits(s)
  {
    seq(k, _ => '0')
  }

  lemma {:induction false} ZerosDoNotCount(k: nat, s: string)
    ensures ParseDigits(Zeros(k) + s) == ParseDigits(s)
  {
    if s == "" {
      assert Zeros(k) + s == Zeros(k);
      if k > 0 {
        ZerosDoNotCount(k - 1, "");
        assert Zeros(k)[..k - 1] == Zeros(k - 1) == Zeros(k - 1) + "";
      }
    } else {
      ZerosDoNotCount(k, s[..|s| - 1]);
      assert (Zeros(k) + s)[..k + |s| - 1] == Zeros(k) + s[..|s| - 1];
    }
  }

  function Bounded(n: int, min: int, max: int): Option<int> { if min <= n <= max then Some(n) else None }

  /** One sign may stand in front of digits. */
  lemma SignedDigits(digits: string, min: int, max: int)
    requires digits != "" && AllDigits(digits)
    ensures ParseDigits(digits).Some?
    ensures ParseSigned(digits, min, max) == Bounded(ParseDigits(digits).value, min, max)
    ensures ParseSigned(['+'] + digits, min, max) == Bounded(ParseDigits(digits).value, min, max)
    ensures ParseSigned(['-'] + digits, min, max) == Bounded(0 - ParseDigits(digits).value, min, max)
  {
    DigitsExactly(digits);
    assert IsDigit(digits[0]);
    assert (['+'] + digits)[1..] == digits && (['-'] + digits)[1..] == digits;
  }

  predicate IsNumeral(s: string) {
    var digits := if s != "" && (s[0] == '+' || s[0] == '-') then s[1..] else s;
    digits != "" && AllDigits(digits)
  }

  /** Nothing but digits behind at most one sign is a numeral. */
  lemma OtherTextIsRefused(s: string, min: int, max: int)
    requires !IsNumeral(s)
    ensures ParseSigned(s, min, max) == None
  {
    DigitsExactly(s);
    if s != "" { DigitsExactly(s[1..]); }
  }
}
