/**
  Decimal text of unsigned integers, as the Rust standard library reads and
  writes it: `str::parse::<u64>` (used by the path normalizer to recognise
  numeric identifiers) and `u16::to_string` (used for the `status` label of
  the request counter).
 */
module Decimal {

  datatype Option<+T> = None | Some(value: T)

  /** The largest value of Rust's `u64`. */
  const U64_MAX: nat := 18446744073709551615

  predicate IsDigit(c: char) {
    '0' <= c <= '9'
  }

  predicate AllDigits(s: string) {
    forall i :: 0 <= i < |s| ==> IsDigit(s[i])
  }

  function DigitValue(c: char): (d: nat)
    requires IsDigit(c)
    ensures d < 10
  {
    c as int - '0' as int
  }

  function Digit(d: nat): (c: char)
    requires d < 10
    ensures IsDigit(c) && DigitValue(c) == d
  {
    ('0' as int + d) as char
  }

  /** The value of a run of decimal digits, most significant first; leading zeros are allowed. */
  function DigitsValue(s: string): nat
    requires AllDigits(s)
  {
    if s == [] then 0 else 10 * DigitsValue(s[..|s| - 1]) + DigitValue(s[|s| - 1])
  }

  /**
    `s.parse::<u64>()`: an optional leading `+` (a `-` is refused for an
    unsigned type), then at least one ASCII digit and nothing else, with a
    value that fits in 64 bits. `None` stands for the `Err` of the source.
   */
  function ParseU64(s: string): (r: Option<nat>)
    ensures r.Some? ==> r.value <= U64_MAX
    ensures r.Some? ==> 0 < |s| && (s[0] == '+' || IsDigit(s[0]))
    ensures r.Some? && s[0] == '+' ==> 2 <= |s|
    ensures r.Some? ==> forall i :: 1 <= i < |s| ==> IsDigit(s[i])
  {
    var digits := if 0 < |s| && s[0] == '+' then s[1..] else s;
    if digits != [] && AllDigits(digits) && DigitsValue(digits) <= U64_MAX then
      Some(DigitsValue(digits))
    else
      None
  }

  /** A run of `k` zeros. */
  function Zeros(k: nat): string {
    seq(k, _ => '0')
  }

  /** `n.to_string()`: the shortest decimal text of `n`. */
  function DecimalString(n: nat): (s: string)
    ensures s != [] && AllDigits(s)
    ensures 1 < |s| ==> s[0] != '0'
  {
    if n < 10 then [Digit(n)] else DecimalString(n / 10) + [Digit(n % 10)]
  }

  /** Reading back the digits that `DecimalString` writes gives the number. */
  lemma {:induction false} DigitsValueOfDecimalString(n: nat)
    ensures DigitsValue(DecimalString(n)) == n
  {
    var s := DecimalString(n);
    if n >= 10 {
      DigitsValueOfDecimalString(n / 10);
      assert s[..|s| - 1] == DecimalString(n / 10);
    }
  }

  /**
    Round trip: whatever `to_string` writes, `parse::<u64>` reads back. With
    `n == U64_MAX` this covers the text `18446744073709551615`; its successor
    `18446744073709551616` is refused by `ParseAboveU64Max`.
   */
  lemma ParseDecimalString(n: nat)
    requires n <= U64_MAX
    ensures ParseU64(DecimalString(n)) == Some(n)
    ensures ParseU64("+" + DecimalString(n)) == Some(n)
  {
    DigitsValueOfDecimalString(n);
    assert ("+" + DecimalString(n))[1..] == DecimalString(n);
  }

  /** Distinct numbers have distinct decimal texts. */
  lemma DecimalStringInjective(a: nat, b: nat)
    ensures DecimalString(a) == DecimalString(b) <==> a == b
  {
    if DecimalString(a) == DecimalString(b) {
      DigitsValueOfDecimalString(a);
      DigitsValueOfDecimalString(b);
    }
  }

  /** Leading zeros do not change the value of a run of digits. */
  lemma {:induction false} DigitsValueLeadingZeros(k: nat, s: string)
    requires AllDigits(s)
    ensures AllDigits(Zeros(k) + s) && DigitsValue(Zeros(k) + s) == DigitsValue(s)
    decreases |s|
  {
    var t := Zeros(k) + s;
    if s == [] {
      assert t == Zeros(k);
      ZerosValue(k);
    } else {
      assert t[..|t| - 1] == Zeros(k) + s[..|s| - 1];
      DigitsValueLeadingZeros(k, s[..|s| - 1]);
    }
  }

  lemma {:induction false} ZerosValue(k: nat)
    ensures DigitsValue(Zeros(k)) == 0
  {
    if k > 0 {
      assert Zeros(k)[..k - 1] == Zeros(k - 1);
      ZerosValue(k - 1);
    }
  }

  /** A run of digits without a leading zero is the decimal text of its value. */
  lemma {:induction false} DecimalStringOfDigits(s: string)
    requires s != [] && AllDigits(s) && (1 < |s| ==> s[0] != '0')
    ensures DecimalString(DigitsValue(s)) == s
    decreases |s|
  {
    if |s| > 1 {
      var p := s[..|s| - 1];
      DecimalStringOfDigits(p);
      assert DigitsValue(p) != 0 by {
        assert p[0] != '0';
      }
      var v := DigitsValue(s);
      assert v / 10 == DigitsValue(p) && v % 10 == DigitValue(s[|s| - 1]);
      assert s == p + [s[|s| - 1]];
    }
  }

  /** Every non-empty run of digits is `k` zeros followed by the decimal text of its value. */
  lemma {:induction false} DigitsShape(s: string) returns (k: nat)
    requires s != [] && AllDigits(s)
    ensures s == Zeros(k) + DecimalString(DigitsValue(s))
    decreases |s|
  {
    if 1 < |s| && s[0] == '0' {
      var t := s[1..];
      var j := DigitsShape(t);
      assert s == Zeros(1) + t;
      DigitsValueLeadingZeros(1, t);
      ZerosSucc(j);
      k := j + 1;
    } else {
      DecimalStringOfDigits(s);
      assert Zeros(0) == [];
      k := 0;
    }
  }

  lemma ZerosSucc(k: nat)
    ensures Zeros(1) + Zeros(k) == Zeros(k + 1)
  {
    assert forall i :: 0 <= i < k + 1 ==> (Zeros(1) + Zeros(k))[i] == '0';
  }

  /**
    Whatever `parse::<u64>` accepts is an optional `+`, then some zeros, then
    the decimal text of the value it returns.
   */
  lemma ParseU64Shape(s: string)
    requires ParseU64(s).Some?
    ensures var v := ParseU64(s).value;
      exists k: nat :: s == Zeros(k) + DecimalString(v) || s == "+" + Zeros(k) + DecimalString(v)
  {
    var v := ParseU64(s).value;
    var digits := if s[0] == '+' then s[1..] else s;
    assert digits != [] && AllDigits(digits) && v == DigitsValue(digits);
    var k := DigitsShape(digits);
    var d := DecimalString(v);
    if s[0] == '+' {
      assert s == "+" + digits;
      assert s == "+" + Zeros(k) + d;
    } else {
      assert s == Zeros(k) + d;
    }
  }

  /**
    Conversely, the decimal text of a value up to the largest `u64`, after
    any number of zeros and an optional `+`, parses to that value.
   */
  lemma ParseLeadingZeros(k: nat, n: nat)
    requires n <= U64_MAX
    ensures ParseU64(Zeros(k) + DecimalString(n)) == Some(n)
    ensures ParseU64("+" + Zeros(k) + DecimalString(n)) == Some(n)
  {
    var d := DecimalString(n);
    var t := Zeros(k) + d;
    DigitsValueOfDecimalString(n);
    DigitsValueLeadingZeros(k, d);
    ParseDigits(t);
    assert "+" + Zeros(k) + d == "+" + t;
  }

  /** A non-empty run of digits whose value fits, with or without `+`, parses to its value. */
  lemma ParseDigits(t: string)
    requires t != [] && AllDigits(t) && DigitsValue(t) <= U64_MAX
    ensures ParseU64(t) == Some(DigitsValue(t))
    ensures ParseU64("+" + t) == Some(DigitsValue(t))
  {
    assert t[0] != '+' by {
      assert IsDigit(t[0]);
    }
    assert ("+" + t)[1..] == t;
  }

  /** `"007".parse::<u64>()` is `Ok(7)`. */
  lemma ParseZeroPadded()
    ensures ParseU64("007") == Some(7)
  {
    ParseLeadingZeros(2, 7);
    assert Zeros(2) + DecimalString(7) == "007";
  }

  /** Decimal text above the largest `u64` is not numeric for `parse::<u64>`. */
  lemma ParseAboveU64Max(n: nat)
    requires n > U64_MAX
    ensures ParseU64(DecimalString(n)) == None
  {
    DigitsValueOfDecimalString(n);
  }
}
