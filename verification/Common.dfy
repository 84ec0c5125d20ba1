// Small datatypes and functions shared by the models.

module Options {
  datatype Option<+T> = None | Some(value: T)

  datatype Result<+T, +E> = Ok(value: T) | Err(error: E)
}

// Decimal numerals, as read by Number(), int() and the version pattern and as written by a printer.
module Decimals {
  predicate IsDigit(c: char) {
    '0' <= c <= '9'
  }

  predicate AllDigits(s: string) {
    forall i :: 0 <= i < |s| ==> IsDigit(s[i])
  }

  function DigitValue(c: char): (d: nat)
    requires IsDigit(c)
    ensures d < 10
  {
    c as int - '0' as int
  }

  // The number a digit string denotes, most significant digit first.
  function Dec(s: string): (n: nat)
    requires AllDigits(s)
  {
    if s == [] then 0 else 10 * Dec(s[..|s| - 1]) + DigitValue(s[|s| - 1])
  }

  // The shortest numeral of a number.
  function Numeral(n: nat): (s: string)
    ensures s != [] && AllDigits(s)
    ensures Dec(s) == n
    ensures |s| > 1 ==> s[0] != '0'
    ensures n > 0 ==> s[0] != '0'
  {
    var last := ('0' as int + n % 10) as char;
    if n < 10 then
      assert [last][..0] == [];
      [last]
    else
      var init := Numeral(n / 10);
      assert (init + [last])[..|init|] == init;
      init + [last]
  }

  function Pow10(k: nat): (r: nat)
    ensures r > 0
  {
    if k == 0 then 1 else 10 * Pow10(k - 1)
  }
}

module Reals {
  function Abs(x: real): real {
    if x < 0.0 then -x else x
  }
}

module ZeroBits {
  function Zeros(n: nat): (z: seq<bool>)
    ensures |z| == n && forall i :: 0 <= i < n ==> !z[i]
  {
    seq(n, _ => false)
  }
}
