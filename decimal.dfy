/**
  * Integer text and integer arithmetic as the C++ code sees them.
  *
  * `ParseInt` stands for the `std::stoi` call in
  * `BaseIntegerCommand::clear_param`: an optional sign and decimal digits
  * whose value fits a 32-bit `int`; anything else, including a value out of
  * range, is an invalid-argument error. `TruncDiv` is C++'s `/` on `int`,
  * which rounds toward zero (Dafny's own `/` is Euclidean).
  */
module Decimal {
  import opened Errors

  const IntMin: int := -0x8000_0000
  const IntMax: int := 0x7FFF_FFFF

  predicate InInt32(n: int) { IntMin <= n <= IntMax }

  predicate IsDigit(c: char) { '0' <= c <= '9' }

  predicate AllDigits(s: string) { forall i :: 0 <= i < |s| ==> IsDigit(s[i]) }

  /** The value of a string of decimal digits, most significant first. */
  function DigitsValue(s: string): nat
    requires AllDigits(s)
  {
    if s == [] then 0 else DigitsValue(s[..|s| - 1]) * 10 + (s[|s| - 1] - '0') as nat
  }

  /** Splits off a leading sign: whether it was '-', and the rest. */
  function SplitSign(s: string): (bool, string)
  {
    if s != [] && (s[0] == '-' || s[0] == '+') then (s[0] == '-', s[1..]) else (false, s)
  }

  /** The operand of PUSH as a 32-bit integer. */
  function ParseInt(s: string): (r: Result<int>)
    ensures r.Ok? ==> InInt32(r.value)
    ensures r.Fail? ==> r.error == Raise(InvalidArgument)
    ensures var (neg, digits) := SplitSign(s);
      r.Ok? <==>
        (digits != [] && AllDigits(digits) &&
         InInt32(if neg then -(DigitsValue(digits) as int) else DigitsValue(digits)))
    ensures r.Ok? ==> var (neg, digits) := SplitSign(s);
      digits != [] && AllDigits(digits) &&
      r.value == if neg then -(DigitsValue(digits) as int) else DigitsValue(digits)
  {
    var (neg, digits) := SplitSign(s);
    if digits == [] || !AllDigits(digits) then Fail(Raise(InvalidArgument))
    else
      var v := if neg then -(DigitsValue(digits) as int) else DigitsValue(digits);
      if InInt32(v) then Ok(v) else Fail(Raise(InvalidArgument))
  }

  /** Decimal digits of a natural number, without leading zeros. */
  function ShowNat(n: nat): (s: string)
    ensures s != [] && AllDigits(s)
  {
    if n < 10 then ['0' + n as char] else ShowNat(n / 10) + ['0' + (n % 10) as char]
  }

  /** The usual decimal text of an integer: a '-' before negative values. */
  function Show(n: int): string
  {
    if n < 0 then ['-'] + ShowNat(-n) else ShowNat(n)
  }

  lemma {:induction false} ShowNatValue(n: nat)
    ensures DigitsValue(ShowNat(n)) == n
  {
    if n >= 10 {
      var s := ShowNat(n);
      ShowNatValue(n / 10);
      assert s[..|s| - 1] == ShowNat(n / 10);
    }
  }

  /** Every 32-bit integer written in decimal parses back to itself. */
  lemma {:induction false} ParseShow(n: int)
    requires InInt32(n)
    ensures ParseInt(Show(n)) == Ok(n)
  {
    if n < 0 {
      ShowNatValue(-n);
      assert SplitSign(Show(n)) == (true, ShowNat(-n));
    } else {
      ShowNatValue(n);
      assert ShowNat(n)[0] != '-' && ShowNat(n)[0] != '+';
      assert SplitSign(Show(n)) == (false, ShowNat(n));
    }
  }

  // The next three members only support the 32-bit range bound of
  // `LongNumbersRejected`: powers of ten, their monotonicity, and the least
  // value a digit string without a leading zero can have.

  function Pow10(k: nat): nat
  {
    if k == 0 then 1 else 10 * Pow10(k - 1)
  }

  /** Digits without a leading zero are worth at least 10 to the number of digits less one. */
  lemma {:induction false} DigitsValueAtLeast(s: string)
    requires s != [] && AllDigits(s) && s[0] != '0'
    ensures DigitsValue(s) >= Pow10(|s| - 1)
  {
    if |s| > 1 {
      DigitsValueAtLeast(s[..|s| - 1]);
    }
  }

  /** Any text of eleven or more digits without a leading zero is out of range. */
  lemma {:induction false} LongNumbersRejected(s: string)
    requires |s| >= 11 && AllDigits(s) && s[0] != '0'
    ensures ParseInt(s).Fail?
    ensures ParseInt(['-'] + s).Fail?
  {
    DigitsValueAtLeast(s);
    assert Pow10(10) == 10_000_000_000;
    PowMonotone(10, |s| - 1);
    assert SplitSign(s) == (false, s);
    assert SplitSign(['-'] + s) == (true, s);
  }

  lemma {:induction false} PowMonotone(j: nat, k: nat)
    requires j <= k
    ensures Pow10(j) <= Pow10(k)
    decreases k
  {
    if j < k {
      PowMonotone(j, k - 1);
    }
  }

  /** The PUSH tests' register-name operand "ax" is no number. */
  lemma ParseRejectsName()
    ensures ParseInt("ax").Fail?
  {
    assert !IsDigit('a');
  }

  /** The PUSH tests' 16-digit operand is out of range. */
  lemma ParseRejectsLongNumber()
    ensures ParseInt("9999999999999999").Fail?
  {
    LongNumbersRejected("9999999999999999");
  }

  /** The PUSH tests' operand "42" parses to 42. */
  lemma ParseFortyTwo()
    ensures ParseInt("42") == Ok(42)
  {
    assert DigitsValue("42") == 42 by {
      assert "42"[..1] == "4";
    }
  }

  function Abs(n: int): int { if n < 0 then -n else n }

  /** C++ integer division: the quotient rounded toward zero. */
  function TruncDiv(a: int, b: int): (q: int)
    requires b != 0
    ensures a >= 0 ==> 0 <= a - q * b < Abs(b)
    ensures a < 0 ==> -Abs(b) < a - q * b <= 0
  {
    var m: int := Abs(a) / Abs(b);
    var q: int := if (a < 0) == (b < 0) then m else -m;
    TruncDivRemainder(a, b, q);
    q
  }

  /** The remainder left by the quotient rounded toward zero has the dividend's sign. */
  lemma TruncDivRemainder(a: int, b: int, q: int)
    requires b != 0
    requires q == if (a < 0) == (b < 0) then Abs(a) / Abs(b) else -(Abs(a) / Abs(b))
    ensures a >= 0 ==> 0 <= a - q * b < Abs(b)
    ensures a < 0 ==> -Abs(b) < a - q * b <= 0
  {
    var x: int, y: int := Abs(a), Abs(b);
    var m: int := x / y;
    assert 0 <= x - m * y < y;
    if a >= 0 && b > 0 {
      assert q * b == m * y;
    } else if a >= 0 {
      assert q * b == (-m) * (-y) == m * y;
    } else if b > 0 {
      assert q * b == (-m) * y == -(m * y);
    } else {
      assert q * b == m * (-y) == -(m * y);
    }
  }
}
