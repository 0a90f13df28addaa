/**
 Base-10 integer parsing with a range check at a fixed bit width, as Go's
 `strconv.ParseInt(s, 10, bits)` and `strconv.ParseUint(s, 10, bits)` behave
 for bit widths 2 to 64: a signed parse accepts one optional `+` or `-`
 followed by at least one decimal digit, an unsigned parse accepts digits
 only, and the value must lie in the width's range. Any failure, whether of
 syntax or of range, is a single "no value" outcome here, because the sink
 treats both alike.
 */
module Decimal {
  import opened Values

  type Width = b: nat | 2 <= b <= 64 witness 8

  /** An integer column family: signedness and bit width. */
  datatype IntFamily = IntFamily(signed: bool, bits: Width)

  function Pow2(n: nat): (p: nat)
    ensures p >= 1
  {
    if n == 0 then 1 else 2 * Pow2(n - 1)
  }

  lemma {:induction false} Pow2Monotone(a: nat, b: nat)
    requires a <= b
    ensures Pow2(a) <= Pow2(b)
    decreases b
  {
    if a < b {
      Pow2Monotone(a, b - 1);
    }
  }

  /** Smallest value of the family: -2^(n-1) when signed, 0 when unsigned. */
  function Lo(f: IntFamily): int {
    if f.signed then -(Pow2(f.bits - 1) as int) else 0
  }

  /** Largest value of the family: 2^(n-1)-1 when signed, 2^n-1 when unsigned. */
  function Hi(f: IntFamily): int {
    if f.signed then Pow2(f.bits - 1) - 1 else Pow2(f.bits) - 1
  }

  predicate InRange(n: int, f: IntFamily) {
    Lo(f) <= n <= Hi(f)
  }

  predicate IsDigit(c: char) {
    '0' <= c <= '9'
  }

  predicate AllDigits(s: string) {
    forall i :: 0 <= i < |s| ==> IsDigit(s[i])
  }

  function DigitVal(c: char): nat
    requires IsDigit(c)
  {
    c as int - '0' as int
  }

  /** The number a string of decimal digits denotes (leading zeros allowed). */
  function DigitsValue(s: string): nat
    requires AllDigits(s)
  {
    if |s| == 0 then 0
    else DigitsValue(s[..|s| - 1]) * 10 + DigitVal(s[|s| - 1])
  }

  predicate IsSign(c: char) {
    c == '+' || c == '-'
  }

  /** A signed parse takes one leading sign off; an unsigned parse takes none. */
  function SplitSign(s: string, f: IntFamily): (r: (bool, string))
    ensures |r.1| <= |s|
  {
    if f.signed && |s| > 0 && IsSign(s[0]) then (s[0] == '-', s[1..]) else (false, s)
  }

  /** The value `s` denotes for family `f`, or `None` when `s` is not a
      base-10 integer of `f`'s syntax or lies outside `f`'s range. */
  function ParseDecimal(s: string, f: IntFamily): (r: Option<int>)
    ensures r.Some? ==> InRange(r.value, f)
    ensures s == "" ==> r.None?
  {
    var (neg, ds) := SplitSign(s, f);
    if |ds| == 0 || !AllDigits(ds) then None
    else
      var n := if neg then -(DigitsValue(ds) as int) else DigitsValue(ds);
      if InRange(n, f) then Some(n) else None
  }

  /** Decimal digits of a natural number, without leading zeros. */
  function Digits(m: nat): (s: string)
    ensures |s| >= 1
    decreases m
  {
    if m < 10 then [('0' as int + m) as char]
    else Digits(m / 10) + [('0' as int + m % 10) as char]
  }

  /** Canonical decimal text of an integer, as Go's `strconv.FormatInt(n, 10)`. */
  function FormatDecimal(n: int): string {
    if n < 0 then "-" + Digits(-n) else Digits(n)
  }

  lemma {:induction false} DigitsCorrect(m: nat)
    ensures AllDigits(Digits(m))
    ensures DigitsValue(Digits(m)) == m
    decreases m
  {
    var s := Digits(m);
    if m >= 10 {
      DigitsCorrect(m / 10);
      assert s[..|s| - 1] == Digits(m / 10);
    }
  }

  /** Every in-range integer, written canonically, parses back to itself;
      every out-of-range one is rejected. */
  lemma FormatParse(n: int, f: IntFamily)
    ensures InRange(n, f) ==> ParseDecimal(FormatDecimal(n), f) == Some(n)
    ensures !InRange(n, f) ==> ParseDecimal(FormatDecimal(n), f) == None
  {
    var s := FormatDecimal(n);
    if n < 0 {
      DigitsCorrect(-n);
      assert s[0] == '-' && s[1..] == Digits(-n);
      if !f.signed {
        // an unsigned parse sees the '-' as a non-digit
        assert !IsDigit(s[0]);
      }
    } else {
      DigitsCorrect(n);
      assert !IsSign(s[0]) by { assert IsDigit(s[0]); }
    }
  }

  /** An unsigned parse rejects any leading sign, even "+0" and "-0". */
  lemma UnsignedRejectsSign(s: string, f: IntFamily)
    requires !f.signed
    requires |s| > 0 && IsSign(s[0])
    ensures ParseDecimal(s, f) == None
  {
    assert !IsDigit(s[0]);
  }

  /** A character other than a digit after the optional sign makes the parse fail. */
  lemma NonDigitRejected(s: string, f: IntFamily, i: nat)
    requires i < |s| && !IsDigit(s[i])
    requires i > 0 || !(f.signed && IsSign(s[0]))
    ensures ParseDecimal(s, f) == None
  {
    var (neg, ds) := SplitSign(s, f);
    if f.signed && IsSign(s[0]) {
      assert !IsDigit(ds[i - 1]);
    } else {
      assert !IsDigit(ds[i]);
    }
  }

  lemma {:induction false} DigitsValueAppend(s: string, c: char)
    requires AllDigits(s) && IsDigit(c)
    ensures AllDigits(s + [c])
    ensures DigitsValue(s + [c]) == DigitsValue(s) * 10 + DigitVal(c)
  {
    assert (s + [c])[..|s|] == s;
  }

  /** The value of a digit string is at least the value of any of its prefixes. */
  lemma {:induction false} DigitsValuePrefix(s: string, k: nat)
    requires AllDigits(s) && k <= |s|
    ensures DigitsValue(s[..k]) <= DigitsValue(s)
    decreases |s| - k
  {
    if k < |s| {
      DigitsValuePrefix(s, k + 1);
      assert s[..k + 1] == s[..k] + [s[k]];
      DigitsValueAppend(s[..k], s[k]);
    } else {
      assert s[..k] == s;
    }
  }

  /** What `ParseDecimal` yields once the sign is off and the rest is digits. */
  lemma ParseDigits(s: string, f: IntFamily, neg: bool, ds: string)
    requires SplitSign(s, f) == (neg, ds)
    requires |ds| > 0 && AllDigits(ds)
    ensures var n := if neg then -(DigitsValue(ds) as int) else DigitsValue(ds);
      ParseDecimal(s, f) == if InRange(n, f) then Some(n) else None
  {
  }

  /** A digit prefix whose value exceeds the width's unsigned maximum already
      decides that the parse fails. */
  lemma OverflowRejected(s: string, f: IntFamily, neg: bool, ds: string, k: nat)
    requires SplitSign(s, f) == (neg, ds)
    requires k <= |ds| && AllDigits(ds[..k])
    requires DigitsValue(ds[..k]) > Pow2(f.bits) - 1
    ensures ParseDecimal(s, f) == None
  {
    if |ds| > 0 && AllDigits(ds) {
      DigitsValuePrefix(ds, k);
      assert Pow2(f.bits) == 2 * Pow2(f.bits - 1);
      ParseDigits(s, f, neg, ds);
    }
  }

  /** Go's scanning parser: take off the sign, accumulate digits from the left,
      stop with a range failure as soon as the magnitude exceeds the unsigned
      maximum of the width, then apply the signed range check. Its outcome
      agrees with `ParseDecimal` on every input. */
  method ScanDecimal(s: string, f: IntFamily) returns (ok: bool, n: int)
    ensures ok <==> ParseDecimal(s, f).Some?
    ensures ok ==> n == ParseDecimal(s, f).value
  {
    if |s| == 0 {
      return false, 0;
    }
    var neg := false;
    var start := 0;
    if f.signed && IsSign(s[0]) {
      neg := s[0] == '-';
      start := 1;
    }
    var ds := s[start..];
    assert SplitSign(s, f) == (neg, ds);
    if start == |s| {
      return false, 0;
    }
    var maxVal := Pow2(f.bits) - 1;
    var acc := 0;
    var i := 0;
    while i < |ds|
      invariant 0 <= i <= |ds|
      invariant AllDigits(ds[..i])
      invariant acc == DigitsValue(ds[..i])
      invariant acc <= maxVal
    {
      if !IsDigit(ds[i]) {
        NonDigitRejected(s, f, start + i);
        return false, 0;
      }
      assert ds[..i + 1] == ds[..i] + [ds[i]];
      DigitsValueAppend(ds[..i], ds[i]);
      acc := acc * 10 + DigitVal(ds[i]);
      if acc > maxVal {
        OverflowRejected(s, f, neg, ds, i + 1);
        return false, 0;
      }
      i := i + 1;
    }
    assert ds[..i] == ds;
    ParseDigits(s, f, neg, ds);
    n := if neg then -acc else acc;
    ok := InRange(n, f);
    if !ok {
      n := 0;
    }
  }
}
