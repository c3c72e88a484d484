/**
  IBM hexadecimal floating point: sign, excess-64 power of sixteen, and a fraction of fourteen
  hexadecimal digits.  Values are exact rationals; a word pair is a pair of integers.
 */
module IbmHex {

  const P52 := 0x10_0000_0000_0000
  const P56 := 0x100_0000_0000_0000
  const P32 := 0x1_0000_0000
  const P31 := 0x8000_0000
  const P24 := 0x100_0000

  datatype Words = Words(msw: int, lsw: int)

  const ERROR := Words(0xff00_0000, 0)

  // ---------------------------------------------------------------- powers of sixteen

  /** `d * 16^k` for any integer k. */
  function Times16(d: real, k: int): real
    decreases if k < 0 then -k else k
  {
    if k == 0 then d else if k > 0 then Times16(16.0 * d, k - 1) else Times16(d / 16.0, k + 1)
  }

  /** 2^52 and 2^56 are 16^13 and 16^14. */
  const R52: real := P52 as real
  const R56: real := P56 as real

  lemma {:induction false} Step(d: real, k: int)
    ensures Times16(16.0 * d, k) == Times16(d, k + 1)
  {
    assert 16.0 * d / 16.0 == d;
  }

  lemma {:induction false} Order(p: real, q: real, k: int)
    requires p <= q
    ensures Times16(p, k) <= Times16(q, k)
    ensures p < q ==> Times16(p, k) < Times16(q, k)
    decreases if k < 0 then -k else k
  {
    if k > 0 { Order(16.0 * p, 16.0 * q, k - 1); } else if k < 0 { Order(p / 16.0, q / 16.0, k + 1); }
  }

  lemma {:induction false} Compare(p: real, q: real, k: int)
    ensures Times16(p, k) <= Times16(q, k) <==> p <= q
  {
    if p <= q { Order(p, q, k); } else { Order(q, p, k); }
  }

  lemma {:induction false} Sum(p: real, q: real, k: int)
    ensures Times16(p, k) + Times16(q, k) == Times16(p + q, k)
    decreases if k < 0 then -k else k
  {
    if k > 0 {
      Sum(16.0 * p, 16.0 * q, k - 1);
      assert 16.0 * p + 16.0 * q == 16.0 * (p + q);
    } else if k < 0 {
      Sum(p / 16.0, q / 16.0, k + 1);
      assert p / 16.0 + q / 16.0 == (p + q) / 16.0;
    }
  }

  lemma {:induction false} Positive(d: real, k: int)
    ensures d > 0.0 ==> Times16(d, k) > 0.0
    ensures Times16(0.0, k) == 0.0
  {
    Sum(0.0, 0.0, k);
    if d > 0.0 { Order(0.0, d, k); }
  }

  /** The power `16^k`. */
  function Power(k: int): real { Times16(1.0, k) }

  lemma {:induction false} PowerOrder(j: int, k: int)
    requires j <= k
    ensures Power(j) <= Power(k)
    decreases k - j
  {
    if j < k {
      PowerOrder(j, k - 1);
      Step(1.0, k - 1);
      Order(1.0, 16.0, k - 1);
    }
  }

  lemma {:induction false} Digits(d: real, n: nat, k: int)
    ensures Times16(Raised(d, n), k) == Times16(d, k + n)
    decreases n
  {
    if n > 0 {
      Digits(16.0 * d, n - 1, k);
      Step(d, k + n - 1);
    }
  }

  /** Multiplied by sixteen `n` times. */
  function Raised(d: real, n: nat): real
    decreases n
  {
    if n == 0 then d else Raised(16.0 * d, n - 1)
  }

  lemma {:induction false} FourDigits(d: real, n: nat)
    ensures Raised(d, n + 4) == Raised(65536.0 * d, n)
  {
    assert Raised(d, n + 4) == Raised(16.0 * d, n + 3) == Raised(256.0 * d, n + 2);
    assert Raised(256.0 * d, n + 2) == Raised(4096.0 * d, n + 1) == Raised(65536.0 * d, n);
  }

  lemma {:induction false} Widths(d: real)
    ensures Raised(d, 13) == d * R52 && Raised(d, 14) == d * R56
  {
    FourDigits(d, 9);
    FourDigits(d, 10);
    FourDigits(65536.0 * d, 5);
    FourDigits(65536.0 * d, 6);
    FourDigits(4294967296.0 * d, 1);
    FourDigits(4294967296.0 * d, 2);
    assert Raised(281474976710656.0 * d, 1) == 4503599627370496.0 * d;
    assert Raised(281474976710656.0 * d, 2) == 72057594037927936.0 * d;
  }

  lemma {:induction false} Bases(k: int)
    ensures Times16(R52, k) == Power(k + 13) && Times16(R56, k) == Power(k + 14)
  {
    Widths(1.0);
    Digits(1.0, 13, k);
    Digits(1.0, 14, k);
  }

  // ---------------------------------------------------------------- what a word pair means

  predicate IsWords(w: Words) {
    0 <= w.msw < P32 && 0 <= w.lsw < P32
  }

  function Sign(w: Words): int { w.msw / P31 % 2 }

  function Exponent(w: Words): int { w.msw / P24 % 0x80 }

  function Fraction(w: Words): int { w.msw % P24 * P32 + w.lsw }

  predicate Normalised(w: Words) {
    IsWords(w) && P52 <= Fraction(w) < P56
  }

  /** `fromFloatIBM`. */
  function FromFloatIBM(w: Words): real {
    var x := Times16(Fraction(w) as real, Exponent(w) - 64) / R56;
    if Sign(w) != 0 then -x else x
  }

  function Assemble(s: int, e: int, f: int): Words {
    Words(s * P31 + e * P24 + f / P32, f % P32)
  }

  lemma {:induction false} AssembleFields(s: int, e: int, f: int)
    requires (s == 0 || s == 1) && 0 <= e < 0x80 && 0 <= f < P56
    ensures var w := Assemble(s, e, f);
            IsWords(w) && Sign(w) == s && Exponent(w) == e && Fraction(w) == f
  {
    var m, w := f / P32, Assemble(s, e, f);
    assert 0 <= m < P24;
    assert w.msw / P24 == s * 0x80 + e;
    assert w.msw / P31 == s;
  }

  lemma {:induction false} FieldsAssemble(w: Words)
    requires IsWords(w)
    ensures Assemble(Sign(w), Exponent(w), Fraction(w)) == w
    ensures 0 <= Sign(w) <= 1 && 0 <= Exponent(w) < 0x80 && 0 <= Fraction(w) < P56
  {
    var q := w.msw / P24;
    assert w.msw / P31 == q / 0x80;
  }

  // ---------------------------------------------------------------- the conversion

  /** Rounding half upward, for positive values. */
  function Hround(d: real): int {
    (d + 0.5).Floor
  }

  lemma {:induction false} Shrinks(y: real)
    requires y > 1.0
    ensures 0 <= (y / 16.0).Floor < y.Floor
  {
  }

  lemma {:induction false} RaiseSmaller(d: real)
    requires 0.0 < d < R52
    ensures 0 <= (R52 / (16.0 * d)).Floor < (R52 / d).Floor
  {
    var y := R52 / d;
    assert y * d == R52;
    assert y > 1.0 by { if y <= 1.0 { MulLess(y, 1.0, d); } }
    assert R52 / (16.0 * d) == y / 16.0;
    Shrinks(y);
  }

  lemma {:induction false} MulLess(p: real, q: real, u: real)
    requires p <= q && u > 0.0
    ensures p * u <= q * u
  {
  }

  /** The loop that scales a value below 2^52 up, and the one that scales a value of 2^56 or more down. */
  function Raise(d: real, e: int): (r: (real, int))
    requires d > 0.0
    ensures r.0 > 0.0
    decreases (R52 / d).Floor
  {
    if d < R52 then
      RaiseSmaller(d);
      Raise(16.0 * d, e - 1)
    else (d, e)
  }

  function Lower(d: real, e: int): (r: (real, int))
    requires d > 0.0
    ensures r.0 > 0.0
    decreases d.Floor
  {
    if d >= R56 then
      Shrinks(d);
      Lower(d / 16.0, e + 1)
    else (d, e)
  }

  function Normal(a: real): (r: (real, int))
    requires a > 0.0
    ensures r.0 > 0.0
  {
    var (d, e) := Raise(a * R56, 64);
    Lower(d, e)
  }

  /** The words of a normalised magnitude: the exponent is clamped at zero, and rounding may carry out
      of the fraction into it. */
  function Encode(s: int, d: real, e0: int): Words {
    var e := if e0 < 0 then 0 else e0;
    if e > 127 then ERROR
    else
      var f := Hround(d);
      if f >= P56 then (if e + 1 > 127 then ERROR else Assemble(s, e + 1, f / 16))
      else Assemble(s, e, f)
  }

  function AbsReal(x: real): real { if x < 0.0 then -x else x }

  function ToFloatIBM(x: real): Words {
    if x == 0.0 then Words(0, 0)
    else
      var (d, e) := Normal(AbsReal(x));
      Encode(if x < 0.0 then 1 else 0, d, e)
  }

  method ConvertToFloatIBM(x: real) returns (w: Words)
    ensures w == ToFloatIBM(x)
  {
    var d := x;
    if d == 0.0 {
      return Words(0, 0);
    }
    var s := 0;
    if d < 0.0 {
      s, d := 1, -d;
    }
    d := d * R56;
    var e := 64;
    ghost var goal := Normal(AbsReal(x));
    while d < R52
      invariant d > 0.0
      invariant Lower(Raise(d, e).0, Raise(d, e).1) == goal
      decreases (R52 / d).Floor
    {
      RaiseSmaller(d);
      e := e - 1;
      d := 16.0 * d;
    }
    while d >= R56
      invariant d > 0.0
      invariant Lower(d, e) == goal
      decreases d.Floor
    {
      Shrinks(d);
      e := e + 1;
      d := d / 16.0;
    }
    if e < 0 {
      e := 0;
    }
    if e > 127 {
      return ERROR;
    }
    var f := Hround(d);
    if f >= P56 {
      f := f / 16;
      e := e + 1;
      if e > 127 {
        return ERROR;
      }
    }
    w := Assemble(s, e, f);
  }

  // ---------------------------------------------------------------- normalisation

  lemma {:induction false} RaiseKeeps(d: real, e: int, k: int)
    requires d > 0.0
    ensures var (r, g) := Raise(d, e);
            && Times16(r, g + k) == Times16(d, e + k)
            && r >= R52 && (d < R52 ==> r < R56) && (d >= R52 ==> r == d)
    decreases (R52 / d).Floor
  {
    if d < R52 {
      RaiseSmaller(d);
      RaiseKeeps(16.0 * d, e - 1, k);
      Step(d, e - 1 + k);
    }
  }

  lemma {:induction false} LowerKeeps(d: real, e: int, k: int)
    requires d >= R52
    ensures var (r, g) := Lower(d, e);
            Times16(r, g + k) == Times16(d, e + k) && R52 <= r < R56
    decreases d.Floor
  {
    if d >= R56 {
      Shrinks(d);
      LowerKeeps(d / 16.0, e + 1, k);
      Step(d / 16.0, e + k);
    }
  }

  /** The normalised magnitude has its leading hexadecimal digit nonzero and denotes the value. */
  lemma {:induction false} NormalKeeps(a: real)
    requires a > 0.0
    ensures var (d, e) := Normal(a);
            R52 <= d < R56 && Times16(d, e - 78) == a
  {
    var b := a * R56;
    RaiseKeeps(b, 64, -78);
    LowerKeeps(Raise(b, 64).0, Raise(b, 64).1, -78);
    Widths(a);
    Digits(a, 14, -14);
  }

  /** The exponent is at least k exactly for values of 16^(k-65) and more. */
  lemma {:induction false} NormalExponent(a: real, k: int)
    requires a > 0.0
    ensures Normal(a).1 >= k <==> a >= Power(k - 65)
  {
    NormalKeeps(a);
    FormExponent(a, Normal(a).0, Normal(a).1, k);
  }

  lemma {:induction false} FormExponent(a: real, d: real, e: int, k: int)
    requires R52 <= d < R56 && a == Times16(d, e - 78)
    ensures e >= k <==> a >= Power(k - 65)
  {
    Bases(e - 78);
    Order(R52, d, e - 78);
    Order(d, R56, e - 78);
    if e >= k { PowerOrder(k - 65, e - 65); } else { PowerOrder(e - 64, k - 65); }
  }

  /** There is only one normalised form. */
  lemma {:induction false} NormalUnique(a: real, d: real, e: int)
    requires R52 <= d < R56 && a == Times16(d, e - 78) && a > 0.0
    ensures Normal(a) == (d, e)
  {
    var (d1, e1) := Normal(a);
    NormalKeeps(a);
    FormExponent(a, d, e, e1);
    FormExponent(a, d1, e1, e1);
    FormExponent(a, d, e, e);
    FormExponent(a, d1, e1, e);
    assert e1 == e;
    if d1 < d { Order(d1, d, e - 78); } else { Order(d, d1, e - 78); }
  }

  // ---------------------------------------------------------------- accuracy

  /** The least magnitude and the first magnitude that rounds past the greatest word pair. */
  function Smallest(): real { Power(-65) }
  function TooLarge(): real { Times16(R56 - 0.5, 49) }

  lemma {:induction false} Rounding(d: real)
    requires R52 <= d < R56
    ensures P52 <= Hround(d) <= P56
    ensures -0.5 <= Hround(d) as real - d <= 0.5
    ensures Hround(d) == P56 <==> d >= R56 - 0.5
  {
  }

  function Signed(s: int, a: real): real { if s == 1 then -a else a }

  /** The value of the words built from a sign, an exponent and a fraction. */
  lemma {:induction false} AssembleValue(s: int, e: int, f: int)
    requires (s == 0 || s == 1) && 0 <= e < 0x80 && 0 <= f < P56
    ensures var w := Assemble(s, e, f);
            FromFloatIBM(w) == Signed(s, Times16(f as real, e - 78))
  {
    AssembleFields(s, e, f);
    var d := f as real / R56;
    Widths(d);
    Digits(d, 14, e - 78);
    assert d * R56 == f as real;
    Divide(f as real, e - 64);
    Digits(f as real / R56, 14, e - 78);
  }

  lemma {:induction false} Divide(d: real, k: int)
    ensures Times16(d, k) / R56 == Times16(d / R56, k)
    decreases if k < 0 then -k else k
  {
    if k > 0 {
      Divide(16.0 * d, k - 1);
      assert 16.0 * d / R56 == 16.0 * (d / R56);
    } else if k < 0 {
      Divide(d / 16.0, k + 1);
      assert d / 16.0 / R56 == d / R56 / 16.0;
    }
  }

  /** What encoding a normalised magnitude in range gives, carry included. */
  lemma {:induction false} EncodeValue(s: int, d: real, e: int)
    requires (s == 0 || s == 1) && R52 <= d < R56 && 0 <= e <= 127
    ensures var w := Encode(s, d, e);
            if e == 127 && d >= R56 - 0.5 then w == ERROR
            else Normalised(w) && Sign(w) == s &&
                 FromFloatIBM(w) == Signed(s, Times16(Hround(d) as real, e - 78))
  {
    Rounding(d);
    var f := Hround(d);
    if f == P56 {
      if e < 127 {
        AssembleFields(s, e + 1, P52);
        AssembleValue(s, e + 1, P52);
        Step(R52, e - 78);
      }
    } else {
      AssembleFields(s, e, f);
      AssembleValue(s, e, f);
    }
  }

  /** Half a unit in the last of the 56 fraction bits at the value's own exponent, which is never less
      than zero. */
  function HalfUnit(a: real): real
    requires a > 0.0
  {
    var e := Normal(a).1;
    Times16(0.5, (if e < 0 then 0 else e) - 78)
  }

  lemma {:induction false} Difference(p: real, q: real, k: int)
    ensures Times16(p, k) - Times16(q, k) == Times16(p - q, k)
  {
    Sum(q, p - q, k);
    assert q + (p - q) == p;
  }

  lemma {:induction false} Near(f: real, d: real, bound: real, k: int)
    ensures AbsReal(Times16(f, k) - Times16(d, k)) <= Times16(bound, k) <==> AbsReal(f - d) <= bound
  {
    Difference(f, d, k);
    Difference(d, f, k);
    Compare(f - d, bound, k);
    Compare(d - f, bound, k);
  }

  /** A nonzero value is refused exactly from the magnitude on that rounds past the greatest fraction
      at the greatest exponent; otherwise the result is normalised and has the value's sign, and it is
      within half a unit of the value exactly when the value is at least 16^-65, below which the
      exponent is clamped. */
  lemma {:induction false} Accurate(x: real)
    requires x != 0.0
    ensures var w, a := ToFloatIBM(x), AbsReal(x);
            && (w == Words(0xff00_0000, 0) <==> a >= TooLarge())
            && (a < TooLarge() ==>
                  && Normalised(w) && Sign(w) == (if x < 0.0 then 1 else 0)
                  && (AbsReal(FromFloatIBM(w) - x) <= HalfUnit(a) <==> a >= Smallest()))
  {
    var a := AbsReal(x);
    var s := if x < 0.0 then 1 else 0;
    var (d, e) := Normal(a);
    NormalKeeps(a);
    NormalExponent(a, 0);
    LargeExponent(a, d, e);
    if e >= 0 {
      if e <= 127 {
        EncodeValue(s, d, e);
        Rounding(d);
        Near(Hround(d) as real, d, 0.5, e - 78);
        assert ERROR.msw % P24 == 0;
      }
    } else {
      EncodeValue(s, d, 0);
      Rounding(d);
      Clamped(d, e);
      assert a < TooLarge();
    }
  }

  /** Zero is all zeros, and nothing else is. */
  lemma {:induction false} ZeroWords(x: real)
    ensures ToFloatIBM(x) == Words(0, 0) <==> x == 0.0
  {
    hide Normalised, FromFloatIBM, HalfUnit, Sign;
    if x != 0.0 {
      Accurate(x);
      NoFraction();
    }
  }

  lemma {:induction false} NoFraction()
    ensures !Normalised(Words(0, 0))
  {
  }

  lemma {:induction false} LargeExponent(a: real, d: real, e: int)
    requires a > 0.0 && R52 <= d < R56 && a == Times16(d, e - 78)
    ensures a >= TooLarge() <==> e > 127 || (e == 127 && d >= R56 - 0.5)
  {
    Compare(R56 - 0.5, d, 49);
    Order(R56 - 0.5, R56, 49);
    Order(R52, R56 - 0.5, 49);
    Bases(49);
    FormExponent(a, d, e, 127);
    FormExponent(a, d, e, 128);
  }

  /** Clamping the exponent multiplies a tiny value by a power of sixteen. */
  lemma {:induction false} Clamped(d: real, e: int)
    requires R52 <= d < R56 && e < 0
    ensures Times16(Hround(d) as real, -78) - Times16(d, e - 78) > Times16(0.5, -78)
  {
    Rounding(d);
    Below(d, e);
    Sum(d / 16.0, Hround(d) as real - d / 16.0, -78);
    Order(0.5, Hround(d) as real - d / 16.0, -78);
  }

  lemma {:induction false} Below(d: real, e: int)
    requires d > 0.0 && e < 0
    ensures Times16(d, e - 78) <= Times16(d / 16.0, -78)
    decreases -e
  {
    Step(d / 16.0, e - 78);
    if e < -1 {
      Below(d / 16.0, e + 1);
      Order(d / 256.0, d / 16.0, -78);
    }
    assert 16.0 * (d / 16.0) == d;
  }

  // ---------------------------------------------------------------- order

  /** The 63 bits below the sign, as one integer. */
  function Magnitude(w: Words): int {
    w.msw % P31 * P32 + w.lsw
  }

  lemma {:induction false} MagnitudeOf(s: int, e: int, f: int)
    requires (s == 0 || s == 1) && 0 <= e < 0x80 && 0 <= f < P56
    ensures Magnitude(Assemble(s, e, f)) == e * P56 + f
  {
    assert (e * P24 + f / P32) / P31 == 0 && 0 <= e * P24 + f / P32 < P31;
  }

  lemma {:induction false} EncodeMagnitude(s: int, d: real, e: int)
    requires (s == 0 || s == 1) && R52 <= d < R56 && 0 <= e <= 127
    requires !(e == 127 && d >= R56 - 0.5)
    ensures Magnitude(Encode(s, d, e)) ==
            if Hround(d) == P56 then (e + 1) * P56 + P52 else e * P56 + Hround(d)
  {
    Rounding(d);
    if Hround(d) == P56 {
      MagnitudeOf(s, e + 1, P52);
    } else {
      MagnitudeOf(s, e, Hround(d));
    }
  }

  lemma {:induction false} HroundOrder(c: real, d: real)
    requires c <= d
    ensures Hround(c) <= Hround(d)
  {
  }

  /** On magnitudes that are neither clamped nor refused the conversion keeps order. */
  lemma {:induction false} Monotone(x: real, y: real)
    requires Smallest() <= AbsReal(x) <= AbsReal(y) < TooLarge() && x != 0.0
    ensures Magnitude(ToFloatIBM(x)) <= Magnitude(ToFloatIBM(y))
  {
    var a, b := AbsReal(x), AbsReal(y);
    var ((c, i), (d, j)) := (Normal(a), Normal(b));
    NormalKeeps(a);
    NormalKeeps(b);
    NormalExponent(a, 0);
    NormalExponent(a, i);
    NormalExponent(b, i);
    LargeExponent(a, c, i);
    LargeExponent(b, d, j);
    EncodeMagnitude(if x < 0.0 then 1 else 0, c, i);
    EncodeMagnitude(if y < 0.0 then 1 else 0, d, j);
    Rounding(c);
    Rounding(d);
    if i == j {
      Compare(c, d, i - 78);
      HroundOrder(c, d);
    }
  }

  // ---------------------------------------------------------------- round trip

  /** Converting the value of any normalised word pair gives the pair back. */
  lemma {:induction false} RoundTrip(w: Words)
    requires Normalised(w)
    ensures ToFloatIBM(FromFloatIBM(w)) == w
  {
    var s, e, f := Sign(w), Exponent(w), Fraction(w);
    FieldsAssemble(w);
    AssembleValue(s, e, f);
    var a := Times16(f as real, e - 78);
    Positive(f as real, e - 78);
    assert AbsReal(FromFloatIBM(w)) == a;
    NormalUnique(a, f as real, e);
    assert Hround(f as real) == f;
  }

  // ---------------------------------------------------------------- short precision

  const SHORT_ERROR := 0xff00_0000

  function RoundShort(w: Words): int {
    if w.lsw < P31 then w.msw
    else
      var s := w.msw / P31 % 2 * P31;
      var e, f := Exponent(w), w.msw % P24 + 1;
      if f > 0xff_ffff then (if e + 1 > 127 then SHORT_ERROR else s + (e + 1) * P24 + f / 16)
      else s + e * P24 + f
  }

  /** The short fraction, counted in units of the long one. */
  function ShortFraction(f: int): int { (f + P31) / P32 * P32 }

  /** A short word is normalised, keeps the sign and denotes the long fraction rounded half up to 24
      bits; it is an error exactly when that rounding passes the greatest exponent. */
  ghost predicate ShortOf(w: Words, r: int) {
    if Exponent(w) == 127 && Fraction(w) >= P56 - P31 then r == 0xff00_0000
    else
      && Normalised(Words(r, 0)) && Sign(Words(r, 0)) == Sign(w)
      && AbsReal(FromFloatIBM(Words(r, 0))) == Times16(ShortFraction(Fraction(w)) as real, Exponent(w) - 78)
  }

  method RoundFloatIBMShort(msw: int, lsw: int) returns (r: int)
    ensures Normalised(Words(msw, lsw)) ==> ShortOf(Words(msw, lsw), r)
    ensures r == RoundShort(Words(msw, lsw))
  {
    if Normalised(Words(msw, lsw)) {
      ShortValue(Words(msw, lsw));
    }
    hide ShortOf;
    if lsw < P31 {
      return msw;
    }
    var s := msw / P31 % 2 * P31;
    var e := msw / P24 % 0x80;
    var f := msw % P24 + 1;
    if f > 0xff_ffff {
      f := f / 16;
      e := e + 1;
      if e > 127 {
        return SHORT_ERROR;
      }
    }
    r := s + e * P24 + f;
  }

  /** The short word of a 24-bit fraction that may have been rounded up by a digit. */
  function ShortWord(s: int, e: int, g: int): int {
    if g == P24 then (if e == 127 then SHORT_ERROR else s * P31 + (e + 1) * P24 + P24 / 16) else s * P31 + e * P24 + g
  }

  lemma {:induction false} RoundedUp(f: int)
    requires 0 <= f < P56
    ensures (f + P31) / P32 == (if f % P32 < P31 then f / P32 else f / P32 + 1) && 0 <= f / P32 < P24
  {
    var q, l := f / P32, f % P32;
    assert f == q * P32 + l;
    assert l < P31 ==> (q * P32 + l + P31) / P32 == q;
    assert l >= P31 ==> ((q + 1) * P32 + (l - P31)) / P32 == q + 1;
  }

  lemma {:induction false} RoundsTo(s: int, e: int, f: int)
    requires (s == 0 || s == 1) && 0 <= e < 0x80 && P52 <= f < P56
    ensures RoundShort(Assemble(s, e, f)) == ShortWord(s, e, (f + P31) / P32)
  {
    var w := Assemble(s, e, f);
    AssembleFields(s, e, f);
    RoundedUp(f);
    assert w.msw % P24 == f / P32;
  }

  lemma {:induction false} ShortValue(w: Words)
    requires Normalised(w)
    ensures ShortOf(w, RoundShort(w))
  {
    var s, e, f := Sign(w), Exponent(w), Fraction(w);
    FieldsAssemble(w);
    RoundsTo(s, e, f);
    RoundedUp(f);
    if e < 127 || f < P56 - P31 {
      ShortWordValue(s, e, (f + P31) / P32);
    }
  }

  lemma {:induction false} ShortWordValue(s: int, e: int, g: int)
    requires (s == 0 || s == 1) && 0 <= e < 0x80 && P24 / 16 <= g <= P24 && (g == P24 ==> e < 127)
    ensures var r := Words(ShortWord(s, e, g), 0);
            && Normalised(r) && Sign(r) == s
            && AbsReal(FromFloatIBM(r)) == Times16((g * P32) as real, e - 78)
  {
    if g == P24 {
      ShortAssembled(s, e + 1, P24 / 16);
      Step((P24 / 16 * P32) as real, e - 78);
    } else {
      ShortAssembled(s, e, g);
    }
  }

  lemma {:induction false} ShortAssembled(s: int, e: int, g: int)
    requires (s == 0 || s == 1) && 0 <= e < 0x80 && P24 / 16 <= g < P24
    ensures var r := Words(s * P31 + e * P24 + g, 0);
            && Normalised(r) && Sign(r) == s
            && AbsReal(FromFloatIBM(r)) == Times16((g * P32) as real, e - 78)
  {
    assert g * P32 / P32 == g && g * P32 % P32 == 0;
    AssembleFields(s, e, g * P32);
    AssembleValue(s, e, g * P32);
    Positive((g * P32) as real, e - 78);
  }

  lemma {:induction false} SignOfValue(w: Words)
    requires Normalised(w)
    ensures Sign(w) == 0 ==> FromFloatIBM(w) > 0.0
    ensures Sign(w) != 0 ==> FromFloatIBM(w) < 0.0
  {
    FieldsAssemble(w);
    AssembleValue(Sign(w), Exponent(w), Fraction(w));
    Positive(Fraction(w) as real, Exponent(w) - 78);
  }

  lemma {:induction false} ShortNear(f: int)
    requires 0 <= f
    ensures AbsReal(ShortFraction(f) as real - f as real) <= P31 as real
  {
    assert f + P31 - P32 < ShortFraction(f) <= f + P31;
  }

  /** The fraction rounded half up to 24 bits in one step. */
  function Once(d: real): int {
    ((d + P31 as real) / P32 as real).Floor
  }

  /** The short word that rounding a value once gives. */
  function OnceShort(x: real): int
    requires x != 0.0
  {
    var (d, e) := Normal(AbsReal(x));
    if e > 127 then SHORT_ERROR else ShortWord(if x < 0.0 then 1 else 0, e, Once(d))
  }

  /** The fraction lies below the middle between two short ones by no more than half a long unit, so that
      it is first rounded up to the middle. */
  predicate JustBelowTie(d: real) {
    Hround(d) % P32 == P31 && d < Hround(d) as real
  }

  lemma {:induction false} TwiceOrOnce(d: real)
    requires R52 <= d < R56
    ensures P24 / 16 <= Once(d) <= P24 && P24 / 16 <= (Hround(d) + P31) / P32 <= P24
    ensures (Hround(d) + P31) / P32 == Once(d) <==> !JustBelowTie(d)
  {
    var f := Hround(d);
    var q, r := (f + P31) / P32, (f + P31) % P32;
    assert f + P31 == q * P32 + r;
    assert r == 0 <==> f % P32 == P31;
    var y := (d + P31 as real) / P32 as real;
    assert y * P32 as real == d + P31 as real;
    if d < f as real && r == 0 {
      assert q as real - 1.0 <= y < q as real;
      assert y.Floor == q - 1;
    } else {
      assert q as real <= y < q as real + 1.0;
    }
  }

  /** The word of a value rounded to double and then to short. */
  lemma {:induction false} TwiceShort(s: int, d: real, e: int)
    requires (s == 0 || s == 1) && R52 <= d < R56 && 0 <= e <= 127
    ensures RoundShort(Encode(s, d, e)) == ShortWord(s, e, (Hround(d) + P31) / P32)
  {
    Rounding(d);
    if Hround(d) < P56 {
      RoundsTo(s, e, Hround(d));
    } else if e < 127 {
      RoundsTo(s, e + 1, P52);
    }
  }

  lemma {:induction false} ShortWordsApart(s: int, e: int, g: int, h: int)
    requires (s == 0 || s == 1) && 0 <= e < 0x80 && P24 / 16 <= g <= P24 && P24 / 16 <= h <= P24
    ensures ShortWord(s, e, g) == ShortWord(s, e, h) <==> g == h
  {
  }

  /** Rounding twice stays within half a short unit plus half a long one of the value. */
  lemma {:induction false} RoundedTwice(x: real)
    requires Smallest() <= AbsReal(x) < TooLarge() && x != 0.0
    requires RoundShort(ToFloatIBM(x)) != SHORT_ERROR
    ensures var e := Normal(AbsReal(x)).1;
            AbsReal(FromFloatIBM(Words(RoundShort(ToFloatIBM(x)), 0)) - x) <= Times16(P31 as real + 0.5, e - 78)
  {
    var a, s := AbsReal(x), if x < 0.0 then 1 else 0;
    var (d, e) := Normal(a);
    NormalKeeps(a);
    NormalExponent(a, 0);
    LargeExponent(a, d, e);
    TwiceShort(s, d, e);
    TwiceNear(s, d, e);
    var v := FromFloatIBM(Words(RoundShort(ToFloatIBM(x)), 0));
    assert AbsReal(v - x) == AbsReal(AbsReal(v) - a);
  }

  lemma {:induction false} TwiceNear(s: int, d: real, e: int)
    requires (s == 0 || s == 1) && R52 <= d < R56 && 0 <= e <= 127
    requires ShortWord(s, e, (Hround(d) + P31) / P32) != SHORT_ERROR
    ensures var v := FromFloatIBM(Words(ShortWord(s, e, (Hround(d) + P31) / P32), 0));
            && (s == 0 ==> v > 0.0) && (s == 1 ==> v < 0.0)
            && AbsReal(AbsReal(v) - Times16(d, e - 78)) <= Times16(P31 as real + 0.5, e - 78)
  {
    var f := Hround(d);
    var r := Words(ShortWord(s, e, (f + P31) / P32), 0);
    TwiceOrOnce(d);
    ShortWordValue(s, e, (f + P31) / P32);
    SignOfValue(r);
    Rounding(d);
    ShortNear(f);
    Near(ShortFraction(f) as real, d, P31 as real + 0.5, e - 78);
  }

  /** Rounding twice gives the word that rounding once would, unless the value lies just below the middle
      of two short ones. */
  lemma {:induction false} TwiceIsOnce(x: real)
    requires x != 0.0 && AbsReal(x) >= Smallest()
    ensures var (d, e) := Normal(AbsReal(x));
            RoundShort(ToFloatIBM(x)) == OnceShort(x) <==> e > 127 || !JustBelowTie(d)
  {
    var s := if x < 0.0 then 1 else 0;
    var (d, e) := Normal(AbsReal(x));
    NormalKeeps(AbsReal(x));
    NormalExponent(AbsReal(x), 0);
    if e <= 127 {
      TwiceShort(s, d, e);
      TwiceOrOnce(d);
      ShortWordsApart(s, e, (Hround(d) + P31) / P32, Once(d));
    }
  }

  /** There are such values at every exponent, sign and fraction: a quarter of a long unit below the
      middle behind the short fraction `g`. */
  lemma {:induction false} TwiceIsNotOnce(s: int, e: int, g: int, x: real)
    requires (s == 0 || s == 1) && 0 <= e <= 127 && P24 / 16 <= g < P24
    requires x == Signed(s, Times16((g * P32 + P31) as real - 0.25, e - 78))
    ensures x != 0.0 && RoundShort(ToFloatIBM(x)) == ShortWord(s, e, g + 1) != ShortWord(s, e, g) == OnceShort(x)
  {
    var d := (g * P32 + P31) as real - 0.25;
    var a := Times16(d, e - 78);
    Positive(d, e - 78);
    NormalUnique(a, d, e);
    MiddleBehind(g, d);
    TwiceShort(s, d, e);
    TwiceOrOnce(d);
    ShortWordsApart(s, e, g, g + 1);
  }

  lemma {:induction false} MiddleBehind(g: int, d: real)
    requires P24 / 16 <= g < P24 && d == (g * P32 + P31) as real - 0.25
    ensures Hround(d) == g * P32 + P31 && (Hround(d) + P31) / P32 == g + 1 && Once(d) == g && R52 <= d < R56
  {
    assert g * P32 + P31 + P31 == (g + 1) * P32;
    assert ((g + 1) * P32) / P32 == g + 1;
    var y := (d + P31 as real) / P32 as real;
    assert y * P32 as real == d + P31 as real;
    assert g as real <= y < g as real + 1.0;
  }
}
