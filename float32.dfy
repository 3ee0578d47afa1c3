/**
 * IEEE 754 binary32 values as they cross the wire: a float is its 32-bit
 * pattern, and its meaning (section 3.4 of IEEE 754-2008) is given exactly as
 * an extended real. Only comparisons are modelled; arithmetic rounding is not.
 */
module Float32 {
  type f32 = bv32

  const ExponentMask: bv32 := 0x7F80_0000
  const FractionMask: bv32 := 0x007F_FFFF

  const Zero: f32 := 0x0000_0000
  const One: f32 := 0x3F80_0000
  const Five: f32 := 0x40A0_0000
  const Thirty: f32 := 0x41F0_0000
  /** The binary32 nearest to 0.05, which is what the literal `0.05` compiles to. */
  const PointZeroFive: f32 := 0x3D4C_CCCD

  /** A NaN has all exponent bits set and a nonzero fraction. */
  predicate IsNaN(f: f32) {
    f & ExponentMask == ExponentMask && f & FractionMask != 0
  }

  datatype Extended = NaN | PosInf | NegInf | Finite(r: real)

  function Pow2(n: int): (r: real)
    ensures r > 0.0
    decreases if n < 0 then -n else n
  {
    if n == 0 then 1.0 else if n > 0 then 2.0 * Pow2(n - 1) else Pow2(n + 1) / 2.0
  }

  function SignBit(f: f32): bool {
    f >> 31 == 1
  }

  function BiasedExponent(f: f32): int {
    ((f >> 23) & 0xFF) as int
  }

  function Fraction(f: f32): int {
    (f & FractionMask) as int
  }

  /** The exact value a bit pattern denotes: NaN, an infinity, or a (normal or subnormal) real. */
  function Value(f: f32): (x: Extended)
    ensures x.NaN? <==> IsNaN(f)
  {
    var e := BiasedExponent(f);
    var m := Fraction(f);
    assert e == 255 <==> f & ExponentMask == ExponentMask;
    if e == 255 then
      (if m != 0 then NaN else if SignBit(f) then NegInf else PosInf)
    else
      var mag := if e == 0 then (m as real) * Pow2(-149) else ((m + 0x80_0000) as real) * Pow2(e - 150);
      Finite(if SignBit(f) then -mag else mag)
  }

  lemma HalfTimesDouble(p: real, q: real)
    ensures (p / 2.0) * (2.0 * q) == p * q
  {
  }

  /** 2^-k is the reciprocal of 2^k. */
  lemma {:induction false} Pow2Reciprocal(k: nat)
    ensures Pow2(-(k as int)) * Pow2(k) == 1.0
  {
    if k > 0 {
      Pow2Reciprocal(k - 1);
      HalfTimesDouble(Pow2(-(k as int) + 1), Pow2(k - 1));
    }
  }

  lemma {:induction false} Pow2Add(a: nat, b: nat)
    ensures Pow2(a + b) == Pow2(a) * Pow2(b)
  {
    if b > 0 {
      Pow2Add(a, b - 1);
    }
  }

  /** The scalings the constants below use: 2^-23, 2^-21 and 2^-19 on their significands. */
  lemma SignificandScalings()
    ensures 8388608.0 * Pow2(-23) == 1.0
    ensures 10485760.0 * Pow2(-21) == 5.0
    ensures 15728640.0 * Pow2(-19) == 30.0
  {
    Pow2Reciprocal(23);
    Pow2Reciprocal(21);
    Pow2Reciprocal(19);
    PositivePowers();
  }

  lemma PositivePowers()
    ensures Pow2(23) == 8388608.0 && Pow2(21) == 2097152.0 && Pow2(19) == 524288.0
  {
    Pow2Add(12, 11);
    Pow2Add(12, 9);
    Pow2Add(12, 7);
  }

  /** The constants above denote what their names say. */
  lemma ConstantValues()
    ensures Value(Zero) == Finite(0.0)
    ensures Value(One) == Finite(1.0)
    ensures Value(Five) == Finite(5.0)
    ensures Value(Thirty) == Finite(30.0)
  {
    SignificandScalings();
    assert BiasedExponent(One) == 127 && Fraction(One) == 0 && !SignBit(One);
    assert BiasedExponent(Five) == 129 && Fraction(Five) == 0x20_0000 && !SignBit(Five);
    assert BiasedExponent(Thirty) == 131 && Fraction(Thirty) == 0x70_0000 && !SignBit(Thirty);
  }

  /** `0.05f` is 13421773 · 2^-28, less than half a unit in the last place (2^-29) from 0.05,
      so it is the binary32 nearest to 0.05. */
  lemma PointZeroFiveValue()
    ensures Value(PointZeroFive) == Finite(13421773.0 / 268435456.0)
    ensures -0.5 / 268435456.0 < Value(PointZeroFive).r - 0.05 < 0.5 / 268435456.0
  {
    PointZeroFiveFields();
    Pow2Minus28();
  }

  lemma PointZeroFiveFields()
    ensures BiasedExponent(PointZeroFive) == 122 && Fraction(PointZeroFive) == 0x4C_CCCD
    ensures !SignBit(PointZeroFive)
  {
  }

  lemma Pow2Minus28()
    ensures Pow2(-28) == 1.0 / 268435456.0
  {
    Pow2Reciprocal(28);
    Pow2Add(14, 14);
    assert Pow2(28) == 268435456.0;
  }

  // ---------------------------------------------------------------------
  // Comparisons, as the C++ operators evaluate them: every comparison with a
  // NaN operand is false, and the two zeros are equal.

  predicate LessExt(x: Extended, y: Extended) {
    match (x, y)
    case (NegInf, PosInf) => true
    case (NegInf, Finite(_)) => true
    case (Finite(_), PosInf) => true
    case (Finite(a), Finite(b)) => a < b
    case _ => false
  }

  /** `a < b` on floats. */
  predicate Less(a: f32, b: f32) {
    LessExt(Value(a), Value(b))
  }

  /** `a != b` on floats: true whenever either operand is a NaN. */
  predicate NotEqual(a: f32, b: f32) {
    IsNaN(a) || IsNaN(b) || Value(a) != Value(b)
  }

  /** std::min(a, b), which yields b only when b < a. */
  function Min(a: f32, b: f32): f32 {
    if Less(b, a) then b else a
  }

  /** std::max(a, b), which yields b only when a < b. */
  function Max(a: f32, b: f32): f32 {
    if Less(a, b) then b else a
  }

  /** std::max(0.0f, std::min(v, 1.0f)): the clamp that keeps a duty cycle within [0, 1]. */
  function Clamp01(v: f32): (r: f32)
    ensures r == Zero || r == One || r == v
    ensures !IsNaN(r)
    ensures r != v ==> (r == Zero <==> !Less(Zero, v))
    ensures r != v ==> (r == One <==> Less(One, v))
  {
    ConstantValues();
    Max(Zero, Min(v, One))
  }

  /** The clamp's result always denotes a real in [0, 1]; a NaN becomes 0, a value already in
      (0, 1] is kept, and anything at or below 0 becomes +0. */
  lemma Clamp01Range(v: f32)
    ensures Value(Clamp01(v)).Finite?
    ensures 0.0 <= Value(Clamp01(v)).r <= 1.0
    ensures IsNaN(v) ==> Clamp01(v) == Zero
    ensures Value(v).Finite? && 0.0 < Value(v).r <= 1.0 ==> Clamp01(v) == v
    ensures Value(v).NegInf? || (Value(v).Finite? && Value(v).r <= 0.0) ==> Clamp01(v) == Zero
    ensures Value(v).PosInf? || (Value(v).Finite? && Value(v).r > 1.0) ==> Clamp01(v) == One
  {
    ConstantValues();
    var x := Value(v);
    if x.NaN? {
      assert Min(v, One) == v && Max(Zero, v) == Zero;
    } else if LessExt(Finite(1.0), x) {
      assert Min(v, One) == One && Max(Zero, One) == One;
    } else if LessExt(Finite(0.0), x) {
      assert Min(v, One) == v && Max(Zero, v) == v;
    } else {
      assert Min(v, One) == v && Max(Zero, v) == Zero;
    }
  }
}
