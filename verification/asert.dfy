// Absolute ASERT difficulty retargeting, in the integer arithmetic of the
// Bitcoin Cash aserti3-2d specification.
module Asert {
  import opened Arith
  import opened Compact
  import opened Codec

  const RADIX_BITS: nat := 16
  const RADIX: int := 0x1_0000
  const CUBIC_C1: int := 195_766_423_245_049
  const CUBIC_C2: int := 971_821_376
  const CUBIC_C3: int := 5_127
  const CUBIC_ROUND: int := 0x8000_0000_0000
  const CUBIC_UNIT: int := 0x1_0000_0000_0000
  const MAX_HALFLIVES: int := 16

  datatype Params = Params(idealSecs: int, halflifeSecs: int, powLimit: U256)

  // The quotient a machine division gives: rounded toward zero.
  function Truncated(n: int, d: int): int
    requires d != 0
  {
    if n >= 0 then (if d > 0 then n / d else -(n / -d))
    else (if d > 0 then -(-n / d) else -n / -d)
  }

  function Clamp(x: int, low: int, high: int): int {
    if x < low then low else if x > high then high else x
  }

  function Cubic(frac: int): int {
    CUBIC_C1 * frac + CUBIC_C2 * (frac * frac) + CUBIC_C3 * (frac * frac * frac)
  }

  // 2^(frac / RADIX), in units of RADIX.
  function Factor(frac: int): int {
    RADIX + (Cubic(frac) + CUBIC_ROUND) / CUBIC_UNIT
  }

  // How far from schedule, in half-lives, as a fixed-point exponent.
  function Exponent(params: Params, height: nat, secs: int): int
    requires params.halflifeSecs != 0
  {
    Clamp(Truncated((secs - params.idealSecs * height) * RADIX, params.halflifeSecs), -MAX_HALFLIVES * RADIX, MAX_HALFLIVES * RADIX)
  }

  // Whole half-lives, rounded down.
  function Shifts(exponent: int): int {
    exponent / RADIX
  }

  // The anchor scaled by 2^(exponent / RADIX): multiplied, shifted either way,
  // then brought down by the fixed-point unit.
  function Scaled(anchor: U256, exponent: int): int
    requires -MAX_HALFLIVES * RADIX <= exponent <= MAX_HALFLIVES * RADIX
  {
    FactorBounds(exponent % RADIX);
    var product := Times(anchor, Factor(exponent % RADIX));
    BroughtDown(product, Shifts(exponent))
  }

  // Shifted either way, then down by the fixed-point unit.
  function BroughtDown(product: nat, shifts: int): nat {
    if shifts >= 0 then Shr(Shl(product, shifts), RADIX_BITS) else Shr(Shr(product, -shifts), RADIX_BITS)
  }

  function Times(a: nat, b: nat): (r: nat)
    ensures r == a * b
  {
    MulMono(0, b, a);
    a * b
  }

  // Between 1 and the limit.
  function Bounded(next: nat, limit: U256): U256 {
    var capped := if next > limit then limit else next;
    if capped == 0 then 1 else capped
  }

  // `next_target`
  function NextTarget(params: Params, anchor: U256, height: nat, secs: int): U32
    requires params.halflifeSecs != 0
  {
    FromTarget(Bounded(Scaled(anchor, Exponent(params, height, secs)), params.powLimit))
  }

  /* ---------- the cubic ---------- */

  lemma SquareMono(x: int, y: int)
    requires 0 <= x <= y
    ensures x * x <= y * y && x * x * x <= y * y * y
  {
    MulMono(x, y, x);
    MulMono(x, y, y);
    MulMono(x * x, y * y, x);
    MulMono(x, y, y * y);
  }

  lemma CubicMono(x: int, y: int)
    requires 0 <= x <= y
    ensures 0 <= Cubic(x) <= Cubic(y)
  {
    SquareMono(0, x);
    SquareMono(x, y);
  }

  // At the last fraction the cubic stays just under doubling.
  lemma CubicTop(top: int)
    requires top == RADIX - 1
    ensures Cubic(top) + CUBIC_ROUND < (RADIX + 1) * CUBIC_UNIT
  {
    var square := top * top;
    assert square == 0xfffe_0001;
    assert top * top * top == square * top == 0xfffd_0002_ffff;
  }

  lemma RoundedMono(a: int, b: int)
    requires 0 <= a <= b < (RADIX + 1) * CUBIC_UNIT
    ensures 0 <= a / CUBIC_UNIT <= b / CUBIC_UNIT <= RADIX
  {
  }

  // The factor rises with the fraction, from one to at most two.
  lemma FactorMono(x: int, y: int)
    requires 0 <= x <= y < RADIX
    ensures RADIX <= Factor(x) <= Factor(y) <= 2 * RADIX
  {
    CubicMono(x, y);
    CubicMono(y, RADIX - 1);
    CubicTop(RADIX - 1);
    RoundedMono(Cubic(x) + CUBIC_ROUND, Cubic(y) + CUBIC_ROUND);
  }

  // At a whole half-life the factor is exactly one.
  lemma FactorAtZero(x: int)
    requires x == 0
    ensures Factor(x) == RADIX
  {
    assert Cubic(x) == 0;
  }

  lemma FactorBounds(frac: int)
    requires 0 <= frac < RADIX
    ensures RADIX <= Factor(frac) <= 2 * RADIX
  {
    FactorMono(frac, frac);
  }

  /* ---------- shifting either way ---------- */

  lemma BroughtDownMono(p: nat, q: nat, s: int)
    requires p <= q
    ensures BroughtDown(p, s) <= BroughtDown(q, s)
  {
    if s >= 0 {
      ShlMono(p, q, s);
      ShrMono(Shl(p, s), Shl(q, s), RADIX_BITS);
    } else {
      ShrMono(p, q, -s);
      ShrMono(Shr(p, -s), Shr(q, -s), RADIX_BITS);
    }
  }

  // Doubling the product is one more shift up, or one fewer down.
  lemma BroughtDownDoubled(p: nat, s: int)
    ensures BroughtDown(2 * p, s) == BroughtDown(p, s + 1)
  {
    if s >= 0 {
      ShlShl(p, 1, s);
    } else {
      assert Shr(2 * p, -s) == Shr(p, -s - 1);
    }
  }

  lemma {:induction false} BroughtDownRises(p: nat, s: int, t: int)
    requires s <= t
    ensures BroughtDown(p, s) <= BroughtDown(p, t)
    decreases t - s
  {
    if s < t {
      BroughtDownMono(p, 2 * p, s);
      BroughtDownDoubled(p, s);
      BroughtDownRises(p, s + 1, t);
    }
  }

  lemma TimesMono(a: nat, b: nat, c: nat)
    requires b <= c
    ensures Times(a, b) <= Times(a, c)
  {
    MulMono(b, c, a);
  }

  // Rising with the exponent: within a half-life by the factor, which at most
  // doubles, and across a boundary by the shift, which always does.
  lemma ScaledMono(anchor: U256, low: int, high: int)
    requires -MAX_HALFLIVES * RADIX <= low <= high <= MAX_HALFLIVES * RADIX
    ensures Scaled(anchor, low) <= Scaled(anchor, high)
  {
    FactorBounds(low % RADIX);
    FactorBounds(high % RADIX);
    var f, g, s, t := Factor(low % RADIX), Factor(high % RADIX), Shifts(low), Shifts(high);
    if s == t {
      FactorMono(low % RADIX, high % RADIX);
      TimesMono(anchor, f, g);
      BroughtDownMono(Times(anchor, f), Times(anchor, g), s);
    } else {
      TimesMono(anchor, f, 2 * g);
      TimesDoubled(anchor, g);
      BroughtDownMono(Times(anchor, f), 2 * Times(anchor, g), s);
      BroughtDownDoubled(Times(anchor, g), s);
      BroughtDownRises(Times(anchor, g), s + 1, t);
    }
  }

  lemma TimesDoubled(a: nat, b: nat)
    ensures Times(a, 2 * b) == 2 * Times(a, b)
  {
  }

  /* ---------- the exponent ---------- */

  lemma TruncatedMono(m: int, n: int, d: int)
    requires m <= n && d > 0
    ensures Truncated(m, d) <= Truncated(n, d)
  {
    if m >= 0 {
      DivMono(m, n, d);
    } else if n < 0 {
      DivMono(-n, -m, d);
    } else {
      DivBounds(-m, d);
      DivBounds(n, d);
    }
  }

  // Later is easier, higher is harder.
  lemma ExponentMono(params: Params, height: nat, secs: int, height': nat, secs': int)
    requires params.halflifeSecs > 0 && params.idealSecs >= 0 && height' <= height && secs <= secs'
    ensures Exponent(params, height, secs) <= Exponent(params, height', secs')
  {
    MulMono(height', height, params.idealSecs);
    assert (secs - params.idealSecs * height) * RADIX <= (secs' - params.idealSecs * height') * RADIX;
    TruncatedMono((secs - params.idealSecs * height) * RADIX, (secs' - params.idealSecs * height') * RADIX,
        params.halflifeSecs);
  }

  // A drift of exactly `n` half-lives is an exponent of exactly `n`.
  lemma WholeExponent(params: Params, height: nat, secs: int, n: int)
    requires params.halflifeSecs > 0 && -MAX_HALFLIVES <= n <= MAX_HALFLIVES
    requires secs - params.idealSecs * height == n * params.halflifeSecs
    ensures Exponent(params, height, secs) == n * RADIX
  {
    var d := params.halflifeSecs;
    assert n * d * RADIX == n * RADIX * d;
    if n >= 0 {
      DivMulExact(n * RADIX, d);
      MulMono(0, n * RADIX, d);
    } else {
      DivMulExact(-n * RADIX, d);
      assert -(n * RADIX * d) == -n * RADIX * d;
      MulMono(1, -n * RADIX, d);
    }
  }

  /* ---------- what `next_target` promises ---------- */

  // The next target decodes to at least 1 and at most the limit.
  lemma NextTargetInRange(params: Params, anchor: U256, height: nat, secs: int)
    requires params.halflifeSecs != 0 && params.powLimit >= 1
    ensures ToTarget(NextTarget(params, anchor, height, secs)).Target?
    ensures 1 <= ToTarget(NextTarget(params, anchor, height, secs)).target <= params.powLimit
  {
    EncodingDecodes(Bounded(Scaled(anchor, Exponent(params, height, secs)), params.powLimit));
  }

  // The more time has passed the easier the target, the more blocks the harder.
  lemma RetargetIsMonotone(params: Params, anchor: U256, height: nat, secs: int, height': nat, secs': int)
    requires params.halflifeSecs > 0 && params.idealSecs >= 0 && height' <= height && secs <= secs'
    ensures NextTarget(params, anchor, height, secs) <= NextTarget(params, anchor, height', secs')
    ensures ToTarget(NextTarget(params, anchor, height, secs)).Target?
    ensures ToTarget(NextTarget(params, anchor, height', secs')).Target?
    ensures ToTarget(NextTarget(params, anchor, height, secs)).target <= ToTarget(NextTarget(params, anchor, height', secs')).target
  {
    ExponentMono(params, height, secs, height', secs');
    var low, high := Exponent(params, height, secs), Exponent(params, height', secs');
    ScaledMono(anchor, low, high);
    EncodingIsMonotone(Bounded(Scaled(anchor, low), params.powLimit), Bounded(Scaled(anchor, high), params.powLimit));
  }

  lemma WholeScaled(anchor: U256, n: int, exponent: int)
    requires -MAX_HALFLIVES <= n <= MAX_HALFLIVES && exponent == n * RADIX
    ensures Scaled(anchor, exponent) == if n >= 0 then Shl(anchor, n) else Shr(anchor, -n)
  {
    FactorAtZero(exponent % RADIX);
    TimesUnit(anchor);
    assert Scaled(anchor, exponent) == BroughtDown(Shl(anchor, RADIX_BITS), n);
    BroughtDownWhole(anchor, n);
  }

  lemma TimesUnit(anchor: nat)
    ensures Times(anchor, RADIX) == Shl(anchor, RADIX_BITS)
  {
    ShlWord(anchor, RADIX_BITS);
  }

  // Up by the fixed-point unit, shifted, and down again is just the shift.
  lemma BroughtDownWhole(anchor: nat, n: int)
    ensures BroughtDown(Shl(anchor, RADIX_BITS), n) == if n >= 0 then Shl(anchor, n) else Shr(anchor, -n)
  {
    if n >= 0 {
      ShlShl(anchor, RADIX_BITS, n);
      ShlShl(anchor, n, RADIX_BITS);
      ShrOfShl(Shl(anchor, n), RADIX_BITS);
    } else {
      ShrShr(Shl(anchor, RADIX_BITS), -n, RADIX_BITS);
      ShrShr(Shl(anchor, RADIX_BITS), RADIX_BITS, -n);
      ShrOfShl(anchor, RADIX_BITS);
    }
  }

  // A drift of `n` whole half-lives, within the clamp, scales the anchor by
  // exactly 2^n, rounding down; no drift leaves the anchor as it is.
  lemma WholeHalflivesScaleExactly(params: Params, anchor: U256, height: nat, secs: int, n: int)
    requires params.halflifeSecs > 0 && -MAX_HALFLIVES <= n <= MAX_HALFLIVES
    requires secs - params.idealSecs * height == n * params.halflifeSecs
    ensures NextTarget(params, anchor, height, secs)
            == FromTarget(Bounded(if n >= 0 then Shl(anchor, n) else Shr(anchor, -n), params.powLimit))
    ensures n == 0 ==> NextTarget(params, anchor, height, secs) == FromTarget(Bounded(anchor, params.powLimit))
  {
    WholeExponent(params, height, secs, n);
    WholeScaled(anchor, n, n * RADIX);
  }

  // Every intermediate value fits 289 bits.
  lemma IntermediatesFit(anchor: U256, exponent: int)
    requires -MAX_HALFLIVES * RADIX <= exponent <= MAX_HALFLIVES * RADIX
    ensures 0 <= Factor(exponent % RADIX)
    ensures var product := Times(anchor, Factor(exponent % RADIX));
      && product < Shl(1, 273) && (Shifts(exponent) >= 0 ==> Shl(product, Shifts(exponent)) < Shl(1, 289))
  {
    FactorBounds(exponent % RADIX);
    var product, s := Times(anchor, Factor(exponent % RADIX)), Shifts(exponent);
    ProductFits(anchor, Factor(exponent % RADIX));
    if s >= 0 {
      ShlMono(product, Shl(1, 273), s);
      ShlShl(1, 273, s);
      ShlGrows(1, 273 + s, 289);
    }
  }

  lemma ProductFits(anchor: U256, factor: nat)
    requires factor <= 2 * RADIX
    ensures Times(anchor, factor) < Shl(1, 273)
  {
    TimesMono(anchor, factor, 2 * RADIX);
    ShlWord(anchor, 16);
    ShlShl(anchor, 16, 1);
    ShlFull(WORD_BITS);
    ShlMono(anchor, Shl(1, WORD_BITS), 17);
    ShlShl(1, WORD_BITS, 17);
  }
}
