// What the compact codec keeps: every nonzero target encodes to the greatest
// representable one not above it, in order, losing less than one part in 2^15.
module Codec {
  import opened Compact

  const MANTISSA_FLOOR: nat := 0x8000

  // The exponent that leaves the mantissa's sign bit clear.
  function ExponentOf(target: nat): nat {
    BitLen(target) / 8 + 1
  }

  // The mantissa at that exponent.
  function MantissaOf(target: nat): nat {
    RawMantissa(target, ExponentOf(target))
  }

  /* ---------- the encoding in closed form ---------- */

  // How many bits the leading bytes come to.
  lemma RawMantissaBits(target: nat, bytes: nat)
    requires target > 0 && 8 * bytes < BitLen(target) + 24
    ensures BitLen(RawMantissa(target, bytes)) == BitLen(target) + 24 - 8 * bytes
  {
    if bytes <= MANTISSA_BYTES {
      BitLenShl(target, 8 * (MANTISSA_BYTES - bytes));
    } else {
      BitLenShr(target, 8 * (bytes - MANTISSA_BYTES));
    }
  }

  lemma MantissaBounds(target: nat)
    requires target > 0
    ensures MANTISSA_FLOOR <= MantissaOf(target) < MANTISSA_SIGN_BIT
    ensures BitLen(MantissaOf(target)) == BitLen(target) + 24 - 8 * ExponentOf(target)
  {
    RawMantissaBits(target, ExponentOf(target));
    BitLenMantissa(MantissaOf(target));
  }

  lemma RawMantissaBounds(target: nat, bytes: nat)
    requires target > 0 && bytes == (BitLen(target) + 7) / 8
    ensures RawMantissa(target, bytes) < MANTISSA_SIZE
    ensures RawMantissa(target, bytes) >= MANTISSA_SIGN_BIT <==> BitLen(target) == 8 * bytes
  {
    RawMantissaBits(target, bytes);
    BitLenMantissa(RawMantissa(target, bytes));
  }

  // Dropping the low byte of the raw mantissa is raising the exponent.
  lemma RaisedMantissa(target: nat, bytes: nat)
    ensures RawMantissa(target, bytes) / 256 == RawMantissa(target, bytes + 1)
  {
    if bytes < MANTISSA_BYTES {
      var k := 8 * (MANTISSA_BYTES - bytes - 1);
      ShlShl(target, k, 8);
      ShlByte(Shl(target, k), 8);
    } else if bytes == MANTISSA_BYTES {
      ShrByte(target, 8);
    } else {
      var k := 8 * (bytes - MANTISSA_BYTES);
      ShrShr(target, k, 8);
      ShrByte(Shr(target, k), 8);
    }
  }

  lemma PackIs(exponent: nat, m: nat)
    requires exponent <= 32 && m < MANTISSA_SIZE
    ensures m % MANTISSA_SIZE == m
    ensures Pack(exponent, m) == if m >= MANTISSA_SIGN_BIT then (exponent + 1) * MANTISSA_SIZE + m / 256
                                 else exponent * MANTISSA_SIZE + m
  {
  }

  // `from_target`, in closed form.
  lemma EncodingIs(target: U256)
    requires target > 0
    ensures ExponentOf(target) <= 33
    ensures FromTarget(target) == ExponentOf(target) * MANTISSA_SIZE + MantissaOf(target)
  {
    var bytes := (BitLen(target) + 7) / 8;
    RawMantissaBounds(target, bytes);
    WordBitLen(target);
    PackIs(bytes, RawMantissa(target, bytes));
    RaisedMantissa(target, bytes);
    assert MantissaOf(target) == RawMantissa(target, ExponentOf(target));
    if BitLen(target) == 8 * bytes {
      assert ExponentOf(target) == bytes + 1;
    } else {
      assert ExponentOf(target) == bytes;
    }
  }

  /* ---------- decoding what was encoded ---------- */

  // The value an encoding decodes to: the target with the bits below its
  // mantissa cleared.
  function Kept(target: nat): nat {
    if ExponentOf(target) <= MANTISSA_BYTES then target
    else Shl(MantissaOf(target), 8 * (ExponentOf(target) - MANTISSA_BYTES))
  }

  lemma SplitBits(exponent: nat, mantissa: nat)
    requires mantissa < MANTISSA_SIZE
    ensures (exponent * MANTISSA_SIZE + mantissa) / MANTISSA_SIZE == exponent
    ensures (exponent * MANTISSA_SIZE + mantissa) % MANTISSA_SIZE == mantissa
  {
  }

  lemma {:induction false} FloorShifted(x: nat, k: nat)
    ensures Shl(MANTISSA_FLOOR * x, k) == MANTISSA_FLOOR * Shl(x, k)
  {
    if k > 0 {
      FloorShifted(x, k - 1);
    }
  }

  lemma KeptBounds(target: nat)
    requires target > 0
    ensures 0 < Kept(target) <= target
    ensures MANTISSA_FLOOR * (target - Kept(target)) < Kept(target)
  {
    if ExponentOf(target) > MANTISSA_BYTES {
      var m, k := MantissaOf(target), 8 * (ExponentOf(target) - MANTISSA_BYTES);
      MantissaBounds(target);
      ShrFloor(target, k);
      ShlSum(m, 1, k);
      FloorShifted(1, k);
      ShlMono(MANTISSA_FLOOR, m, k);
    }
  }

  // Every nonzero target encodes to a decodable value, not above it, and less
  // than one part in 2^15 of it is lost.
  lemma EncodingDecodes(target: U256)
    requires target > 0
    ensures 0 < Kept(target) <= target
    ensures ToTarget(FromTarget(target)) == Target(Kept(target))
    ensures MANTISSA_FLOOR * (target - Kept(target)) < Kept(target)
  {
    EncodingIs(target);
    MantissaBounds(target);
    KeptBounds(target);
    SplitBits(ExponentOf(target), MantissaOf(target));
    if ExponentOf(target) <= MANTISSA_BYTES {
      ShrOfShl(target, 8 * (MANTISSA_BYTES - ExponentOf(target)));
    } else {
      WordBitLen(target);
    }
  }

  /* ---------- the greatest representable target ---------- */

  // A decodable value no greater than a target survives in what is kept of it.
  lemma DecodedSurvives(bits: U32, target: U256)
    requires ToTarget(bits).Target? && ToTarget(bits).target <= target && target > 0
    ensures ToTarget(bits).target <= Kept(target)
  {
    var e, m, big := bits / MANTISSA_SIZE, bits % MANTISSA_SIZE, ExponentOf(target);
    if big > MANTISSA_BYTES {
      if e >= big {
        CoarserSurvives(m, 8 * (e - MANTISSA_BYTES), 8 * (big - MANTISSA_BYTES), target);
      } else {
        FinerIsBelow(m, if e <= MANTISSA_BYTES then 0 else 8 * (e - MANTISSA_BYTES), 8 * (big - MANTISSA_BYTES));
        MantissaBounds(target);
        ShlMono(MANTISSA_FLOOR, MantissaOf(target), 8 * (big - MANTISSA_BYTES));
      }
    }
  }

  // A mantissa shifted at least as far loses no bits to the rounding.
  lemma CoarserSurvives(m: nat, shift: nat, k: nat, target: nat)
    requires k <= shift && Shl(m, shift) <= target
    ensures Shl(m, shift) <= Shl(Shr(target, k), k)
  {
    ShlShl(m, shift - k, k);
    ShrOfShl(Shl(m, shift - k), k);
    ShrMono(Shl(m, shift), target, k);
    ShlMono(Shl(m, shift - k), Shr(target, k), k);
  }

  // A lower exponent cannot reach the least mantissa of a higher one.
  lemma FinerIsBelow(m: nat, shift: nat, k: nat)
    requires m < MANTISSA_SIGN_BIT && shift + 8 <= k
    ensures Shl(m, shift) <= Shl(MANTISSA_FLOOR, k)
    ensures m <= Shl(MANTISSA_FLOOR, k)
  {
    ShlMono(m, MANTISSA_SIGN_BIT, shift);
    ShlByte(MANTISSA_FLOOR, 8);
    ShlShl(MANTISSA_FLOOR, 8, shift);
    ShlGrows(MANTISSA_FLOOR, shift + 8, k);
    ShlGrows(m, 0, shift);
  }

  // What `from_target` keeps is the greatest decodable value not above the target.
  lemma EncodingIsGreatest(target: U256)
    requires target > 0
    ensures ToTarget(FromTarget(target)).Target? && ToTarget(FromTarget(target)).target <= target
    ensures forall bits: U32 :: ToTarget(bits).Target? && ToTarget(bits).target <= target ==>
              ToTarget(bits).target <= ToTarget(FromTarget(target)).target
  {
    EncodingDecodes(target);
    forall bits: U32 | ToTarget(bits).Target? && ToTarget(bits).target <= target
      ensures ToTarget(bits).target <= ToTarget(FromTarget(target)).target
    {
      DecodedSurvives(bits, target);
    }
  }

  // Every decodable value is a fixed point of encoding and decoding again.
  lemma DecodableIsFixed(bits: U32)
    requires ToTarget(bits).Target?
    ensures ToTarget(bits).target > 0
    ensures ToTarget(FromTarget(ToTarget(bits).target)) == ToTarget(bits)
  {
    DecodedIsPositive(bits);
    EncodingDecodes(ToTarget(bits).target);
    DecodedSurvives(bits, ToTarget(bits).target);
  }

  lemma DecodedIsPositive(bits: U32)
    requires ToTarget(bits).Target?
    ensures ToTarget(bits).target > 0
  {
    if bits / MANTISSA_SIZE > MANTISSA_BYTES {
      BitLenShl(bits % MANTISSA_SIZE, 8 * (bits / MANTISSA_SIZE - MANTISSA_BYTES));
    }
  }

  /* ---------- order ---------- */

  // Encoding keeps order: of the bits, and of what they decode to.
  lemma EncodingIsMonotone(low: U256, high: U256)
    requires low <= high
    ensures FromTarget(low) <= FromTarget(high)
    ensures low > 0 ==> ToTarget(FromTarget(low)).Target? && ToTarget(FromTarget(high)).Target?
                        && ToTarget(FromTarget(low)).target <= ToTarget(FromTarget(high)).target
  {
    if low > 0 {
      EncodingIs(low);
      EncodingIs(high);
      MantissaBounds(low);
      MantissaBounds(high);
      BitLenMono(low, high);
      MantissaMono(low, high);
      EncodingIsGreatest(low);
      EncodingIsGreatest(high);
    }
  }

  lemma MantissaMono(low: nat, high: nat)
    requires low <= high
    ensures ExponentOf(low) == ExponentOf(high) ==> MantissaOf(low) <= MantissaOf(high)
  {
    var e := ExponentOf(low);
    if e <= MANTISSA_BYTES {
      ShlMono(low, high, 8 * (MANTISSA_BYTES - e));
    } else {
      ShrMono(low, high, 8 * (e - MANTISSA_BYTES));
    }
  }
}
