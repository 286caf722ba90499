// Compact difficulty targets (Bitcoin's nBits): one exponent byte and a 24-bit
// mantissa, decoded to and encoded from 256-bit targets.
module Compact {
  const U256_MAX: nat := 0xffffffff_ffffffff_ffffffff_ffffffff_ffffffff_ffffffff_ffffffff_ffffffff
  const U256_SIZE: nat := U256_MAX + 1

  type U256 = x: int | 0 <= x <= U256_MAX
  type U32 = x: int | 0 <= x < 0x1_0000_0000

  const WORD_BITS: nat := 256
  const MANTISSA_BYTES: nat := 3
  const MANTISSA_SIZE: nat := 0x0100_0000
  const MANTISSA_SIGN_BIT: nat := 0x0080_0000

  datatype CompactError = NegativeTarget(bits: U32) | ZeroTarget(bits: U32) | Overflow(bits: U32)

  datatype Decoded = Target(target: U256) | Invalid(error: CompactError)

  // `x << k` and `x >> k`, unbounded.
  function Shl(x: nat, k: nat): nat {
    if k == 0 then x else 2 * Shl(x, k - 1)
  }

  function Shr(x: nat, k: nat): (r: nat)
    ensures r <= x
  {
    if k == 0 then x else Shr(x / 2, k - 1)
  }

  // 256 minus the number of leading zeros of a 256-bit word.
  function BitLen(x: nat): nat {
    if x == 0 then 0 else 1 + BitLen(x / 2)
  }

  // `CompactTarget::to_target`
  function ToTarget(bits: U32): Decoded {
    var exponent := bits / MANTISSA_SIZE;
    var mantissa := bits % MANTISSA_SIZE;
    if mantissa >= MANTISSA_SIGN_BIT then
      Invalid(NegativeTarget(bits))
    else if mantissa == 0 then
      Invalid(ZeroTarget(bits))
    else if exponent <= MANTISSA_BYTES then
      var shifted := Shr(mantissa, 8 * (MANTISSA_BYTES - exponent));
      if shifted == 0 then Invalid(ZeroTarget(bits)) else Target(shifted)
    else
      var shift := 8 * (exponent - MANTISSA_BYTES);
      if shift >= WORD_BITS then
        Invalid(Overflow(bits))
      else if WORD_BITS - BitLen(mantissa) < shift then
        Invalid(Overflow(bits))
      else
        FitsAfterShift(mantissa, shift);
        Target(Shl(mantissa, shift))
  }

  // The three leading bytes of a target of so many bytes.
  function RawMantissa(target: nat, bytes: nat): nat {
    if bytes <= MANTISSA_BYTES then Shl(target, 8 * (MANTISSA_BYTES - bytes))
    else Shr(target, 8 * (bytes - MANTISSA_BYTES))
  }

  // Exponent and mantissa in one word, renormalised where the mantissa's top bit
  // would read as a sign.
  function Pack(exponent: nat, mantissa: nat): U32
    requires exponent <= 32 && mantissa < MANTISSA_SIZE
  {
    if mantissa >= MANTISSA_SIGN_BIT then (exponent + 1) * MANTISSA_SIZE + mantissa / 256 % MANTISSA_SIGN_BIT
    else exponent * MANTISSA_SIZE + mantissa % MANTISSA_SIGN_BIT
  }

  // `CompactTarget::from_target`
  function FromTarget(target: U256): U32 {
    if target == 0 then 0 else
      var exponent := (BitLen(target) + 7) / 8;
      WordBitLen(target);
      Pack(exponent, RawMantissa(target, exponent) % MANTISSA_SIZE)
  }

  /* ---------- shifts ---------- */

  lemma {:induction false} ShlMono(x: nat, y: nat, k: nat)
    ensures x <= y ==> Shl(x, k) <= Shl(y, k)
    ensures x < y ==> Shl(x, k) < Shl(y, k)
  {
    if k > 0 {
      ShlMono(x, y, k - 1);
    }
  }

  lemma {:induction false} ShrMono(x: nat, y: nat, k: nat)
    requires x <= y
    ensures Shr(x, k) <= Shr(y, k)
    decreases k
  {
    if k > 0 {
      ShrMono(x / 2, y / 2, k - 1);
    }
  }

  lemma {:induction false} ShlShl(x: nat, j: nat, k: nat)
    ensures Shl(Shl(x, j), k) == Shl(x, j + k)
  {
    if k > 0 {
      ShlShl(x, j, k - 1);
    }
  }

  lemma {:induction false} ShrShr(x: nat, j: nat, k: nat)
    ensures Shr(Shr(x, j), k) == Shr(x, j + k)
    decreases j
  {
    if j > 0 {
      ShrShr(x / 2, j - 1, k);
    }
  }

  // Shifting up and back down loses nothing.
  lemma {:induction false} ShrOfShl(x: nat, k: nat)
    ensures Shr(Shl(x, k), k) == x
  {
    if k > 0 {
      assert Shl(x, k) / 2 == Shl(x, k - 1);
      ShrOfShl(x, k - 1);
    }
  }

  // Shifting down rounds down: `x` lies below the next step up.
  lemma {:induction false} ShrFloor(x: nat, k: nat)
    ensures Shl(Shr(x, k), k) <= x < Shl(Shr(x, k) + 1, k)
    decreases k
  {
    if k > 0 {
      ShrFloor(x / 2, k - 1);
    }
  }

  lemma {:induction false} ShlSum(x: nat, y: nat, k: nat)
    ensures Shl(x + y, k) == Shl(x, k) + Shl(y, k)
  {
    if k > 0 {
      ShlSum(x, y, k - 1);
    }
  }

  lemma {:induction false} ShlGrows(x: nat, j: nat, k: nat)
    requires j <= k
    ensures Shl(x, j) <= Shl(x, k)
  {
    if j < k {
      ShlGrows(x, j, k - 1);
    }
  }

  lemma ShlByte(x: nat, k: nat)
    requires k == 8
    ensures Shl(x, k) == 256 * x
  {
    assert Shl(x, k) == 2 * Shl(x, k - 1) == 4 * Shl(x, k - 2) == 8 * Shl(x, k - 3) == 16 * Shl(x, k - 4);
    assert Shl(x, k - 4) == 2 * Shl(x, k - 5) == 4 * Shl(x, k - 6) == 8 * Shl(x, k - 7) == 16 * Shl(x, k - 8);
  }

  lemma ShlWord(x: nat, k: nat)
    requires k == 16
    ensures Shl(x, k) == 0x1_0000 * x
  {
    ShlByte(x, 8);
    ShlByte(Shl(x, 8), 8);
    ShlShl(x, 8, 8);
  }

  lemma ShrNibble(x: nat, k: nat)
    requires k == 4
    ensures Shr(x, k) == x / 16
  {
    assert Shr(x, k) == Shr(x / 2, k - 1) == Shr(x / 4, k - 2) == Shr(x / 8, k - 3) == Shr(x / 16, k - 4);
  }

  lemma ShrByte(x: nat, k: nat)
    requires k == 8
    ensures Shr(x, k) == x / 256
  {
    ShrShr(x, 4, 4);
    ShrNibble(x, 4);
    ShrNibble(x / 16, 4);
  }

  /* ---------- bit lengths ---------- */

  lemma {:induction false} BitLenMono(x: nat, y: nat)
    requires x <= y
    ensures BitLen(x) <= BitLen(y)
  {
    if x > 0 {
      BitLenMono(x / 2, y / 2);
    }
  }

  lemma {:induction false} BitLenShl(x: nat, k: nat)
    requires x > 0
    ensures BitLen(Shl(x, k)) == BitLen(x) + k && Shl(x, k) > 0
  {
    if k > 0 {
      BitLenShl(x, k - 1);
      assert Shl(x, k) / 2 == Shl(x, k - 1);
    }
  }

  lemma {:induction false} BitLenShr(x: nat, k: nat)
    ensures BitLen(Shr(x, k)) == if BitLen(x) > k then BitLen(x) - k else 0
    decreases k
  {
    if k > 0 {
      BitLenShr(x / 2, k - 1);
    }
  }

  // A value has at most `n` bits exactly when it is below 1 shifted up by `n`.
  lemma {:induction false} BitLenExact(x: nat, n: nat)
    ensures BitLen(x) <= n <==> x < Shl(1, n)
    decreases n
  {
    if n > 0 {
      BitLenExact(x / 2, n - 1);
    }
  }

  // The thresholds the encoding looks at.
  lemma BitLenMantissa(m: nat)
    ensures BitLen(m) <= 15 <==> m < 0x8000
    ensures BitLen(m) <= 23 <==> m < MANTISSA_SIGN_BIT
    ensures BitLen(m) <= 24 <==> m < MANTISSA_SIZE
  {
    BitLenExact(m, 15);
    BitLenExact(m, 23);
    BitLenExact(m, 24);
    ShlByte(1, 8);
    ShlWord(1, 16);
    ShlByte(Shl(1, 16), 8);
    ShlShl(1, 16, 8);
    assert Shl(1, 16) == 2 * Shl(1, 15) && Shl(1, 24) == 2 * Shl(1, 23);
  }

  lemma ShlLong(x: nat, k: nat)
    requires k == 64
    ensures Shl(x, k) == 0x1_0000_0000_0000_0000 * x
  {
    ShlWord(x, 16);
    ShlWord(Shl(x, 16), 16);
    ShlShl(x, 16, 16);
    ShlWord(Shl(x, 32), 16);
    ShlShl(x, 32, 16);
    ShlWord(Shl(x, 48), 16);
    ShlShl(x, 48, 16);
  }

  lemma ShlFull(n: nat)
    requires n == WORD_BITS
    ensures Shl(1, n) == U256_SIZE
  {
    ShlLong(1, 64);
    ShlLong(Shl(1, 64), 64);
    ShlShl(1, 64, 64);
    ShlLong(Shl(1, 128), 64);
    ShlShl(1, 128, 64);
    ShlLong(Shl(1, 192), 64);
    ShlShl(1, 192, 64);
  }

  // The values of at most 256 bits are those that fit a word.
  lemma WordBitLen(x: nat)
    ensures BitLen(x) <= WORD_BITS <==> x <= U256_MAX
  {
    BitLenExact(x, WORD_BITS);
    ShlFull(WORD_BITS);
  }

  // Decoding's overflow test leaves a value that fits.
  lemma FitsAfterShift(m: nat, shift: nat)
    requires m > 0 && BitLen(m) + shift <= WORD_BITS
    ensures Shl(m, shift) <= U256_MAX
  {
    BitLenShl(m, shift);
    WordBitLen(Shl(m, shift));
  }
}
