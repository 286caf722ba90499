// Proof-of-work accumulation: the expected number of hashes for a target.
module Work {
  import opened Arith
  import opened Compact

  // `work_for_target`: floor(2^256 / (target + 1)) without a 257-bit
  // intermediate; the complement of a 256-bit word is U256_MAX minus it.
  function ForTarget(target: U256): (work: U256)
    ensures work >= 1
  {
    if target == 0 then
      U256_MAX
    else if target == U256_MAX then
      1
    else
      QuotientBound(U256_MAX - target, target + 1);
      (U256_MAX - target) / (target + 1) + 1
  }

  // The work of a header's declared target; an undecodable one counts as the
  // easiest target there is.
  function ForBits(bits: U32): (work: U256)
    ensures work >= 1
  {
    match ToTarget(bits)
    case Target(target) => ForTarget(target)
    case Invalid(_) => ForTarget(U256_MAX)
  }

  function SaturatingAdd(a: U256, b: U256): U256 {
    if a + b > U256_MAX then U256_MAX else a + b
  }

  lemma QuotientBound(n: nat, d: nat)
    requires d >= 2 && n < U256_MAX
    ensures n / d + 1 <= U256_MAX
  {
  }

  // The complement form computes the textbook quotient exactly; a zero target,
  // whose quotient 2^256 does not fit, is the one saturated case.
  lemma ForTargetIsExpectedHashes(target: U256)
    ensures target > 0 ==> ForTarget(target) == U256_SIZE / (target + 1)
    ensures target == 0 ==> ForTarget(target) == U256_MAX && U256_SIZE / (target + 1) == U256_SIZE
  {
    if 0 < target < U256_MAX {
      var d := target + 1;
      assert U256_SIZE == (U256_MAX - target) + d;
      DivPlusOne(U256_MAX - target, d);
    }
  }

  lemma DivPlusOne(n: nat, d: nat)
    requires d > 0
    ensures (n + d) / d == n / d + 1
  {
    DivBounds(n, d);
    QuotientUnique(n + d, d, n / d + 1);
  }

  // A harder (smaller) target never counts for less work.
  lemma HarderTargetsAreMoreWork(easy: U256, hard: U256)
    requires hard <= easy
    ensures ForTarget(easy) <= ForTarget(hard)
  {
    ForTargetIsExpectedHashes(easy);
    ForTargetIsExpectedHashes(hard);
    if 0 < hard {
      SmallerDivisor(U256_SIZE, easy + 1, hard + 1);
    }
  }

  lemma SmallerDivisor(n: nat, big: nat, small: nat)
    requires 0 < small <= big
    ensures n / big <= n / small
  {
    DivBounds(n, big);
    DivBounds(n, small);
    if n / big > n / small {
      MulMono(n / small + 1, n / big, small);
      MulMono(small, big, n / big);
    }
  }
}
