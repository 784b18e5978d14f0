/** Picking the stripe of a key: the shard count is rounded up to a power of
    two so that masking the hash is the same as reducing it modulo the count. */
module ShardIndex {

  function Pow2(k: nat): (p: nat)
    ensures p >= 1
  {
    if k == 0 then 1 else 2 * Pow2(k - 1)
  }

  ghost predicate IsPowerOfTwo(n: nat) {
    exists k: nat :: n == Pow2(k)
  }

  /** Bitwise conjunction of two unsigned integers. */
  function BitAnd(a: nat, b: nat): nat {
    if a == 0 || b == 0 then 0
    else 2 * BitAnd(a / 2, b / 2) + (if a % 2 == 1 && b % 2 == 1 then 1 else 0)
  }

  lemma {:induction false} MaskPow2(h: nat, k: nat)
    ensures BitAnd(h, Pow2(k) - 1) < Pow2(k)
    ensures h < Pow2(k) ==> BitAnd(h, Pow2(k) - 1) == h
  {
    if k > 0 && h > 0 {
      assert (Pow2(k) - 1) / 2 == Pow2(k - 1) - 1;
      MaskPow2(h / 2, k - 1);
    }
  }

  /** Masking selects a valid stripe, and every stripe is selected by some hash. */
  lemma MaskedIndexIsValid(h: nat, n: nat)
    requires IsPowerOfTwo(n)
    ensures BitAnd(h, n - 1) < n
    ensures h < n ==> BitAnd(h, n - 1) == h
  {
    var k: nat :| n == Pow2(k);
    MaskPow2(h, k);
  }

  const MAX_SHARDS: nat := 0x4000_0000_0000_0000
  const DEFAULT_SHARDS: nat := 64

  /** The stripe count `New` settles on: the default when none is asked for, otherwise the
      least power of two that is not smaller than the request. The doubling of a 64-bit
      integer reaches its target only for requests up to 2^62. */
  method RoundShards(requested: int) returns (n: nat)
    requires requested <= MAX_SHARDS
    ensures IsPowerOfTwo(n)
    ensures requested <= 0 ==> n == DEFAULT_SHARDS
    ensures requested > 0 ==> requested <= n && (n == 1 || n < 2 * requested)
  {
    var target := if requested <= 0 then DEFAULT_SHARDS else requested;
    n := 1;
    ghost var k: nat := 0;
    while n < target
      invariant n == Pow2(k)
      invariant n == 1 || n < 2 * target
      invariant requested <= 0 ==> n <= 64 && k <= 6
      decreases target - n
    {
      assert requested <= 0 ==> k < 6 by {
        assert Pow2(6) == 64 by {
          assert Pow2(3) == 8;
        }
      }
      n := n * 2;
      k := k + 1;
      if requested <= 0 {
        SmallPowers(k);
      }
    }
  }

  lemma SmallPowers(k: nat)
    requires k <= 6
    ensures Pow2(k) <= 64
  {
    assert Pow2(2) == 4;
    assert Pow2(4) == 16;
    assert Pow2(6) == 64;
  }
}
