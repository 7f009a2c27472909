/** Connection limits derived from the file-descriptor budget (src/limits.rs). */
module Limits {
  import opened Bytes

  /** Its largest value is also what an unlimited `ulimit -n` reads as. */
  type usize = n: nat | n <= USIZE_MAX

  const UNLIMITED_MAX_CONNECTIONS: usize := 512
  const RUNTIME_RESERVED_FDS: usize := 32
  const FDS_PER_CONNECTION: usize := 2
  const FDS_PER_POOL_SLOT: usize := 2
  const MIN_MAX_CONNECTIONS: usize := 4

  function Saturate(n: nat): usize { if n <= USIZE_MAX then n else USIZE_MAX }

  function SaturatingSub(a: usize, b: usize): usize { if a < b then 0 else a - b }

  function AutoMaxConnections(fdLimit: usize, poolSize: usize, buckets: usize): usize {
    if fdLimit == USIZE_MAX then UNLIMITED_MAX_CONNECTIONS
    else
      var slots := Saturate(poolSize * buckets);
      var poolFds := Saturate(slots * FDS_PER_POOL_SLOT);
      var reserved := Saturate(Saturate(1 + poolFds) + RUNTIME_RESERVED_FDS);
      var spare := SaturatingSub(fdLimit, reserved) / FDS_PER_CONNECTION;
      if spare < MIN_MAX_CONNECTIONS then MIN_MAX_CONNECTIONS else spare
  }

  /** Descriptors the formula accounts for: listener, pool slots, two per connection. */
  function Budget(poolSize: nat, buckets: nat, connections: nat): nat {
    1 + FDS_PER_POOL_SLOT * (poolSize * buckets) + FDS_PER_CONNECTION * connections
  }

  /**
    With a finite limit, the cap keeps the exact, non-saturated budget within
    the limit less the reserve if and only if the limit has room for the
    smallest servable cap; otherwise the floor of four oversubscribes it.
   */
  lemma BudgetIff(fdLimit: usize, poolSize: usize, buckets: usize)
    requires fdLimit != USIZE_MAX
    ensures Budget(poolSize, buckets, AutoMaxConnections(fdLimit, poolSize, buckets)) + 32 <= fdLimit
       <==> 1 + 2 * (poolSize * buckets) + 2 * 4 + 32 <= fdLimit
    ensures Budget(poolSize, buckets, AutoMaxConnections(fdLimit, poolSize, buckets)) + 32 > fdLimit ==>
              AutoMaxConnections(fdLimit, poolSize, buckets) == 4
  {
    var product := poolSize * buckets;
    assert product >= 0;
    BudgetArithmetic(fdLimit, product);
  }

  lemma BudgetArithmetic(fdLimit: usize, product: nat)
    requires fdLimit != USIZE_MAX
    ensures var reserved := Saturate(Saturate(1 + Saturate(Saturate(product) * FDS_PER_POOL_SLOT)) + RUNTIME_RESERVED_FDS);
            var spare := SaturatingSub(fdLimit, reserved) / FDS_PER_CONNECTION;
            var cap := if spare < MIN_MAX_CONNECTIONS then MIN_MAX_CONNECTIONS else spare;
            1 + 2 * product + 2 * cap + 32 <= fdLimit <==> 41 + 2 * product <= fdLimit
  {
  }

  /** The cap is the largest one that fits: one more connection would not. */
  lemma CapIsTight(fdLimit: usize, poolSize: usize, buckets: usize)
    requires fdLimit != USIZE_MAX
    ensures 1 + 2 * (poolSize * buckets) + 2 * (AutoMaxConnections(fdLimit, poolSize, buckets) + 1) + 32 > fdLimit
  {
    var product := poolSize * buckets;
    assert product >= 0;
    assert 1 + 2 * product + 2 * (AutoMaxConnections(fdLimit, poolSize, buckets) + 1) + 32 > fdLimit;
  }

  /** The whole rule in plain numbers: 512 without a limit, and otherwise the connections that fit, but never fewer than four. */
  lemma CapInNumbers(fdLimit: usize, poolSize: usize, buckets: usize)
    ensures var cap, product := AutoMaxConnections(fdLimit, poolSize, buckets), poolSize * buckets;
            && cap >= 4 && (fdLimit == 0xFFFF_FFFF_FFFF_FFFF ==> cap == 512)
            && (fdLimit < 0xFFFF_FFFF_FFFF_FFFF && cap > 4 ==>
                  1 + 2 * product + 2 * cap + 32 <= fdLimit && fdLimit < 1 + 2 * product + 2 * (cap + 1) + 32)
  {
    var product := poolSize * buckets;
    assert product >= 0;
    if fdLimit < USIZE_MAX {
      BudgetArithmetic(fdLimit, product);
    }
  }
}
