/** Retry and respawn delays: a doubling loop capped at a maximum, then a bounded jitter. */
module SupervisorDelay {

  const QUERY_RETRY_INITIAL_MS: nat := 1000
  const QUERY_RETRY_MAX_MS: nat := 60000
  const RESPAWN_INITIAL_MS: nat := 100
  const RESPAWN_MAX_MS: nat := 30000
  const JITTER_PERCENT: int := 20

  function Pow2(n: nat): (r: nat) {
    if n == 0 then 1 else 2 * Pow2(n - 1)
  }

  function Min(a: nat, b: nat): (r: nat) {
    if a < b then a else b
  }

  lemma {:induction false} Pow2Monotone(m: nat, n: nat)
    requires m <= n
    ensures 1 <= Pow2(m) <= Pow2(n)
    decreases n
  {
    if m < n {
      Pow2Monotone(m, n - 1);
    } else if n > 0 {
      Pow2Monotone(m - 1, n - 1);
    }
  }

  lemma MulMonotone(a: nat, b: nat, c: nat)
    requires b <= c
    ensures a * b <= a * c
  {
  }

  /** The loop shared by both delays: double `initial` until `doublings` is used up or the cap is met. */
  method CappedDoubling(initial: nat, max: nat, doublings: nat) returns (delay: nat)
    requires 0 < initial <= max
    ensures delay == Min(initial * Pow2(doublings), max)
  {
    delay := initial;
    var index := 0;
    while index < doublings && delay < max
      invariant 0 <= index <= doublings
      invariant delay == Min(initial * Pow2(index), max)
      invariant delay < max ==> delay == initial * Pow2(index)
    {
      assert initial * Pow2(index + 1) == 2 * (initial * Pow2(index));
      if delay > max / 2 {
        delay := max;
        index := index + 1;
        break;
      }
      delay := delay * 2;
      index := index + 1;
    }
    Pow2Monotone(index, doublings);
    MulMonotone(initial, Pow2(index), Pow2(doublings));
  }

  method QueryBase(retryCount: nat) returns (delay: nat)
    ensures delay == if retryCount == 0 then 0
                     else Min(QUERY_RETRY_INITIAL_MS * Pow2(retryCount - 1), QUERY_RETRY_MAX_MS)
  {
    if retryCount == 0 {
      return 0;
    }
    delay := CappedDoubling(QUERY_RETRY_INITIAL_MS, QUERY_RETRY_MAX_MS, retryCount - 1);
  }

  method RespawnBase(failureCount: nat) returns (delay: nat)
    ensures delay == if failureCount <= 1 then 0 else Min(RESPAWN_INITIAL_MS * Pow2(failureCount - 2), RESPAWN_MAX_MS)
  {
    if failureCount <= 1 {
      return 0;
    }
    delay := CappedDoubling(RESPAWN_INITIAL_MS, RESPAWN_MAX_MS, failureCount - 2);
  }

  lemma Scaled(base: nat, percentage: int)
    requires -JITTER_PERCENT <= percentage <= JITTER_PERCENT
    ensures base * 80 <= base * (100 + percentage) <= base * 120
  {
    assert base * (100 + percentage - 80) >= 0;
    assert base * (120 - (100 + percentage)) >= 0;
  }

  /** The jitter percentage comes from a hash of the identity and attempt number; here it is any
      value the hash can yield. */
  function Jitter(base: nat, max: nat, percentage: int): (delay: nat)
    requires -JITTER_PERCENT <= percentage <= JITTER_PERCENT
    ensures delay <= max
    ensures base > 1 && max > 0 ==> delay > 0
    ensures base <= max ==> base * 4 / 5 <= delay <= base * 6 / 5
  {
    Scaled(base, percentage);
    Min(base * (100 + percentage) / 100, max)
  }
}
