/** The two doubling retry delays and their jitter. */
module Backoff {
  import opened Keyset

  const MINUTE := 60 * 1_000_000_000
  const DAY := 24 * 60 * MINUTE
  const MAX_INT64 := 0x7FFF_FFFF_FFFF_FFFF

  function Pow2(n: int): (p: int)
    ensures p >= 1
  {
    if n <= 0 then 1 else 2 * Pow2(n - 1)
  }

  function Min(a: int, b: int): int { if a <= b then a else b }

  lemma DoublingPastCap(initial: int, cap: int, n: int, m: int)
    requires 0 < initial && 0 <= n <= m && cap <= initial * Pow2(n)
    ensures cap <= initial * Pow2(m)
  {
    if n < m {
      DoublingPastCap(initial, cap, n, m - 1);
      OneDoubling(initial, m);
    }
  }

  lemma OneDoubling(initial: int, m: int)
    requires 0 < initial && m > 0
    ensures initial * Pow2(m) == 2 * (initial * Pow2(m - 1)) && initial * Pow2(m - 1) > 0
  {
    Twice(initial, Pow2(m - 1));
  }

  lemma Twice(a: int, b: int)
    requires a > 0 && b > 0
    ensures a * (2 * b) == 2 * (a * b) && a * b > 0
  {
  }

  /** Doubling once more, without ever exceeding the cap. */
  method DoubleCapped(delay: int, cap: int) returns (next: int)
    requires 0 < delay < cap <= MAX_INT64
    ensures next == Min(cap, 2 * delay) && 0 < next <= cap
  {
    if delay > cap / 2 {
      next := cap;
    } else {
      next := delay * 2;
      assert next <= MAX_INT64;
    }
  }

  /** The delay before jitter: exactly the capped power, with no overflow on the way. */
  method Doubled(initial: int, cap: int, attempt: int) returns (delay: int)
    requires 0 < initial <= cap <= MAX_INT64 && attempt >= 1
    ensures delay == Min(cap, initial * Pow2(attempt - 1))
  {
    delay := initial;
    var current := 1;
    while current < attempt && delay < cap
      invariant 1 <= current <= attempt && 0 < delay <= cap
      invariant delay == Min(cap, initial * Pow2(current - 1))
      decreases attempt - current
    {
      OneDoubling(initial, current);
      delay := DoubleCapped(delay, cap);
      current := current + 1;
    }
    if delay == cap { DoublingPastCap(initial, cap, current - 1, attempt - 1); }
  }

  function Clamped(random: real): real { if random < 0.0 then 0.0 else if random > 1.0 then 1.0 else random }

  function Scaled(d: real, f: real, r: real): (x: real)
    requires 0.0 <= f <= 1.0 && 0.0 <= r <= 1.0 && d >= 0.0
    ensures 0.0 <= (1.0 - f) * d <= x <= (1.0 + f) * d
  {
    MultiplierBounds(f, r, d);
    d * (1.0 + f * (2.0 * r - 1.0))
  }

  function Truncate(x: real): (j: int)
    requires x >= 0.0
    ensures j >= 0 && x - 1.0 < j as real <= x
  {
    x.Floor
  }

  /** Scaling by 1 + f(2r - 1), truncating toward zero. */
  function Jittered(delay: int, fraction: real, random: real): (j: int)
    requires delay >= 0 && 0.0 <= fraction <= 1.0
    ensures j >= 0
    ensures (1.0 - fraction) * delay as real - 1.0 < j as real <= (1.0 + fraction) * delay as real
  {
    Truncate(Scaled(delay as real, fraction, Clamped(random)))
  }

  /** The random number takes the delay from its lower to its upper end; what lies
      outside 0 to 1 counts as the nearer of the two. */
  lemma JitterSpans(delay: int, fraction: real, low: real, high: real)
    requires delay >= 0 && 0.0 <= fraction <= 1.0 && low <= 0.0 && high >= 1.0
    ensures Jittered(delay, fraction, low) == (delay as real * (1.0 - fraction)).Floor
    ensures Jittered(delay, fraction, 0.5) == delay
    ensures Jittered(delay, fraction, high) == (delay as real * (1.0 + fraction)).Floor
  {
    assert Clamped(low) == 0.0 && Clamped(high) == 1.0;
    assert 1.0 + fraction * (2.0 * 0.0 - 1.0) == 1.0 - fraction;
    assert 1.0 + fraction * (2.0 * 1.0 - 1.0) == 1.0 + fraction;
    assert 1.0 + fraction * (2.0 * 0.5 - 1.0) == 1.0;
    assert delay as real * 1.0 == delay as real;
  }

  /** Before jitter a revocation is tried again after one, two, four minutes and so on,
      and from the twelfth attempt after a day, all in nanoseconds. */
  lemma RevocationDelays()
    ensures Min(DAY, MINUTE * Pow2(0)) == 60_000_000_000 && Min(DAY, MINUTE * Pow2(1)) == 120_000_000_000
    ensures Min(DAY, MINUTE * Pow2(10)) == 61_440_000_000_000 && Min(DAY, MINUTE * Pow2(11)) == 86_400_000_000_000
  {
    assert Pow2(5) == 32 && Pow2(8) == 8 * Pow2(5) && Pow2(11) == 8 * Pow2(8);
    assert Pow2(10) == 1024;
  }

  lemma MultiplierBounds(f: real, r: real, d: real)
    requires 0.0 <= f <= 1.0 && 0.0 <= r <= 1.0 && d >= 0.0
    ensures 0.0 <= (1.0 - f) * d <= d * (1.0 + f * (2.0 * r - 1.0)) <= (1.0 + f) * d
  {
    var x := 2.0 * r - 1.0;
    assert -f <= f * x <= f by {
      assert f * (x + 1.0) >= 0.0;
      assert f * (1.0 - x) >= 0.0;
    }
    assert d * (f - f * x) >= 0.0;
    assert d * (f * x + f) >= 0.0;
    assert d * (1.0 - f) >= 0.0;
  }

  lemma LowerStaysBelow(f: real, d: real)
    requires 0.0 <= f && 0.0 <= d
    ensures (1.0 - f) * d <= d
  {
    assert f * d >= 0.0;
  }

  datatype Config = Config(initial: int, max: int, attempts: int, fraction: real) {
    predicate Valid() {
      && 0 < initial <= max <= MAX_INT64 && attempts > 0 && 0.0 <= fraction <= 1.0
    }
  }

  /** The constructor's checks. */
  method NewPolicy(initial: int, max: int, attempts: int, fraction: real) returns (c: Option<Config>)
    requires initial <= MAX_INT64 && max <= MAX_INT64
    ensures c.Some? <==> 1 <= initial <= max && 1 <= attempts && 0.0 <= fraction && fraction <= 1.0
    ensures c.Some? ==> c.value == Config(initial, max, attempts, fraction)
    ensures c.Some? <==> Config(initial, max, attempts, fraction).Valid()
  {
    if initial <= 0 || max < initial || attempts <= 0 || fraction < 0.0 || fraction > 1.0 { return None; }
    return Some(Config(initial, max, attempts, fraction));
  }

  /** The scheduler's retry policy: none once the attempts are used up; otherwise
      a delay within bounds, exactly the capped power when there is no jitter. */
  method NextRetry(c: Config, attempt: int, random: real) returns (delay: int, retry: bool)
    requires c.Valid()
    ensures retry <==> 1 <= attempt < c.attempts
    ensures 0 <= delay <= c.max
    ensures retry && c.fraction == 0.0 ==> delay == Min(c.max, c.initial * Pow2(attempt - 1))
    ensures retry && c.fraction != 0.0 ==>
              c.initial * Pow2(attempt - 1) > 0
              && delay == Min(c.max, Jittered(Min(c.max, c.initial * Pow2(attempt - 1)), c.fraction, random))
    ensures retry ==>
              var base := Min(c.max, c.initial * Pow2(attempt - 1)) as real;
              (1.0 - c.fraction) * base - 1.0 < delay as real <= (1.0 + c.fraction) * base
  {
    if attempt <= 0 || attempt >= c.attempts { return 0, false; }
    OneDoubling(c.initial, attempt);
    delay := Doubled(c.initial, c.max, attempt);
    if c.fraction == 0.0 { return delay, true; }
    ghost var base := delay;
    delay := Jittered(delay, c.fraction, random);
    LowerStaysBelow(c.fraction, base as real);
    if delay > c.max { delay := c.max; }
    retry := true;
  }

  /** The revocation worker's delay: minutes doubling up to a day, give or take a fifth. */
  method RevocationRetryDelay(attempt: int, random: real) returns (delay: int)
    ensures 0 <= delay <= DAY
    ensures var base := Min(DAY, MINUTE * Pow2((if attempt < 1 then 1 else attempt) - 1)) as real;
            0.8 * base - 1.0 < delay as real <= 1.2 * base
    ensures var base := Min(DAY, MINUTE * Pow2((if attempt < 1 then 1 else attempt) - 1));
            base >= 0 && delay == Min(DAY, Jittered(base, 0.2, random))
  {
    var base := Doubled(MINUTE, DAY, if attempt < 1 then 1 else attempt);
    delay := Jittered(base, 0.2, random);
    if delay > DAY { delay := DAY; }
  }
}
