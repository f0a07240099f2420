/**
 The tuning of the enqueue-retry loop and its backoff arithmetic. Durations are in nanoseconds; jitter is a
 real.
 */
module RetryBackoff {

  const SECOND: int := 1_000_000_000
  const DEFAULT_MAX_ATTEMPTS: int := 5
  const DEFAULT_BASE_BACKOFF: int := 30 * SECOND
  const DEFAULT_MAX_BACKOFF: int := 900 * SECOND
  const DEFAULT_JITTER_FRAC: real := 0.2
  const DEFAULT_ENQUEUE_TIMEOUT: int := 5 * SECOND
  const DEFAULT_PENDING_STALE_AFTER: int := 30 * SECOND

  datatype Config = Config(
    maxAttempts: int,
    baseBackoff: int,
    maxBackoff: int,
    jitterFrac: real,
    enqueueTimeout: int,
    pendingStaleAfter: int)

  predicate Sane(c: Config) {
    && 0 < c.maxAttempts
    && 0 < c.baseBackoff <= c.maxBackoff
    && 0.0 < c.jitterFrac && c.jitterFrac <= 1.0
    && 0 < c.enqueueTimeout < c.pendingStaleAfter
  }

  /** Every result is usable, a usable configuration is kept, and so is every knob that is usable by itself. */
  method WithDefaults(given: Config) returns (c: Config)
    ensures Sane(c)
    ensures Sane(given) ==> c == given
    ensures c.maxAttempts == if given.maxAttempts > 0 then given.maxAttempts else DEFAULT_MAX_ATTEMPTS
    ensures c.baseBackoff == if given.baseBackoff > 0 then given.baseBackoff else DEFAULT_BASE_BACKOFF
    ensures var wanted := if given.maxBackoff > 0 then given.maxBackoff else DEFAULT_MAX_BACKOFF;
            c.maxBackoff == if wanted < c.baseBackoff then c.baseBackoff else wanted
    ensures c.jitterFrac == if 0.0 < given.jitterFrac <= 1.0 then given.jitterFrac else DEFAULT_JITTER_FRAC
    ensures c.enqueueTimeout == if given.enqueueTimeout > 0 then given.enqueueTimeout else DEFAULT_ENQUEUE_TIMEOUT
    ensures var wanted := if given.pendingStaleAfter > 0 then given.pendingStaleAfter else DEFAULT_PENDING_STALE_AFTER;
            c.pendingStaleAfter
            == if wanted > c.enqueueTimeout then wanted else c.enqueueTimeout + DEFAULT_PENDING_STALE_AFTER
  {
    c := given;
    if c.maxAttempts <= 0 { c := c.(maxAttempts := DEFAULT_MAX_ATTEMPTS); }
    if c.baseBackoff <= 0 { c := c.(baseBackoff := DEFAULT_BASE_BACKOFF); }
    if c.maxBackoff <= 0 { c := c.(maxBackoff := DEFAULT_MAX_BACKOFF); }
    if c.maxBackoff < c.baseBackoff { c := c.(maxBackoff := c.baseBackoff); }
    if c.jitterFrac <= 0.0 || c.jitterFrac > 1.0 { c := c.(jitterFrac := DEFAULT_JITTER_FRAC); }
    if c.enqueueTimeout <= 0 { c := c.(enqueueTimeout := DEFAULT_ENQUEUE_TIMEOUT); }
    if c.pendingStaleAfter <= 0 { c := c.(pendingStaleAfter := DEFAULT_PENDING_STALE_AFTER); }
    if c.pendingStaleAfter <= c.enqueueTimeout {
      c := c.(pendingStaleAfter := c.enqueueTimeout + DEFAULT_PENDING_STALE_AFTER);
    }
  }

  // ── backoff ─────────────────────────────────────────────────────────────────

  function Pow2(n: nat): (p: nat)
    ensures p >= 1
  {
    if n == 0 then 1 else 2 * Pow2(n - 1)
  }

  /** The base, doubled once for every attempt after the first. */
  function Doubled(c: Config, attempt: nat): int
    requires attempt >= 1
  {
    c.baseBackoff * Pow2(attempt - 1)
  }

  function Min(a: int, b: int): int {
    if a <= b then a else b
  }

  /**
   The delay before jitter: doubled per attempt and capped. The loop jumps to the cap as soon as half of
   it, rounded down, is reached, so a doubling that would end one short of an odd cap ends on the cap.
   */
  function Delay(c: Config, attempt: nat): int
    requires Sane(c) && attempt >= 1
  {
    var doubled := Doubled(c, attempt);
    if attempt >= 2 && doubled == c.maxBackoff - 1 then c.maxBackoff else Min(doubled, c.maxBackoff)
  }

  /** Go's conversion of a float to an integer truncates toward zero. */
  function Trunc(x: real): int {
    if x >= 0.0 then x.Floor else -((-x).Floor)
  }

  /** Where in [-frac, +frac] a jitter in [0, 1) lands. */
  function Delta(frac: real, jitter: real): real {
    (jitter * 2.0 - 1.0) * frac
  }

  function Share(d: int, part: real): real {
    d as real * part
  }

  function Portion(d: int, delta: real): int {
    Trunc(Share(d, delta))
  }

  function Spread(d: int, frac: real, jitter: real): int {
    var spread := d + Portion(d, Delta(frac, jitter));
    if spread < 0 then 0 else spread
  }

  predicate IsJitter(j: real) {
    0.0 <= j && j < 1.0
  }

  lemma OneMoreDoubling(c: Config, i: nat)
    requires i >= 1
    ensures Doubled(c, i + 1) == 2 * Doubled(c, i)
  {
  }

  lemma {:induction false} DoublingGrows(c: Config, i: nat, j: nat)
    requires Sane(c) && 1 <= i <= j
    ensures 0 < Doubled(c, i) <= Doubled(c, j)
    decreases j
  {
    if i < j {
      DoublingGrows(c, i, j - 1);
      OneMoreDoubling(c, j - 1);
    } else {
      Scaled(c.baseBackoff, 1, Pow2(i - 1));
    }
  }

  lemma DoublingOverCap(c: Config, i: nat, attempt: nat)
    requires Sane(c) && 1 <= i < attempt && Doubled(c, i) >= c.maxBackoff / 2
    ensures Delay(c, attempt) == c.maxBackoff
  {
    hide Doubled;
    OneMoreDoubling(c, i);
    DoublingGrows(c, i + 1, attempt);
  }

  lemma Scaled(b: int, x: int, y: int)
    requires b >= 0 && x <= y
    ensures b * x <= b * y
  {
  }

  method Backoff(c: Config, attempt: nat, jitter: real) returns (d: int)
    requires Sane(c) && attempt >= 1
    ensures d == Spread(Delay(c, attempt), c.jitterFrac, jitter)
  {
    hide Doubled, Delta, Portion;
    d := PlainDelay(c, attempt);
    if d > c.maxBackoff { d := c.maxBackoff; }
    var delta := Delta(c.jitterFrac, jitter);
    d := d + Portion(d, delta);
    if d < 0 { d := 0; }
  }

  /** The doubling loop never holds a delay above the cap, so it cannot overflow what the cap fits in. */
  method PlainDelay(c: Config, attempt: nat) returns (d: int)
    requires Sane(c) && attempt >= 1
    ensures d == Delay(c, attempt)
  {
    hide Doubled;
    d := c.baseBackoff;
    FirstIsBase(c);
    var i := 1;
    while i < attempt
      invariant 1 <= i <= attempt
      invariant d == Doubled(c, i) && 0 < d <= c.maxBackoff
      invariant i >= 2 ==> d <= c.maxBackoff - 2
    {
      if d >= c.maxBackoff / 2 {
        DoublingOverCap(c, i, attempt);
        d := c.maxBackoff;
        break;
      }
      OneMoreDoubling(c, i);
      assert d * 2 <= c.maxBackoff;
      d := d * 2;
      i := i + 1;
    }
  }

  lemma FirstIsBase(c: Config)
    ensures Doubled(c, 1) == c.baseBackoff
  {
    assert Pow2(0) == 1;
  }

  /** Never below the base, never above the cap, and never shrinking with the attempt. */
  lemma DelayGrowsToTheCap(c: Config, attempt: nat)
    requires Sane(c) && attempt >= 1
    ensures c.baseBackoff <= Delay(c, attempt) <= Delay(c, attempt + 1) <= c.maxBackoff
  {
    hide Doubled;
    FirstIsBase(c);
    DoublingGrows(c, 1, attempt);
    OneMoreDoubling(c, attempt);
  }

  lemma {:induction false} DelayIsMonotone(c: Config, earlier: nat, later: nat)
    requires Sane(c) && 1 <= earlier <= later
    ensures Delay(c, earlier) <= Delay(c, later)
    decreases later
  {
    if earlier < later {
      DelayIsMonotone(c, earlier, later - 1);
      DelayGrowsToTheCap(c, later - 1);
    }
  }

  /**
   The documented delay, base doubled per attempt up to the cap, is met exactly unless the cap is odd and
   some doubling ends one short of it; then the delay is one unit longer, once.
   */
  lemma DelayIsDocumentedExactly(c: Config, attempt: nat)
    requires Sane(c) && attempt >= 1
    ensures var documented := Min(Doubled(c, attempt), c.maxBackoff);
            && documented <= Delay(c, attempt) <= documented + 1
            && (Delay(c, attempt) == documented <==> !(attempt >= 2 && Doubled(c, attempt) == c.maxBackoff - 1))
            && (c.maxBackoff % 2 == 0 ==> Delay(c, attempt) == documented)
  {
    hide Doubled;
    if attempt >= 2 { OneMoreDoubling(c, attempt - 1); }
  }

  lemma OddCapOvershoots()
    ensures var c := Config(5, 2, 5, 0.2, 1, 2);
            Sane(c) && Delay(c, 2) == 5 && Min(Doubled(c, 2), c.maxBackoff) == 4
  {
    assert Pow2(1) == 2;
  }

  lemma TruncBounds(x: real, b: real)
    requires -b <= x && x <= b
    ensures -b <= Trunc(x) as real && Trunc(x) as real <= b
  {
  }

  lemma DeltaBounds(frac: real, jitter: real)
    requires 0.0 < frac && IsJitter(jitter)
    ensures -frac <= Delta(frac, jitter) && Delta(frac, jitter) <= frac
  {
  }

  lemma ShareBounds(d: nat, x: real, y: real)
    requires -y <= x && x <= y
    ensures -Share(d, y) <= Share(d, x) && Share(d, x) <= Share(d, y)
  {
    Within(d as real, x, y);
  }

  lemma WholeShare(d: nat)
    ensures Share(d, 1.0) == d as real
  {
  }

  lemma PortionBounds(d: nat, delta: real, frac: real)
    requires -frac <= delta && delta <= frac && frac <= 1.0
    ensures -Share(d, frac) <= Portion(d, delta) as real && Portion(d, delta) as real <= Share(d, frac)
    ensures -(d as int) <= Portion(d, delta) <= d
  {
    hide Share, Trunc;
    ShareBounds(d, delta, frac);
    ShareBounds(d, delta, 1.0);
    WholeShare(d);
    TruncBounds(Share(d, delta), Share(d, frac));
    TruncBounds(Share(d, delta), d as real);
  }

  /** Jitter keeps the delay within the fraction asked for, so it is never negative and never over twice. */
  lemma JitterIsBounded(d: nat, frac: real, jitter: real)
    requires 0.0 < frac && frac <= 1.0 && IsJitter(jitter)
    ensures var r := Spread(d, frac, jitter) as real;
            d as real - Share(d, frac) <= r && r <= d as real + Share(d, frac)
    ensures 0 <= Spread(d, frac, jitter) <= 2 * d
  {
    hide Portion, Delta, Share;
    DeltaBounds(frac, jitter);
    PortionBounds(d, Delta(frac, jitter), frac);
  }

  lemma Within(d: real, x: real, y: real)
    requires d >= 0.0 && -y <= x && x <= y
    ensures -(d * y) <= d * x && d * x <= d * y
  {
    assert d * (y - x) >= 0.0 && d * (y + x) >= 0.0;
    assert d * (y - x) == d * y - d * x && d * (y + x) == d * y + d * x;
  }
}
