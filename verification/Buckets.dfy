/** The per-client bucket of the rate limiter and its arithmetic.

    Times are nanoseconds on one monotone clock. Counters are 32-bit in the
    program; the three places that do arithmetic on them are written out with
    their wrap-around or saturation, and the reachable-state invariants show
    that the wrapping branches are never taken. */
module Buckets {

  datatype Option<+T> = None | Some(value: T)

  /** What a check answers: let the request in, or refuse it with a `Retry-After`. */
  datatype Answer = Admit | Refuse(retryAfterSecs: nat)

  type Key = string
  type Instant = int

  const U32_MAX: nat := 0xFFFF_FFFF
  const NANOS_PER_SEC: nat := 1_000_000_000
  const PURGE_AT: nat := 10_000
  const EVICTION_TARGET: nat := PURGE_AT - PURGE_AT / 4
  const RATE_LIMIT_OVERFLOW_MAX: nat := 60_000
  const RATE_SYNC_MAX_KEYS: nat := 512

  datatype Bucket = Bucket(
    windowStart: Instant,
    count: nat,
    pushed: nat,
    remote: nat,
    epoch: Option<int>)

  function OpenedAt(now: Instant): Bucket {
    Bucket(now, 0, 0, 0, None)
  }

  /** `a - b` on 32-bit counters. */
  function WrapSub(a: nat, b: nat): int {
    if b <= a then a - b else a - b + U32_MAX + 1
  }

  /** `a + 1` on a 32-bit counter. */
  function WrapInc(a: nat): nat {
    if a < U32_MAX then a + 1 else 0
  }

  function SaturatingAdd(a: int, b: int): int {
    if a + b <= U32_MAX then a + b else U32_MAX
  }

  function Clamp(total: int): nat {
    if total < 0 then 0 else if total > U32_MAX then U32_MAX else total
  }

  function Max(a: int, b: int): int {
    if a < b then b else a
  }

  function Min(a: int, b: int): int {
    if a < b then a else b
  }

  /** What a client has used up: the shared total and the admits since, and at
      the least the local count. */
  function Spent(b: Bucket): int {
    Max(b.count, SaturatingAdd(b.remote, WrapSub(b.count, b.pushed)))
  }

  /** `now.duration_since(start)`: zero, not negative, when `start` is later. */
  function Elapsed(now: Instant, start: Instant): nat {
    if start < now then now - start else 0
  }

  predicate Live(b: Bucket, now: Instant, window: nat) {
    Elapsed(now, b.windowStart) < window
  }

  function CeilSecs(nanos: nat): nat {
    (nanos + NANOS_PER_SEC - 1) / NANOS_PER_SEC
  }

  /** How long a refused client is told to wait for its window to end. */
  function RetryAfter(b: Bucket, now: Instant, window: nat): nat
    requires Live(b, now, window)
  {
    Max(CeilSecs(window - Elapsed(now, b.windowStart)), 1)
  }

  /** The bucket a request is charged to: the old one, or a fresh window. */
  function Current(b: Bucket, now: Instant, window: nat): Bucket {
    if Live(b, now, window) then b else OpenedAt(now)
  }

  /** Charge one request to a bucket. */
  function Charge(b: Bucket, now: Instant, max: nat, window: nat): (Bucket, Answer)
    requires window > 0
  {
    var c := Current(b, now, window);
    if Spent(c) < max
    then (c.(count := WrapInc(c.count)), Admit)
    else (c, Refuse(RetryAfter(c, now, window)))
  }

  /** Charge one keyless request to the shared overflow bucket, which compares
      its own count and is never synced. */
  function ChargeOverflow(b: Bucket, now: Instant, window: nat): (Bucket, Answer)
    requires window > 0
  {
    var c := Current(b, now, window);
    if c.count < RATE_LIMIT_OVERFLOW_MAX
    then (c.(count := WrapInc(c.count)), Admit)
    else (c, Refuse(RetryAfter(c, now, window)))
  }

  /** What every bucket of a limiter with budget `max` satisfies. */
  predicate BucketOk(b: Bucket, max: nat) {
    && b.pushed <= b.count <= max
    && b.remote <= U32_MAX
    && (b.epoch == None ==> b.pushed == 0 && b.remote == 0)
  }

  /** Charging keeps a bucket in shape, and no counter wraps on the way. */
  lemma ChargeKeepsBucketOk(b: Bucket, now: Instant, max: nat, window: nat)
    requires window > 0 && 0 < max <= U32_MAX && BucketOk(b, max)
    ensures var (c, a) := Charge(b, now, max, window);
            && BucketOk(c, max)
            && c.count == Current(b, now, window).count + (if a.Admit? then 1 else 0)
            && WrapSub(c.count, c.pushed) == c.count - c.pushed
  {
  }

  /** `Retry-After` is truthful: it is the least whole number of seconds after
      which the refused client's window has ended. */
  lemma RetryAfterIsLeastWait(b: Bucket, now: Instant, window: nat, wait: nat)
    requires b.windowStart <= now && Live(b, now, window)
    ensures 1 <= RetryAfter(b, now, window) <= CeilSecs(window)
    ensures Live(b, now + wait * NANOS_PER_SEC, window) <==> wait < RetryAfter(b, now, window)
  {
  }
}
