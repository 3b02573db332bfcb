/** A limiter that shares nothing is, from the outside, a fixed-window counter
    per client with unbounded memory, as long as the live clients fit. */
module Refinement {
  import opened Buckets
  import opened Eviction
  import opened Limiter

  datatype Call = Call(key: Key, now: Instant)

  // ------------------------------------------------------------------
  // The simple counter
  // ------------------------------------------------------------------

  datatype Slot = Slot(start: Instant, count: nat)

  type Counters = map<Key, Slot>

  predicate LiveSlot(s: Slot, now: Instant, window: nat) {
    Elapsed(now, s.start) < window
  }

  function CountOne(ref: Counters, call: Call, max: nat, window: nat): (Counters, Answer)
    requires window > 0
  {
    var slot := if call.key in ref && LiveSlot(ref[call.key], call.now, window)
                then ref[call.key] else Slot(call.now, 0);
    if slot.count < max
    then (ref[call.key := slot.(count := slot.count + 1)], Admit)
    else (ref[call.key := slot], Refuse(CeilSecs(window - Elapsed(call.now, slot.start))))
  }

  /** The counters after a list of calls. */
  ghost function CountersAfter(calls: seq<Call>, max: nat, window: nat): Counters
    requires window > 0
  {
    if calls == [] then map[]
    else CountOne(CountersAfter(calls[..|calls|-1], max, window), calls[|calls|-1], max, window).0
  }

  /** What the simple counter answers to the `i`-th call. */
  ghost function SimpleAnswer(calls: seq<Call>, i: nat, max: nat, window: nat): Answer
    requires window > 0 && i < |calls|
  {
    CountOne(CountersAfter(calls[..i], max, window), calls[i], max, window).1
  }

  // ------------------------------------------------------------------
  // The limiter
  // ------------------------------------------------------------------

  datatype Limits = Limits(buckets: Map, overflow: Bucket)

  /** One check, whatever the eviction chose. */
  ghost predicate Serves(before: Limits, call: Call, after: Limits, answer: Answer, max: nat, window: nat)
    requires window > 0
  {
    exists room ::
      && RoomMade(before.buckets, call.key, call.now, max, window, room)
      && (after.buckets, after.overflow, answer) == Checked(room, before.overflow, call.key, call.now, max, window)
  }

  ghost predicate IsTrace(limits: seq<Limits>, answers: seq<Answer>, calls: seq<Call>, max: nat, window: nat)
    requires window > 0
  {
    && |limits| == |calls| + 1 && |answers| == |calls| && limits[0].buckets == map[]
    && forall i :: 0 <= i < |calls| ==> Serves(limits[i], calls[i], limits[i + 1], answers[i], max, window)
  }

  ghost predicate InOrder(calls: seq<Call>) {
    forall i, j :: 0 <= i < j < |calls| ==> calls[i].now <= calls[j].now
  }

  ghost function LiveKeys(ref: Counters, now: Instant, window: nat): set<Key> {
    set k | k in ref && LiveSlot(ref[k], now, window)
  }

  /** When a client that is not live calls, fewer than `PURGE_AT` clients are. */
  ghost predicate Roomy(ref: Counters, call: Call, window: nat) {
    call.key in LiveKeys(ref, call.now, window) || |LiveKeys(ref, call.now, window)| < PURGE_AT
  }

  // ------------------------------------------------------------------
  // The simulation
  // ------------------------------------------------------------------

  /** Every counter is in the map as it is, or its window has ended. */
  ghost predicate Simulates(m: Map, ref: Counters, clock: Instant, window: nat) {
    && m.Keys <= ref.Keys
    && (forall k :: k in ref ==> ref[k].start <= clock)
    && (forall k :: k in m ==> m[k] == Bucket(ref[k].start, ref[k].count, 0, 0, None))
    && (forall k :: k in ref && k !in m ==> ref[k].start + window <= clock)
  }

  ghost predicate InRange(ref: Counters, max: nat) {
    forall k :: k in ref ==> ref[k].count <= max
  }

  lemma RoomIsEnough(m: Map, ref: Counters, clock: Instant, call: Call, max: nat, window: nat, room: Map)
    requires Simulates(m, ref, clock, window) && clock <= call.now && |m| <= PURGE_AT
    requires RoomMade(m, call.key, call.now, max, window, room) && Roomy(ref, call, window)
    ensures Simulates(room, ref, call.now, window) && !Saturated(room, call.key) && |room| <= PURGE_AT
    ensures call.key !in room ==> |room| < PURGE_AT
  {
    if |m| >= PURGE_AT && call.key !in m {
      var swept := Swept(m, call.now, window);
      assert swept.Keys == LiveKeys(ref, call.now, window);
    }
  }

  lemma ChargeAgrees(room: Map, overflow: Bucket, ref: Counters, call: Call, max: nat, window: nat)
    requires Simulates(room, ref, call.now, window) && InRange(ref, max)
    requires !Saturated(room, call.key) && 0 < max <= U32_MAX && window > 0
    ensures var (m, o, a) := Checked(room, overflow, call.key, call.now, max, window);
            var (ref', a') := CountOne(ref, call, max, window);
            a == a' && Simulates(m, ref', call.now, window) && InRange(ref', max)
  {
    var (b, a) := Charge(Entry(room, call.key, call.now), call.now, max, window);
    var (ref', a') := CountOne(ref, call, max, window);
    var c := Current(Entry(room, call.key, call.now), call.now, window);
    assert Spent(c) == c.count;
    assert b == Bucket(ref'[call.key].start, ref'[call.key].count, 0, 0, None);
  }

  lemma StepAgrees(before: Limits, ref: Counters, clock: Instant, call: Call, after: Limits, answer: Answer, max: nat, window: nat)
    requires 0 < max <= U32_MAX && window > 0 && clock <= call.now && |before.buckets| <= PURGE_AT
    requires Simulates(before.buckets, ref, clock, window) && InRange(ref, max) && Roomy(ref, call, window)
    requires Serves(before, call, after, answer, max, window)
    ensures var (ref', a) := CountOne(ref, call, max, window);
            && answer == a && |after.buckets| <= PURGE_AT
            && Simulates(after.buckets, ref', call.now, window) && InRange(ref', max)
  {
    var room :| RoomMade(before.buckets, call.key, call.now, max, window, room)
             && (after.buckets, after.overflow, answer) == Checked(room, before.overflow, call.key, call.now, max, window);
    RoomIsEnough(before.buckets, ref, clock, call, max, window, room);
    ChargeAgrees(room, before.overflow, ref, call, max, window);
    InsertSize(room, call.key, Charge(Entry(room, call.key, call.now), call.now, max, window).0);
  }

  ghost predicate AgreesUpTo(limits: seq<Limits>, answers: seq<Answer>, calls: seq<Call>, n: nat, max: nat, window: nat)
    requires window > 0 && n <= |calls| == |answers| && |limits| == |calls| + 1
  {
    var ref := CountersAfter(calls[..n], max, window);
    && (forall i :: 0 <= i < n ==> answers[i] == SimpleAnswer(calls, i, max, window))
    && |limits[n].buckets| <= PURGE_AT && InRange(ref, max)
    && (n > 0 ==> Simulates(limits[n].buckets, ref, calls[n - 1].now, window))
    && (n == 0 ==> limits[n].buckets == map[] && ref == map[])
  }

  lemma NextAgrees(limits: seq<Limits>, answers: seq<Answer>, calls: seq<Call>, i: nat, max: nat, window: nat)
    requires 0 < max <= U32_MAX && window > 0 && i < |calls| == |answers| && |limits| == |calls| + 1
    requires AgreesUpTo(limits, answers, calls, i, max, window)
    requires Serves(limits[i], calls[i], limits[i + 1], answers[i], max, window)
    requires i > 0 ==> calls[i - 1].now <= calls[i].now
    requires Roomy(CountersAfter(calls[..i], max, window), calls[i], window)
    ensures AgreesUpTo(limits, answers, calls, i + 1, max, window)
  {
    var ref := CountersAfter(calls[..i], max, window);
    var clock := if i == 0 then calls[i].now else calls[i - 1].now;
    StepAgrees(limits[i], ref, clock, calls[i], limits[i + 1], answers[i], max, window);
    assert calls[..i + 1][..i] == calls[..i] && calls[..i + 1][i] == calls[i];
    assert CountersAfter(calls[..i + 1], max, window) == CountOne(ref, calls[i], max, window).0;
    assert SimpleAnswer(calls, i, max, window) == CountOne(ref, calls[i], max, window).1;
  }

  /** Refinement: on every sequence of calls in time order in which the live
      clients fit whenever a client that is not live calls, every answer is the
      simple counter's, `Retry-After` included. No sweep shows, and nothing is
      evicted or sent to the overflow bucket. */
  lemma {:induction false} RefinesSimpleCounter(limits: seq<Limits>, answers: seq<Answer>, calls: seq<Call>, n: nat, max: nat, window: nat)
    requires 0 < max <= U32_MAX && window > 0 && n <= |calls|
    requires IsTrace(limits, answers, calls, max, window) && InOrder(calls)
    requires forall i :: 0 <= i < |calls| ==> Roomy(CountersAfter(calls[..i], max, window), calls[i], window)
    ensures AgreesUpTo(limits, answers, calls, n, max, window)
  {
    if n > 0 {
      RefinesSimpleCounter(limits, answers, calls, n - 1, max, window);
      NextAgrees(limits, answers, calls, n - 1, max, window);
    }
  }

  // ------------------------------------------------------------------
  // The burst across a window boundary
  // ------------------------------------------------------------------

  /** One call that opens a window, `max - 1` at its last instant, and `max` at
      the first instant of the next. */
  function BurstCalls(key: Key, max: nat, window: nat): seq<Call>
    requires max > 0
  {
    seq(2 * max, i requires 0 <= i < 2 * max =>
      Call(key, if i == 0 then 0 else if i < max then window - 1 else window))
  }

  lemma {:induction false} BurstCounters(key: Key, max: nat, window: nat, n: nat)
    requires 0 < max && window > 1 && n <= 2 * max
    ensures var ref := CountersAfter(BurstCalls(key, max, window)[..n], max, window);
            if n == 0 then ref == map[]
            else ref == map[key := if n <= max then Slot(0, n) else Slot(window, n - max)]
  {
    if n > 0 {
      var calls := BurstCalls(key, max, window);
      BurstCounters(key, max, window, n - 1);
      assert calls[..n][..n - 1] == calls[..n - 1];
      assert calls[..n][n - 1] == calls[n - 1];
    }
  }

  /** The bound is reached: all these calls are admitted, and all but the first
      come within two instants of each other, one less than twice the budget. */
  lemma BurstIsReached(key: Key, max: nat, window: nat, i: nat)
    requires 0 < max && window > 1 && i < 2 * max
    ensures SimpleAnswer(BurstCalls(key, max, window), i, max, window) == Admit
    ensures i > 0 ==> window - 1 <= BurstCalls(key, max, window)[i].now <= window
    ensures InOrder(BurstCalls(key, max, window))
    ensures max <= U32_MAX ==> Roomy(CountersAfter(BurstCalls(key, max, window)[..i], max, window), BurstCalls(key, max, window)[i], window)
  {
    BurstCounters(key, max, window, i);
    var ref := CountersAfter(BurstCalls(key, max, window)[..i], max, window);
    var live := LiveKeys(ref, BurstCalls(key, max, window)[i].now, window);
    assert live <= {key};
    SubsetSize(live, {key});
  }

  /** So a limiter given these calls admits them all, whatever its evictions. */
  lemma BurstIsAdmitted(limits: seq<Limits>, answers: seq<Answer>, key: Key, max: nat, window: nat, i: nat)
    requires 0 < max <= U32_MAX && window > 1 && i < 2 * max
    requires IsTrace(limits, answers, BurstCalls(key, max, window), max, window)
    ensures answers[i] == Admit
  {
    var calls := BurstCalls(key, max, window);
    forall j | 0 <= j < |calls|
      ensures Roomy(CountersAfter(calls[..j], max, window), calls[j], window)
    {
      BurstIsReached(key, max, window, j);
    }
    BurstIsReached(key, max, window, i);
    RefinesSimpleCounter(limits, answers, calls, |calls|, max, window);
  }
}
