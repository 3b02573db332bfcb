/** A refusal, once earned, holds: no flood, eviction, sync round or epoch roll
    gives a client its budget back before its window ends, and `Retry-After`
    says exactly when that is. */
module Refusals {
  import opened Buckets
  import opened Eviction
  import opened Limiter
  import opened Protocol
  import opened Fleet
  import opened Billing
  import opened Windows

  // ------------------------------------------------------------------
  // One step
  // ------------------------------------------------------------------

  /** `key` is exhausted, in the window it opened at `start`. */
  ghost predicate Exhausted(p: Proc, key: Key, start: Instant, serial: nat) {
    && key in p.buckets && p.buckets[key].windowStart == start && SerialOf(p, key) == serial
    && Spent(p.buckets[key]) >= p.cfg.max
  }

  /** A check inside the window that opened at `start`. */
  ghost predicate Inside(p: Proc, ev: Event, start: Instant) {
    ev.Check? ==> Elapsed(ev.now, start) < p.cfg.window
  }

  lemma KeyedStaysInMap(p: Proc, other: Key, now: Instant, room: Map, key: Key, start: Instant, serial: nat)
    requires Shaped(p) && RoomOk(p, other, now, room) && !Saturated(room, other)
    requires Exhausted(p, key, start, serial) && Live(p.buckets[key], now, p.cfg.window)
    ensures var (q, a) := AfterKeyed(p, other, now, room);
            && key in q.buckets && SerialOf(q, key) == serial && q.cfg == p.cfg
            && (other == key ==> a.Refuse?)
  {
    assert key in room;
    assert other == key ==> !FreshWindow(p, other, now, room);
  }

  lemma StaysInMap(p: Proc, ev: Event, table: Table, key: Key, start: Instant, serial: nat)
    requires ProcInv(p) && Enabled(p, ev) && Exhausted(p, key, start, serial) && Inside(p, ev, start)
    ensures var q := After(p, ev, table);
            key in q.buckets && SerialOf(q, key) == serial && q.cfg == p.cfg
    ensures ev.Check? && ev.key == key ==> AfterCheck(p, key, ev.now, ev.room).1.Refuse?
  {
    match ev
    case Check(other, now, room) =>
      RoomMadeIsOk(p, other, now, room);
      if !Saturated(room, other) {
        KeyedStaysInMap(p, other, now, room, key, start, serial);
      }
    case _ =>
  }

  lemma CountHolds(p: Proc, ev: Event, table: Table, horizon: int, key: Key, start: Instant, serial: nat)
    requires ProcInv(p) && Stored(p, table, horizon) && Enabled(p, ev) && Inside(p, ev, start)
    requires Exhausted(p, key, start, serial) && p.buckets[key].count >= p.cfg.max
    ensures var q := After(p, ev, table);
            Exhausted(q, key, start, serial) && q.buckets[key].count >= q.cfg.max && q.cfg == p.cfg
  {
    StaysInMap(p, ev, table, key, start, serial);
    SpendNeverFalls(p, ev, table, horizon, key);
  }

  /** A snapshot that picks `key` is for the wall window `epoch`. */
  ghost predicate NoRoll(ev: Event, key: Key, epoch: int) {
    ev.Snapshot? && key in ev.picked ==> ev.epoch == epoch
  }

  lemma EpochHolds(p: Proc, ev: Event, table: Table, key: Key, start: Instant, serial: nat, epoch: int)
    requires ProcInv(p) && Enabled(p, ev) && Inside(p, ev, start) && NoRoll(ev, key, epoch)
    requires Exhausted(p, key, start, serial) && p.buckets[key].epoch == Some(epoch)
    ensures var q := After(p, ev, table);
            key in q.buckets && q.buckets[key].epoch == Some(epoch)
  {
    StaysInMap(p, ev, table, key, start, serial);
    if ev.Check? {
      RoomMadeIsOk(p, ev.key, ev.now, ev.room);
      CheckInherits(p, ev.key, ev.now, ev.room);
    }
  }

  lemma SpendHolds(p: Proc, ev: Event, table: Table, horizon: int, key: Key, start: Instant, serial: nat, epoch: int)
    requires ProcInv(p) && Stored(p, table, horizon) && Enabled(p, ev) && Inside(p, ev, start)
    requires NoRoll(ev, key, epoch) && epoch >= horizon
    requires Exhausted(p, key, start, serial) && p.buckets[key].epoch == Some(epoch)
    ensures var q := After(p, ev, table);
            Exhausted(q, key, start, serial) && q.buckets[key].epoch == Some(epoch) && q.cfg == p.cfg
  {
    StaysInMap(p, ev, table, key, start, serial);
    EpochHolds(p, ev, table, key, start, serial, epoch);
    SpendNeverFalls(p, ev, table, horizon, key);
  }

  // ------------------------------------------------------------------
  // Whole runs
  // ------------------------------------------------------------------

  ghost predicate ExhaustedAt(s: State, i: nat, key: Key, start: Instant, serial: nat) {
    i < |s.procs| && Exhausted(s.procs[i], key, start, serial)
  }

  /** If the move is a check of process `i`, it falls inside the window. */
  ghost predicate MoveInside(s: State, move: Move, i: nat, start: Instant) {
    move.Act? && move.id == i && i < |s.procs| ==> Inside(s.procs[i], move.ev, start)
  }

  /** If the move is a check of `key` by process `i`, it is refused. */
  ghost predicate Refuses(s: State, move: Move, i: nat, key: Key) {
    move.Act? && move.id == i && move.ev.Check? && move.ev.key == key ==>
      i < |s.procs| && s.procs[i].cfg.window > 0 &&
      AfterCheck(s.procs[i], key, move.ev.now, move.ev.room).1.Refuse?
  }

  ghost predicate CountSpentAt(s: State, i: nat, key: Key, start: Instant, serial: nat) {
    ExhaustedAt(s, i, key, start, serial) && s.procs[i].buckets[key].count >= s.procs[i].cfg.max
  }

  lemma NextHoldsCount(s: State, move: Move, i: nat, key: Key, start: Instant, serial: nat)
    requires Inv(s) && Allowed(s, move) && MoveInside(s, move, i, start)
    requires CountSpentAt(s, i, key, start, serial)
    ensures CountSpentAt(Next(s, move), i, key, start, serial) && Refuses(s, move, i, key)
  {
    assert ProcInv(s.procs[i]) && Stored(s.procs[i], s.table, s.horizon);
    if move.Act? && move.id == i {
      StaysInMap(s.procs[i], move.ev, s.table, key, start, serial);
      CountHolds(s.procs[i], move.ev, s.table, s.horizon, key, start, serial);
    }
  }

  lemma MoveHoldsCount(states: seq<State>, moves: seq<Move>, n: nat, i: nat, key: Key, start: Instant, serial: nat)
    requires IsRun(states, moves) && n < |moves| && MoveInside(states[n], moves[n], i, start)
    requires CountSpentAt(states[n], i, key, start, serial)
    ensures CountSpentAt(states[n + 1], i, key, start, serial) && Refuses(states[n], moves[n], i, key)
  {
    RunInv(states, moves, n);
    NextHoldsCount(states[n], moves[n], i, key, start, serial);
  }

  lemma {:induction false} StaysSpent(states: seq<State>, moves: seq<Move>, m: nat, n: nat,
                                      i: nat, key: Key, start: Instant, serial: nat)
    requires IsRun(states, moves) && m <= n <= |moves|
    requires CountSpentAt(states[m], i, key, start, serial)
    requires forall j {:trigger moves[j]} :: m <= j < n ==> MoveInside(states[j], moves[j], i, start)
    ensures CountSpentAt(states[n], i, key, start, serial)
  {
    if m < n {
      StaysSpent(states, moves, m, n - 1, i, key, start, serial);
      MoveHoldsCount(states, moves, n - 1, i, key, start, serial);
    }
  }

  /** No fail-open: once a bucket has counted `max` requests, it stays in the
      map with that count, and every check of its client is refused, for as
      long as no check comes after the end of its window, whatever other
      clients, evictions, sync rounds and epoch rolls do meanwhile. */
  lemma NoFailOpen(states: seq<State>, moves: seq<Move>, m: nat, n: nat,
                   i: nat, key: Key, start: Instant, serial: nat)
    requires IsRun(states, moves) && m <= n <= |moves|
    requires CountSpentAt(states[m], i, key, start, serial)
    requires forall j {:trigger moves[j]} :: m <= j < n ==> MoveInside(states[j], moves[j], i, start)
    ensures CountSpentAt(states[n], i, key, start, serial)
    ensures forall j {:trigger moves[j]} :: m <= j < n ==> Refuses(states[j], moves[j], i, key)
  {
    StaysSpent(states, moves, m, n, i, key, start, serial);
    forall j | m <= j < n
      ensures Refuses(states[j], moves[j], i, key)
    {
      StaysSpent(states, moves, m, j, i, key, start, serial);
      MoveHoldsCount(states, moves, j, i, key, start, serial);
    }
  }

  ghost predicate SharedSpentAt(s: State, i: nat, key: Key, start: Instant, serial: nat, epoch: int) {
    ExhaustedAt(s, i, key, start, serial) && s.procs[i].buckets[key].epoch == Some(epoch) && s.horizon <= epoch
  }

  /** The move neither rolls the bucket of `key` to another wall window nor
      cleans up the row of this one. */
  ghost predicate EpochLasts(move: Move, i: nat, key: Key, epoch: int) {
    match move
    case Act(id, ev) => id == i ==> NoRoll(ev, key, epoch)
    case Purge(before) => before <= epoch
  }

  lemma NextHoldsSpend(s: State, move: Move, i: nat, key: Key, start: Instant, serial: nat, epoch: int)
    requires Inv(s) && Allowed(s, move) && MoveInside(s, move, i, start) && EpochLasts(move, i, key, epoch)
    requires SharedSpentAt(s, i, key, start, serial, epoch)
    ensures SharedSpentAt(Next(s, move), i, key, start, serial, epoch) && Refuses(s, move, i, key)
  {
    assert ProcInv(s.procs[i]) && Stored(s.procs[i], s.table, s.horizon);
    if move.Act? && move.id == i {
      StaysInMap(s.procs[i], move.ev, s.table, key, start, serial);
      SpendHolds(s.procs[i], move.ev, s.table, s.horizon, key, start, serial, epoch);
    }
  }

  lemma MoveHoldsSpend(states: seq<State>, moves: seq<Move>, n: nat, i: nat, key: Key, start: Instant, serial: nat, epoch: int)
    requires IsRun(states, moves) && n < |moves| && MoveInside(states[n], moves[n], i, start)
    requires EpochLasts(moves[n], i, key, epoch) && SharedSpentAt(states[n], i, key, start, serial, epoch)
    ensures SharedSpentAt(states[n + 1], i, key, start, serial, epoch) && Refuses(states[n], moves[n], i, key)
  {
    RunInv(states, moves, n);
    NextHoldsSpend(states[n], moves[n], i, key, start, serial, epoch);
  }

  lemma {:induction false} StaysShared(states: seq<State>, moves: seq<Move>, m: nat, n: nat,
                                       i: nat, key: Key, start: Instant, serial: nat, epoch: int)
    requires IsRun(states, moves) && m <= n <= |moves|
    requires SharedSpentAt(states[m], i, key, start, serial, epoch)
    requires forall j {:trigger moves[j]} :: m <= j < n ==> MoveInside(states[j], moves[j], i, start)
    requires forall j :: m <= j < n ==> EpochLasts(moves[j], i, key, epoch)
    ensures SharedSpentAt(states[n], i, key, start, serial, epoch)
  {
    if m < n {
      StaysShared(states, moves, m, n - 1, i, key, start, serial, epoch);
      MoveHoldsSpend(states, moves, n - 1, i, key, start, serial, epoch);
    }
  }

  /** A client refused by the shared total, even with few requests of its own
      in this process, stays refused until its local window or the wall window
      ends. */
  lemma SharedRefusalSticks(states: seq<State>, moves: seq<Move>, m: nat, n: nat,
                            i: nat, key: Key, start: Instant, serial: nat, epoch: int)
    requires IsRun(states, moves) && m <= n <= |moves|
    requires SharedSpentAt(states[m], i, key, start, serial, epoch)
    requires forall j {:trigger moves[j]} :: m <= j < n ==> MoveInside(states[j], moves[j], i, start)
    requires forall j :: m <= j < n ==> EpochLasts(moves[j], i, key, epoch)
    ensures SharedSpentAt(states[n], i, key, start, serial, epoch)
    ensures forall j {:trigger moves[j]} :: m <= j < n ==> Refuses(states[j], moves[j], i, key)
  {
    StaysShared(states, moves, m, n, i, key, start, serial, epoch);
    forall j | m <= j < n
      ensures Refuses(states[j], moves[j], i, key)
    {
      StaysShared(states, moves, m, j, i, key, start, serial, epoch);
      MoveHoldsSpend(states, moves, j, i, key, start, serial, epoch);
    }
  }

  // ------------------------------------------------------------------
  // The full map
  // ------------------------------------------------------------------

  /** The map is at its cap, and every bucket in it is live and exhausted. */
  ghost predicate FullOfExhausted(m: Map, now: Instant, max: nat, window: nat) {
    |m| >= PURGE_AT && forall k :: k in m ==> Live(m[k], now, window) && Spent(m[k]) >= max
  }

  lemma SaturatedIffFull(m: Map, key: Key, now: Instant, max: nat, window: nat, room: Map)
    requires |m| <= PURGE_AT && RoomMade(m, key, now, max, window, room)
    ensures Saturated(room, key) <==> key !in m && FullOfExhausted(m, now, max, window)
    ensures Saturated(room, key) ==> room == m
  {
    if |m| >= PURGE_AT && key !in m {
      var swept := Swept(m, now, window);
      SubsetSize(swept.Keys, m.Keys);
      if |swept| >= PURGE_AT {
        assert swept == m;
        SaturatedIffNoneEvictable(swept, room, max);
      }
    }
  }

  /** A request falls through to the overflow bucket exactly when its key is new
      and the map is full of live exhausted buckets; then it changes none. */
  lemma OverflowIffFull(p: Proc, key: Key, now: Instant, room: Map)
    requires ProcInv(p) && Enabled(p, Check(key, now, room))
    ensures Saturated(room, key) <==>
              key !in p.buckets && FullOfExhausted(p.buckets, now, p.cfg.max, p.cfg.window)
    ensures Saturated(room, key) ==> AfterCheck(p, key, now, room).0.buckets == p.buckets
  {
    SaturatedIffFull(p.buckets, key, now, p.cfg.max, p.cfg.window, room);
  }

  lemma SaturatedIffNoneEvictable(m: Map, room: Map, max: nat)
    requires |m| == PURGE_AT && Evicted(m, room, EVICTION_TARGET, max)
    ensures |room| >= PURGE_AT <==> forall k :: k in m ==> Spent(m[k]) >= max
    ensures |room| >= PURGE_AT ==> room == m
    ensures room.Keys <= m.Keys
  {
    EvictedSize(m, room, EVICTION_TARGET, max);
    if |room| >= PURGE_AT {
      assert Evictable(m, max) == {};
      forall k | k in m
        ensures Spent(m[k]) >= max
      {
        assert k !in Evictable(m, max);
      }
    } else {
      var k :| k in Evictable(m, max);
    }
  }

  /** The map never outgrows its cap, at any point of any run. */
  lemma MemoryBounded(states: seq<State>, moves: seq<Move>, n: nat, i: nat)
    requires IsRun(states, moves) && n < |states| && i < |states[n].procs|
    ensures |states[n].procs[i].buckets| <= PURGE_AT
  {
    RunInv(states, moves, n);
    assert ProcInv(states[n].procs[i]);
  }

  // ------------------------------------------------------------------
  // Retry-After
  // ------------------------------------------------------------------

  /** Any bucket that is still the window of a refusal, checked `wait` seconds
      on. */
  lemma LaterCharge(p: Proc, key: Key, now: Instant, room: Map, wait: nat, later: Bucket)
    requires Shaped(p) && RoomOk(p, key, now, room) && !Saturated(room, key)
    requires key in p.buckets ==> p.buckets[key].windowStart <= now
    requires AfterCheck(p, key, now, room).1.Refuse?
    requires later.windowStart == AfterCheck(p, key, now, room).0.buckets[key].windowStart
    ensures var secs := AfterCheck(p, key, now, room).1.retryAfterSecs;
            var (_, a) := Charge(later, now + wait * NANOS_PER_SEC, p.cfg.max, p.cfg.window);
            && 1 <= secs <= CeilSecs(p.cfg.window)
            && (wait >= secs ==> a == Admit)
            && (wait < secs ==> Live(later, now + wait * NANOS_PER_SEC, p.cfg.window) &&
                                (a.Refuse? <==> Spent(later) >= p.cfg.max))
  {
    var c := Current(Entry(room, key, now), now, p.cfg.window);
    RetryAfterIsLeastWait(c, now, p.cfg.window, wait);
  }

  /** A resident's check is charged to its own bucket, whatever room is made. */
  lemma ResidentCharged(p: Proc, key: Key, now: Instant, room: Map)
    requires p.cfg.window > 0 && key in p.buckets && Enabled(p, Check(key, now, room))
    ensures !Saturated(room, key)
    ensures AfterCheck(p, key, now, room).1 == Charge(p.buckets[key], now, p.cfg.max, p.cfg.window).1
  {
  }

  /** The move is a check of `key` by process `i` at `now`, and what it says. */
  ghost predicate Checks(s: State, move: Move, i: nat, key: Key, now: Instant, a: Answer) {
    && i < |s.procs| && s.procs[i].cfg.window > 0 && move.Act? && move.id == i && move.ev.Check?
    && move.ev.key == key && move.ev.now == now && AfterCheck(s.procs[i], key, now, move.ev.room).1 == a
  }

  lemma RefusedBucket(states: seq<State>, moves: seq<Move>, m: nat, i: nat, key: Key, now: Instant, secs: nat)
    requires IsRun(states, moves) && TimelyRun(states, moves) && m < |moves|
    requires Checks(states[m], moves[m], i, key, now, Refuse(secs)) && !Saturated(moves[m].ev.room, key)
    ensures i < |states[m + 1].procs| && states[m + 1].procs[i] == AfterCheck(states[m].procs[i], key, now, moves[m].ev.room).0
    ensures var p := states[m].procs[i];
            ProcInv(p) && RoomOk(p, key, now, moves[m].ev.room) && (key in p.buckets ==> p.buckets[key].windowStart <= now)
  {
    RunInv(states, moves, m);
    RunTimed(states, moves, m, i, Keyless);
    assert Step(states[m], moves[m], states[m + 1]);
    RoomMadeIsOk(states[m].procs[i], key, now, moves[m].ev.room);
  }

  /** `Retry-After` is truthful, in any run in time order: a client that is
      refused and whose bucket is still in that window when it checks again is
      admitted if it waited as told; if it came earlier, the window is still
      running, and it is refused exactly if it is still exhausted. */
  lemma RetryAfterIsTruthful(states: seq<State>, moves: seq<Move>, m: nat, n: nat, i: nat, key: Key,
                             now: Instant, secs: nat, wait: nat, answer: Answer)
    requires IsRun(states, moves) && TimelyRun(states, moves) && m < n < |moves|
    requires Checks(states[m], moves[m], i, key, now, Refuse(secs)) && !Saturated(moves[m].ev.room, key)
    requires Checks(states[n], moves[n], i, key, now + wait * NANOS_PER_SEC, answer)
    requires i < |states[m + 1].procs| && key in states[m + 1].procs[i].buckets && key in states[n].procs[i].buckets
    requires states[n].procs[i].buckets[key].windowStart == states[m + 1].procs[i].buckets[key].windowStart
    ensures var p := states[n].procs[i];
            && 1 <= secs <= CeilSecs(p.cfg.window)
            && (wait >= secs ==> answer == Admit)
            && (wait < secs ==> Live(p.buckets[key], now + wait * NANOS_PER_SEC, p.cfg.window) &&
                                (answer.Refuse? <==> Spent(p.buckets[key]) >= p.cfg.max))
  {
    RefusedBucket(states, moves, m, i, key, now, secs);
    var p := states[n].procs[i];
    SameFleet(states, moves, m);
    SameFleet(states, moves, n);
    assert Step(states[n], moves[n], states[n + 1]);
    ResidentCharged(p, key, now + wait * NANOS_PER_SEC, moves[n].ev.room);
    LaterCharge(states[m].procs[i], key, now, moves[m].ev.room, wait, p.buckets[key]);
  }

  /** A request that falls through to the overflow bucket is refused if and only
      if the running overflow window has admitted its whole budget; and is then
      told the least whole number of seconds after which that window has ended. */
  lemma OverflowRefusedIff(states: seq<State>, moves: seq<Move>, n: nat, i: nat, key: Key, now: Instant, room: Map, wait: nat)
    requires IsRun(states, moves) && TimelyRun(states, moves) && n < |states| && i < |states[n].procs|
    requires Enabled(states[n].procs[i], Check(key, now, room)) && states[n].procs[i].clock <= now && Saturated(room, key)
    ensures states[n].procs[i].cfg.window > 0 && OverflowAnswers(states[n].procs[i], key, now, room, wait)
  {
    RunInv(states, moves, n);
    RunTimed(states, moves, n, i, Keyless);
    OverflowCountIsAdmits(states[n].procs[i]);
    OverflowCharged(states[n].procs[i], key, now, room, wait);
  }

  ghost predicate OverflowAnswers(p: Proc, key: Key, now: Instant, room: Map, wait: nat)
    requires p.cfg.window > 0
  {
    var answer := AfterCheck(p, key, now, room).1;
    var ends := p.overflow.windowStart + p.cfg.window;
    && (answer.Refuse? <==> now < ends && |OfWindow(p.admits, OverflowGen(p))| == RATE_LIMIT_OVERFLOW_MAX)
    && (answer.Refuse? ==>
          && 1 <= answer.retryAfterSecs <= CeilSecs(p.cfg.window)
          && (now + wait * NANOS_PER_SEC < ends <==> wait < answer.retryAfterSecs))
  }

  lemma OverflowCharged(p: Proc, key: Key, now: Instant, room: Map, wait: nat)
    requires p.cfg.window > 0 && p.overflow.windowStart <= now && Saturated(room, key)
    requires |OfWindow(p.admits, OverflowGen(p))| == p.overflow.count <= RATE_LIMIT_OVERFLOW_MAX
    ensures OverflowAnswers(p, key, now, room, wait)
  {
    if Live(p.overflow, now, p.cfg.window) {
      RetryAfterIsLeastWait(p.overflow, now, p.cfg.window, wait);
    }
  }

  lemma OverflowCountIsAdmits(p: Proc)
    requires Counted(p)
    ensures |OfWindow(p.admits, OverflowGen(p))| == p.overflow.count
  {
    var g, count := OverflowGen(p), p.overflow.count;
    RangeSize(g, 0, count);
    forall r
      ensures r in OfWindow(p.admits, g) <==> r in Range(g, 0, count)
    {
      assert r == Request(r.gen, r.index);
    }
    assert OfWindow(p.admits, g) == Range(g, 0, count);
  }
}
