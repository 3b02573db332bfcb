/** What the shared total does to admission: which checks it refuses, and that a
    round brings it to every client that has been let in. */
module Sharing {
  import opened Buckets
  import opened Eviction
  import opened Limiter
  import opened Protocol
  import opened Fleet
  import opened Billing
  import opened Refusals

  // ------------------------------------------------------------------
  // Refused by the local count or by the shared total
  // ------------------------------------------------------------------

  /** A resident's check inside its window is refused if and only if the window
      has admitted the budget, or the total last read back and what has been
      admitted since its report come to it. */
  lemma RefusedIff(states: seq<State>, moves: seq<Move>, n: nat, i: nat, key: Key, now: Instant, room: Map)
    requires IsRun(states, moves) && n < |states| && i < |states[n].procs| && key in states[n].procs[i].buckets
    requires Enabled(states[n].procs[i], Check(key, now, room))
    requires var p := states[n].procs[i];
             p.buckets[key].windowStart <= now < p.buckets[key].windowStart + p.cfg.window
    ensures var p := states[n].procs[i];
            var b := p.buckets[key];
            && p.cfg.window > 0
            && (AfterCheck(p, key, now, room).1.Refuse? <==>
                  b.count >= p.cfg.max || b.remote + (b.count - b.pushed) >= p.cfg.max)
  {
    RunInv(states, moves, n);
    assert ProcInv(states[n].procs[i]);
    ResidentCharged(states[n].procs[i], key, now, room);
  }

  /** The window of `key` with this serial has taken total `t`, for a report that
      counted its first `counted` requests. */
  ghost predicate Took(p: Proc, key: Key, serial: nat, counted: nat, t: int) {
    && serial < p.next
    && (key in p.buckets && SerialOf(p, key) == serial ==>
          && p.buckets[key].pushed == counted && p.buckets[key].remote == Clamp(t) && p.buckets[key].epoch.Some?)
  }

  /** The step takes no later total for `key`, nor turns it to another row. */
  ghost predicate LeavesTotal(p: Proc, ev: Event, key: Key) {
    && (ev.WriteBack? ==> p.sync.InFlight? && key !in p.sync.totals)
    && !Rolls(p, ev, key)
  }

  lemma KeyedKeepsTotal(p: Proc, other: Key, now: Instant, room: Map, key: Key, serial: nat, counted: nat, t: int)
    requires Shaped(p) && Within(p, room) && !Saturated(room, other) && Took(p, key, serial, counted, t)
    ensures Took(AfterKeyed(p, other, now, room).0, key, serial, counted, t)
  {
    var q := AfterKeyed(p, other, now, room).0;
    if key in q.buckets {
      if key == other {
        assert SerialOf(q, key) == if FreshWindow(p, key, now, room) then p.next else SerialOf(p, key);
      } else {
        KeyedElsewhere(p, other, now, room, key);
      }
    }
  }

  lemma KeylessKeepsTotal(p: Proc, now: Instant, room: Map, key: Key, serial: nat, counted: nat, t: int)
    requires Shaped(p) && Within(p, room) && Took(p, key, serial, counted, t)
    ensures Took(AfterKeyless(p, now, room).0, key, serial, counted, t)
  {
    var q := AfterKeyless(p, now, room).0;
    if key in q.buckets {
      assert KeyedGen(q, key) == KeyedGen(p, key);
    }
  }

  lemma StepKeepsTotal(p: Proc, ev: Event, table: Table, key: Key, serial: nat, counted: nat, t: int)
    requires ProcInv(p) && Enabled(p, ev) && LeavesTotal(p, ev, key) && Took(p, key, serial, counted, t)
    ensures Took(After(p, ev, table), key, serial, counted, t)
  {
    match ev
    case Check(other, now, room) =>
      RoomMadeIsOk(p, other, now, room);
      if Saturated(room, other) {
        KeylessKeepsTotal(p, now, room, key, serial, counted, t);
      } else {
        KeyedKeepsTotal(p, other, now, room, key, serial, counted, t);
      }
    case Snapshot(now, epoch, picked) =>
      assert SerialOf(AfterSnapshot(p, now, epoch, picked), key) == SerialOf(p, key);
    case Fold(landed) =>
      assert SerialOf(AfterFold(p, landed, table), key) == SerialOf(p, key);
    case WriteBack =>
      assert SerialOf(AfterWriteBack(p), key) == SerialOf(p, key);
  }

  ghost predicate TookAt(s: State, i: nat, key: Key, serial: nat, counted: nat, t: int) {
    i < |s.procs| && Took(s.procs[i], key, serial, counted, t)
  }

  ghost predicate MoveLeavesTotal(s: State, move: Move, i: nat, key: Key) {
    move.Act? && move.id == i && i < |s.procs| ==> LeavesTotal(s.procs[i], move.ev, key)
  }

  lemma MoveKeepsTotal(states: seq<State>, moves: seq<Move>, n: nat, i: nat, key: Key, serial: nat, counted: nat, t: int)
    requires IsRun(states, moves) && n < |moves| && MoveLeavesTotal(states[n], moves[n], i, key)
    requires TookAt(states[n], i, key, serial, counted, t)
    ensures TookAt(states[n + 1], i, key, serial, counted, t)
  {
    RunInv(states, moves, n);
    var s := states[n];
    assert ProcInv(s.procs[i]) && Step(s, moves[n], states[n + 1]);
    if moves[n].Act? && moves[n].id == i {
      StepKeepsTotal(s.procs[i], moves[n].ev, s.table, key, serial, counted, t);
    }
  }

  lemma {:induction false} StaysTaken(states: seq<State>, moves: seq<Move>, m: nat, n: nat,
                                      i: nat, key: Key, serial: nat, counted: nat, t: int)
    requires IsRun(states, moves) && m <= n < |states| && TookAt(states[m], i, key, serial, counted, t)
    requires forall j {:trigger moves[j]} :: m <= j < n ==> MoveLeavesTotal(states[j], moves[j], i, key)
    ensures TookAt(states[n], i, key, serial, counted, t)
  {
    if m < n {
      StaysTaken(states, moves, m, n - 1, i, key, serial, counted, t);
      MoveKeepsTotal(states, moves, n - 1, i, key, serial, counted, t);
    }
  }

  /** Totals are counts. */
  ghost predicate TotalsCount(s: State, i: nat) {
    i < |s.procs| && s.procs[i].sync.InFlight? ==> forall k :: k in s.procs[i].sync.totals ==> s.procs[i].sync.totals[k] >= 0
  }

  lemma FoldTotalsCount(s: State, i: nat, landed: set<Key>)
    requires Inv(s) && Allowed(s, Act(i, Fold(landed)))
    ensures TotalsCount(Next(s, Act(i, Fold(landed))), i)
  {
    var p := s.procs[i];
    assert ProcInv(p);
    forall k | k in landed
      ensures Hits(FoldedTable(s.table, p, landed), Row(p.cfg.tier, k, p.sync.epoch)) >= 0
    {
      var row := Row(p.cfg.tier, k, p.sync.epoch);
      assert Hits(s.table, row) >= 0;
      FoldedHits(s.table, p, landed, row);
      FoldAddsToRow(p, landed, row);
    }
  }

  lemma {:induction false} RunTotalsCount(states: seq<State>, moves: seq<Move>, n: nat, i: nat)
    requires IsRun(states, moves) && n < |states|
    ensures TotalsCount(states[n], i)
  {
    if n == 0 {
      assert i < |states[0].procs| ==> Started(states[0].procs[i]);
    } else {
      RunTotalsCount(states, moves, n - 1, i);
      MoveTotalsCount(states, moves, n - 1, i);
    }
  }

  lemma MoveTotalsCount(states: seq<State>, moves: seq<Move>, n: nat, i: nat)
    requires IsRun(states, moves) && n < |moves| && TotalsCount(states[n], i)
    ensures TotalsCount(states[n + 1], i)
  {
    RunInv(states, moves, n);
    var s, move := states[n], moves[n];
    assert Step(s, move, states[n + 1]);
    if move.Act? && move.id == i && move.ev.Fold? {
      FoldTotalsCount(s, i, move.ev.landed);
    }
  }

  /** The move takes a total back for the window `key` is in. */
  ghost predicate TakesTotal(s: State, move: Move, i: nat, key: Key) {
    && move == Act(i, WriteBack) && i < |s.procs| && s.procs[i].sync.InFlight? && key in s.procs[i].buckets
    && key in s.procs[i].sync.totals && key in s.procs[i].sync.reports && key in s.procs[i].sync.serials
    && s.procs[i].sync.serials[key] == SerialOf(s.procs[i], key)
  }

  lemma TakenAtWriteBack(states: seq<State>, moves: seq<Move>, m: nat, i: nat, key: Key)
    requires IsRun(states, moves) && m < |moves| && TakesTotal(states[m], moves[m], i, key)
    ensures var p := states[m].procs[i];
            TookAt(states[m + 1], i, key, SerialOf(p, key), p.sync.reports[key].counted, p.sync.totals[key])
  {
    RunInv(states, moves, m);
    var p := states[m].procs[i];
    assert ProcInv(p) && Step(states[m], moves[m], states[m + 1]);
    assert ReportOk(p, key);
    assert SerialOf(AfterWriteBack(p), key) == SerialOf(p, key);
  }

  /** The admits of a window from the `from`-th on. */
  ghost function Since(admits: map<Request, Instant>, g: Gen, from: nat): set<Request> {
    set r | r in OfWindow(admits, g) && r.index >= from
  }

  lemma SinceSize(admits: map<Request, Instant>, g: Gen, count: nat, from: nat)
    requires Exactly(admits, g, count) && from <= count
    ensures |Since(admits, g, from)| == count - from
  {
    RangeSize(g, from, count);
    forall r
      ensures r in Since(admits, g, from) <==> r in Range(g, from, count)
    {
      assert r == Request(r.gen, r.index);
    }
    assert Since(admits, g, from) == Range(g, from, count);
  }

  /** What sharing is for. In any run, once a round has read total `t` back for
      the window a client is in, and until it reads another or the wall window
      rolls, every check of that client inside its window is refused if and
      only if the window has admitted the budget here, or `t` and the requests
      admitted since the report was counted come to it. */
  lemma SharedTotalRefuses(states: seq<State>, moves: seq<Move>, m: nat, n: nat, i: nat, key: Key, now: Instant, room: Map)
    requires IsRun(states, moves) && m < n < |states| && TakesTotal(states[m], moves[m], i, key)
    requires forall j {:trigger moves[j]} :: m < j < n ==> MoveLeavesTotal(states[j], moves[j], i, key)
    requires i < |states[n].procs| && key in states[n].procs[i].buckets
    requires KeyedGen(states[n].procs[i], key) == KeyedGen(states[m].procs[i], key)
    requires Enabled(states[n].procs[i], Check(key, now, room))
    requires var p := states[n].procs[i];
             p.buckets[key].windowStart <= now < p.buckets[key].windowStart + p.cfg.window
    ensures var p := states[n].procs[i];
            var g := KeyedGen(p, key);
            var sync := states[m].procs[i].sync;
            && p.cfg.window > 0
            && (AfterCheck(p, key, now, room).1.Refuse? <==>
                  || |OfWindow(p.admits, g)| >= p.cfg.max
                  || sync.totals[key] + |Since(p.admits, g, sync.reports[key].counted)| >= p.cfg.max)
  {
    var before, p := states[m].procs[i], states[n].procs[i];
    var counted, t := before.sync.reports[key].counted, before.sync.totals[key];
    TakenAtWriteBack(states, moves, m, i, key);
    StaysTaken(states, moves, m + 1, n, i, key, SerialOf(before, key), counted, t);
    RunTotalsCount(states, moves, m, i);
    RefusedIff(states, moves, n, i, key, now, room);
    CountIsAdmits(states, moves, n, i, key);
    CountedSince(states, moves, n, i, key, counted);
  }

  lemma CountedSince(states: seq<State>, moves: seq<Move>, n: nat, i: nat, key: Key, counted: nat)
    requires IsRun(states, moves) && n < |states| && i < |states[n].procs| && key in states[n].procs[i].buckets
    requires states[n].procs[i].buckets[key].pushed == counted
    ensures var p := states[n].procs[i];
            && |Since(p.admits, KeyedGen(p, key), counted)| == p.buckets[key].count - counted
            && p.cfg.max <= U32_MAX
  {
    RunInv(states, moves, n);
    var p := states[n].procs[i];
    assert ProcInv(p);
    assert Exactly(p.admits, KeyedGen(p, key), p.buckets[key].count);
    SinceSize(p.admits, KeyedGen(p, key), p.buckets[key].count, counted);
  }

  // ------------------------------------------------------------------
  // A round reaches everybody
  // ------------------------------------------------------------------

  /** The clients in a running window that has admitted something. */
  ghost function Active(m: Map, now: Instant, window: nat): set<Key> {
    set k | k in m && m[k].count > 0 && now < m[k].windowStart + window
  }

  /** A round takes active clients only, and all of them if they are few enough. */
  lemma RoundPicksActive(p: Proc, now: Instant, epoch: int, picked: set<Key>)
    requires p.cfg.window > 0 && Enabled(p, Snapshot(now, epoch, picked))
    ensures picked <= Active(p.buckets, now, p.cfg.window)
    ensures picked == Active(p.buckets, now, p.cfg.window) <==> |Active(p.buckets, now, p.cfg.window)| <= RATE_SYNC_MAX_KEYS
  {
    assert Reportables(p.buckets, now, p.cfg.window) == Active(p.buckets, now, p.cfg.window);
    SubsetSize(picked, Active(p.buckets, now, p.cfg.window));
  }

  ghost predicate ChecksOnly(move: Move, i: nat) {
    move.Act? && move.id == i ==> move.ev.Check?
  }

  ghost predicate SyncIs(s: State, i: nat, sync: Sync) {
    i < |s.procs| && s.procs[i].sync == sync
  }

  lemma MoveKeepsSync(states: seq<State>, moves: seq<Move>, n: nat, i: nat, sync: Sync)
    requires IsRun(states, moves) && n < |moves| && ChecksOnly(moves[n], i) && SyncIs(states[n], i, sync)
    ensures SyncIs(states[n + 1], i, sync)
  {
    assert Step(states[n], moves[n], states[n + 1]);
  }

  lemma {:induction false} SyncLasts(states: seq<State>, moves: seq<Move>, m: nat, n: nat, i: nat, sync: Sync)
    requires IsRun(states, moves) && m <= n < |states| && SyncIs(states[m], i, sync)
    requires forall j {:trigger moves[j]} :: m <= j < n ==> ChecksOnly(moves[j], i)
    ensures SyncIs(states[n], i, sync)
  {
    if m < n {
      SyncLasts(states, moves, m, n - 1, i, sync);
      MoveKeepsSync(states, moves, n - 1, i, sync);
    }
  }

  /** One whole round of process `i`: snapshot, fold, write-back, with only
      checks of its own between them. */
  ghost predicate IsRound(states: seq<State>, moves: seq<Move>, a: nat, b: nat, c: nat, i: nat)
    requires |states| == |moves| + 1
  {
    && a < b < c < |moves| && i < |states[a].procs| && i < |states[b].procs|
    && moves[a].Act? && moves[a].id == i && moves[a].ev.Snapshot?
    && moves[b].Act? && moves[b].id == i && moves[b].ev.Fold? && moves[c] == Act(i, WriteBack)
    && (forall j {:trigger moves[j]} :: a < j < c && j != b ==> ChecksOnly(moves[j], i))
  }

  /** It reports what it picked, and nothing is lost on the way. */
  ghost predicate LandsWhole(s: State, move: Move, i: nat) {
    i < |s.procs| && s.procs[i].sync.InFlight? && move.Act? && move.ev.Fold? && move.ev.landed == s.procs[i].sync.reports.Keys
  }

  lemma AtSnapshot(states: seq<State>, moves: seq<Move>, a: nat, b: nat, c: nat, i: nat)
    requires IsRun(states, moves) && IsRound(states, moves, a, b, c, i)
    ensures var p, ev := states[a].procs[i], moves[a].ev;
            && Enabled(p, ev) && p.cfg.window > 0
            && SyncIs(states[b], i, AfterSnapshot(p, ev.now, ev.epoch, ev.picked).sync)
  {
    assert Step(states[a], moves[a], states[a + 1]);
    var p, ev := states[a].procs[i], moves[a].ev;
    SyncLasts(states, moves, a + 1, b, i, AfterSnapshot(p, ev.now, ev.epoch, ev.picked).sync);
  }

  lemma AtFold(states: seq<State>, moves: seq<Move>, a: nat, b: nat, c: nat, i: nat)
    requires IsRun(states, moves) && IsRound(states, moves, a, b, c, i) && LandsWhole(states[b], moves[b], i)
    ensures var p := states[b].procs[i];
            && SyncIs(states[c], i, AfterFold(p, p.sync.reports.Keys, states[b].table).sync)
            && states[b + 1].table == FoldedTable(states[b].table, p, p.sync.reports.Keys)
  {
    assert Step(states[b], moves[b], states[b + 1]);
    var p := states[b].procs[i];
    SyncLasts(states, moves, b + 1, c, i, AfterFold(p, p.sync.reports.Keys, states[b].table).sync);
  }

  lemma AtWriteBack(states: seq<State>, moves: seq<Move>, c: nat, i: nat, k: Key)
    requires IsRun(states, moves) && c < |moves| && TakesTotal(states[c], moves[c], i, k)
    ensures var p := states[c].procs[i];
            && i < |states[c + 1].procs| && k in states[c + 1].procs[i].buckets
            && states[c + 1].procs[i].buckets[k].epoch == Some(p.sync.epoch)
            && states[c + 1].procs[i].buckets[k].remote == Clamp(p.sync.totals[k])
  {
    RunInv(states, moves, c);
    var p := states[c].procs[i];
    assert ProcInv(p) && Step(states[c], moves[c], states[c + 1]);
    assert ReportOk(p, k);
  }

  /** A round that lands refreshes everybody: if the active clients are few
      enough when it is taken, each of them that is still in its window at the
      write-back then carries the round's wall window and what its row held
      after the fold, whether it had anything new to report or not. */
  lemma RoundRefreshes(states: seq<State>, moves: seq<Move>, a: nat, b: nat, c: nat, i: nat, k: Key)
    requires IsRun(states, moves) && IsRound(states, moves, a, b, c, i) && LandsWhole(states[b], moves[b], i)
    requires var p := states[a].procs[i];
             && |Active(p.buckets, moves[a].ev.now, p.cfg.window)| <= RATE_SYNC_MAX_KEYS
             && k in Active(p.buckets, moves[a].ev.now, p.cfg.window)
    requires i < |states[c].procs| && k in states[c].procs[i].buckets
    requires KeyedGen(states[c].procs[i], k) == KeyedGen(states[a].procs[i], k)
    ensures i < |states[c + 1].procs| && k in states[c + 1].procs[i].buckets
    ensures var b' := states[c + 1].procs[i].buckets[k];
            var hits := Hits(states[b + 1].table, Row(states[a].procs[i].cfg.tier, k, moves[a].ev.epoch));
            && b'.epoch == Some(moves[a].ev.epoch)
            && hits >= 0 && b'.remote == if hits < U32_MAX then hits else U32_MAX
  {
    var p, ev := states[a].procs[i], moves[a].ev;
    AtSnapshot(states, moves, a, b, c, i);
    RoundPicksActive(p, ev.now, ev.epoch, ev.picked);
    AtFold(states, moves, a, b, c, i);
    SameFleet(states, moves, a);
    SameFleet(states, moves, b);
    RunTotalsCount(states, moves, c, i);
    AtWriteBack(states, moves, c, i, k);
  }
}
