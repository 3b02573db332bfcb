/** What the shared window guarantees over whole runs: no request is billed
    twice, no hit is invented, a stale write-back is harmless, and a bucket's
    spend does not fall inside one wall window. */
module Billing {
  import opened Buckets
  import opened Eviction
  import opened Limiter
  import opened Protocol
  import opened Fleet

  // ------------------------------------------------------------------
  // At most once
  // ------------------------------------------------------------------

  ghost predicate BilledTo(s: State, i: nat, r: Request, row: Row) {
    i < |s.procs| && r in s.procs[i].ledger && s.procs[i].ledger[r] == row
  }

  /** The move folds request `r` of process `i` into some row. */
  ghost predicate Refolds(s: State, move: Move, i: nat, r: Request) {
    move.Act? && move.id == i && move.ev.Fold? && i < |s.procs| && InFold(s.procs[i], move.ev.landed, r)
  }

  lemma StepKeepsBilled(p: Proc, ev: Event, table: Table, r: Request)
    requires Flying(p) && p.cfg.window > 0 && Enabled(p, ev) && r in p.ledger
    ensures ev.Fold? ==> !InFold(p, ev.landed, r)
    ensures var q := After(p, ev, table); r in q.ledger && q.ledger[r] == p.ledger[r]
  {
    if ev.Fold? {
      if InFold(p, ev.landed, r) {
        FoldBillsAfresh(p, ev.landed, r);
      }
    } else {
      OnlyFoldsBill(p, ev, table);
    }
  }

  lemma NextKeepsBilled(s: State, move: Move, i: nat, r: Request, row: Row)
    requires Inv(s) && Allowed(s, move) && BilledTo(s, i, r, row)
    ensures !Refolds(s, move, i, r)
    ensures BilledTo(Next(s, move), i, r, row)
  {
    assert ProcInv(s.procs[i]);
    if move.Act? && move.id == i {
      StepKeepsBilled(s.procs[i], move.ev, s.table, r);
    }
  }

  lemma MoveKeepsBilled(states: seq<State>, moves: seq<Move>, n: nat, i: nat, r: Request, row: Row)
    requires IsRun(states, moves) && n < |moves| && BilledTo(states[n], i, r, row)
    ensures BilledTo(states[n + 1], i, r, row) && !Refolds(states[n], moves[n], i, r)
  {
    RunInv(states, moves, n);
    NextKeepsBilled(states[n], moves[n], i, r, row);
  }

  lemma {:induction false} StaysBilled(states: seq<State>, moves: seq<Move>, m: nat, n: nat, i: nat, r: Request, row: Row)
    requires IsRun(states, moves) && m <= n < |states| && BilledTo(states[m], i, r, row)
    ensures BilledTo(states[n], i, r, row)
  {
    if m < n {
      StaysBilled(states, moves, m, n - 1, i, r, row);
      MoveKeepsBilled(states, moves, n - 1, i, r, row);
    }
  }

  /** A request billed to a row stays billed to that row and no other, in every
      run: no later fold, by any round, covers it again. */
  lemma BilledAtMostOnce(states: seq<State>, moves: seq<Move>, m: nat, n: nat, i: nat, r: Request, row: Row)
    requires IsRun(states, moves) && m <= n < |states| && BilledTo(states[m], i, r, row)
    ensures BilledTo(states[n], i, r, row)
    ensures n < |moves| ==> !Refolds(states[n], moves[n], i, r)
  {
    StaysBilled(states, moves, m, n, i, r, row);
    if n < |moves| {
      MoveKeepsBilled(states, moves, n, i, r, row);
    }
  }

  ghost function PickRow(rows: set<Row>): Row
    requires rows != {}
    ensures PickRow(rows) in rows
  {
    var row :| row in rows; row
  }

  ghost function TotalHits(table: Table, rows: set<Row>): int {
    if rows == {} then 0
    else Hits(table, PickRow(rows)) + TotalHits(table, rows - {PickRow(rows)})
  }

  ghost function SumLedgers(procs: seq<Proc>): nat {
    if procs == [] then 0 else SumLedgers(procs[..|procs|-1]) + |procs[|procs|-1].ledger|
  }

  ghost function SumAdmits(procs: seq<Proc>): nat {
    if procs == [] then 0 else SumAdmits(procs[..|procs|-1]) + |procs[|procs|-1].admits|
  }

  ghost function BilledWithin(ledger: map<Request, Row>, rows: set<Row>): set<Request> {
    set r | r in ledger && ledger[r] in rows
  }

  ghost function SumWithin(procs: seq<Proc>, rows: set<Row>): nat {
    if procs == [] then 0
    else SumWithin(procs[..|procs|-1], rows) + |BilledWithin(procs[|procs|-1].ledger, rows)|
  }

  lemma {:induction false} WithinSplits(procs: seq<Proc>, rows: set<Row>, row: Row)
    requires row in rows
    ensures SumWithin(procs, rows) == SumBilled(procs, row) + SumWithin(procs, rows - {row})
  {
    if procs != [] {
      WithinSplits(procs[..|procs|-1], rows, row);
      var l := procs[|procs|-1].ledger;
      assert BilledWithin(l, rows) == BilledOn(l, row) + BilledWithin(l, rows - {row});
    }
  }

  lemma {:induction false} WithinNothing(procs: seq<Proc>)
    ensures SumWithin(procs, {}) == 0
  {
    if procs != [] {
      WithinNothing(procs[..|procs|-1]);
      assert BilledWithin(procs[|procs|-1].ledger, {}) == {};
    }
  }

  lemma {:induction false} HitsAreBilled(s: State, rows: set<Row>)
    requires Conserved(s)
    ensures TotalHits(s.folded, rows) == SumWithin(s.procs, rows)
    ensures TotalHits(s.table, rows) <= TotalHits(s.folded, rows)
  {
    if rows == {} {
      WithinNothing(s.procs);
    } else {
      var row := PickRow(rows);
      HitsAreBilled(s, rows - {row});
      WithinSplits(s.procs, rows, row);
      assert Hits(s.folded, row) == SumBilled(s.procs, row);
    }
  }

  lemma {:induction false} WithinAll(procs: seq<Proc>, rows: set<Row>)
    requires forall i :: 0 <= i < |procs| ==> procs[i].ledger.Values <= rows
    ensures SumWithin(procs, rows) == SumLedgers(procs)
  {
    if procs != [] {
      WithinAll(procs[..|procs|-1], rows);
      var p := procs[|procs|-1];
      assert p.ledger.Values <= rows;
      assert BilledWithin(p.ledger, rows) == p.ledger.Keys;
    }
  }

  lemma {:induction false} LedgersWithinAdmits(procs: seq<Proc>)
    requires forall i :: 0 <= i < |procs| ==> ProcInv(procs[i])
    ensures SumLedgers(procs) <= SumAdmits(procs)
  {
    if procs != [] {
      LedgersWithinAdmits(procs[..|procs|-1]);
      var p := procs[|procs|-1];
      assert ProcInv(p);
      SubsetSize(p.ledger.Keys, p.admits.Keys);
    }
  }

  lemma {:induction false} BilledIsCounted(procs: seq<Proc>, i: nat, row: Row)
    requires i < |procs|
    ensures |BilledOn(procs[i].ledger, row)| <= SumBilled(procs, row)
  {
    if i < |procs| - 1 {
      BilledIsCounted(procs[..|procs|-1], i, row);
    }
  }

  /** Every row a request was billed to is a row hits were folded into. */
  lemma LedgerRowsFolded(s: State)
    requires Conserved(s)
    ensures forall i :: 0 <= i < |s.procs| ==> s.procs[i].ledger.Values <= s.folded.Keys
  {
    forall i, row | 0 <= i < |s.procs| && row in s.procs[i].ledger.Values
      ensures row in s.folded.Keys
    {
      var r :| r in s.procs[i].ledger && s.procs[i].ledger[r] == row;
      assert r in BilledOn(s.procs[i].ledger, row);
      BilledIsCounted(s.procs, i, row);
      assert Hits(s.folded, row) == SumBilled(s.procs, row);
    }
  }

  /** Conservation: at every point of every run, all the hits ever folded are
      exactly the requests ever billed, and never more than those admitted;
      what the shared table still holds is at most that. */
  lemma HitsConserved(states: seq<State>, moves: seq<Move>, n: nat)
    requires IsRun(states, moves) && n < |states|
    ensures var s := states[n];
            && TotalHits(s.table, s.folded.Keys) <= TotalHits(s.folded, s.folded.Keys)
            && TotalHits(s.folded, s.folded.Keys) == SumLedgers(s.procs) <= SumAdmits(s.procs)
  {
    var s := states[n];
    RunInv(states, moves, n);
    HitsAreBilled(s, s.folded.Keys);
    LedgerRowsFolded(s);
    WithinAll(s.procs, s.folded.Keys);
    LedgersWithinAdmits(s.procs);
  }

  // ------------------------------------------------------------------
  // And not always once
  // ------------------------------------------------------------------

  /** No round will ever bill request `i` of window `g`: it is not billed, and
      neither the bucket nor a report in flight leaves it to be reported. */
  ghost predicate WrittenOff(p: Proc, g: Gen, i: nat) {
    && g.client.Keyed? && g.serial < p.next && Request(g, i) !in p.ledger
    && (g.client.key in p.buckets && KeyedGen(p, g.client.key) == g ==> i < p.buckets[g.client.key].pushed)
    && (p.sync.InFlight? && g.client.key in p.sync.reports && g.client.key in p.sync.serials &&
        p.sync.serials[g.client.key] == g.serial ==>
          !Covers(p.sync.reports[g.client.key], i) && i < p.sync.reports[g.client.key].counted)
  }

  lemma CheckKeepsWrittenOff(p: Proc, key: Key, now: Instant, room: Map, g: Gen, i: nat)
    requires Shaped(p) && Within(p, room) && WrittenOff(p, g, i)
    ensures WrittenOff(AfterCheck(p, key, now, room).0, g, i)
  {
    if !Saturated(room, key) && g.client.key in AfterKeyed(p, key, now, room).0.buckets {
      if g.client.key == key {
        var q := AfterKeyed(p, key, now, room).0;
        assert SerialOf(q, key) == if FreshWindow(p, key, now, room) then p.next else SerialOf(p, key);
      } else {
        KeyedElsewhere(p, key, now, room, g.client.key);
      }
    }
  }

  lemma SnapshotKeepsWrittenOff(p: Proc, now: Instant, epoch: int, picked: set<Key>, g: Gen, i: nat)
    requires Shaped(p) && p.sync == Idle && WrittenOff(p, g, i)
    ensures WrittenOff(AfterSnapshot(p, now, epoch, picked), g, i)
  {
    if g.client.key in p.buckets {
      RolledKeepsBucketOk(p.buckets[g.client.key], epoch, p.cfg.max);
      assert KeyedGen(AfterSnapshot(p, now, epoch, picked), g.client.key) == KeyedGen(p, g.client.key);
    }
  }

  lemma FoldKeepsWrittenOff(p: Proc, landed: set<Key>, table: Table, g: Gen, i: nat)
    requires p.sync.InFlight? && WrittenOff(p, g, i)
    ensures WrittenOff(AfterFold(p, landed, table), g, i)
  {
    assert !InFold(p, landed, Request(g, i));
    assert KeyedGen(AfterFold(p, landed, table), g.client.key) == KeyedGen(p, g.client.key);
  }

  lemma WriteBackKeepsWrittenOff(p: Proc, g: Gen, i: nat)
    requires ProcInv(p) && p.sync.InFlight? && WrittenOff(p, g, i)
    ensures WrittenOff(AfterWriteBack(p), g, i)
  {
    var k := g.client.key;
    assert KeyedGen(AfterWriteBack(p), k) == KeyedGen(p, k);
    if k in p.buckets {
      WriteBackKeepsBucket(p, k);
    }
  }

  lemma StepKeepsWrittenOff(p: Proc, ev: Event, table: Table, g: Gen, i: nat)
    requires ProcInv(p) && Enabled(p, ev) && WrittenOff(p, g, i)
    ensures WrittenOff(After(p, ev, table), g, i)
  {
    match ev
    case Check(key, now, room) =>
      RoomMadeIsOk(p, key, now, room);
      CheckKeepsWrittenOff(p, key, now, room, g, i);
    case Snapshot(now, epoch, picked) => SnapshotKeepsWrittenOff(p, now, epoch, picked, g, i);
    case Fold(landed) => FoldKeepsWrittenOff(p, landed, table, g, i);
    case WriteBack => WriteBackKeepsWrittenOff(p, g, i);
  }

  lemma MoveKeepsWrittenOff(states: seq<State>, moves: seq<Move>, n: nat, id: nat, g: Gen, i: nat)
    requires IsRun(states, moves) && n < |moves| && id < |states[n].procs| && WrittenOff(states[n].procs[id], g, i)
    ensures id < |states[n + 1].procs| && WrittenOff(states[n + 1].procs[id], g, i)
  {
    RunInv(states, moves, n);
    assert ProcInv(states[n].procs[id]);
    if moves[n].Act? && moves[n].id == id {
      StepKeepsWrittenOff(states[n].procs[id], moves[n].ev, states[n].table, g, i);
    }
  }

  lemma {:induction false} StaysWrittenOff(states: seq<State>, moves: seq<Move>, m: nat, n: nat, id: nat, g: Gen, i: nat)
    requires IsRun(states, moves) && m <= n < |states|
    requires id < |states[m].procs| && WrittenOff(states[m].procs[id], g, i)
    ensures id < |states[n].procs| && WrittenOff(states[n].procs[id], g, i)
  {
    if m < n {
      StaysWrittenOff(states, moves, m, n - 1, id, g, i);
      MoveKeepsWrittenOff(states, moves, n - 1, id, g, i);
    }
  }

  /** The snapshot turns the bucket of `k` from one wall window to another. */
  ghost predicate Rolls(p: Proc, ev: Event, k: Key) {
    && ev.Snapshot? && k in ev.picked && k in p.buckets
    && p.buckets[k].epoch.Some? && p.buckets[k].epoch != Some(ev.epoch)
  }

  lemma RollWritesOff(p: Proc, ev: Event, table: Table, k: Key, i: nat)
    requires ProcInv(p) && Enabled(p, ev) && Rolls(p, ev, k)
    requires i < p.buckets[k].count && Request(KeyedGen(p, k), i) !in p.ledger
    ensures WrittenOff(After(p, ev, table), KeyedGen(p, k), i)
  {
    assert KeyedGen(After(p, ev, table), k) == KeyedGen(p, k);
  }

  /** Billing is at most once, not exactly once. When the wall window rolls
      under a live local window, a request that window has admitted is billed
      at any later time exactly if it is billed already: those the last round
      had not reported land on no row, the old one included. So nothing is
      lost exactly when nothing was unreported. */
  lemma RollLosesTheUnreported(states: seq<State>, moves: seq<Move>, m: nat, n: nat, id: nat, k: Key, i: nat)
    requires IsRun(states, moves) && m < |moves| && m < n < |states|
    requires moves[m].Act? && moves[m].id == id && id < |states[m].procs| && Rolls(states[m].procs[id], moves[m].ev, k)
    requires i < states[m].procs[id].buckets[k].count
    ensures id < |states[n].procs|
    ensures var r := Request(KeyedGen(states[m].procs[id], k), i);
            r in states[n].procs[id].ledger <==> r in states[m].procs[id].ledger
  {
    var p := states[m].procs[id];
    var r := Request(KeyedGen(p, k), i);
    RunInv(states, moves, m);
    assert ProcInv(p);
    if r in p.ledger {
      StaysBilled(states, moves, m, n, id, r, p.ledger[r]);
    } else {
      RollWritesOff(p, moves[m].ev, states[m].table, k, i);
      assert states[m + 1].procs[id] == After(p, moves[m].ev, states[m].table);
      StaysWrittenOff(states, moves, m + 1, n, id, r.gen, i);
    }
  }

  // ------------------------------------------------------------------
  // Generations
  // ------------------------------------------------------------------

  /** The requests of one local window, among those billed or admitted. */
  ghost function OfWindow<T>(record: map<Request, T>, g: Gen): set<Request> {
    set r | r in record && r.gen == g
  }

  /** Of any local window a process ever opened for a client, reset and evicted
      ones included, no more requests are billed than were admitted, and no
      more admitted than the budget. */
  lemma WindowBilledWithinAdmitted(states: seq<State>, moves: seq<Move>, n: nat, i: nat, g: Gen)
    requires IsRun(states, moves) && n < |states| && i < |states[n].procs| && g.client.Keyed?
    ensures var p := states[n].procs[i];
            |OfWindow(p.ledger, g)| <= |OfWindow(p.admits, g)| <= p.cfg.max
  {
    RunInv(states, moves, n);
    var p := states[n].procs[i];
    assert ProcInv(p);
    SubsetSize(OfWindow(p.ledger, g), OfWindow(p.admits, g));
    AtMostTo(OfWindow(p.admits, g), g, p.cfg.max);
  }

  /** And of the window a client is in, exactly `count` were admitted. */
  lemma CountIsAdmits(states: seq<State>, moves: seq<Move>, n: nat, i: nat, k: Key)
    requires IsRun(states, moves) && n < |states| && i < |states[n].procs| && k in states[n].procs[i].buckets
    ensures var p := states[n].procs[i];
            |OfWindow(p.admits, KeyedGen(p, k))| == p.buckets[k].count
  {
    RunInv(states, moves, n);
    var p := states[n].procs[i];
    assert ProcInv(p);
    var g, count := KeyedGen(p, k), p.buckets[k].count;
    RangeSize(g, 0, count);
    assert Exactly(p.admits, g, count);
    forall r
      ensures r in OfWindow(p.admits, g) <==> r in Range(g, 0, count)
    {
      assert r == Request(r.gen, r.index);
    }
    assert OfWindow(p.admits, g) == Range(g, 0, count);
  }

  /** No 32-bit counter wraps in any reachable state: the report is the true
      difference, and a charge that admits leaves a count of at most `max`. */
  lemma CountersNeverWrap(states: seq<State>, moves: seq<Move>, n: nat, i: nat, k: Key, now: Instant)
    requires IsRun(states, moves) && n < |states| && i < |states[n].procs| && k in states[n].procs[i].buckets
    ensures var p := states[n].procs[i];
            var b := p.buckets[k];
            && p.cfg.window > 0
            && b.pushed <= b.count <= p.cfg.max <= U32_MAX
            && var (c, a) := Charge(b, now, p.cfg.max, p.cfg.window);
            && WrapSub(b.count, b.pushed) == b.count - b.pushed
            && (a.Admit? ==> c.count == Current(b, now, p.cfg.window).count + 1 <= p.cfg.max)
  {
    RunInv(states, moves, n);
    var p := states[n].procs[i];
    assert ProcInv(p);
    ChargeKeepsBucketOk(p.buckets[k], now, p.cfg.max, p.cfg.window);
  }

  /** A write-back changes a bucket exactly when the bucket is still the window
      that was reported and its row came back. */
  lemma StaleWriteBackIsHarmless(states: seq<State>, moves: seq<Move>, n: nat, i: nat, k: Key)
    requires IsRun(states, moves) && n < |states| && i < |states[n].procs|
    requires states[n].procs[i].sync.InFlight? && k in states[n].procs[i].buckets
    ensures var p := states[n].procs[i];
            var q := AfterWriteBack(p);
            q.buckets[k] ==
              if k in p.sync.totals && k in p.sync.serials && k in p.sync.reports && p.sync.serials[k] == SerialOf(p, k)
              then Written(p.buckets[k], p.sync.reports[k], p.sync.totals[k])
              else p.buckets[k]
  {
    RunInv(states, moves, n);
    var p := states[n].procs[i];
    assert ProcInv(p);
    if k in p.sync.reports {
      assert ReportOk(p, k);
    }
  }

  // ------------------------------------------------------------------
  // Spend does not fall
  // ------------------------------------------------------------------

  /** The bucket's wall window did not roll, and its row was not cleaned up. */
  ghost predicate SameEpoch(before: Bucket, after: Bucket, horizon: int) {
    before.epoch == None || (before.epoch == after.epoch && before.epoch.value >= horizon)
  }

  ghost predicate SpendHeld(before: Bucket, after: Bucket, horizon: int) {
    && before.windowStart == after.windowStart
    && before.count <= after.count <= Spent(after)
    && (SameEpoch(before, after, horizon) ==> Spent(before) <= Spent(after))
  }

  lemma WriteBackHoldsSpend(p: Proc, table: Table, horizon: int, k: Key)
    requires ProcInv(p) && Stored(p, table, horizon) && p.sync.InFlight? && k in p.buckets
    ensures SpendHeld(p.buckets[k], AfterWriteBack(p).buckets[k], horizon)
  {
    if k in p.sync.reports && k in p.sync.totals {
      assert ReportOk(p, k);
      if p.sync.epoch >= horizon {
        assert TotalStored(p, k, table);
      }
    }
  }

  lemma KeyedHoldsSpend(p: Proc, key: Key, now: Instant, room: Map, horizon: int, k: Key)
    requires Shaped(p) && RoomOk(p, key, now, room) && !Saturated(room, key) && k in p.buckets
    ensures var q := AfterKeyed(p, key, now, room).0;
            k in q.buckets && SerialOf(q, k) == SerialOf(p, k) ==> SpendHeld(p.buckets[k], q.buckets[k], horizon)
  {
    var q := AfterKeyed(p, key, now, room).0;
    if k == key {
      assert q.buckets[k] == Charge(p.buckets[k], now, p.cfg.max, p.cfg.window).0;
      ChargeKeepsBucketOk(p.buckets[k], now, p.cfg.max, p.cfg.window);
      assert FreshWindow(p, key, now, room) ==> SerialOf(q, k) == p.next;
    } else if k in q.buckets {
      assert q.buckets[k] == p.buckets[k];
    }
  }

  /** One step: while its local window lasts, a bucket's count never falls, its
      spend is never below its count, and inside one wall window its spend
      never falls either. */
  lemma SpendNeverFalls(p: Proc, ev: Event, table: Table, horizon: int, k: Key)
    requires ProcInv(p) && Stored(p, table, horizon) && Enabled(p, ev) && k in p.buckets
    ensures var q := After(p, ev, table);
            k in q.buckets && SerialOf(q, k) == SerialOf(p, k) ==> SpendHeld(p.buckets[k], q.buckets[k], horizon)
  {
    match ev
    case Check(key, now, room) =>
      RoomMadeIsOk(p, key, now, room);
      if !Saturated(room, key) {
        KeyedHoldsSpend(p, key, now, room, horizon, k);
      }
    case Snapshot(now, epoch, picked) =>
    case Fold(landed) =>
    case WriteBack => WriteBackHoldsSpend(p, table, horizon, k);
  }

  /** Bucket `k` of process `i` is in local window `serial`, synced to a wall
      window whose row has not been cleaned up. */
  ghost predicate InBothWindows(s: State, i: nat, k: Key, serial: nat, epoch: int) {
    && i < |s.procs| && k in s.procs[i].buckets && SerialOf(s.procs[i], k) == serial
    && s.procs[i].buckets[k].epoch == Some(epoch) && s.horizon <= epoch
  }

  ghost function SpentAt(s: State, i: nat, k: Key): int {
    if i < |s.procs| && k in s.procs[i].buckets then Spent(s.procs[i].buckets[k]) else 0
  }

  lemma MoveHoldsSpent(states: seq<State>, moves: seq<Move>, n: nat, i: nat, k: Key, serial: nat, epoch: int)
    requires IsRun(states, moves) && n < |moves|
    requires InBothWindows(states[n], i, k, serial, epoch) && InBothWindows(states[n + 1], i, k, serial, epoch)
    ensures SpentAt(states[n], i, k) <= SpentAt(states[n + 1], i, k)
  {
    RunInv(states, moves, n);
    var s := states[n];
    assert ProcInv(s.procs[i]) && Stored(s.procs[i], s.table, s.horizon);
    if moves[n].Act? && moves[n].id == i {
      SpendNeverFalls(s.procs[i], moves[n].ev, s.table, s.horizon, k);
    }
  }

  lemma {:induction false} StepsAddUp(states: seq<State>, m: nat, n: nat, i: nat, k: Key)
    requires m <= n < |states|
    requires forall j :: m <= j < n ==> SpentAt(states[j], i, k) <= SpentAt(states[j + 1], i, k)
    ensures SpentAt(states[m], i, k) <= SpentAt(states[n], i, k)
  {
    if m < n {
      StepsAddUp(states, m, n - 1, i, k);
    }
  }

  /** In any run, for as long as a bucket stays in its local window and in one
      wall window, its spend never falls, whatever the other processes fold. */
  lemma SpendRises(states: seq<State>, moves: seq<Move>, m: nat, n: nat, i: nat, k: Key, serial: nat, epoch: int)
    requires IsRun(states, moves) && m <= n < |states|
    requires forall j :: m <= j <= n ==> InBothWindows(states[j], i, k, serial, epoch)
    ensures SpentAt(states[m], i, k) <= SpentAt(states[n], i, k)
  {
    forall j | m <= j < n
      ensures SpentAt(states[j], i, k) <= SpentAt(states[j + 1], i, k)
    {
      assert InBothWindows(states[j], i, k, serial, epoch);
      assert InBothWindows(states[j + 1], i, k, serial, epoch);
      MoveHoldsSpent(states, moves, j, i, k, serial, epoch);
    }
    StepsAddUp(states, m, n, i, k);
  }
}
