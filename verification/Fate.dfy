/** What becomes of an admitted request: billed, still to be billed, or lost for
    good. Which of the last two is decided by the state of its process alone. */
module Fate {
  import opened Buckets
  import opened Eviction
  import opened RowKeys
  import opened Limiter
  import opened Protocol
  import opened Fleet
  import opened Billing
  import opened Windows

  /** The request is covered by a report in flight that has not been folded. */
  ghost predicate Reported(p: Proc, r: Request) {
    p.sync.InFlight? && !p.sync.folded && InFold(p, p.sync.reports.Keys, r)
  }

  /** The request is at or past what its client's bucket accounts for, in the
      window the client is in; that window is running, and the wall window it
      was last reported to has not passed. */
  ghost predicate Unreported(p: Proc, r: Request) {
    && r.gen.client.Keyed?
    && var k := r.gen.client.key;
       && k in p.buckets && KeyedGen(p, k) == r.gen && Accounted(p, k) <= r.index
       && Live(p.buckets[k], p.clock, p.cfg.window) && !LeftBehind(p, k)
  }

  ghost predicate LeftBehind(p: Proc, k: Key)
    requires k in p.buckets
  {
    p.buckets[k].epoch.Some? && p.buckets[k].epoch.value + p.cfg.window <= p.clock
  }

  ghost predicate Billable(p: Proc, r: Request) {
    Reported(p, r) || Unreported(p, r)
  }

  /** Admitted, not billed, and neither reported nor left to report. */
  ghost predicate Lost(p: Proc, r: Request) {
    r in p.admits && r !in p.ledger && !Billable(p, r)
  }

  /** The wall windows of the buckets have begun. */
  ghost predicate EpochsBegun(p: Proc) {
    p.cfg.window > 0 &&
    forall k :: k in p.buckets && p.buckets[k].epoch.Some? ==>
      p.buckets[k].epoch.value <= p.clock && p.buckets[k].epoch.value % p.cfg.window == 0
  }

  // ------------------------------------------------------------------
  // What is lost stays lost
  // ------------------------------------------------------------------

  lemma KeyedKeepsLost(p: Proc, key: Key, now: Instant, room: Map, r: Request)
    requires ProcInv(p) && Within(p, room) && Lost(p, r) && !Saturated(room, key) && r.gen.client.Keyed?
    ensures !Unreported(AfterKeyed(p, key, now, room).0, r)
  {
    var q, k := AfterKeyed(p, key, now, room).0, r.gen.client.key;
    assert r.gen.serial < p.next && p.clock <= q.clock;
    if k in q.buckets {
      KeyedAccounts(p, key, now, room, k);
      KeyedBucket(p, key, now, room, k);
    }
  }

  /** A window that goes on keeps its start and the row it was reported to. */
  lemma KeyedBucket(p: Proc, key: Key, now: Instant, room: Map, k: Key)
    requires Shaped(p) && Within(p, room) && !Saturated(room, key)
    ensures var q := AfterKeyed(p, key, now, room).0;
            k in q.buckets && k in p.buckets && SerialOf(q, k) == SerialOf(p, k) ==>
              q.buckets[k].windowStart == p.buckets[k].windowStart && q.buckets[k].epoch == p.buckets[k].epoch
  {
    KeyedInherits(p, key, now, room);
    KeyedWindow(p, key, now, room, k);
  }

  lemma KeylessKeepsLost(p: Proc, now: Instant, room: Map, r: Request)
    requires ProcInv(p) && Within(p, room) && Lost(p, r) && r.gen.client.Keyed?
    ensures !Unreported(AfterKeyless(p, now, room).0, r)
  {
    KeylessLeaves(p, now, room, r.gen.client.key);
  }

  lemma CheckKeepsReports(p: Proc, key: Key, now: Instant, room: Map, r: Request)
    requires p.cfg.window > 0
    ensures var q := AfterCheck(p, key, now, room).0;
            && q.ledger == p.ledger && (r in p.admits ==> r in q.admits)
            && (Reported(q, r) <==> Reported(p, r))
  {
  }

  lemma CheckKeepsLost(p: Proc, key: Key, now: Instant, room: Map, r: Request)
    requires ProcInv(p) && Within(p, room) && Lost(p, r)
    ensures Lost(AfterCheck(p, key, now, room).0, r)
  {
    CheckKeepsReports(p, key, now, room, r);
    if r.gen.client.Keyed? {
      if Saturated(room, key) {
        KeylessKeepsLost(p, now, room, r);
      } else {
        KeyedKeepsLost(p, key, now, room, r);
      }
    }
  }

  lemma KeylessLeaves(p: Proc, now: Instant, room: Map, k: Key)
    requires Shaped(p) && Within(p, room)
    ensures var q := AfterKeyless(p, now, room).0;
            k in q.buckets ==> k in p.buckets && q.buckets[k] == p.buckets[k] && KeyedGen(q, k) == KeyedGen(p, k)
  {
  }

  /** A window that goes on keeps its start. */
  lemma KeyedWindow(p: Proc, key: Key, now: Instant, room: Map, k: Key)
    requires Shaped(p) && Within(p, room) && !Saturated(room, key)
    ensures var q := AfterKeyed(p, key, now, room).0;
            k in q.buckets && k in p.buckets && SerialOf(q, k) == SerialOf(p, k) ==>
              q.buckets[k].windowStart == p.buckets[k].windowStart
  {
    if k == key {
      assert FreshWindow(p, key, now, room) ==> SerialOf(AfterKeyed(p, key, now, room).0, k) == p.next;
    }
  }

  lemma SnapshotKeepsLost(p: Proc, now: Instant, epoch: int, picked: set<Key>, r: Request)
    requires ProcInv(p) && EpochsBegun(p) && p.sync == Idle && Lost(p, r)
    requires p.clock <= now && epoch == CurrentEpoch(now, p.cfg.window)
    requires picked <= Reportables(p.buckets, now, p.cfg.window)
    ensures Lost(AfterSnapshot(p, now, epoch, picked), r)
  {
    var q := AfterSnapshot(p, now, epoch, picked);
    if r.gen.client.Keyed? && r.gen.client.key in p.buckets && KeyedGen(p, r.gen.client.key) == r.gen {
      var k := r.gen.client.key;
      assert KeyedGen(q, k) == KeyedGen(p, k);
      assert Exactly(p.admits, r.gen, p.buckets[k].count);
      assert r == Request(r.gen, r.index) && r.index < p.buckets[k].count;
      EpochIsTheWindowStart(now, p.cfg.window, epoch);
      RolledKeepsBucketOk(p.buckets[k], epoch, p.cfg.max);
      if k in picked && p.buckets[k].pushed <= r.index {
        assert LeftBehind(p, k);
        assert Rolled(p.buckets[k], epoch).pushed == p.buckets[k].count;
      }
    }
  }

  lemma FoldKeepsLost(p: Proc, landed: set<Key>, table: Table, r: Request)
    requires ProcInv(p) && p.sync.InFlight? && !p.sync.folded && landed <= p.sync.reports.Keys && Lost(p, r)
    ensures Lost(AfterFold(p, landed, table), r)
  {
    var q := AfterFold(p, landed, table);
    assert !InFold(p, landed, r);
    if r.gen.client.Keyed? && r.gen.client.key in p.buckets {
      var k := r.gen.client.key;
      assert KeyedGen(q, k) == KeyedGen(p, k);
      if k in landed { assert ReportOk(p, k); }
    }
  }

  lemma WriteBackKeepsLost(p: Proc, r: Request)
    requires ProcInv(p) && p.sync.InFlight? && Lost(p, r)
    ensures Lost(AfterWriteBack(p), r)
  {
    if r.gen.client.Keyed? && r.gen.client.key in p.buckets {
      assert KeyedGen(AfterWriteBack(p), r.gen.client.key) == KeyedGen(p, r.gen.client.key);
      WriteBackKeepsBucket(p, r.gen.client.key);
    }
  }

  lemma StepKeepsLost(p: Proc, ev: Event, table: Table, r: Request)
    requires ProcInv(p) && EpochsBegun(p) && Enabled(p, ev) && Timely(p, ev) && Lost(p, r)
    ensures Lost(After(p, ev, table), r)
  {
    match ev
    case Check(key, now, room) =>
      RoomMadeIsOk(p, key, now, room);
      CheckKeepsLost(p, key, now, room, r);
    case Snapshot(now, epoch, picked) => SnapshotKeepsLost(p, now, epoch, picked, r);
    case Fold(landed) => FoldKeepsLost(p, landed, table, r);
    case WriteBack => WriteBackKeepsLost(p, r);
  }

  lemma CheckKeepsBegun(p: Proc, key: Key, now: Instant, room: Map)
    requires Shaped(p) && EpochsBegun(p) && Within(p, room)
    ensures EpochsBegun(AfterCheck(p, key, now, room).0)
  {
    CheckInherits(p, key, now, room);
  }

  lemma SnapshotKeepsBegun(p: Proc, now: Instant, epoch: int, picked: set<Key>)
    requires EpochsBegun(p) && epoch == CurrentEpoch(now, p.cfg.window)
    ensures EpochsBegun(AfterSnapshot(p, now, epoch, picked))
  {
    EpochIsTheWindowStart(now, p.cfg.window, epoch);
  }

  lemma StepKeepsBegun(p: Proc, ev: Event, table: Table)
    requires Shaped(p) && EpochsBegun(p) && Enabled(p, ev) && Timely(p, ev)
    ensures EpochsBegun(After(p, ev, table))
  {
    match ev
    case Check(key, now, room) =>
      RoomMadeIsOk(p, key, now, room);
      CheckKeepsBegun(p, key, now, room);
    case Snapshot(now, epoch, picked) => SnapshotKeepsBegun(p, now, epoch, picked);
    case Fold(landed) =>
    case WriteBack =>
  }

  ghost predicate BegunAt(s: State, i: nat) {
    i < |s.procs| ==> EpochsBegun(s.procs[i])
  }

  ghost predicate LostAt(s: State, i: nat, r: Request) {
    i < |s.procs| && Lost(s.procs[i], r)
  }

  lemma MoveKeepsBegun(states: seq<State>, moves: seq<Move>, n: nat, i: nat)
    requires IsRun(states, moves) && TimelyRun(states, moves) && n < |moves| && BegunAt(states[n], i)
    ensures BegunAt(states[n + 1], i)
  {
    RunInv(states, moves, n);
    var s := states[n];
    assert i < |s.procs| ==> ProcInv(s.procs[i]);
    assert Step(s, moves[n], states[n + 1]);
    if moves[n].Act? && moves[n].id == i {
      StepKeepsBegun(s.procs[i], moves[n].ev, s.table);
    }
  }

  lemma {:induction false} RunBegun(states: seq<State>, moves: seq<Move>, n: nat, i: nat)
    requires IsRun(states, moves) && TimelyRun(states, moves) && n < |states|
    ensures BegunAt(states[n], i)
  {
    if n == 0 {
      assert i < |states[0].procs| ==> Started(states[0].procs[i]);
    } else {
      RunBegun(states, moves, n - 1, i);
      MoveKeepsBegun(states, moves, n - 1, i);
    }
  }

  lemma MoveKeepsLost(states: seq<State>, moves: seq<Move>, n: nat, i: nat, r: Request)
    requires IsRun(states, moves) && TimelyRun(states, moves) && n < |moves| && LostAt(states[n], i, r)
    ensures LostAt(states[n + 1], i, r)
  {
    RunInv(states, moves, n);
    RunBegun(states, moves, n, i);
    var s := states[n];
    assert ProcInv(s.procs[i]);
    assert Step(s, moves[n], states[n + 1]);
    if moves[n].Act? && moves[n].id == i {
      StepKeepsLost(s.procs[i], moves[n].ev, s.table, r);
    }
  }

  lemma {:induction false} StaysLost(states: seq<State>, moves: seq<Move>, m: nat, n: nat, i: nat, r: Request)
    requires IsRun(states, moves) && TimelyRun(states, moves) && m <= n < |states| && LostAt(states[m], i, r)
    ensures LostAt(states[n], i, r)
  {
    if m < n {
      StaysLost(states, moves, m, n - 1, i, r);
      MoveKeepsLost(states, moves, n - 1, i, r);
    }
  }

  // ------------------------------------------------------------------
  // What is not lost can be billed
  // ------------------------------------------------------------------

  /** A longer run in time order, from the same beginning. */
  ghost predicate Continues(states: seq<State>, moves: seq<Move>, states': seq<State>, moves': seq<Move>) {
    && IsRun(states', moves') && TimelyRun(states', moves')
    && |states| <= |states'| && states'[..|states|] == states && |moves| <= |moves'| && moves'[..|moves|] == moves
  }

  ghost predicate BilledIn(states: seq<State>, i: nat, r: Request) {
    states != [] && i < |states[|states|-1].procs| && r in states[|states|-1].procs[i].ledger
  }

  /** One more step of process `i`. */
  lemma Go(states: seq<State>, moves: seq<Move>, s: State, i: nat, ev: Event)
    returns (states': seq<State>, moves': seq<Move>, t: State)
    requires RunsTo(states, moves, s) && TimelyRun(states, moves)
    requires i < |s.procs| && s.procs[i].cfg.window > 0 && Enabled(s.procs[i], ev) && Timely(s.procs[i], ev)
    ensures RunsTo(states', moves', t) && Continues(states, moves, states', moves')
    ensures i < |t.procs| && t.procs[i] == After(s.procs[i], ev, s.table)
  {
    t := Next(s, Act(i, ev));
    Extend(states, moves, s, Act(i, ev));
    StaysTimely(states, moves, s, Act(i, ev), t);
    states', moves' := states + [t], moves + [Act(i, ev)];
  }

  lemma FoldBills(p: Proc, table: Table, r: Request)
    requires Reported(p, r)
    ensures r in AfterFold(p, p.sync.reports.Keys, table).ledger
  {
  }

  lemma FailedFoldLeaves(p: Proc, table: Table, r: Request)
    requires p.sync.InFlight? && !p.sync.folded && Unreported(p, r) && p.sync.totals == map[]
    ensures var q := AfterFold(p, {}, table);
            Unreported(q, r) && q.sync.folded && (r in p.admits ==> r in q.admits)
  {
    var q := AfterFold(p, {}, table);
    assert KeyedGen(q, r.gen.client.key) == KeyedGen(p, r.gen.client.key);
  }

  lemma WriteBackLeaves(p: Proc, r: Request)
    requires ProcInv(p) && p.sync.InFlight? && Unreported(p, r)
    ensures var q := AfterWriteBack(p);
            Unreported(q, r) && q.sync == Idle && (r in p.admits ==> r in q.admits)
  {
    assert KeyedGen(AfterWriteBack(p), r.gen.client.key) == KeyedGen(p, r.gen.client.key);
    WriteBackKeepsBucket(p, r.gen.client.key);
  }

  /** A round can take any key that may be reported. */
  lemma PickWith(m: Map, now: Instant, window: nat, k: Key) returns (picked: set<Key>)
    requires k in m && Reportable(m[k], now, window)
    ensures Picks(m, now, window, picked) && k in picked
  {
    var all := Reportables(m, now, window);
    SubsetSize({k}, all);
    picked := SubsetWith(all, k, Min(RATE_SYNC_MAX_KEYS, |all|));
  }

  /** The next round of an idle process can report it, if it comes now. */
  lemma SnapshotReportsIt(p: Proc, r: Request) returns (picked: set<Key>)
    requires ProcInv(p) && EpochsBegun(p) && p.sync == Idle && Unreported(p, r) && r in p.admits
    ensures var epoch := CurrentEpoch(p.clock, p.cfg.window);
            var ev := Snapshot(p.clock, epoch, picked);
            && Enabled(p, ev) && Reported(AfterSnapshot(p, p.clock, epoch, picked), r)
  {
    var k, epoch := r.gen.client.key, CurrentEpoch(p.clock, p.cfg.window);
    var b := p.buckets[k];
    assert Exactly(p.admits, r.gen, b.count);
    assert r == Request(r.gen, r.index) && r.index < b.count;
    if b.epoch.Some? {
      EpochIsTheWindowStart(p.clock, p.cfg.window, b.epoch.value);
    }
    assert Rolled(b, epoch).pushed == b.pushed;
    picked := PickWith(p.buckets, p.clock, p.cfg.window, k);
    var q := AfterSnapshot(p, p.clock, epoch, picked);
    assert InFold(q, q.sync.reports.Keys, r);
  }

  lemma Transitive(states: seq<State>, moves: seq<Move>, states': seq<State>, moves': seq<Move>,
                   states'': seq<State>, moves'': seq<Move>)
    requires Continues(states, moves, states', moves') && Continues(states', moves', states'', moves'')
    ensures Continues(states, moves, states'', moves'')
  {
    assert states''[..|states|] == states''[..|states'|][..|states|];
    assert moves''[..|moves|] == moves''[..|moves'|][..|moves|];
  }

  lemma ReachableProc(states: seq<State>, moves: seq<Move>, s: State, i: nat)
    requires RunsTo(states, moves, s) && TimelyRun(states, moves) && i < |s.procs|
    ensures ProcInv(s.procs[i]) && EpochsBegun(s.procs[i])
  {
    RunInv(states, moves, |moves|);
    RunBegun(states, moves, |moves|, i);
  }

  lemma BillReported(states: seq<State>, moves: seq<Move>, s: State, i: nat, r: Request)
    returns (states': seq<State>, moves': seq<Move>)
    requires RunsTo(states, moves, s) && TimelyRun(states, moves) && i < |s.procs| && Reported(s.procs[i], r)
    ensures Continues(states, moves, states', moves') && BilledIn(states', i, r)
  {
    var p := s.procs[i];
    ReachableProc(states, moves, s, i);
    FoldBills(p, s.table, r);
    FoldIsAfter(p, s.table);
    var t;
    states', moves', t := Go(states, moves, s, i, Fold(p.sync.reports.Keys));
    EndsBilled(states', moves', t, i, r);
  }

  lemma FoldIsAfter(p: Proc, table: Table)
    requires p.cfg.window > 0 && p.sync.InFlight? && !p.sync.folded
    ensures Enabled(p, Fold(p.sync.reports.Keys)) && Timely(p, Fold(p.sync.reports.Keys))
    ensures After(p, Fold(p.sync.reports.Keys), table) == AfterFold(p, p.sync.reports.Keys, table)
  {
  }

  lemma EndsBilled(states: seq<State>, moves: seq<Move>, s: State, i: nat, r: Request)
    requires RunsTo(states, moves, s) && i < |s.procs| && r in s.procs[i].ledger
    ensures BilledIn(states, i, r)
  {
  }

  lemma BillIdle(states: seq<State>, moves: seq<Move>, s: State, i: nat, r: Request)
    returns (states': seq<State>, moves': seq<Move>)
    requires RunsTo(states, moves, s) && TimelyRun(states, moves) && i < |s.procs|
    requires s.procs[i].sync == Idle && Unreported(s.procs[i], r) && r in s.procs[i].admits
    ensures Continues(states, moves, states', moves') && BilledIn(states', i, r)
  {
    var p := s.procs[i];
    ReachableProc(states, moves, s, i);
    var picked := SnapshotReportsIt(p, r);
    var ev := Snapshot(p.clock, CurrentEpoch(p.clock, p.cfg.window), picked);
    var near, told, t := Go(states, moves, s, i, ev);
    states', moves' := BillReported(near, told, t, i, r);
    Transitive(states, moves, near, told, states', moves');
  }

  lemma BillFolded(states: seq<State>, moves: seq<Move>, s: State, i: nat, r: Request)
    returns (states': seq<State>, moves': seq<Move>)
    requires RunsTo(states, moves, s) && TimelyRun(states, moves) && i < |s.procs|
    requires s.procs[i].sync.InFlight? && s.procs[i].sync.folded
    requires Unreported(s.procs[i], r) && r in s.procs[i].admits
    ensures Continues(states, moves, states', moves') && BilledIn(states', i, r)
  {
    ReachableProc(states, moves, s, i);
    WriteBackLeaves(s.procs[i], r);
    var near, told, t := Go(states, moves, s, i, WriteBack);
    states', moves' := BillIdle(near, told, t, i, r);
    Transitive(states, moves, near, told, states', moves');
  }

  lemma BillUnfolded(states: seq<State>, moves: seq<Move>, s: State, i: nat, r: Request)
    returns (states': seq<State>, moves': seq<Move>)
    requires RunsTo(states, moves, s) && TimelyRun(states, moves) && i < |s.procs|
    requires s.procs[i].sync.InFlight? && !s.procs[i].sync.folded
    requires Unreported(s.procs[i], r) && r in s.procs[i].admits
    ensures Continues(states, moves, states', moves') && BilledIn(states', i, r)
  {
    ReachableProc(states, moves, s, i);
    FailedFoldLeaves(s.procs[i], s.table, r);
    var near, told, t := Go(states, moves, s, i, Fold({}));
    states', moves' := BillFolded(near, told, t, i, r);
    Transitive(states, moves, near, told, states', moves');
  }

  lemma BillIt(states: seq<State>, moves: seq<Move>, s: State, i: nat, r: Request)
    returns (states': seq<State>, moves': seq<Move>)
    requires RunsTo(states, moves, s) && TimelyRun(states, moves) && i < |s.procs|
    requires Billable(s.procs[i], r) && r in s.procs[i].admits
    ensures Continues(states, moves, states', moves') && BilledIn(states', i, r)
  {
    if Reported(s.procs[i], r) {
      states', moves' := BillReported(states, moves, s, i, r);
    } else if s.procs[i].sync == Idle {
      states', moves' := BillIdle(states, moves, s, i, r);
    } else if s.procs[i].sync.folded {
      states', moves' := BillFolded(states, moves, s, i, r);
    } else {
      states', moves' := BillUnfolded(states, moves, s, i, r);
    }
  }

  /** The fate of an admitted request that is not billed, at any point of any
      run in time order: some way on bills it if and only if a report in
      flight covers it, or its client's bucket is still in the window it came
      in, has not accounted for it, and neither that window nor the wall
      window it was last reported to has passed. Otherwise it is lost: to a
      reset, an eviction, or a roll. */
  lemma BilledSomedayIff(states: seq<State>, moves: seq<Move>, s: State, i: nat, r: Request)
    requires RunsTo(states, moves, s) && TimelyRun(states, moves) && i < |s.procs|
    requires r in s.procs[i].admits && r !in s.procs[i].ledger
    ensures Billable(s.procs[i], r) <==>
            exists states', moves' :: Continues(states, moves, states', moves') && BilledIn(states', i, r)
  {
    if Billable(s.procs[i], r) {
      var states', moves' := BillIt(states, moves, s, i, r);
    } else {
      forall states', moves' | Continues(states, moves, states', moves')
        ensures !BilledIn(states', i, r)
      {
        assert states'[|moves|] == states[|moves|] == s;
        StaysLost(states', moves', |moves|, |moves'|, i, r);
      }
    }
  }
}
