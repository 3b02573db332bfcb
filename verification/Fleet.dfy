/** The fleet: all processes and the shared table, over whole runs. At-most-once
    billing, conservation of hits, and rows that never hold less than what a
    bucket has read back from them. */
module Fleet {
  import opened Buckets
  import opened Eviction
  import opened Limiter
  import opened Protocol

  /** `table` is the shared table. `folded` remembers every hit ever folded
      into a row, cleaned up or not; `horizon` is the latest cleanup. */
  datatype State = State(procs: seq<Proc>, table: Table, folded: Table, horizon: int)

  datatype Move = Act(id: nat, ev: Event) | Purge(epoch: int)

  ghost predicate Init(s: State) {
    (forall i :: 0 <= i < |s.procs| ==> Started(s.procs[i])) && s.table == map[] && s.folded == map[]
  }

  ghost predicate Allowed(s: State, move: Move) {
    move.Act? ==> move.id < |s.procs| && s.procs[move.id].cfg.window > 0 && Enabled(s.procs[move.id], move.ev)
  }

  ghost function Next(s: State, move: Move): State
    requires Allowed(s, move)
  {
    match move
    case Act(i, ev) =>
      var p := s.procs[i];
      var q := After(p, ev, s.table);
      if ev.Fold?
      then State(s.procs[i := q], FoldedTable(s.table, p, ev.landed), FoldedTable(s.folded, p, ev.landed), s.horizon)
      else s.(procs := s.procs[i := q])
    case Purge(epoch) =>
      s.(table := map row | row in s.table && row.epoch >= epoch :: s.table[row], horizon := Max(s.horizon, epoch))
  }

  ghost predicate Step(s: State, move: Move, t: State) {
    Allowed(s, move) && t == Next(s, move)
  }

  /** A run: any interleaving of moves, of any length. */
  ghost predicate IsRun(states: seq<State>, moves: seq<Move>) {
    && |states| == |moves| + 1 && Init(states[0])
    && forall i {:trigger moves[i]} :: 0 <= i < |moves| ==> Step(states[i], moves[i], states[i + 1])
  }

  ghost predicate RunsTo(states: seq<State>, moves: seq<Move>, s: State) {
    IsRun(states, moves) && states[|moves|] == s
  }

  lemma Extend(states: seq<State>, moves: seq<Move>, s: State, move: Move)
    requires RunsTo(states, moves, s) && Allowed(s, move)
    ensures RunsTo(states + [Next(s, move)], moves + [move], Next(s, move))
  {
    var longer, more := states + [Next(s, move)], moves + [move];
    forall i | 0 <= i < |more|
      ensures Step(longer[i], more[i], longer[i + 1])
    {
      if i < |moves| {
        assert more[i] == moves[i];
      }
    }
  }

  lemma AfterKeepsConfig(p: Proc, ev: Event, table: Table)
    requires p.cfg.window > 0 && Enabled(p, ev)
    ensures After(p, ev, table).cfg == p.cfg
  {
  }

  /** Processes are never added, removed or reconfigured. */
  lemma SameProcs(states: seq<State>, moves: seq<Move>, n: nat)
    requires IsRun(states, moves) && n < |moves|
    ensures |states[n + 1].procs| == |states[n].procs|
    ensures forall i :: 0 <= i < |states[n].procs| ==> states[n + 1].procs[i].cfg == states[n].procs[i].cfg
  {
    var s, move := states[n], moves[n];
    assert Step(s, move, states[n + 1]);
    if move.Act? {
      AfterKeepsConfig(s.procs[move.id], move.ev, s.table);
    }
  }

  lemma {:induction false} SameFleet(states: seq<State>, moves: seq<Move>, n: nat)
    requires IsRun(states, moves) && n < |states|
    ensures |states[n].procs| == |states[0].procs|
    ensures forall i :: 0 <= i < |states[0].procs| ==> states[n].procs[i].cfg == states[0].procs[i].cfg
  {
    if n > 0 {
      SameFleet(states, moves, n - 1);
      SameProcs(states, moves, n - 1);
    }
  }

  // ------------------------------------------------------------------
  // Counting billed requests
  // ------------------------------------------------------------------

  ghost function BilledOn(ledger: map<Request, Row>, row: Row): set<Request> {
    set r | r in ledger && ledger[r] == row
  }

  ghost function SumBilled(procs: seq<Proc>, row: Row): nat {
    if procs == [] then 0
    else SumBilled(procs[..|procs|-1], row) + |BilledOn(procs[|procs|-1].ledger, row)|
  }

  lemma {:induction false} SumBilledUpdate(procs: seq<Proc>, i: nat, q: Proc, row: Row)
    requires i < |procs|
    ensures SumBilled(procs[i := q], row) ==
            SumBilled(procs, row) - |BilledOn(procs[i].ledger, row)| + |BilledOn(q.ledger, row)|
  {
    var last := |procs| - 1;
    if i == last {
      assert procs[i := q][..last] == procs[..last];
    } else {
      assert procs[i := q][..last] == procs[..last][i := q];
      SumBilledUpdate(procs[..last], i, q, row);
    }
  }

  ghost function Range(g: Gen, lo: int, hi: int): set<Request>
    requires 0 <= lo
  {
    set i: int | lo <= i < hi :: Request(g, i)
  }

  lemma {:induction false} RangeSize(g: Gen, lo: int, hi: int)
    requires 0 <= lo <= hi
    ensures |Range(g, lo, hi)| == hi - lo
    decreases hi - lo
  {
    if lo < hi {
      RangeSize(g, lo, hi - 1);
      assert Range(g, lo, hi) == Range(g, lo, hi - 1) + {Request(g, hi - 1)};
    } else {
      assert Range(g, lo, hi) == {};
    }
  }

  /** A window's first `n` requests are `n`. */
  lemma AtMostTo(requests: set<Request>, g: Gen, n: nat)
    requires forall r :: r in requests ==> r.gen == g && r.index < n
    ensures |requests| <= n
  {
    RangeSize(g, 0, n);
    forall r | r in requests
      ensures r in Range(g, 0, n)
    {
      assert r == Request(g, r.index);
    }
    SubsetSize(requests, Range(g, 0, n));
  }

  /** The requests a fold bills on one row. */
  ghost function NewOnRow(p: Proc, landed: set<Key>, row: Row): set<Request>
    requires Flying(p) && p.sync.InFlight?
  {
    if row.tier == p.cfg.tier && row.epoch == p.sync.epoch && row.key in landed && row.key in p.sync.reports then
      assert ReportOk(p, row.key);
      var q := p.sync.reports[row.key];
      Range(Gen(Keyed(row.key), p.sync.serials[row.key]), q.counted - q.delta, q.counted)
    else {}
  }

  lemma NewOnRowFacts(p: Proc, landed: set<Key>, row: Row)
    requires Flying(p) && p.sync.InFlight?
    ensures |NewOnRow(p, landed, row)| == RowDelta(p, landed, row)
    ensures forall r :: r in NewOnRow(p, landed, row) <==> InFold(p, landed, r) && RowFor(p, r) == row
  {
    var k := row.key;
    if row.tier == p.cfg.tier && row.epoch == p.sync.epoch && k in landed && k in p.sync.reports {
      assert ReportOk(p, k);
      var q, g := p.sync.reports[k], Gen(Keyed(k), p.sync.serials[k]);
      RangeSize(g, q.counted - q.delta, q.counted);
      forall r | InFold(p, landed, r) && RowFor(p, r) == row
        ensures r in NewOnRow(p, landed, row)
      {
        assert r == Request(g, r.index);
      }
    }
  }

  /** A fold bills on each row exactly as many new requests as the hits it adds
      there. */
  lemma FoldAddsToRow(p: Proc, landed: set<Key>, row: Row)
    requires Flying(p) && p.sync.InFlight? && !p.sync.folded
    ensures |BilledOn(FoldedLedger(p, landed), row)| == |BilledOn(p.ledger, row)| + RowDelta(p, landed, row)
    ensures RowDelta(p, landed, row) >= 0
  {
    NewOnRowFacts(p, landed, row);
    var l, l', added := p.ledger, FoldedLedger(p, landed), NewOnRow(p, landed, row);
    forall r
      ensures r in added ==> r !in l
      ensures (r in l' && l'[r] == row) <==> (r in l && l[r] == row) || r in added
    {
      if InFold(p, landed, r) {
        FoldBillsAfresh(p, landed, r);
      }
    }
    GrowOnRow(l, l', row, added);
  }

  lemma GrowOnRow(l: map<Request, Row>, l': map<Request, Row>, row: Row, added: set<Request>)
    requires forall r :: r in added ==> r !in l
    requires forall r :: (r in l' && l'[r] == row) <==> (r in l && l[r] == row) || r in added
    ensures |BilledOn(l', row)| == |BilledOn(l, row)| + |added|
  {
    assert BilledOn(l', row) == BilledOn(l, row) + added;
  }

  // ------------------------------------------------------------------
  // The invariant
  // ------------------------------------------------------------------

  /** Every hit ever folded is a billed request, and the shared table agrees
      with that on every row that has not been cleaned up. */
  ghost predicate Conserved(s: State) {
    forall row ::
      && Hits(s.folded, row) == SumBilled(s.procs, row)
      && 0 <= Hits(s.table, row) <= Hits(s.folded, row)
      && (row.epoch >= s.horizon ==> Hits(s.table, row) == Hits(s.folded, row))
  }

  /** The row a bucket last read back holds at least what it read, and a total
      on its way back covers that and the report. */
  ghost predicate Stored(p: Proc, table: Table, horizon: int) {
    && (forall k :: k in p.buckets ==> BucketStored(p, k, table, horizon))
    && (p.sync.InFlight? && p.sync.epoch >= horizon ==>
          forall k :: k in p.sync.totals && k in p.sync.reports ==> TotalStored(p, k, table))
  }

  ghost predicate BucketStored(p: Proc, k: Key, table: Table, horizon: int)
    requires k in p.buckets
  {
    var b := p.buckets[k];
    b.epoch.Some? && b.epoch.value >= horizon ==> b.remote <= Hits(table, Row(p.cfg.tier, k, b.epoch.value))
  }

  ghost predicate TotalStored(p: Proc, k: Key, table: Table)
    requires p.sync.InFlight? && k in p.sync.totals && k in p.sync.reports
  {
    && 0 <= p.sync.totals[k] <= Hits(table, Row(p.cfg.tier, k, p.sync.epoch))
    && (k in p.buckets && k in p.sync.serials && p.sync.serials[k] == SerialOf(p, k) ==>
          p.buckets[k].remote + p.sync.reports[k].delta <= p.sync.totals[k])
  }

  ghost predicate Inv(s: State) {
    && (forall i :: 0 <= i < |s.procs| ==> ProcInv(s.procs[i]) && Stored(s.procs[i], s.table, s.horizon))
    && Conserved(s)
  }

  lemma InitInv(s: State)
    requires Init(s)
    ensures Inv(s)
  {
    forall row
      ensures SumBilled(s.procs, row) == 0
    {
      NothingBilled(s.procs, row);
    }
  }

  lemma {:induction false} NothingBilled(procs: seq<Proc>, row: Row)
    requires forall i :: 0 <= i < |procs| ==> procs[i].ledger == map[]
    ensures SumBilled(procs, row) == 0
  {
    if procs != [] {
      NothingBilled(procs[..|procs|-1], row);
      assert BilledOn(procs[|procs|-1].ledger, row) == {};
    }
  }

  /** Rows still in the table never shrink. */
  ghost predicate Grown(table: Table, table': Table, horizon: int) {
    forall row: Row :: row.epoch >= horizon ==> Hits(table, row) <= Hits(table', row)
  }

  lemma StoredGrows(p: Proc, table: Table, table': Table, horizon: int, horizon': int)
    requires Stored(p, table, horizon) && Grown(table, table', horizon') && horizon <= horizon'
    ensures Stored(p, table', horizon')
  {
    forall k | k in p.buckets
      ensures BucketStored(p, k, table', horizon')
    {
      assert BucketStored(p, k, table, horizon);
    }
    if p.sync.InFlight? && p.sync.epoch >= horizon' {
      forall k | k in p.sync.totals && k in p.sync.reports
        ensures TotalStored(p, k, table')
      {
        assert TotalStored(p, k, table);
      }
    }
  }

  /** A check leaves every bucket it keeps with the total it had, and a
      window it opens with none. */
  ghost predicate Inherits(p: Proc, q: Proc) {
    && q.cfg == p.cfg && q.sync == p.sync
    && (forall k :: k in q.buckets ==>
          if k in p.buckets && SerialOf(q, k) == SerialOf(p, k)
          then q.buckets[k].remote == p.buckets[k].remote && q.buckets[k].epoch == p.buckets[k].epoch
          else q.buckets[k].epoch == None && SerialOf(q, k) >= p.next)
  }

  lemma CheckInherits(p: Proc, key: Key, now: Instant, room: Map)
    requires Shaped(p) && Within(p, room)
    ensures Inherits(p, AfterCheck(p, key, now, room).0)
  {
    if !Saturated(room, key) {
      KeyedInherits(p, key, now, room);
    }
  }

  lemma KeyedInherits(p: Proc, key: Key, now: Instant, room: Map)
    requires Shaped(p) && Within(p, room) && !Saturated(room, key)
    ensures Inherits(p, AfterKeyed(p, key, now, room).0)
  {
    var q := AfterKeyed(p, key, now, room).0;
    forall k | k in q.buckets
      ensures if k in p.buckets && SerialOf(q, k) == SerialOf(p, k)
              then q.buckets[k].remote == p.buckets[k].remote && q.buckets[k].epoch == p.buckets[k].epoch
              else q.buckets[k].epoch == None && SerialOf(q, k) >= p.next
    {
      if k != key {
        assert k in room && q.buckets[k] == p.buckets[k] && SerialOf(q, k) == SerialOf(p, k);
      } else {
        assert SerialOf(q, k) == if FreshWindow(p, key, now, room) then p.next else SerialOf(p, k);
      }
    }
  }

  lemma InheritsStored(p: Proc, q: Proc, table: Table, horizon: int)
    requires Flying(p) && Stored(p, table, horizon) && Inherits(p, q)
    ensures Stored(q, table, horizon)
  {
    forall k | k in q.buckets
      ensures BucketStored(q, k, table, horizon)
    {
      if k in p.buckets {
        assert BucketStored(p, k, table, horizon);
      }
    }
    if p.sync.InFlight? && p.sync.epoch >= horizon {
      forall k | k in p.sync.totals && k in p.sync.reports
        ensures TotalStored(q, k, table)
      {
        assert TotalStored(p, k, table);
        assert ReportOk(p, k);
      }
    }
  }

  lemma SnapshotKeepsStored(p: Proc, now: Instant, epoch: int, picked: set<Key>, table: Table, horizon: int)
    requires Stored(p, table, horizon)
    requires forall row :: Hits(table, row) >= 0
    ensures Stored(AfterSnapshot(p, now, epoch, picked), table, horizon)
  {
    var q := AfterSnapshot(p, now, epoch, picked);
    forall k | k in q.buckets
      ensures BucketStored(q, k, table, horizon)
    {
      assert BucketStored(p, k, table, horizon);
    }
  }

  lemma FoldGrows(p: Proc, landed: set<Key>, table: Table, horizon: int)
    requires Flying(p) && p.sync.InFlight? && !p.sync.folded
    ensures Grown(table, FoldedTable(table, p, landed), horizon)
  {
    forall row: Row
      ensures Hits(table, row) <= Hits(FoldedTable(table, p, landed), row)
    {
      FoldedHits(table, p, landed, row);
      FoldAddsToRow(p, landed, row);
    }
  }

  lemma FoldTotalStored(p: Proc, landed: set<Key>, table: Table, horizon: int, k: Key)
    requires Flying(p) && Stored(p, table, horizon)
    requires p.sync.InFlight? && !p.sync.folded && landed <= p.sync.reports.Keys && k in landed
    requires p.sync.epoch >= horizon && Hits(table, Row(p.cfg.tier, k, p.sync.epoch)) >= 0
    ensures TotalStored(AfterFold(p, landed, table), k, FoldedTable(table, p, landed))
  {
    assert ReportOk(p, k);
    FoldedHits(table, p, landed, Row(p.cfg.tier, k, p.sync.epoch));
    if k in p.buckets {
      assert BucketStored(p, k, table, horizon);
    }
  }

  lemma FoldKeepsStored(p: Proc, landed: set<Key>, table: Table, horizon: int)
    requires Flying(p) && Stored(p, table, horizon)
    requires p.sync.InFlight? && !p.sync.folded && landed <= p.sync.reports.Keys
    requires forall row :: Hits(table, row) >= 0
    ensures Stored(AfterFold(p, landed, table), FoldedTable(table, p, landed), horizon)
  {
    var q, after := AfterFold(p, landed, table), FoldedTable(table, p, landed);
    FoldGrows(p, landed, table, horizon);
    StoredGrows(p, table, after, horizon, horizon);
    forall k | k in q.buckets
      ensures BucketStored(q, k, after, horizon)
    {
      assert BucketStored(p, k, after, horizon);
    }
    if q.sync.epoch >= horizon {
      forall k | k in q.sync.totals && k in q.sync.reports
        ensures TotalStored(q, k, after)
      {
        FoldTotalStored(p, landed, table, horizon, k);
      }
    }
  }

  lemma WriteBackKeepsStored(p: Proc, table: Table, horizon: int)
    requires ProcInv(p) && Stored(p, table, horizon) && p.sync.InFlight?
    ensures Stored(AfterWriteBack(p), table, horizon)
  {
    var q := AfterWriteBack(p);
    forall k | k in q.buckets
      ensures BucketStored(q, k, table, horizon)
    {
      assert BucketStored(p, k, table, horizon);
      if p.sync.epoch >= horizon && k in p.sync.totals && k in p.sync.reports {
        assert TotalStored(p, k, table);
      }
    }
  }

  lemma ActKeepsStored(s: State, i: nat, ev: Event)
    requires Inv(s) && Allowed(s, Act(i, ev))
    ensures forall j :: 0 <= j < |s.procs| ==>
              var t := Next(s, Act(i, ev)); Stored(t.procs[j], t.table, t.horizon)
  {
    var t := Next(s, Act(i, ev));
    var p := s.procs[i];
    assert forall row :: Hits(s.table, row) >= 0;
    match ev {
      case Check(key, now, room) =>
        RoomMadeIsOk(p, key, now, room);
        CheckInherits(p, key, now, room);
        InheritsStored(p, t.procs[i], s.table, s.horizon);
      case Snapshot(now, epoch, picked) => SnapshotKeepsStored(p, now, epoch, picked, s.table, s.horizon);
      case Fold(landed) =>
        FoldKeepsStored(p, landed, s.table, s.horizon);
        FoldGrows(p, landed, s.table, s.horizon);
        forall j | 0 <= j < |s.procs| && j != i
          ensures Stored(t.procs[j], t.table, t.horizon)
        {
          StoredGrows(s.procs[j], s.table, t.table, s.horizon, s.horizon);
        }
      case WriteBack => WriteBackKeepsStored(p, s.table, s.horizon);
    }
  }

  lemma FoldConserves(s: State, i: nat, landed: set<Key>)
    requires Inv(s) && Allowed(s, Act(i, Fold(landed)))
    ensures Conserved(Next(s, Act(i, Fold(landed))))
  {
    var t := Next(s, Act(i, Fold(landed)));
    var p := s.procs[i];
    forall row
      ensures Hits(t.folded, row) == SumBilled(t.procs, row)
      ensures 0 <= Hits(t.table, row) <= Hits(t.folded, row)
      ensures row.epoch >= t.horizon ==> Hits(t.table, row) == Hits(t.folded, row)
    {
      assert Hits(s.folded, row) == SumBilled(s.procs, row);
      SumBilledUpdate(s.procs, i, t.procs[i], row);
      FoldAddsToRow(p, landed, row);
      FoldedHits(s.table, p, landed, row);
      FoldedHits(s.folded, p, landed, row);
    }
  }

  lemma {:induction false} SameLedgersSameSum(procs: seq<Proc>, procs': seq<Proc>, row: Row)
    requires |procs| == |procs'| && forall i :: 0 <= i < |procs| ==> procs[i].ledger == procs'[i].ledger
    ensures SumBilled(procs, row) == SumBilled(procs', row)
  {
    if procs != [] {
      SameLedgersSameSum(procs[..|procs|-1], procs'[..|procs'|-1], row);
    }
  }

  lemma OnlyFoldsBill(p: Proc, ev: Event, table: Table)
    requires p.cfg.window > 0 && Enabled(p, ev) && !ev.Fold?
    ensures After(p, ev, table).ledger == p.ledger
  {
  }

  lemma ActConserves(s: State, i: nat, ev: Event)
    requires Conserved(s) && Allowed(s, Act(i, ev)) && !ev.Fold?
    ensures Conserved(Next(s, Act(i, ev)))
  {
    var t := Next(s, Act(i, ev));
    OnlyFoldsBill(s.procs[i], ev, s.table);
    assert t.folded == s.folded && t.table == s.table && t.horizon == s.horizon;
    forall row
      ensures SumBilled(t.procs, row) == SumBilled(s.procs, row)
    {
      SameLedgersSameSum(s.procs, t.procs, row);
    }
  }

  lemma PurgeKeepsInv(s: State, epoch: int)
    requires Inv(s)
    ensures Inv(Next(s, Purge(epoch)))
  {
    var t := Next(s, Purge(epoch));
    forall row
      ensures 0 <= Hits(t.table, row) <= Hits(s.table, row)
      ensures row.epoch >= t.horizon ==> Hits(t.table, row) == Hits(s.table, row)
    {
      assert Hits(s.folded, row) == SumBilled(s.procs, row);
    }
    forall i | 0 <= i < |s.procs|
      ensures Stored(t.procs[i], t.table, t.horizon)
    {
      StoredGrows(s.procs[i], s.table, t.table, s.horizon, t.horizon);
    }
  }

  lemma NextInv(s: State, move: Move)
    requires Inv(s) && Allowed(s, move)
    ensures Inv(Next(s, move))
  {
    match move
    case Purge(epoch) => PurgeKeepsInv(s, epoch);
    case Act(i, ev) =>
      StepKeepsInv(s.procs[i], ev, s.table);
      ActKeepsStored(s, i, ev);
      if ev.Fold? { FoldConserves(s, i, ev.landed); } else { ActConserves(s, i, ev); }
  }

  /** The invariant holds at every point of every run. */
  lemma {:induction false} RunInv(states: seq<State>, moves: seq<Move>, n: nat)
    requires IsRun(states, moves) && n < |states|
    ensures Inv(states[n])
  {
    if n == 0 {
      InitInv(states[0]);
    } else {
      RunInv(states, moves, n - 1);
      NextInv(states[n - 1], moves[n - 1]);
    }
  }

  // ------------------------------------------------------------------
  // Cleanups
  // ------------------------------------------------------------------

  /** The move folds something into `row`. */
  ghost predicate FoldsInto(s: State, move: Move, row: Row) {
    && move.Act? && move.id < |s.procs| && move.ev.Fold? && s.procs[move.id].sync.InFlight?
    && row.tier == s.procs[move.id].cfg.tier && row.key in move.ev.landed && row.epoch == s.procs[move.id].sync.epoch
  }

  lemma RowsComeFromFolds(s: State, move: Move, row: Row)
    requires Allowed(s, move) && row in Next(s, move).table
    ensures row in s.table || FoldsInto(s, move, row)
  {
  }

  /** A cleanup removes the rows of the wall windows that have passed, and no
      other: right after it there is none, the rest hold what they held, and a
      row of a passed window that is there at any later time was folded into
      since. */
  lemma {:induction false} CleanupRemovesPassed(states: seq<State>, moves: seq<Move>, m: nat, n: nat, epoch: int, row: Row)
    requires IsRun(states, moves) && m < n < |states| && moves[m] == Purge(epoch)
    ensures row.epoch >= epoch ==> Hits(states[m + 1].table, row) == Hits(states[m].table, row)
    ensures row.epoch < epoch && row in states[n].table ==>
              exists j {:trigger moves[j]} :: m < j < n && FoldsInto(states[j], moves[j], row)
  {
    assert Step(states[m], moves[m], states[m + 1]);
    if n > m + 1 {
      CleanupRemovesPassed(states, moves, m, n - 1, epoch, row);
      assert Step(states[n - 1], moves[n - 1], states[n]);
      if row in states[n].table {
        RowsComeFromFolds(states[n - 1], moves[n - 1], row);
      }
    }
  }
}
