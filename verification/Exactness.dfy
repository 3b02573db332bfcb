/** When billing is exact. The billed requests of the window a client is in are
    exactly those its bucket accounts for, throughout a run, if and only if no
    roll of the wall window in that run meets unreported requests. */
module Exactness {
  import opened Buckets
  import opened Eviction
  import opened Limiter
  import opened Protocol
  import opened Fleet
  import opened Billing

  /** The billed requests of a window are its first `n`. */
  ghost predicate BilledExactly(ledger: map<Request, Row>, g: Gen, n: nat) {
    forall i: nat :: Request(g, i) in ledger <==> i < n
  }

  /** None of the requests a bucket accounts for was lost. */
  ghost predicate Exact(p: Proc, k: Key) {
    k in p.buckets ==> BilledExactly(p.ledger, KeyedGen(p, k), Accounted(p, k))
  }

  /** A roll of the bucket of `k`, if the step is one, finds everything it
      counted reported. */
  ghost predicate Clean(p: Proc, ev: Event, k: Key) {
    Rolls(p, ev, k) ==> p.buckets[k].pushed == p.buckets[k].count
  }

  // ------------------------------------------------------------------
  // One step
  // ------------------------------------------------------------------

  lemma NewWindowExact(p: Proc, client: Client)
    requires AdmitsInRange(p.admits, p.next, p.cfg) && BillsInOrder(p.ledger, p.admits, p.cfg.tier)
    ensures BilledExactly(p.ledger, Gen(client, p.next), 0)
  {
    forall i: nat
      ensures Request(Gen(client, p.next), i) !in p.ledger
    {
      assert Request(Gen(client, p.next), i) !in p.admits;
    }
  }

  lemma KeyedKeepsExact(p: Proc, key: Key, now: Instant, room: Map, k: Key)
    requires ProcInv(p) && Within(p, room) && !Saturated(room, key) && Exact(p, k)
    ensures Exact(AfterKeyed(p, key, now, room).0, k)
  {
    var q := AfterKeyed(p, key, now, room).0;
    if k in q.buckets {
      KeyedAccounts(p, key, now, room, k);
      if k == key && FreshWindow(p, key, now, room) {
        NewWindowExact(p, Keyed(k));
        NewWindowAccounted(p, key, now, room);
      }
    }
  }

  lemma NewWindowAccounted(p: Proc, key: Key, now: Instant, room: Map)
    requires Shaped(p) && Flying(p) && Within(p, room) && FreshWindow(p, key, now, room)
    ensures var q := AfterKeyed(p, key, now, room).0;
            key in q.buckets && Accounted(q, key) == 0
  {
    var q := AfterKeyed(p, key, now, room).0;
    assert SerialOf(q, key) == p.next;
    if p.sync.InFlight? && key in p.sync.reports {
      assert ReportOk(p, key);
    }
  }

  lemma KeylessKeepsExact(p: Proc, now: Instant, room: Map, k: Key)
    requires Shaped(p) && Within(p, room) && Exact(p, k)
    ensures Exact(AfterKeyless(p, now, room).0, k)
  {
    var q := AfterKeyless(p, now, room).0;
    if k in q.buckets {
      assert KeyedGen(q, k) == KeyedGen(p, k);
    }
  }

  /** A snapshot loses requests exactly when it rolls a bucket with some left
      to report. */
  lemma SnapshotExactIffClean(p: Proc, now: Instant, epoch: int, picked: set<Key>, k: Key)
    requires ProcInv(p) && p.sync == Idle && Exact(p, k)
    ensures Exact(AfterSnapshot(p, now, epoch, picked), k) <==> Clean(p, Snapshot(now, epoch, picked), k)
  {
    var q := AfterSnapshot(p, now, epoch, picked);
    if k in p.buckets {
      var g := KeyedGen(p, k);
      assert KeyedGen(q, k) == g && q.ledger == p.ledger;
      assert BucketOk(p.buckets[k], p.cfg.max);
      assert Request(g, p.buckets[k].pushed) !in p.ledger;
      assert Accounted(q, k) == Rolled(p.buckets[k], epoch).pushed || k !in picked;
    }
  }

  lemma BillsExactly(p: Proc, landed: set<Key>, g: Gen, before: nat, after: nat)
    requires p.sync.InFlight? && BilledExactly(p.ledger, g, before) && before <= after
    requires forall i: nat :: InFold(p, landed, Request(g, i)) <==> before <= i < after
    ensures BilledExactly(FoldedLedger(p, landed), g, after)
  {
    forall i: nat
      ensures Request(g, i) in FoldedLedger(p, landed) <==> i < after
    {
      assert Request(g, i) in FoldedLedger(p, landed) <==> Request(g, i) in p.ledger || InFold(p, landed, Request(g, i));
    }
  }

  /** What a fold bills of the window a client is in. */
  lemma FoldCovers(p: Proc, landed: set<Key>, k: Key)
    requires Flying(p) && p.sync.InFlight? && landed <= p.sync.reports.Keys && k in p.buckets && k in landed
    requires p.sync.serials[k] == SerialOf(p, k)
    ensures p.buckets[k].pushed <= p.sync.reports[k].counted
    ensures forall i: nat :: InFold(p, landed, Request(KeyedGen(p, k), i)) <==>
                             p.buckets[k].pushed <= i < p.sync.reports[k].counted
  {
    assert ReportOk(p, k);
  }

  lemma FoldAccounts(p: Proc, landed: set<Key>, table: Table, k: Key)
    requires Flying(p) && p.sync.InFlight? && !p.sync.folded && landed <= p.sync.reports.Keys && k in p.buckets
    ensures var q := AfterFold(p, landed, table);
            && k in q.buckets && KeyedGen(q, k) == KeyedGen(p, k) && q.ledger == FoldedLedger(p, landed)
            && Accounted(p, k) == p.buckets[k].pushed
            && Accounted(q, k) == if k in landed && p.sync.serials[k] == SerialOf(p, k)
                                  then p.sync.reports[k].counted else p.buckets[k].pushed
  {
  }

  lemma FoldKeepsExact(p: Proc, landed: set<Key>, table: Table, k: Key)
    requires ProcInv(p) && p.sync.InFlight? && !p.sync.folded && landed <= p.sync.reports.Keys && Exact(p, k)
    ensures Exact(AfterFold(p, landed, table), k)
  {
    var q := AfterFold(p, landed, table);
    if k in q.buckets {
      FoldAccounts(p, landed, table, k);
      if k in landed && p.sync.serials[k] == SerialOf(p, k) {
        FoldCovers(p, landed, k);
      }
      BillsExactly(p, landed, KeyedGen(p, k), p.buckets[k].pushed, Accounted(q, k));
      assert BilledExactly(q.ledger, KeyedGen(q, k), Accounted(q, k));
    }
  }

  lemma WriteBackKeepsExact(p: Proc, k: Key)
    requires ProcInv(p) && p.sync.InFlight? && Exact(p, k)
    ensures Exact(AfterWriteBack(p), k)
  {
    if k in p.buckets {
      WriteBackKeepsBucket(p, k);
      assert KeyedGen(AfterWriteBack(p), k) == KeyedGen(p, k);
    }
  }

  lemma StepExactIffClean(p: Proc, ev: Event, table: Table, k: Key)
    requires ProcInv(p) && Enabled(p, ev) && Exact(p, k)
    ensures Exact(After(p, ev, table), k) <==> Clean(p, ev, k)
  {
    match ev
    case Check(key, now, room) =>
      RoomMadeIsOk(p, key, now, room);
      if Saturated(room, key) {
        KeylessKeepsExact(p, now, room, k);
      } else {
        KeyedKeepsExact(p, key, now, room, k);
      }
    case Snapshot(now, epoch, picked) => SnapshotExactIffClean(p, now, epoch, picked, k);
    case Fold(landed) => FoldKeepsExact(p, landed, table, k);
    case WriteBack => WriteBackKeepsExact(p, k);
  }

  // ------------------------------------------------------------------
  // Whole runs
  // ------------------------------------------------------------------

  ghost predicate ExactAt(s: State, i: nat, k: Key) {
    i < |s.procs| ==> Exact(s.procs[i], k)
  }

  ghost predicate CleanMove(s: State, move: Move, i: nat, k: Key) {
    move.Act? && move.id == i && i < |s.procs| ==> Clean(s.procs[i], move.ev, k)
  }

  lemma MoveExactIffClean(states: seq<State>, moves: seq<Move>, n: nat, i: nat, k: Key)
    requires IsRun(states, moves) && n < |moves| && ExactAt(states[n], i, k)
    ensures ExactAt(states[n + 1], i, k) <==> CleanMove(states[n], moves[n], i, k)
  {
    RunInv(states, moves, n);
    var s := states[n];
    assert i < |s.procs| ==> ProcInv(s.procs[i]);
    if moves[n].Act? && moves[n].id == i {
      StepExactIffClean(s.procs[i], moves[n].ev, s.table, k);
    }
  }

  /** The window a client is in is billed exactly, all the way to any point of
      any run, if and only if every roll of its bucket on the way was clean.
      Failed rounds and late write-backs never break that. (What a window had
      left to report when it was reset or evicted went with it.) */
  lemma {:induction false} ExactIffRollsClean(states: seq<State>, moves: seq<Move>, n: nat, i: nat, k: Key)
    requires IsRun(states, moves) && n < |states|
    ensures (forall j :: 0 <= j <= n ==> ExactAt(states[j], i, k)) <==>
            (forall j :: 0 <= j < n ==> CleanMove(states[j], moves[j], i, k))
  {
    if n == 0 {
      assert i < |states[0].procs| ==> Started(states[0].procs[i]);
      assert ExactAt(states[0], i, k);
    } else {
      ExactIffRollsClean(states, moves, n - 1, i, k);
      if forall j :: 0 <= j <= n - 1 ==> ExactAt(states[j], i, k) {
        MoveExactIffClean(states, moves, n - 1, i, k);
      }
    }
  }

  /** So a landed round leaves nothing it reported unbilled: once its totals
      are written back, the reported requests and no others are billed. */
  lemma RoundBillsWhatItCounted(p: Proc, k: Key)
    requires ProcInv(p) && p.sync.InFlight? && Exact(p, k) && k in p.buckets
    requires k in p.sync.totals && p.sync.serials[k] == SerialOf(p, k)
    ensures var q := AfterWriteBack(p);
            && BilledExactly(q.ledger, KeyedGen(q, k), p.sync.reports[k].counted)
            && q.buckets[k].pushed == p.sync.reports[k].counted
  {
    WriteBackKeepsExact(p, k);
    WriteBackKeepsBucket(p, k);
    assert KeyedGen(AfterWriteBack(p), k) == KeyedGen(p, k);
  }
}
