/** What the fold protocol does get wrong: a request lost when the wall window
    rolls, as a run, and requests billed twice when a round that was given up
    had landed all the same. */
module Losses {
  import opened Buckets
  import opened Eviction
  import opened RowKeys
  import opened Limiter
  import opened Protocol
  import opened Fleet
  import opened Billing
  import opened Windows
  import opened Bursts

  /** One client's bucket and the round of its process; only the first request
      of any window has been billed, if that. */
  ghost predicate Looks(p: Proc, cfg: Config, key: Key, b: Bucket, sync: Sync, now: Instant) {
    && p.cfg == cfg && p.buckets == map[key := b] && p.serials == map[key := 1] && p.sync == sync && p.clock == now
    && forall r :: r in p.ledger ==> r.index == 0
  }

  ghost function Opened(cfg: Config, count: nat, pushed: nat, epoch: Option<int>): Bucket {
    Bucket(cfg.window - 1, count, pushed, pushed, epoch)
  }

  ghost function Round(cfg: Config, key: Key, folded: bool): Sync {
    InFlight(0, map[key := Pending(key, 1, 1, cfg.window - 1)], map[key := 1], folded,
             if folded then map[key := 1] else map[])
  }

  lemma Opens(p: Proc, cfg: Config, key: Key)
    requires Runnable(cfg) && p == Fresh(cfg)
    ensures Enabled(p, Check(key, cfg.window - 1, map[])) && !Saturated(map[], key)
    ensures Looks(AfterKeyed(p, key, cfg.window - 1, map[]).0, cfg, key, Opened(cfg, 1, 0, None), Idle, cfg.window - 1)
  {
  }

  lemma WallWindows(cfg: Config)
    requires Runnable(cfg)
    ensures CurrentEpoch(cfg.window - 1, cfg.window) == 0 && CurrentEpoch(cfg.window, cfg.window) == cfg.window
  {
    EpochIsTheWindowStart(cfg.window - 1, cfg.window, 0);
    EpochIsTheWindowStart(cfg.window, cfg.window, cfg.window);
  }

  lemma ReportsFirst(p: Proc, cfg: Config, key: Key)
    requires Runnable(cfg) && Looks(p, cfg, key, Opened(cfg, 1, 0, None), Idle, cfg.window - 1)
    ensures Enabled(p, Snapshot(cfg.window - 1, 0, {key}))
    ensures Looks(AfterSnapshot(p, cfg.window - 1, 0, {key}), cfg, key, Opened(cfg, 1, 0, Some(0)),
                  Round(cfg, key, false), cfg.window - 1)
  {
    var q := AfterSnapshot(p, cfg.window - 1, 0, {key});
    assert Reportables(p.buckets, cfg.window - 1, cfg.window) == {key};
    assert q.sync.reports == map[key := Pending(key, 1, 1, cfg.window - 1)];
    assert q.sync.serials == map[key := 1];
  }

  lemma Lands(p: Proc, cfg: Config, key: Key)
    requires Runnable(cfg) && Looks(p, cfg, key, Opened(cfg, 1, 0, Some(0)), Round(cfg, key, false), cfg.window - 1)
    ensures Enabled(p, Fold({key}))
    ensures Looks(AfterFold(p, {key}, map[]), cfg, key, Opened(cfg, 1, 0, Some(0)), Round(cfg, key, true), cfg.window - 1)
  {
    FoldedHits(map[], p, {key}, Row(cfg.tier, key, 0));
  }

  lemma ReadsBack(p: Proc, cfg: Config, key: Key)
    requires Runnable(cfg) && Looks(p, cfg, key, Opened(cfg, 1, 0, Some(0)), Round(cfg, key, true), cfg.window - 1)
    ensures Enabled(p, WriteBack)
    ensures Looks(AfterWriteBack(p), cfg, key, Opened(cfg, 1, 1, Some(0)), Idle, cfg.window - 1)
  {
  }

  lemma AdmitsOneMore(p: Proc, cfg: Config, key: Key)
    requires Runnable(cfg) && cfg.max > 1 && Looks(p, cfg, key, Opened(cfg, 1, 1, Some(0)), Idle, cfg.window - 1)
    ensures Enabled(p, Check(key, cfg.window - 1, p.buckets)) && !Saturated(p.buckets, key)
    ensures Looks(AfterKeyed(p, key, cfg.window - 1, p.buckets).0, cfg, key, Opened(cfg, 2, 1, Some(0)), Idle, cfg.window - 1)
  {
    assert Spent(p.buckets[key]) == 1;
  }

  // ------------------------------------------------------------------
  // The run
  // ------------------------------------------------------------------

  /** A run of one process whose `n` moves led here. */
  ghost predicate Tells(states: seq<State>, moves: seq<Move>, s: State, n: nat, now: Instant) {
    Running(states, moves, s, now) && |s.procs| == 1 && |moves| == n
  }

  lemma Then(states: seq<State>, moves: seq<Move>, s: State, n: nat, ev: Event, before: Instant, now: Instant)
    returns (states': seq<State>, moves': seq<Move>, t: State)
    requires Tells(states, moves, s, n, before) && before <= now
    requires s.procs[0].cfg.window > 0 && Enabled(s.procs[0], ev) && Timely(s.procs[0], ev)
    requires TimeOf(Act(0, ev)).Some? ==> TimeOf(Act(0, ev)).value == now
    ensures Tells(states', moves', t, n + 1, now) && t.procs[0] == After(s.procs[0], ev, s.table)
    ensures !ev.Fold? ==> t.table == s.table
    ensures states' == states + [t] && moves' == moves + [Act(0, ev)]
  {
    states', moves' := Continue(states, moves, s, 0, ev, before, now);
    t := Next(s, Act(0, ev));
  }

  lemma FirstReported(cfg: Config, key: Key) returns (states: seq<State>, moves: seq<Move>, s: State)
    requires Runnable(cfg)
    ensures Tells(states, moves, s, 2, cfg.window - 1) && s.table == map[]
    ensures Looks(s.procs[0], cfg, key, Opened(cfg, 1, 0, Some(0)), Round(cfg, key, false), cfg.window - 1)
  {
    var now := cfg.window - 1;
    s := Starts(1, cfg);
    states, moves := [s], [];
    Opens(s.procs[0], cfg, key);
    states, moves, s := Then(states, moves, s, 0, Check(key, now, map[]), 0, now);
    WallWindows(cfg);
    ReportsFirst(s.procs[0], cfg, key);
    states, moves, s := Then(states, moves, s, 1, Snapshot(now, 0, {key}), now, now);
  }

  /** One request admitted at the last instant before the wall window rolls,
      reported and folded. */
  lemma FirstLands(cfg: Config, key: Key) returns (states: seq<State>, moves: seq<Move>, s: State)
    requires Runnable(cfg)
    ensures Tells(states, moves, s, 3, cfg.window - 1)
    ensures Looks(s.procs[0], cfg, key, Opened(cfg, 1, 0, Some(0)), Round(cfg, key, true), cfg.window - 1)
  {
    states, moves, s := FirstReported(cfg, key);
    Lands(s.procs[0], cfg, key);
    states, moves, s := Then(states, moves, s, 2, Fold({key}), cfg.window - 1, cfg.window - 1);
  }

  /** And another admitted after the round. */
  lemma SecondAdmitted(cfg: Config, key: Key) returns (states: seq<State>, moves: seq<Move>, s: State)
    requires Runnable(cfg) && cfg.max > 1
    ensures Tells(states, moves, s, 5, cfg.window - 1)
    ensures Looks(s.procs[0], cfg, key, Opened(cfg, 2, 1, Some(0)), Idle, cfg.window - 1)
  {
    var now := cfg.window - 1;
    states, moves, s := FirstLands(cfg, key);
    ReadsBack(s.procs[0], cfg, key);
    states, moves, s := Then(states, moves, s, 3, WriteBack, now, now);
    AdmitsOneMore(s.procs[0], cfg, key);
    states, moves, s := Then(states, moves, s, 4, Check(key, now, s.procs[0].buckets), now, now);
  }

  /** A run that starts with another. */
  ghost predicate Goes(states: seq<State>, moves: seq<Move>, states': seq<State>, moves': seq<Move>) {
    IsRun(states', moves') && |moves| <= |moves'| && |states| <= |states'| && moves'[..|moves|] == moves && states'[..|states|] == states
  }

  /** The sixth move rolls the bucket of `key`, whose second request was
      admitted and is not billed. */
  ghost predicate RollsUnbilled(s: State, move: Move, key: Key) {
    && move.Act? && move.id == 0 && |s.procs| == 1 && Rolls(s.procs[0], move.ev, key)
    && s.procs[0].buckets[key].count == 2
    && Request(KeyedGen(s.procs[0], key), 1) in s.procs[0].admits
    && Request(KeyedGen(s.procs[0], key), 1) !in s.procs[0].ledger
  }

  lemma SecondUnbilled(p: Proc, cfg: Config, key: Key)
    requires Counted(p) && Looks(p, cfg, key, Opened(cfg, 2, 1, Some(0)), Idle, cfg.window - 1) && Runnable(cfg)
    ensures Enabled(p, Snapshot(cfg.window, cfg.window, {key})) && Rolls(p, Snapshot(cfg.window, cfg.window, {key}), key)
    ensures Request(KeyedGen(p, key), 1) in p.admits && Request(KeyedGen(p, key), 1) !in p.ledger
  {
    assert Exactly(p.admits, KeyedGen(p, key), 2);
    assert Reportables(p.buckets, cfg.window, cfg.window) == {key};
  }

  lemma CountedAt(states: seq<State>, moves: seq<Move>, s: State)
    requires RunsTo(states, moves, s) && |s.procs| == 1
    ensures Counted(s.procs[0])
  {
    RunInv(states, moves, |moves|);
    assert ProcInv(s.procs[0]);
  }

  lemma RollRun(cfg: Config, key: Key) returns (states: seq<State>, moves: seq<Move>)
    requires Runnable(cfg) && cfg.max > 1
    ensures FleetRun(states, moves, 1, cfg.window) && |moves| == 6 && RollsUnbilled(states[5], moves[5], key)
  {
    var s, t;
    states, moves, s := SecondAdmitted(cfg, key);
    CountedAt(states, moves, s);
    SecondUnbilled(s.procs[0], cfg, key);
    WallWindows(cfg);
    states, moves, t := Then(states, moves, s, 5, Snapshot(cfg.window, cfg.window, {key}), cfg.window - 1, cfg.window);
    assert states[5] == s;
    SameFleet(states, moves, 5);
  }

  lemma NeverBilled(states: seq<State>, moves: seq<Move>, key: Key, states': seq<State>, moves': seq<Move>, n: nat)
    requires Goes(states, moves, states', moves') && |moves| == 6 && |states| == 7 && 5 < n < |states'|
    requires RollsUnbilled(states[5], moves[5], key)
    ensures |states'[n].procs| > 0 && Request(KeyedGen(states[5].procs[0], key), 1) !in states'[n].procs[0].ledger
  {
    assert states'[..7][5] == states'[5] && moves'[..6][5] == moves'[5];
    RollLosesTheUnreported(states', moves', 5, n, 0, key, 1);
  }

  /** A run in which a roll loses a request, for any budget above one: check,
      snapshot, fold, write-back, check, and an instant later the snapshot of
      the next wall window. The second request was admitted, is not billed at
      the roll, and is never billed however the run goes on. */
  lemma RollLosesOne(cfg: Config, key: Key) returns (states: seq<State>, moves: seq<Move>)
    requires Runnable(cfg) && cfg.max > 1
    ensures FleetRun(states, moves, 1, cfg.window) && |moves| == 6 && RollsUnbilled(states[5], moves[5], key)
    ensures forall states': seq<State>, moves': seq<Move>, n: nat ::
              Goes(states, moves, states', moves') && 5 < n < |states'| ==>
                |states'[n].procs| > 0 && Request(KeyedGen(states[5].procs[0], key), 1) !in states'[n].procs[0].ledger
  {
    states, moves := RollRun(cfg, key);
    forall states': seq<State>, moves': seq<Move>, n: nat | Goes(states, moves, states', moves') && 5 < n < |states'|
      ensures |states'[n].procs| > 0 && Request(KeyedGen(states[5].procs[0], key), 1) !in states'[n].procs[0].ledger
    {
      NeverBilled(states, moves, key, states', moves', n);
    }
  }

  // ------------------------------------------------------------------
  // A round that was given up and landed
  // ------------------------------------------------------------------

  /** The process after a round it takes for failed. */
  ghost function GivenUp(p: Proc): Proc
    requires p.sync.InFlight?
  {
    AfterWriteBack(AfterFold(p, {}, map[]))
  }

  lemma GivenUpLeaves(p: Proc, k: Key)
    requires p.sync.InFlight? && p.sync.totals == map[] && k in p.buckets
    ensures var q := GivenUp(p);
            && q.sync == Idle && q.cfg == p.cfg && k in q.buckets && q.buckets[k] == p.buckets[k]
            && SerialOf(q, k) == SerialOf(p, k)
  {
    assert AfterFold(p, {}, map[]).sync.totals == map[];
  }

  lemma ReportOfOne(q: Proc, k: Key, now: Instant, epoch: int)
    requires k in q.buckets && q.buckets[k].epoch == Some(epoch) && q.buckets[k].pushed <= q.buckets[k].count
    ensures var next := AfterSnapshot(q, now, epoch, {k});
            var b := q.buckets[k];
            && next.cfg == q.cfg && next.sync.InFlight? && next.sync.epoch == epoch
            && next.sync.serials == map[k := SerialOf(q, k)]
            && next.sync.reports == map[k := Pending(k, b.count - b.pushed, b.count, b.windowStart)]
  {
    var next := AfterSnapshot(q, now, epoch, {k});
    assert next.sync.reports.Keys == {k} && next.sync.serials.Keys == {k};
  }

  lemma ReportedStill(p: Proc, k: Key)
    requires ProcInv(p) && p.sync.InFlight? && !p.sync.folded && k in p.sync.reports && k in p.buckets
    requires p.sync.serials[k] == SerialOf(p, k)
    ensures p.sync.totals == map[] && p.buckets[k].epoch == Some(p.sync.epoch) && p.buckets[k].pushed <= p.buckets[k].count
  {
    assert ReportOk(p, k);
  }

  lemma ReportsAgain(p: Proc, k: Key, now: Instant)
    requires p.sync.InFlight? && p.sync.totals == map[] && k in p.buckets
    requires p.buckets[k].epoch == Some(p.sync.epoch) && p.buckets[k].pushed <= p.buckets[k].count
    ensures var next := AfterSnapshot(GivenUp(p), now, p.sync.epoch, {k});
            var b := p.buckets[k];
            && next.cfg == p.cfg && next.sync.InFlight? && next.sync.epoch == p.sync.epoch
            && next.sync.serials == map[k := SerialOf(p, k)]
            && next.sync.reports == map[k := Pending(k, b.count - b.pushed, b.count, b.windowStart)]
  {
    GivenUpLeaves(p, k);
    ReportOfOne(GivenUp(p), k, now, p.sync.epoch);
  }

  /** A round gives up at its deadline although its statement takes effect, and
      the next round of the same wall window reports the client again. The row
      then has gained more hits than the requests both rounds cover, by the
      whole of the first report: so it counts each request once if and only if
      there was nothing in that report. */
  lemma UnheardRoundBillsTwice(p: Proc, table: Table, k: Key, now: Instant)
    requires ProcInv(p) && p.sync.InFlight? && !p.sync.folded && k in p.sync.reports && k in p.buckets
    requires p.sync.serials[k] == SerialOf(p, k)
    ensures var row := Row(p.cfg.tier, k, p.sync.epoch);
            var next := AfterSnapshot(GivenUp(p), now, p.sync.epoch, {k});
            var landed := FoldedTable(FoldedTable(table, p, p.sync.reports.Keys), next, {k});
            var covered := FoldedRequests(p, {k}) + FoldedRequests(next, {k});
            && Hits(landed, row) - Hits(table, row) == |covered| + p.sync.reports[k].delta
            && (Hits(landed, row) - Hits(table, row) == |covered| <==> p.sync.reports[k].delta == 0)
  {
    var row := Row(p.cfg.tier, k, p.sync.epoch);
    var next := AfterSnapshot(GivenUp(p), now, p.sync.epoch, {k});
    var again := FoldedTable(table, p, p.sync.reports.Keys);
    ReportedStill(p, k);
    ReportsAgain(p, k, now);
    FoldedHits(table, p, p.sync.reports.Keys, row);
    TwiceOver(p, next, again, k, row);
  }

  lemma TwiceOver(p: Proc, next: Proc, again: Table, k: Key, row: Row)
    requires ProcInv(p) && p.sync.InFlight? && k in p.sync.reports && k in p.buckets && p.sync.serials[k] == SerialOf(p, k)
    requires !p.sync.folded && row == Row(p.cfg.tier, k, p.sync.epoch)
    requires next.cfg == p.cfg && next.sync.InFlight? && next.sync.epoch == p.sync.epoch
    requires next.sync.serials == map[k := SerialOf(p, k)]
    requires next.sync.reports == map[k := Pending(k, p.buckets[k].count - p.buckets[k].pushed, p.buckets[k].count,
                                                   p.buckets[k].windowStart)]
    ensures Hits(FoldedTable(again, next, {k}), row) - Hits(again, row)
         == |FoldedRequests(p, {k}) + FoldedRequests(next, {k})|
  {
    FoldedHits(again, next, {k}, row);
    CoveredBy(p, next, k);
  }

  lemma CoveredBy(p: Proc, next: Proc, k: Key)
    requires ProcInv(p) && p.sync.InFlight? && k in p.sync.reports && k in p.buckets && p.sync.serials[k] == SerialOf(p, k)
    requires !p.sync.folded && next.sync.InFlight? && next.sync.serials == map[k := SerialOf(p, k)]
    requires next.sync.reports == map[k := Pending(k, p.buckets[k].count - p.buckets[k].pushed, p.buckets[k].count,
                                                   p.buckets[k].windowStart)]
    ensures |FoldedRequests(p, {k}) + FoldedRequests(next, {k})| == p.buckets[k].count - p.buckets[k].pushed
  {
    var g, b := KeyedGen(p, k), p.buckets[k];
    assert ReportOk(p, k) && BucketOk(b, p.cfg.max);
    RangeSize(g, b.pushed, b.count);
    forall r
      ensures r in FoldedRequests(p, {k}) + FoldedRequests(next, {k}) <==> r in Range(g, b.pushed, b.count)
    {
      assert r == Request(r.gen, r.index);
      assert r.gen == g <==> r.gen.client == Keyed(k) && r.gen.serial == SerialOf(p, k);
    }
    assert FoldedRequests(p, {k}) + FoldedRequests(next, {k}) == Range(g, b.pushed, b.count);
  }
}
