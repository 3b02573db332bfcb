/** How close to their bounds runs really come: the burst of one client across a
    window boundary, and the overflow budget of a fleet across one. */
module Bursts {
  import opened Buckets
  import opened Eviction
  import opened RowKeys
  import opened Limiter
  import opened Protocol
  import opened Fleet
  import opened Windows
  import opened Witnesses

  // ------------------------------------------------------------------
  // Building runs in time order
  // ------------------------------------------------------------------

  ghost function TimeOf(move: Move): Option<Instant> {
    if move.Act? && (move.ev.Check? || move.ev.Snapshot?) then Some(move.ev.now) else None
  }

  /** One time line for the whole fleet. */
  ghost predicate InOrder(moves: seq<Move>) {
    forall a, b :: 0 <= a < b < |moves| && TimeOf(moves[a]).Some? && TimeOf(moves[b]).Some? ==>
      TimeOf(moves[a]).value <= TimeOf(moves[b]).value
  }

  ghost predicate UpTo(moves: seq<Move>, now: Instant) {
    forall a :: 0 <= a < |moves| && TimeOf(moves[a]).Some? ==> TimeOf(moves[a]).value <= now
  }

  ghost predicate Running(states: seq<State>, moves: seq<Move>, s: State, now: Instant) {
    RunsTo(states, moves, s) && TimelyRun(states, moves) && InOrder(moves) && UpTo(moves, now)
  }

  lemma StaysInOrder(moves: seq<Move>, move: Move, before: Instant, now: Instant)
    requires InOrder(moves) && UpTo(moves, before) && before <= now
    requires TimeOf(move).Some? ==> TimeOf(move).value == now
    ensures InOrder(moves + [move]) && UpTo(moves + [move], now)
  {
    var more := moves + [move];
    forall a | 0 <= a < |more|
      ensures a < |moves| ==> more[a] == moves[a]
    {
    }
  }

  lemma Continue(states: seq<State>, moves: seq<Move>, s: State, i: nat, ev: Event, before: Instant, now: Instant)
    returns (states': seq<State>, moves': seq<Move>)
    requires Running(states, moves, s, before) && before <= now
    requires Allowed(s, Act(i, ev)) && Timely(s.procs[i], ev)
    requires TimeOf(Act(i, ev)).Some? ==> TimeOf(Act(i, ev)).value == now
    ensures Running(states', moves', Next(s, Act(i, ev)), now)
    ensures states' == states + [Next(s, Act(i, ev))] && moves' == moves + [Act(i, ev)]
  {
    var move := Act(i, ev);
    Extend(states, moves, s, move);
    StaysTimely(states, moves, s, move, Next(s, move));
    StaysInOrder(moves, move, before, now);
    states', moves' := states + [Next(s, move)], moves + [move];
  }

  ghost function Fresh(cfg: Config): Proc {
    Proc(cfg, map[], OpenedAt(0), Idle, map[], 0, 1, map[Gen(Keyless, 0) := 0], map[], map[], 0)
  }

  ghost function Processes(n: nat, cfg: Config): (procs: seq<Proc>)
    ensures |procs| == n && forall i :: 0 <= i < n ==> procs[i] == Fresh(cfg)
  {
    if n == 0 then [] else Processes(n - 1, cfg) + [Fresh(cfg)]
  }

  ghost predicate Runnable(cfg: Config) {
    0 < cfg.max <= U32_MAX && cfg.window > 1
  }

  lemma Starts(n: nat, cfg: Config) returns (s: State)
    requires Runnable(cfg)
    ensures Running([s], [], s, 0) && |s.procs| == n && forall i :: 0 <= i < n ==> s.procs[i] == Fresh(cfg)
  {
    s := State(Processes(n, cfg), map[], map[], 0);
  }

  // ------------------------------------------------------------------
  // One process: fill the map, then flood it on both sides of the boundary
  // ------------------------------------------------------------------

  /** Either `n` clients exhausted and one at `c`, all in windows that opened
      at 1; or the map full of exhausted ones, and `early` newcomers admitted
      just before the overflow window ends and `late` just after. */
  datatype Stage = Filling(n: nat, c: nat) | Flooding(early: nat, late: nat)

  datatype Phase = Fill | Early | Late

  /** Buckets that these clients have exhausted. */
  ghost function Held(full: set<Key>, max: nat): Map {
    map k | k in full :: OpenedAt(1).(count := max)
  }

  /** And one more client that has made `c` requests. */
  ghost function Partly(full: set<Key>, key: Key, c: nat, max: nat): Map {
    if c == 0 then Held(full, max) else Held(full, max)[key := OpenedAt(1).(count := c)]
  }

  ghost predicate Exhausts(p: Proc, full: set<Key>, key: Key, c: nat) {
    && p.buckets == Partly(full, key, c, p.cfg.max) && p.clock <= 1 && p.overflow == OpenedAt(0)
    && (forall r :: r in p.admits ==> r.gen.client.Keyed?)
  }

  ghost predicate Floods(p: Proc, cfg: Config, early: nat, late: nat) {
    && p.buckets == Held(Callers(PURGE_AT), cfg.max)
    && p.clock <= (if late == 0 then cfg.window - 1 else cfg.window)
    && p.overflow == (if late == 0 then OpenedAt(0).(count := early) else OpenedAt(cfg.window).(count := late))
    && |AdmitsIn(p, Keyless, cfg.window - 1, 1)| == early
    && |AdmitsIn(p, Keyless, cfg.window - 1, 2)| == early + late
  }

  ghost predicate At(p: Proc, cfg: Config, stage: Stage) {
    && p.cfg == cfg
    && match stage
       case Filling(n, c) => Exhausts(p, Callers(n), Caller(n), c)
       case Flooding(early, late) => Floods(p, cfg, early, late)
  }

  function First(phase: Phase): Stage {
    match phase
    case Fill => Filling(0, 0)
    case Early => Flooding(0, 0)
    case Late => Flooding(RATE_LIMIT_OVERFLOW_MAX, 0)
  }

  function Last(phase: Phase): Stage {
    match phase
    case Fill => Filling(PURGE_AT, 0)
    case Early => Flooding(RATE_LIMIT_OVERFLOW_MAX, 0)
    case Late => Flooding(RATE_LIMIT_OVERFLOW_MAX, RATE_LIMIT_OVERFLOW_MAX)
  }

  /** On the way through a phase, not yet at its end. */
  predicate Underway(phase: Phase, stage: Stage, max: nat) {
    match phase
    case Fill => stage.Filling? && stage.n < PURGE_AT && stage.c < max
    case Early => stage.Flooding? && stage.early < RATE_LIMIT_OVERFLOW_MAX && stage.late == 0
    case Late => stage.Flooding? && stage.early == RATE_LIMIT_OVERFLOW_MAX && stage.late < RATE_LIMIT_OVERFLOW_MAX
  }

  function Following(phase: Phase, stage: Stage, max: nat): Stage {
    match stage
    case Filling(n, c) => if c + 1 == max then Filling(n + 1, 0) else Filling(n, c + 1)
    case Flooding(early, late) => if phase == Early then Flooding(early + 1, late) else Flooding(early, late + 1)
  }

  function TimeIn(phase: Phase, cfg: Config): Instant {
    match phase
    case Fill => 1
    case Early => cfg.window - 1
    case Late => cfg.window
  }

  /** The newcomer's name is no client's of the full map. */
  ghost function KeyIn(stage: Stage): Key {
    match stage
    case Filling(n, _) => Caller(n)
    case Flooding(_, _) => "-"
  }

  lemma ChargeOne(full: set<Key>, key: Key, c: nat, cfg: Config)
    requires Runnable(cfg) && key !in full && |full| < PURGE_AT && c < cfg.max
    ensures var m := Partly(full, key, c, cfg.max);
            && RoomMade(m, key, 1, cfg.max, cfg.window, m) && !Saturated(m, key)
            && m[key := Charge(Entry(m, key, 1), 1, cfg.max, cfg.window).0] == Partly(full, key, c + 1, cfg.max)
  {
    var m := Partly(full, key, c, cfg.max);
    assert Held(full, cfg.max).Keys == full;
    assert c == 0 ==> |m| == |full|;
    var e := OpenedAt(1).(count := c);
    assert Entry(m, key, 1) == e && Spent(e) == c;
  }

  lemma FillStep(p: Proc, cfg: Config, full: set<Key>, key: Key, c: nat)
    requires Runnable(cfg) && p.cfg == cfg && Exhausts(p, full, key, c)
    requires key !in full && |full| < PURGE_AT && c < cfg.max
    ensures Enabled(p, Check(key, 1, p.buckets)) && p.clock <= 1
    ensures var q := AfterCheck(p, key, 1, p.buckets).0;
            q.cfg == cfg && Exhausts(q, full, key, c + 1)
  {
    ChargeOne(full, key, c, cfg);
  }

  lemma FillStage(p: Proc, cfg: Config, n: nat, c: nat, key: Key)
    requires Runnable(cfg) && At(p, cfg, Filling(n, c)) && n < PURGE_AT && c < cfg.max && key == Caller(n)
    ensures Enabled(p, Check(key, 1, p.buckets)) && p.clock <= 1
    ensures At(AfterCheck(p, key, 1, p.buckets).0, cfg, Following(Fill, Filling(n, c), cfg.max))
  {
    var full := Callers(n);
    CallersSize(n);
    FillStep(p, cfg, full, key, c);
    NextStage(AfterCheck(p, key, 1, p.buckets).0, cfg, n, c, full, key);
  }

  lemma NextStage(q: Proc, cfg: Config, n: nat, c: nat, full: set<Key>, key: Key)
    requires Runnable(cfg) && c < cfg.max && full == Callers(n) && key == Caller(n)
    requires q.cfg == cfg && Exhausts(q, full, key, c + 1)
    ensures At(q, cfg, Following(Fill, Filling(n, c), cfg.max))
  {
    CallersSize(n);
    Complete(full, key, cfg.max);
  }

  lemma Complete(full: set<Key>, key: Key, max: nat)
    requires max > 0
    ensures Partly(full, key, max, max) == Held(full + {key}, max)
  {
  }

  /** The full map sends a newcomer to the overflow bucket, and stays. */
  lemma FullMapStays(cfg: Config, now: Instant)
    requires Runnable(cfg) && 1 <= now <= cfg.window
    ensures var m := Held(Callers(PURGE_AT), cfg.max);
            |m| == PURGE_AT && RoomMade(m, "-", now, cfg.max, cfg.window, m) && Saturated(m, "-")
  {
    var m := Held(Callers(PURGE_AT), cfg.max);
    CallersSize(PURGE_AT);
    assert forall key :: key in Callers(PURGE_AT) ==> '-' !in key;
    assert m.Keys == Callers(PURGE_AT);
    assert Swept(m, now, cfg.window) == m;
    assert Evictable(m, cfg.max) == {};
    KeptAll(m, EVICTION_TARGET, cfg.max);
  }

  /** One more request, admitted at `now`. */
  lemma OneMore(p: Proc, q: Proc, r: Request, now: Instant, start: Instant, span: nat)
    requires r !in p.admits && q.admits == p.admits[r := now]
    ensures |AdmitsIn(q, r.gen.client, start, span)|
         == |AdmitsIn(p, r.gen.client, start, span)| + (if start <= now < start + span then 1 else 0)
  {
    var before, after := AdmitsIn(p, r.gen.client, start, span), AdmitsIn(q, r.gen.client, start, span);
    if start <= now < start + span {
      assert after == before + {r};
    } else {
      assert after == before;
    }
  }

  lemma KeylessAdmits(p: Proc, now: Instant)
    requires Counted(p) && p.cfg.window > 0
    requires Current(p.overflow, now, p.cfg.window).count < RATE_LIMIT_OVERFLOW_MAX
    ensures var q := AfterKeyless(p, now, p.buckets).0;
            var c := Current(p.overflow, now, p.cfg.window);
            var r := Request(OverflowGen(q), c.count);
            && r !in p.admits && q.admits == p.admits[r := now]
            && q.cfg == p.cfg && q.buckets == p.buckets && q.clock == Max(p.clock, now)
            && q.overflow == c.(count := c.count + 1)
  {
    NothingYet(p.admits, p.next, p.cfg, Keyless);
  }

  lemma FloodStep(p: Proc, cfg: Config, phase: Phase, stage: Stage)
    requires Runnable(cfg) && phase != Fill && Underway(phase, stage, cfg.max) && At(p, cfg, stage) && Counted(p)
    ensures var now := TimeIn(phase, cfg);
            && Enabled(p, Check("-", now, p.buckets)) && p.clock <= now
            && AfterCheck(p, "-", now, p.buckets) == AfterKeyless(p, now, p.buckets)
            && At(AfterKeyless(p, now, p.buckets).0, cfg, Following(phase, stage, cfg.max))
  {
    var now := TimeIn(phase, cfg);
    FullMapStays(cfg, now);
    KeylessAdmits(p, now);
    Flooded(p, AfterKeyless(p, now, p.buckets).0, cfg, phase, stage);
  }

  lemma Flooded(p: Proc, q: Proc, cfg: Config, phase: Phase, stage: Stage)
    requires Runnable(cfg) && phase != Fill && Underway(phase, stage, cfg.max) && At(p, cfg, stage)
    requires var now := TimeIn(phase, cfg);
             var c := Current(p.overflow, now, cfg.window);
             var r := Request(OverflowGen(q), c.count);
             && r !in p.admits && q.admits == p.admits[r := now]
             && q.cfg == p.cfg && q.buckets == p.buckets && q.clock == Max(p.clock, now)
             && q.overflow == c.(count := c.count + 1)
    ensures At(q, cfg, Following(phase, stage, cfg.max))
  {
    var now := TimeIn(phase, cfg);
    var r := Request(OverflowGen(q), Current(p.overflow, now, cfg.window).count);
    OneMore(p, q, r, now, cfg.window - 1, 1);
    OneMore(p, q, r, now, cfg.window - 1, 2);
  }

  // ------------------------------------------------------------------
  // The fleet, phase by phase
  // ------------------------------------------------------------------

  /** One check of process `i`, one stage on. */
  lemma Advance(phase: Phase, stage: Stage, cfg: Config, states: seq<State>, moves: seq<Move>, s: State, i: nat)
    returns (states': seq<State>, moves': seq<Move>, t: State)
    requires Runnable(cfg) && Running(states, moves, s, TimeIn(phase, cfg))
    requires i < |s.procs| && At(s.procs[i], cfg, stage) && Underway(phase, stage, cfg.max)
    ensures Running(states', moves', t, TimeIn(phase, cfg))
    ensures |t.procs| == |s.procs| && At(t.procs[i], cfg, Following(phase, stage, cfg.max))
    ensures forall j :: 0 <= j < |s.procs| && j != i ==> t.procs[j] == s.procs[j]
  {
    var now, p := TimeIn(phase, cfg), s.procs[i];
    RunInv(states, moves, |moves|);
    assert ProcInv(p);
    var ev := Check(KeyIn(stage), now, p.buckets);
    if phase == Fill {
      FillStage(p, cfg, stage.n, stage.c, ev.key);
    } else {
      FloodStep(p, cfg, phase, stage);
    }
    states', moves' := Continue(states, moves, s, i, ev, now, now);
    t := Next(s, Act(i, ev));
  }

  lemma One(phase: Phase, cfg: Config, states: seq<State>, moves: seq<Move>, s: State, i: nat)
    returns (states': seq<State>, moves': seq<Move>, t: State)
    requires Runnable(cfg) && Running(states, moves, s, TimeIn(phase, cfg))
    requires i < |s.procs| && At(s.procs[i], cfg, First(phase))
    ensures Running(states', moves', t, TimeIn(phase, cfg))
    ensures |t.procs| == |s.procs| && At(t.procs[i], cfg, Last(phase))
    ensures forall j :: 0 <= j < |s.procs| && j != i ==> t.procs[j] == s.procs[j]
  {
    states', moves', t := states, moves, s;
    var stage := First(phase);
    while stage != Last(phase)
      invariant stage == Last(phase) || Underway(phase, stage, cfg.max)
      invariant Running(states', moves', t, TimeIn(phase, cfg))
      invariant |t.procs| == |s.procs| && At(t.procs[i], cfg, stage)
      invariant forall j :: 0 <= j < |s.procs| && j != i ==> t.procs[j] == s.procs[j]
      decreases Left(phase, stage, cfg.max).0, Left(phase, stage, cfg.max).1
    {
      states', moves', t := Advance(phase, stage, cfg, states', moves', t, i);
      stage := Following(phase, stage, cfg.max);
    }
  }

  /** What is left of a phase. */
  function Left(phase: Phase, stage: Stage, max: nat): (int, int) {
    match stage
    case Filling(n, c) => (PURGE_AT - n, max - c)
    case Flooding(early, late) => (2 * RATE_LIMIT_OVERFLOW_MAX - early - late, 0)
  }

  lemma Later(states: seq<State>, moves: seq<Move>, s: State, before: Instant, now: Instant)
    requires Running(states, moves, s, before) && before <= now
    ensures Running(states, moves, s, now)
  {
  }

  lemma All(phase: Phase, cfg: Config, states: seq<State>, moves: seq<Move>, s: State, before: Instant)
    returns (states': seq<State>, moves': seq<Move>, t: State)
    requires Runnable(cfg) && Running(states, moves, s, before) && before <= TimeIn(phase, cfg)
    requires forall i :: 0 <= i < |s.procs| ==> At(s.procs[i], cfg, First(phase))
    ensures Running(states', moves', t, TimeIn(phase, cfg)) && |t.procs| == |s.procs|
    ensures forall i :: 0 <= i < |s.procs| ==> At(t.procs[i], cfg, Last(phase))
  {
    states', moves', t := states, moves, s;
    Later(states, moves, s, before, TimeIn(phase, cfg));
    for i := 0 to |s.procs|
      invariant Running(states', moves', t, TimeIn(phase, cfg)) && |t.procs| == |s.procs|
      invariant forall j :: 0 <= j < |s.procs| ==> At(t.procs[j], cfg, if j < i then Last(phase) else First(phase))
    {
      states', moves', t := One(phase, cfg, states', moves', t, i);
    }
  }

  // ------------------------------------------------------------------
  // The overflow budget of a fleet
  // ------------------------------------------------------------------

  /** All keyless requests a fleet admitted from `start` on, for `span` time. */
  ghost function SumKeyless(procs: seq<Proc>, start: Instant, span: nat): nat {
    if procs == [] then 0
    else SumKeyless(procs[..|procs|-1], start, span) + |AdmitsIn(procs[|procs|-1], Keyless, start, span)|
  }

  lemma {:induction false} SumAtMost(procs: seq<Proc>, start: Instant, span: nat, each: nat)
    requires forall i :: 0 <= i < |procs| ==> |AdmitsIn(procs[i], Keyless, start, span)| <= each
    ensures SumKeyless(procs, start, span) <= |procs| * each
  {
    if procs != [] {
      SumAtMost(procs[..|procs|-1], start, span, each);
      Successor(|procs| - 1, each);
    }
  }

  lemma {:induction false} SumAtLeast(procs: seq<Proc>, start: Instant, span: nat, each: nat)
    requires forall i :: 0 <= i < |procs| ==> |AdmitsIn(procs[i], Keyless, start, span)| >= each
    ensures SumKeyless(procs, start, span) >= |procs| * each
  {
    if procs != [] {
      SumAtLeast(procs[..|procs|-1], start, span, each);
      Successor(|procs| - 1, each);
    }
  }

  /** Any run in time order of `n` processes with this window. */
  ghost predicate FleetRun(states: seq<State>, moves: seq<Move>, n: nat, window: nat) {
    && IsRun(states, moves) && TimelyRun(states, moves) && InOrder(moves)
    && |states[0].procs| == n && forall i :: 0 <= i < n ==> states[0].procs[i].cfg.window == window
  }

  /** What one process can admit keyless in `span` time: one budget at a single
      instant, and two in anything longer. */
  function Reach(span: nat): nat {
    if span <= 1 then RATE_LIMIT_OVERFLOW_MAX else 2 * RATE_LIMIT_OVERFLOW_MAX
  }

  lemma ProcessReach(states: seq<State>, moves: seq<Move>, n: nat, window: nat, i: nat, start: Instant, span: nat)
    requires FleetRun(states, moves, n, window) && 0 < span <= window && i < n
    ensures |states[|moves|].procs| == n && |AdmitsIn(states[|moves|].procs[i], Keyless, start, span)| <= Reach(span)
  {
    SameFleet(states, moves, |moves|);
    RunTimed(states, moves, |moves|, i, Keyless);
    var p := states[|moves|].procs[i];
    if span == 1 {
      OneOverflowWindow(p, start, span);
    } else {
      AdmitsBounded(p, Keyless, start, span, 1);
    }
  }

  lemma FleetReach(states: seq<State>, moves: seq<Move>, n: nat, window: nat, start: Instant, span: nat)
    requires FleetRun(states, moves, n, window) && 0 < span <= window
    ensures SumKeyless(states[|moves|].procs, start, span) <= n * Reach(span)
  {
    SameFleet(states, moves, |moves|);
    forall i | 0 <= i < n
      ensures |AdmitsIn(states[|moves|].procs[i], Keyless, start, span)| <= Reach(span)
    {
      ProcessReach(states, moves, n, window, i, start, span);
    }
    SumAtMost(states[|moves|].procs, start, span, Reach(span));
  }

  /** A run that reaches it: every process fills its map with exhausted clients,
      then every one admits a whole budget of newcomers at the last instant of
      its overflow window, and another one instant later. */
  lemma FleetBurst(n: nat, cfg: Config) returns (states: seq<State>, moves: seq<Move>)
    requires Runnable(cfg)
    ensures FleetRun(states, moves, n, cfg.window) && |states[|moves|].procs| == n
    ensures forall i :: 0 <= i < n ==> At(states[|moves|].procs[i], cfg, Last(Late))
  {
    var s := Starts(n, cfg);
    states, moves := [s], [];
    states, moves, s := All(Fill, cfg, states, moves, s, 0);
    states, moves, s := All(Early, cfg, states, moves, s, 1);
    states, moves, s := All(Late, cfg, states, moves, s, cfg.window - 1);
    SameFleet(states, moves, |moves|);
  }

  lemma LongerAdmitsMore(p: Proc, start: Instant, span: nat, longer: nat)
    requires span <= longer
    ensures |AdmitsIn(p, Keyless, start, span)| <= |AdmitsIn(p, Keyless, start, longer)|
  {
    SubsetSize(AdmitsIn(p, Keyless, start, span), AdmitsIn(p, Keyless, start, longer));
  }

  lemma BurstReaches(n: nat, cfg: Config, span: nat) returns (states: seq<State>, moves: seq<Move>)
    requires Runnable(cfg) && span > 0
    ensures FleetRun(states, moves, n, cfg.window)
    ensures SumKeyless(states[|moves|].procs, cfg.window - 1, span) >= n * Reach(span)
  {
    states, moves := FleetBurst(n, cfg);
    var procs := states[|moves|].procs;
    forall i | 0 <= i < n
      ensures |AdmitsIn(procs[i], Keyless, cfg.window - 1, span)| >= Reach(span)
    {
      assert At(procs[i], cfg, Last(Late));
      if span > 1 {
        LongerAdmitsMore(procs[i], cfg.window - 1, 2, span);
      }
    }
    SumAtLeast(procs, cfg.window - 1, span, Reach(span));
  }

  /** The exact bound of a fleet: `b` bounds the keyless admits of every run in
      every interval of this length, at most a window, if and only if it is at
      least one budget per process for a single instant, and two per process
      for anything longer. */
  lemma FleetOverflowExact(n: nat, cfg: Config, span: nat, b: nat)
    requires Runnable(cfg) && 0 < span <= cfg.window
    ensures (forall states: seq<State>, moves: seq<Move>, start: Instant ::
               FleetRun(states, moves, n, cfg.window) ==> SumKeyless(states[|moves|].procs, start, span) <= b)
       <==> n * Reach(span) <= b
  {
    if n * Reach(span) <= b {
      forall states: seq<State>, moves: seq<Move>, start: Instant | FleetRun(states, moves, n, cfg.window)
        ensures SumKeyless(states[|moves|].procs, start, span) <= b
      {
        FleetReach(states, moves, n, cfg.window, start, span);
      }
    } else {
      var states, moves := BurstReaches(n, cfg, span);
      assert SumKeyless(states[|moves|].procs, cfg.window - 1, span) > b;
    }
  }

  /** So "this many requests a minute, fleet-wide" holds of every run if and
      only if the fleet is one process and the minute a single instant. */
  lemma FleetWideIff(n: nat, cfg: Config, span: nat)
    requires Runnable(cfg) && 0 < span <= cfg.window
    ensures (forall states: seq<State>, moves: seq<Move>, start: Instant ::
               FleetRun(states, moves, n, cfg.window) ==>
                 SumKeyless(states[|moves|].procs, start, span) <= RATE_LIMIT_OVERFLOW_MAX)
       <==> n == 0 || (n == 1 && span == 1)
  {
    FleetOverflowExact(n, cfg, span, RATE_LIMIT_OVERFLOW_MAX);
    if n >= 2 {
      ScaleMonotone(2, n, Reach(span));
    }
  }

  // ------------------------------------------------------------------
  // The burst of one client
  // ------------------------------------------------------------------

  /** When the `c`-th request comes: one opens a window, its fellows come at the
      window's last instant, and a second budget of them one instant later. */
  function StrikeAt(c: nat, cfg: Config): Instant {
    if c == 0 then 0 else if c < cfg.max then cfg.window - 1 else cfg.window
  }

  /** After `c` such requests of `key`, all admitted. */
  ghost predicate Struck(p: Proc, cfg: Config, key: Key, c: nat) {
    && p.cfg == cfg && p.clock <= StrikeAt(c, cfg)
    && p.buckets == (if c == 0 then map[] else map[key :=
         if c <= cfg.max then OpenedAt(0).(count := c) else OpenedAt(cfg.window).(count := c - cfg.max)])
    && |AdmitsIn(p, Keyed(key), cfg.window - 1, cfg.window)| == (if c == 0 then 0 else c - 1)
  }

  lemma KeyedAdmits(p: Proc, q: Proc, key: Key, now: Instant, c: Bucket)
    requires Shaped(p) && Counted(p) && !Saturated(p.buckets, key) && q == AfterKeyed(p, key, now, p.buckets).0
    requires c == Current(Entry(p.buckets, key, now), now, p.cfg.window) && Spent(c) < p.cfg.max
    ensures var r := Request(KeyedGen(q, key), c.count);
            && r !in p.admits && q.admits == p.admits[r := now]
            && q.cfg == p.cfg && q.clock == Max(p.clock, now)
            && q.buckets == p.buckets[key := c.(count := WrapInc(c.count))]
  {
    ChargedWindow(p, key, now, p.buckets);
  }

  lemma StrikeBucket(p: Proc, cfg: Config, key: Key, c: nat)
    requires Runnable(cfg) && Struck(p, cfg, key, c) && c < 2 * cfg.max
    ensures var now := StrikeAt(c, cfg);
            var b := Current(Entry(p.buckets, key, now), now, cfg.window);
            && b == (if c < cfg.max then OpenedAt(0).(count := c) else OpenedAt(cfg.window).(count := c - cfg.max))
            && Spent(b) == b.count < cfg.max && WrapInc(b.count) == b.count + 1
            && RoomMade(p.buckets, key, now, cfg.max, cfg.window, p.buckets) && !Saturated(p.buckets, key)
  {
    assert |p.buckets| <= 1;
  }

  lemma Strike(p: Proc, cfg: Config, key: Key, c: nat)
    requires Runnable(cfg) && Struck(p, cfg, key, c) && c < 2 * cfg.max && ProcInv(p)
    ensures Enabled(p, Check(key, StrikeAt(c, cfg), p.buckets)) && !Saturated(p.buckets, key)
    ensures Struck(AfterKeyed(p, key, StrikeAt(c, cfg), p.buckets).0, cfg, key, c + 1)
  {
    StrikeBucket(p, cfg, key, c);
    var now := StrikeAt(c, cfg);
    var q := AfterKeyed(p, key, now, p.buckets).0;
    KeyedAdmits(p, q, key, now, Current(Entry(p.buckets, key, now), now, cfg.window));
    StruckAgain(p, q, cfg, key, c);
  }

  lemma StruckAgain(p: Proc, q: Proc, cfg: Config, key: Key, c: nat)
    requires Runnable(cfg) && Struck(p, cfg, key, c) && c < 2 * cfg.max
    requires var now := StrikeAt(c, cfg);
             var b := if c < cfg.max then OpenedAt(0).(count := c) else OpenedAt(cfg.window).(count := c - cfg.max);
             var r := Request(KeyedGen(q, key), b.count);
             && r !in p.admits && q.admits == p.admits[r := now]
             && q.cfg == p.cfg && q.clock == Max(p.clock, now)
             && q.buckets == p.buckets[key := b.(count := b.count + 1)]
    ensures Struck(q, cfg, key, c + 1)
  {
    var count := if c < cfg.max then c else c - cfg.max;
    OneMore(p, q, Request(KeyedGen(q, key), count), StrikeAt(c, cfg), cfg.window - 1, cfg.window);
  }

  lemma StrikeAgain(cfg: Config, key: Key, c: nat, states: seq<State>, moves: seq<Move>, s: State)
    returns (states': seq<State>, moves': seq<Move>, t: State)
    requires Runnable(cfg) && c < 2 * cfg.max
    requires Running(states, moves, s, StrikeAt(c, cfg)) && SparedIn(states, moves, 0, Keyed(key))
    requires |s.procs| == 1 && Struck(s.procs[0], cfg, key, c)
    ensures Running(states', moves', t, StrikeAt(c + 1, cfg)) && SparedIn(states', moves', 0, Keyed(key))
    ensures |t.procs| == 1 && Struck(t.procs[0], cfg, key, c + 1)
  {
    var now, p := StrikeAt(c, cfg), s.procs[0];
    RunInv(states, moves, |moves|);
    assert ProcInv(p);
    Strike(p, cfg, key, c);
    var ev := Check(key, now, p.buckets);
    states', moves' := Continue(states, moves, s, 0, ev, now, now);
    t := Next(s, Act(0, ev));
    StaysSpared(states, moves, s, Act(0, ev), t, 0, Keyed(key));
    Later(states', moves', t, now, StrikeAt(c + 1, cfg));
  }

  lemma KeyedBurst(cfg: Config, key: Key) returns (states: seq<State>, moves: seq<Move>)
    requires Runnable(cfg)
    ensures FleetRun(states, moves, 1, cfg.window) && SparedIn(states, moves, 0, Keyed(key))
    ensures states[0].procs[0].cfg == cfg && |states[|moves|].procs| == 1
    ensures |AdmitsIn(states[|moves|].procs[0], Keyed(key), cfg.window - 1, cfg.window)| == 2 * cfg.max - 1
  {
    var s := Starts(1, cfg);
    states, moves := [s], [];
    for c := 0 to 2 * cfg.max
      invariant Running(states, moves, s, StrikeAt(c, cfg)) && SparedIn(states, moves, 0, Keyed(key))
      invariant |s.procs| == 1 && Struck(s.procs[0], cfg, key, c)
    {
      states, moves, s := StrikeAgain(cfg, key, c, states, moves, s);
    }
    SameFleet(states, moves, |moves|);
  }

  ghost function AdmitsAt(s: State, i: nat, client: Client, start: Instant, span: nat): set<Request> {
    if i < |s.procs| then AdmitsIn(s.procs[i], client, start, span) else {}
  }

  /** The exact burst: `b` bounds what one process admits a client that is not
      evicted while live, in every run and every interval of one window, if
      and only if it is at least twice the budget less one. */
  lemma BurstExact(cfg: Config, key: Key, b: nat)
    requires Runnable(cfg)
    ensures (forall states: seq<State>, moves: seq<Move>, start: Instant ::
               FleetRun(states, moves, 1, cfg.window) && SparedIn(states, moves, 0, Keyed(key)) &&
               states[0].procs[0].cfg == cfg ==>
                 |AdmitsAt(states[|moves|], 0, Keyed(key), start, cfg.window)| <= b)
       <==> 2 * cfg.max - 1 <= b
  {
    if 2 * cfg.max - 1 <= b {
      forall states: seq<State>, moves: seq<Move>, start: Instant |
        FleetRun(states, moves, 1, cfg.window) && SparedIn(states, moves, 0, Keyed(key)) && states[0].procs[0].cfg == cfg
        ensures |AdmitsAt(states[|moves|], 0, Keyed(key), start, cfg.window)| <= b
      {
        SameFleet(states, moves, |moves|);
        BurstBound(states, moves, |moves|, 0, key, start);
      }
    } else {
      var states, moves := KeyedBurst(cfg, key);
      assert |AdmitsAt(states[|moves|], 0, Keyed(key), cfg.window - 1, cfg.window)| > b;
    }
  }
}
