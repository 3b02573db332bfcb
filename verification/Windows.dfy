/** Two clocks that do not line up: local windows that open when a client first
    calls, and wall windows aligned to the clock. How much one client can get
    admitted in any interval, and how much it can put on one shared row. */
module Windows {
  import opened Buckets
  import opened Eviction
  import opened RowKeys
  import opened Limiter
  import opened Protocol
  import opened Fleet

  // ------------------------------------------------------------------
  // Assumptions on a run
  // ------------------------------------------------------------------

  /** One time line: sections read the clock in order, and a round's epoch is
      the wall window it reads the clock in. */
  ghost predicate Timely(p: Proc, ev: Event) {
    match ev
    case Check(key, now, room) => p.clock <= now
    case Snapshot(now, epoch, picked) => p.clock <= now && epoch == CurrentEpoch(now, p.cfg.window)
    case _ => true
  }

  /** The step does not evict the client's bucket while it is live. */
  ghost predicate Spares(p: Proc, ev: Event, client: Client) {
    (client.Keyed? && ev.Check? && client.key in p.buckets &&
     Live(p.buckets[client.key], ev.now, p.cfg.window)) ==> client.key in ev.room
  }

  // ------------------------------------------------------------------
  // When things happened
  // ------------------------------------------------------------------

  /** The window that opened at `birth` overlaps the wall window `epoch`. */
  ghost predicate Overlaps(birth: Instant, epoch: int, window: nat) {
    epoch - window < birth < epoch + window
  }

  ghost predicate BirthsKnown(p: Proc) {
    && (forall k :: k in p.buckets ==>
          KeyedGen(p, k) in p.births && p.births[KeyedGen(p, k)] == p.buckets[k].windowStart)
    && OverflowGen(p) in p.births && p.births[OverflowGen(p)] == p.overflow.windowStart
    && (forall g :: g in p.births ==> g.serial < p.next && p.births[g] <= p.clock)
  }

  ghost predicate AdmitTimes(p: Proc) {
    forall r :: r in p.admits ==>
      r.gen in p.births && p.births[r.gen] <= p.admits[r] < p.births[r.gen] + p.cfg.window
  }

  ghost predicate BillTimes(p: Proc) {
    && (forall r :: r in p.ledger ==>
          r.gen in p.births && Overlaps(p.births[r.gen], p.ledger[r].epoch, p.cfg.window))
    && (p.sync.InFlight? ==> forall k :: k in p.sync.reports && k in p.sync.serials ==>
          ReportTimed(p, k))
  }

  ghost predicate ReportTimed(p: Proc, k: Key)
    requires p.sync.InFlight? && k in p.sync.serials
  {
    var g := Gen(Keyed(k), p.sync.serials[k]);
    g in p.births && Overlaps(p.births[g], p.sync.epoch, p.cfg.window)
  }

  /** A window of a client opens with a request, which is admitted at once. */
  ghost predicate FirstsIn(births: map<Gen, Instant>, admits: map<Request, Instant>) {
    forall g :: g in births && g.client.Keyed? ==> Request(g, 0) in admits && admits[Request(g, 0)] == births[g]
  }

  ghost predicate FirstAtBirth(p: Proc) {
    FirstsIn(p.births, p.admits)
  }

  ghost predicate TimeInv(p: Proc) {
    BirthsKnown(p) && AdmitTimes(p) && BillTimes(p) && FirstAtBirth(p)
  }

  lemma StartedTime(p: Proc)
    requires Started(p)
    ensures TimeInv(p)
  {
  }

  lemma KeyedBirths(p: Proc, key: Key, now: Instant, room: Map)
    requires Shaped(p) && BirthsKnown(p) && Within(p, room) && !Saturated(room, key) && p.clock <= now
    ensures BirthsKnown(AfterKeyed(p, key, now, room).0)
  {
    var q := AfterKeyed(p, key, now, room).0;
    forall k | k in q.buckets
      ensures KeyedGen(q, k) in q.births && q.births[KeyedGen(q, k)] == q.buckets[k].windowStart
    {
      if k == key {
        assert SerialOf(q, k) == if FreshWindow(p, key, now, room) then p.next else SerialOf(p, k);
      } else {
        assert k in room && KeyedGen(q, k) == KeyedGen(p, k);
      }
    }
    assert OverflowGen(q) == OverflowGen(p);
  }

  /** The window a keyed check charges, and when it opened. */
  lemma ChargedBirth(p: Proc, key: Key, now: Instant, room: Map)
    requires Shaped(p) && BirthsKnown(p) && Within(p, room) && !Saturated(room, key) && p.clock <= now
    ensures var q := AfterKeyed(p, key, now, room).0;
            var g := KeyedGen(q, key);
            && g in q.births && q.births[g] <= now < q.births[g] + p.cfg.window
            && (forall h :: h in p.births ==> h in q.births && q.births[h] == p.births[h])
            && (forall r :: r in q.admits ==>
                  if r.gen == g && q.admits[r] == now then true else r in p.admits && q.admits[r] == p.admits[r])
  {
    var q := AfterKeyed(p, key, now, room).0;
    var g := KeyedGen(q, key);
    if FreshWindow(p, key, now, room) {
      assert g == Gen(Keyed(key), p.next);
      assert g !in p.births;
    } else {
      assert g == KeyedGen(p, key);
    }
  }

  lemma KeyedTimes(p: Proc, key: Key, now: Instant, room: Map)
    requires Shaped(p) && BirthsKnown(p) && AdmitTimes(p) && Within(p, room)
    requires !Saturated(room, key) && p.clock <= now
    ensures AdmitTimes(AfterKeyed(p, key, now, room).0)
  {
    ChargedBirth(p, key, now, room);
  }

  lemma KeyedFirsts(p: Proc, key: Key, now: Instant, room: Map)
    requires Shaped(p) && Counted(p) && BirthsKnown(p) && FirstAtBirth(p) && Within(p, room) && !Saturated(room, key)
    ensures FirstAtBirth(AfterKeyed(p, key, now, room).0)
  {
    var (q, a) := AfterKeyed(p, key, now, room);
    var n := Current(Entry(room, key, now), now, p.cfg.window).count;
    var r := Request(KeyedGen(q, key), n);
    ChargedWindow(p, key, now, room);
    assert r !in p.admits;
    assert q.admits == if a.Admit? then p.admits[r := now] else p.admits;
    FirstsExtend(p.births, p.admits, r, now);
  }

  lemma FirstsExtend(births: map<Gen, Instant>, admits: map<Request, Instant>, r: Request, now: Instant)
    requires FirstsIn(births, admits) && r !in admits
    ensures FirstsIn(births, admits[r := now])
    ensures r.index == 0 ==> FirstsIn(births[r.gen := now], admits[r := now])
  {
  }

  lemma KeylessFirsts(p: Proc, now: Instant, room: Map)
    requires Shaped(p) && FirstAtBirth(p)
    ensures FirstAtBirth(AfterKeyless(p, now, room).0)
  {
  }

  lemma BillTimesFrame(p: Proc, q: Proc)
    requires BillTimes(p) && q.ledger == p.ledger && q.sync == p.sync && q.cfg == p.cfg
    requires forall g :: g in p.births ==> g in q.births && q.births[g] == p.births[g]
    ensures BillTimes(q)
  {
    if q.sync.InFlight? {
      forall k | k in q.sync.reports && k in q.sync.serials
        ensures ReportTimed(q, k)
      {
        assert ReportTimed(p, k);
      }
    }
  }

  lemma KeyedKeepsTime(p: Proc, key: Key, now: Instant, room: Map)
    requires Shaped(p) && Counted(p) && TimeInv(p) && Within(p, room)
    requires !Saturated(room, key) && p.clock <= now
    ensures TimeInv(AfterKeyed(p, key, now, room).0)
  {
    KeyedBirths(p, key, now, room);
    KeyedTimes(p, key, now, room);
    KeyedFirsts(p, key, now, room);
    BillTimesFrame(p, AfterKeyed(p, key, now, room).0);
  }

  lemma KeylessBirths(p: Proc, now: Instant, room: Map, key: Key)
    requires Shaped(p) && BirthsKnown(p) && Within(p, room) && p.clock <= now
    ensures BirthsKnown(AfterKeyless(p, now, room).0)
  {
    var q := AfterKeyless(p, now, room).0;
    forall k | k in q.buckets
      ensures KeyedGen(q, k) in q.births && q.births[KeyedGen(q, k)] == q.buckets[k].windowStart
    {
      assert KeyedGen(q, k) == KeyedGen(p, k);
    }
  }

  lemma KeylessTimes(p: Proc, now: Instant, room: Map)
    requires Shaped(p) && BirthsKnown(p) && AdmitTimes(p) && p.clock <= now
    ensures AdmitTimes(AfterKeyless(p, now, room).0)
  {
    var q := AfterKeyless(p, now, room).0;
    if Live(p.overflow, now, p.cfg.window) {
      assert OverflowGen(q) == OverflowGen(p);
    } else {
      assert OverflowGen(q) !in p.births;
    }
  }

  lemma KeylessKeepsTime(p: Proc, now: Instant, room: Map, key: Key)
    requires Shaped(p) && TimeInv(p) && Within(p, room) && p.clock <= now
    ensures TimeInv(AfterKeyless(p, now, room).0)
  {
    KeylessBirths(p, now, room, key);
    KeylessTimes(p, now, room);
    KeylessFirsts(p, now, room);
    BillTimesFrame(p, AfterKeyless(p, now, room).0);
  }

  lemma SnapshotTimes(p: Proc, now: Instant, epoch: int, picked: set<Key>, k: Key)
    requires Shaped(p) && BirthsKnown(p) && p.clock <= now && epoch == CurrentEpoch(now, p.cfg.window)
    requires k in picked && k in p.buckets && Reportable(p.buckets[k], now, p.cfg.window)
    ensures ReportTimed(AfterSnapshot(p, now, epoch, picked), k)
  {
    EpochIsTheWindowStart(now, p.cfg.window, epoch);
    assert Gen(Keyed(k), SerialOf(p, k)) == KeyedGen(p, k);
  }

  lemma SnapshotKeepsTime(p: Proc, now: Instant, epoch: int, picked: set<Key>)
    requires Shaped(p) && TimeInv(p) && p.clock <= now && epoch == CurrentEpoch(now, p.cfg.window)
    requires picked <= Reportables(p.buckets, now, p.cfg.window)
    ensures TimeInv(AfterSnapshot(p, now, epoch, picked))
  {
    var q := AfterSnapshot(p, now, epoch, picked);
    assert OverflowGen(q) == OverflowGen(p);
    forall k | k in q.buckets
      ensures KeyedGen(q, k) in q.births && q.births[KeyedGen(q, k)] == q.buckets[k].windowStart
    {
      assert KeyedGen(q, k) == KeyedGen(p, k);
    }
    forall k | k in q.sync.reports && k in q.sync.serials
      ensures ReportTimed(q, k)
    {
      SnapshotTimes(p, now, epoch, picked, k);
    }
  }

  lemma FoldKeepsTime(p: Proc, landed: set<Key>, table: Table)
    requires TimeInv(p) && p.sync.InFlight?
    ensures TimeInv(AfterFold(p, landed, table))
  {
    var q := AfterFold(p, landed, table);
    assert OverflowGen(q) == OverflowGen(p);
    forall k | k in q.buckets
      ensures KeyedGen(q, k) in q.births && q.births[KeyedGen(q, k)] == q.buckets[k].windowStart
    {
      assert KeyedGen(q, k) == KeyedGen(p, k);
    }
    forall k | k in q.sync.reports && k in q.sync.serials
      ensures ReportTimed(q, k)
    {
      assert ReportTimed(p, k);
    }
    forall r | r in q.ledger
      ensures r.gen in q.births && Overlaps(q.births[r.gen], q.ledger[r].epoch, q.cfg.window)
    {
      if InFold(p, landed, r) {
        assert ReportTimed(p, r.gen.client.key);
        assert r.gen == Gen(Keyed(r.gen.client.key), p.sync.serials[r.gen.client.key]);
      }
    }
  }

  lemma WriteBackKeepsTime(p: Proc)
    requires TimeInv(p) && p.sync.InFlight?
    ensures TimeInv(AfterWriteBack(p))
  {
    var q := AfterWriteBack(p);
    assert OverflowGen(q) == OverflowGen(p);
    forall k | k in q.buckets
      ensures KeyedGen(q, k) in q.births && q.births[KeyedGen(q, k)] == q.buckets[k].windowStart
    {
      assert KeyedGen(q, k) == KeyedGen(p, k);
    }
  }

  lemma StepKeepsTime(p: Proc, ev: Event, table: Table)
    requires ProcInv(p) && TimeInv(p) && Enabled(p, ev) && Timely(p, ev)
    ensures TimeInv(After(p, ev, table))
  {
    match ev
    case Check(key, now, room) =>
      RoomMadeIsOk(p, key, now, room);
      if Saturated(room, key) {
        KeylessKeepsTime(p, now, room, key);
      } else {
        KeyedKeepsTime(p, key, now, room);
      }
    case Snapshot(now, epoch, picked) => SnapshotKeepsTime(p, now, epoch, picked);
    case Fold(landed) => FoldKeepsTime(p, landed, table);
    case WriteBack => WriteBackKeepsTime(p);
  }

  // ------------------------------------------------------------------
  // Windows of one client are at least a window apart
  // ------------------------------------------------------------------

  ghost predicate SpacedBirths(births: map<Gen, Instant>, client: Client, window: nat) {
    forall g, h :: g in births && h in births && g.client == h.client == client && g.serial < h.serial ==>
      births[g] + window <= births[h]
  }

  /** `g` is the window its client is in now. */
  ghost predicate IsCurrent(p: Proc, g: Gen) {
    if g.client.Keyed? then g.client.key in p.buckets && g == KeyedGen(p, g.client.key) else g == OverflowGen(p)
  }

  ghost predicate PastEnded(p: Proc, client: Client) {
    forall g :: g in p.births && g.client == client ==>
      IsCurrent(p, g) || p.births[g] + p.cfg.window <= p.clock
  }

  ghost predicate Spaced(p: Proc, client: Client) {
    SpacedBirths(p.births, client, p.cfg.window) && PastEnded(p, client)
  }

  lemma StartedSpaced(p: Proc, client: Client)
    requires Started(p)
    ensures Spaced(p, client)
  {
  }

  /** A window that opens does so after all earlier ones of its client ended. */
  lemma OpeningKeepsSpacing(births: map<Gen, Instant>, g: Gen, now: Instant, window: nat)
    requires SpacedBirths(births, g.client, window)
    requires forall h :: h in births && h.client == g.client ==> h.serial < g.serial && births[h] + window <= now
    ensures SpacedBirths(births[g := now], g.client, window)
  {
  }

  /** By the time a check opens a window for a client, its last one is over. */
  lemma EndedBy(p: Proc, client: Client, now: Instant)
    requires BirthsKnown(p) && Spaced(p, client) && p.clock <= now
    requires client.Keyed? && client.key in p.buckets ==> !Live(p.buckets[client.key], now, p.cfg.window)
    requires client == Keyless ==> !Live(p.overflow, now, p.cfg.window)
    ensures forall h :: h in p.births && h.client == client ==> h.serial < p.next && p.births[h] + p.cfg.window <= now
  {
  }

  lemma KeyedKeepsSpaced(p: Proc, key: Key, now: Instant, room: Map, client: Client)
    requires Shaped(p) && BirthsKnown(p) && Spaced(p, client) && Within(p, room)
    requires !Saturated(room, key) && p.clock <= now && Spares(p, Check(key, now, room), client)
    ensures Spaced(AfterKeyed(p, key, now, room).0, client)
  {
    var q := AfterKeyed(p, key, now, room).0;
    var g := KeyedGen(q, key);
    var opens := FreshWindow(p, key, now, room);
    assert SerialOf(q, key) == if opens then p.next else SerialOf(p, key);
    if opens && client == Keyed(key) {
      EndedBy(p, client, now);
      OpeningKeepsSpacing(p.births, g, now, p.cfg.window);
    }
    forall h | h in q.births && h.client == client
      ensures IsCurrent(q, h) || q.births[h] + q.cfg.window <= q.clock
    {
      KeyedPast(p, key, now, room, h);
    }
  }

  /** A client's last window is over when a check replaces or drops it. */
  lemma LeftIsOver(p: Proc, k: Key, ev: Event)
    requires BirthsKnown(p) && Spares(p, ev, Keyed(k)) && ev.Check? && k in p.buckets
    requires p.clock <= ev.now
    requires k !in ev.room || !Live(p.buckets[k], ev.now, p.cfg.window)
    ensures p.births[KeyedGen(p, k)] + p.cfg.window <= ev.now
  {
  }

  /** A live window that kept its bucket is still its client's window. */
  lemma StaysCurrent(p: Proc, key: Key, now: Instant, room: Map, k: Key)
    requires Shaped(p) && Within(p, room) && k in p.buckets && k in room && Live(p.buckets[k], now, p.cfg.window)
    ensures var q := AfterKeyed(p, key, now, room).0; k in q.buckets && KeyedGen(q, k) == KeyedGen(p, k)
  {
  }

  lemma KeyedPast(p: Proc, key: Key, now: Instant, room: Map, h: Gen)
    requires Shaped(p) && BirthsKnown(p) && PastEnded(p, h.client) && Within(p, room)
    requires !Saturated(room, key) && p.clock <= now && Spares(p, Check(key, now, room), h.client)
    requires h in AfterKeyed(p, key, now, room).0.births
    ensures var q := AfterKeyed(p, key, now, room).0;
            IsCurrent(q, h) || q.births[h] + q.cfg.window <= q.clock
  {
    if h in p.births && IsCurrent(p, h) && h.client.Keyed? {
      var k := h.client.key;
      if k !in room || !Live(p.buckets[k], now, p.cfg.window) {
        LeftIsOver(p, k, Check(key, now, room));
      } else {
        StaysCurrent(p, key, now, room, k);
      }
    }
  }

  lemma KeylessPast(p: Proc, key: Key, now: Instant, room: Map, h: Gen)
    requires Shaped(p) && BirthsKnown(p) && PastEnded(p, h.client) && Within(p, room)
    requires p.clock <= now && Spares(p, Check(key, now, room), h.client)
    requires h in AfterKeyless(p, now, room).0.births
    ensures var q := AfterKeyless(p, now, room).0;
            IsCurrent(q, h) || q.births[h] + q.cfg.window <= q.clock
  {
    var q := AfterKeyless(p, now, room).0;
    if h in p.births && IsCurrent(p, h) && h.client.Keyed? {
      var k := h.client.key;
      if k in room {
        assert KeyedGen(q, k) == KeyedGen(p, k);
      } else {
        LeftIsOver(p, k, Check(key, now, room));
      }
    }
  }

  lemma KeylessKeepsSpaced(p: Proc, key: Key, now: Instant, room: Map, client: Client)
    requires Shaped(p) && BirthsKnown(p) && Spaced(p, client) && Within(p, room)
    requires p.clock <= now && Spares(p, Check(key, now, room), client)
    ensures Spaced(AfterKeyless(p, now, room).0, client)
  {
    var q := AfterKeyless(p, now, room).0;
    if !Live(p.overflow, now, p.cfg.window) && client == Keyless {
      EndedBy(p, client, now);
      OpeningKeepsSpacing(p.births, OverflowGen(q), now, p.cfg.window);
    }
    forall h | h in q.births && h.client == client
      ensures IsCurrent(q, h) || q.births[h] + q.cfg.window <= q.clock
    {
      KeylessPast(p, key, now, room, h);
    }
  }

  lemma QuietKeepsSpaced(p: Proc, q: Proc, client: Client)
    requires Spaced(p, client) && q.births == p.births && q.serials == p.serials && q.cfg == p.cfg
    requires q.overflowSerial == p.overflowSerial && q.buckets.Keys == p.buckets.Keys && p.clock <= q.clock
    ensures Spaced(q, client)
  {
    forall g | g in q.births && g.client == client
      ensures IsCurrent(q, g) || q.births[g] + q.cfg.window <= q.clock
    {
      if IsCurrent(p, g) && g.client.Keyed? {
        assert KeyedGen(q, g.client.key) == KeyedGen(p, g.client.key);
      }
    }
  }

  lemma CheckKeepsSpaced(p: Proc, key: Key, now: Instant, room: Map, client: Client)
    requires Shaped(p) && BirthsKnown(p) && Spaced(p, client) && Within(p, room)
    requires p.clock <= now && Spares(p, Check(key, now, room), client)
    ensures Spaced(AfterCheck(p, key, now, room).0, client)
  {
    if Saturated(room, key) {
      KeylessKeepsSpaced(p, key, now, room, client);
    } else {
      KeyedKeepsSpaced(p, key, now, room, client);
    }
  }

  lemma StepKeepsSpaced(p: Proc, ev: Event, table: Table, client: Client)
    requires Shaped(p) && BirthsKnown(p) && Enabled(p, ev) && Timely(p, ev) && Spares(p, ev, client)
    requires Spaced(p, client)
    ensures Spaced(After(p, ev, table), client)
  {
    match ev
    case Check(key, now, room) =>
      RoomMadeIsOk(p, key, now, room);
      CheckKeepsSpaced(p, key, now, room, client);
    case Snapshot(now, epoch, picked) =>
      QuietKeepsSpaced(p, AfterSnapshot(p, now, epoch, picked), client);
    case Fold(landed) => QuietKeepsSpaced(p, AfterFold(p, landed, table), client);
    case WriteBack => QuietKeepsSpaced(p, AfterWriteBack(p), client);
  }

  // ------------------------------------------------------------------
  // Counting windows
  // ------------------------------------------------------------------

  /** `n` windows of a client span at least `n - 1` window lengths. */
  lemma {:induction false} Spread(births: map<Gen, Instant>, gens: set<Gen>, client: Client, window: nat)
    returns (first: Gen, last: Gen)
    requires gens != {} && gens <= births.Keys && SpacedBirths(births, client, window)
    requires forall g :: g in gens ==> g.client == client
    ensures first in gens && last in gens && forall g :: g in gens ==> g.serial <= last.serial
    ensures births[last] - births[first] >= (|gens| - 1) * window
  {
    last := Latest(gens);
    if gens == {last} {
      first := last;
    } else {
      var prev;
      first, prev := Spread(births, gens - {last}, client, window);
      assert prev != last && prev.client == last.client;
      assert prev.serial < last.serial;
      assert births[last] - births[first] >= (|gens| - 2) * window + window;
    }
  }

  lemma {:induction false} Latest(gens: set<Gen>) returns (last: Gen)
    requires gens != {}
    ensures last in gens && forall g :: g in gens ==> g.serial <= last.serial
  {
    last :| last in gens;
    if gens != {last} {
      var rest := Latest(gens - {last});
      if last.serial < rest.serial { last := rest; }
    }
  }

  /** Windows that open inside an open interval of `n + 1` window lengths. */
  lemma WindowsIn(births: map<Gen, Instant>, gens: set<Gen>, client: Client, window: nat, lo: int, span: nat, n: nat)
    requires gens <= births.Keys && SpacedBirths(births, client, window) && 0 < span <= n * window
    requires forall g :: g in gens ==> g.client == client && lo - window < births[g] < lo + span
    ensures |gens| <= n + 1
  {
    if gens != {} {
      var first, last := Spread(births, gens, client, window);
      assert (|gens| - 1) * window < span + window <= n * window + window;
      if |gens| >= n + 2 {
        Successor(n, window);
        ScaleMonotone(n + 1, |gens| - 1, window);
      }
    }
  }

  /** Requests of `gens`, at most `limit` each. */
  lemma {:induction false} RequestsIn(requests: set<Request>, gens: set<Gen>, limit: nat)
    requires forall r :: r in requests ==> r.gen in gens && r.index < limit
    ensures |requests| <= |gens| * limit
  {
    if gens == {} {
      assert requests == {};
    } else {
      var g :| g in gens;
      var mine := set r | r in requests && r.gen == g;
      RequestsIn(requests - mine, gens - {g}, limit);
      AtMostTo(mine, g, limit);
      SubsetSize(mine, requests);
      Successor(|gens| - 1, limit);
    }
  }

  // ------------------------------------------------------------------
  // The bounds, for one process
  // ------------------------------------------------------------------

  /** A client's requests admitted from `start` on, for `span` time. */
  ghost function AdmitsIn(p: Proc, client: Client, start: Instant, span: nat): set<Request> {
    set r | r in p.admits && r.gen.client == client && start <= p.admits[r] < start + span
  }

  lemma AdmitsBounded(p: Proc, client: Client, start: Instant, span: nat, n: nat)
    requires ProcInv(p) && TimeInv(p) && Spaced(p, client) && 0 < span <= n * p.cfg.window
    ensures |AdmitsIn(p, client, start, span)| <= (n + 1) * Limit(p.cfg, client)
  {
    var requests := AdmitsIn(p, client, start, span);
    var gens := set r | r in requests :: r.gen;
    forall g | g in gens
      ensures g in p.births && g.client == client && start - p.cfg.window < p.births[g] < start + span
    {
      var r :| r in requests && r.gen == g;
    }
    WindowsIn(p.births, gens, client, p.cfg.window, start, span, n);
    RequestsIn(requests, gens, Limit(p.cfg, client));
    ScaleMonotone(|gens|, n + 1, Limit(p.cfg, client));
  }

  /** At most one window of a client is running at any instant. */
  lemma OneRunning(births: map<Gen, Instant>, gens: set<Gen>, client: Client, window: nat, now: Instant)
    requires gens <= births.Keys && SpacedBirths(births, client, window)
    requires forall g :: g in gens ==> g.client == client && now - window < births[g] <= now
    ensures |gens| <= 1
  {
    if |gens| > 1 {
      var first, last := Spread(births, gens, client, window);
      ScaleMonotone(1, |gens| - 1, window);
    }
  }

  /** In an interval inside which no overflow window opens, keyless requests get
      no more than the budget of one. */
  lemma OneOverflowWindow(p: Proc, start: Instant, span: nat)
    requires ProcInv(p) && TimeInv(p) && Spaced(p, Keyless)
    requires forall g :: g in p.births && g.client == Keyless ==> !(start < p.births[g] < start + span)
    ensures |AdmitsIn(p, Keyless, start, span)| <= RATE_LIMIT_OVERFLOW_MAX
  {
    var requests := AdmitsIn(p, Keyless, start, span);
    IntervalWindows(p, Keyless, start, span);
    OneRunning(p.births, WindowsOf(requests), Keyless, p.cfg.window, start);
    RequestsIn(requests, WindowsOf(requests), RATE_LIMIT_OVERFLOW_MAX);
  }

  /** To have a window for every window length the interval spans and one more,
      the first must open before the interval, and the request that opened it
      is outside. */
  lemma OpenerOutside(p: Proc, key: Key, gens: set<Gen>, start: Instant, span: nat, n: nat) returns (opener: Request)
    requires TimeInv(p) && Spaced(p, Keyed(key)) && span <= n * p.cfg.window
    requires gens <= p.births.Keys && |gens| == n + 1
    requires forall g :: g in gens ==> g.client == Keyed(key) && p.births[g] < start + span
    ensures opener.gen in gens && opener.index == 0 && opener in p.admits && p.admits[opener] < start
  {
    var first, last := Spread(p.births, gens, Keyed(key), p.cfg.window);
    opener := Request(first, 0);
  }

  /** The windows of the requests in an interval. */
  ghost function WindowsOf(requests: set<Request>): (gens: set<Gen>)
    ensures forall r :: r in requests ==> r.gen in gens
    ensures forall g :: g in gens ==> exists r :: r in requests && r.gen == g
  {
    set r | r in requests :: r.gen
  }

  lemma IntervalWindows(p: Proc, client: Client, start: Instant, span: nat)
    requires AdmitTimes(p)
    ensures var gens := WindowsOf(AdmitsIn(p, client, start, span));
            && gens <= p.births.Keys
            && forall g :: g in gens ==> g.client == client && start - p.cfg.window < p.births[g] < start + span
  {
    var requests := AdmitsIn(p, client, start, span);
    forall g | g in WindowsOf(requests)
      ensures g in p.births && g.client == client && start - p.cfg.window < p.births[g] < start + span
    {
      var r :| r in requests && r.gen == g;
    }
  }

  lemma IntervalIndices(p: Proc, key: Key, start: Instant, span: nat)
    requires ProcInv(p)
    ensures forall r :: r in AdmitsIn(p, Keyed(key), start, span) ==> r.index < p.cfg.max
  {
  }

  /** The requests of at most `n + 1` windows, one of them outside if there are
      as many. */
  lemma FewRequests(requests: set<Request>, gens: set<Gen>, max: nat, n: nat, outside: set<Request>)
    requires max > 0 && |gens| <= n + 1 && outside !! requests
    requires |gens| == n + 1 ==> outside != {}
    requires forall r :: r in requests + outside ==> r.gen in gens && r.index < max
    ensures |requests| < (n + 1) * max
  {
    RequestsIn(requests + outside, gens, max);
    assert |requests + outside| == |requests| + |outside|;
    Successor(n, max);
    if |gens| <= n {
      ScaleMonotone(|gens|, n, max);
    }
  }

  lemma KeyedWindowsIn(p: Proc, key: Key, start: Instant, span: nat, n: nat) returns (outside: set<Request>)
    requires TimeInv(p) && Spaced(p, Keyed(key)) && 0 < span <= n * p.cfg.window
    ensures var requests := AdmitsIn(p, Keyed(key), start, span);
            var gens := WindowsOf(requests);
            && |gens| <= n + 1 && outside !! requests && (|gens| == n + 1 ==> outside != {})
            && forall r :: r in outside ==> r.gen in gens && r.index == 0
  {
    var gens := WindowsOf(AdmitsIn(p, Keyed(key), start, span));
    IntervalWindows(p, Keyed(key), start, span);
    WindowsIn(p.births, gens, Keyed(key), p.cfg.window, start, span, n);
    outside := {};
    if |gens| == n + 1 {
      var opener := OpenerOutside(p, key, gens, start, span, n);
      outside := {opener};
    }
  }

  lemma KeyedAdmitsBounded(p: Proc, key: Key, start: Instant, span: nat, n: nat)
    requires ProcInv(p) && TimeInv(p) && Spaced(p, Keyed(key)) && 0 < span <= n * p.cfg.window
    ensures |AdmitsIn(p, Keyed(key), start, span)| < (n + 1) * p.cfg.max
  {
    var requests := AdmitsIn(p, Keyed(key), start, span);
    var outside := KeyedWindowsIn(p, key, start, span, n);
    IntervalIndices(p, key, start, span);
    FewRequests(requests, WindowsOf(requests), p.cfg.max, n, outside);
  }

  lemma Successor(n: nat, m: nat)
    ensures (n + 1) * m == n * m + m
  {
  }

  lemma RowBounded(p: Proc, row: Row)
    requires ProcInv(p) && TimeInv(p) && Spaced(p, Keyed(row.key))
    ensures |BilledOn(p.ledger, row)| <= 2 * p.cfg.max
  {
    var requests := BilledOn(p.ledger, row);
    var gens := set r | r in requests :: r.gen;
    forall g | g in gens
      ensures g in p.births && g.client == Keyed(row.key) && Overlaps(p.births[g], row.epoch, p.cfg.window)
    {
      var r :| r in requests && r.gen == g;
    }
    WindowsIn(p.births, gens, Keyed(row.key), p.cfg.window, row.epoch, p.cfg.window, 1);
    RequestsIn(requests, gens, p.cfg.max);
    ScaleMonotone(|gens|, 2, p.cfg.max);
  }

  // ------------------------------------------------------------------
  // The bounds, over whole runs
  // ------------------------------------------------------------------

  ghost predicate TimelyRun(states: seq<State>, moves: seq<Move>)
    requires |states| == |moves| + 1
  {
    forall j {:trigger moves[j]} :: 0 <= j < |moves| && moves[j].Act? && moves[j].id < |states[j].procs| ==>
      Timely(states[j].procs[moves[j].id], moves[j].ev)
  }

  ghost predicate SparedIn(states: seq<State>, moves: seq<Move>, i: nat, client: Client)
    requires |states| == |moves| + 1
  {
    forall j {:trigger moves[j]} :: 0 <= j < |moves| && moves[j].Act? && moves[j].id == i && i < |states[j].procs| ==>
      Spares(states[j].procs[i], moves[j].ev, client)
  }

  lemma StaysTimely(states: seq<State>, moves: seq<Move>, s: State, move: Move, t: State)
    requires |states| == |moves| + 1 && states[|moves|] == s && TimelyRun(states, moves)
    requires move.Act? && move.id < |s.procs| ==> Timely(s.procs[move.id], move.ev)
    ensures TimelyRun(states + [t], moves + [move])
  {
    var longer, more := states + [t], moves + [move];
    forall j {:trigger more[j]} | 0 <= j < |more| && more[j].Act? && more[j].id < |longer[j].procs|
      ensures Timely(longer[j].procs[more[j].id], more[j].ev)
    {
      if j < |moves| {
        assert more[j] == moves[j] && longer[j] == states[j];
      }
    }
  }

  lemma StaysSpared(states: seq<State>, moves: seq<Move>, s: State, move: Move, t: State, i: nat, client: Client)
    requires |states| == |moves| + 1 && states[|moves|] == s && SparedIn(states, moves, i, client)
    requires move.Act? && move.id == i && i < |s.procs| ==> Spares(s.procs[i], move.ev, client)
    ensures SparedIn(states + [t], moves + [move], i, client)
  {
    var longer, more := states + [t], moves + [move];
    forall j {:trigger more[j]} | 0 <= j < |more| && more[j].Act? && more[j].id == i && i < |longer[j].procs|
      ensures Spares(longer[j].procs[i], more[j].ev, client)
    {
      if j < |moves| {
        assert more[j] == moves[j] && longer[j] == states[j];
      }
    }
  }

  ghost predicate TimedAt(s: State, i: nat, client: Client) {
    i < |s.procs| ==> ProcInv(s.procs[i]) && TimeInv(s.procs[i]) && Spaced(s.procs[i], client)
  }

  lemma NextKeepsTimed(s: State, move: Move, i: nat, client: Client)
    requires Inv(s) && Allowed(s, move) && TimedAt(s, i, client) && i < |s.procs|
    requires move.Act? && move.id == i ==> Timely(s.procs[i], move.ev) && Spares(s.procs[i], move.ev, client)
    ensures TimedAt(Next(s, move), i, client)
  {
    if move.Act? && move.id == i {
      StepKeepsInv(s.procs[i], move.ev, s.table);
      StepKeepsTime(s.procs[i], move.ev, s.table);
      StepKeepsSpaced(s.procs[i], move.ev, s.table, client);
    }
  }

  lemma MoveTimed(states: seq<State>, moves: seq<Move>, n: nat, i: nat, client: Client)
    requires IsRun(states, moves) && n < |moves| && TimelyRun(states, moves) && SparedIn(states, moves, i, client)
    requires TimedAt(states[n], i, client)
    ensures TimedAt(states[n + 1], i, client)
  {
    SameProcs(states, moves, n);
    RunInv(states, moves, n);
    if i < |states[n].procs| {
      NextKeepsTimed(states[n], moves[n], i, client);
    }
  }

  lemma StartedTimed(s: State, i: nat, client: Client)
    requires Init(s)
    ensures TimedAt(s, i, client)
  {
    if i < |s.procs| {
      StartedInv(s.procs[i]);
      StartedTime(s.procs[i]);
      StartedSpaced(s.procs[i], client);
    }
  }

  lemma {:induction false} RunTimed(states: seq<State>, moves: seq<Move>, n: nat, i: nat, client: Client)
    requires IsRun(states, moves) && n < |states| && TimelyRun(states, moves) && SparedIn(states, moves, i, client)
    ensures TimedAt(states[n], i, client)
  {
    if n == 0 {
      StartedTimed(states[0], i, client);
    } else {
      RunTimed(states, moves, n - 1, i, client);
      MoveTimed(states, moves, n - 1, i, client);
    }
  }

  /** In any interval, a client whose bucket is never evicted while live is
      admitted by each process less than one budget more than the windows it
      takes to cover the interval. For an interval of one window that is less
      than the documented burst of twice the budget. */
  lemma TraceBound(states: seq<State>, moves: seq<Move>, n: nat, i: nat, key: Key, start: Instant, span: nat, windows: nat)
    requires IsRun(states, moves) && n < |states| && i < |states[n].procs|
    requires TimelyRun(states, moves) && SparedIn(states, moves, i, Keyed(key))
    requires 0 < span <= windows * states[n].procs[i].cfg.window
    ensures |AdmitsIn(states[n].procs[i], Keyed(key), start, span)| < (windows + 1) * states[n].procs[i].cfg.max
  {
    RunTimed(states, moves, n, i, Keyed(key));
    KeyedAdmitsBounded(states[n].procs[i], key, start, span, windows);
  }

  lemma BurstBound(states: seq<State>, moves: seq<Move>, n: nat, i: nat, key: Key, start: Instant)
    requires IsRun(states, moves) && n < |states| && i < |states[n].procs|
    requires TimelyRun(states, moves) && SparedIn(states, moves, i, Keyed(key))
    ensures |AdmitsIn(states[n].procs[i], Keyed(key), start, states[n].procs[i].cfg.window)| < 2 * states[n].procs[i].cfg.max
  {
    RunTimed(states, moves, n, i, Keyed(key));
    KeyedAdmitsBounded(states[n].procs[i], key, start, states[n].procs[i].cfg.window, 1);
  }

  /** The bypass is bounded: all the requests that found no bucket are together
      admitted at most twice the overflow budget in any interval of one window,
      with no assumption on evictions. */
  lemma OverflowBound(states: seq<State>, moves: seq<Move>, n: nat, i: nat, start: Instant)
    requires IsRun(states, moves) && n < |states| && i < |states[n].procs| && TimelyRun(states, moves)
    ensures var p := states[n].procs[i];
            && |AdmitsIn(p, Keyless, start, p.cfg.window)| <= 2 * RATE_LIMIT_OVERFLOW_MAX
            && |set r | r in p.admits && r.gen == OverflowGen(p)| <= RATE_LIMIT_OVERFLOW_MAX
  {
    RunTimed(states, moves, n, i, Keyless);
    AdmitsBounded(states[n].procs[i], Keyless, start, states[n].procs[i].cfg.window, 1);
    OverflowWindowBounded(states[n].procs[i]);
  }

  /** They stay within one budget in any interval inside which no overflow
      window opens. */
  lemma OverflowBudgetHolds(states: seq<State>, moves: seq<Move>, n: nat, i: nat, start: Instant, span: nat)
    requires IsRun(states, moves) && n < |states| && i < |states[n].procs| && TimelyRun(states, moves)
    requires forall g :: g in states[n].procs[i].births && g.client == Keyless ==>
               !(start < states[n].procs[i].births[g] < start + span)
    ensures |AdmitsIn(states[n].procs[i], Keyless, start, span)| <= RATE_LIMIT_OVERFLOW_MAX
  {
    RunTimed(states, moves, n, i, Keyless);
    OneOverflowWindow(states[n].procs[i], start, span);
  }

  lemma OverflowWindowBounded(p: Proc)
    requires Counted(p)
    ensures |set r | r in p.admits && r.gen == OverflowGen(p)| <= RATE_LIMIT_OVERFLOW_MAX
  {
    RequestsIn(set r | r in p.admits && r.gen == OverflowGen(p), {OverflowGen(p)}, RATE_LIMIT_OVERFLOW_MAX);
  }

  /** One process puts at most twice its budget on one client's row of one wall
      window, because at most two local windows overlap it. */
  lemma RowBoundOfOneProcess(states: seq<State>, moves: seq<Move>, n: nat, i: nat, row: Row)
    requires IsRun(states, moves) && n < |states| && i < |states[n].procs|
    requires TimelyRun(states, moves) && SparedIn(states, moves, i, Keyed(row.key))
    ensures |BilledOn(states[n].procs[i].ledger, row)| <= 2 * states[n].procs[i].cfg.max
  {
    RunTimed(states, moves, n, i, Keyed(row.key));
    RowBounded(states[n].procs[i], row);
  }

  lemma {:induction false} SumBilledBounded(procs: seq<Proc>, row: Row, max: nat)
    requires forall i :: 0 <= i < |procs| ==> |BilledOn(procs[i].ledger, row)| <= 2 * max
    ensures SumBilled(procs, row) <= 2 * |procs| * max
  {
    if procs != [] {
      SumBilledBounded(procs[..|procs|-1], row, max);
      assert 2 * |procs| * max == 2 * (|procs| - 1) * max + 2 * max;
    }
  }

  /** And `N` processes with budgets of at most `max` put at most `2 * N * max`
      on it, ever. */
  lemma RowBound(states: seq<State>, moves: seq<Move>, n: nat, row: Row, max: nat)
    requires IsRun(states, moves) && n < |states| && TimelyRun(states, moves)
    requires forall i: nat :: SparedIn(states, moves, i, Keyed(row.key))
    requires forall i :: 0 <= i < |states[n].procs| ==> states[n].procs[i].cfg.max <= max
    ensures Hits(states[n].table, row) <= Hits(states[n].folded, row) <= 2 * |states[n].procs| * max
  {
    var s := states[n];
    RunInv(states, moves, n);
    forall i | 0 <= i < |s.procs|
      ensures |BilledOn(s.procs[i].ledger, row)| <= 2 * max
    {
      RowBoundOfOneProcess(states, moves, n, i, row);
    }
    SumBilledBounded(s.procs, row, max);
    assert Hits(s.folded, row) == SumBilled(s.procs, row);
  }
}
