/** Any number of processes metering the same clients and folding what they
    admit into shared rows, as a state machine.

    One step is one mutex section of one process, one atomic database fold, or
    one cleanup of the shared table; steps interleave freely, and a process
    that takes no further step has crashed. Each process carries, beside its
    real state, a record of what happened: a serial number for every window it
    opened (a generation), when it opened, every admitted request, and the row
    each billed request went to. No step reads the record. */
module Protocol {
  import opened Buckets
  import opened Eviction
  import opened Limiter

  datatype Client = Keyed(key: Key) | Keyless

  /** One local window of one client. */
  datatype Gen = Gen(client: Client, serial: nat)

  /** The `index`-th request admitted in a window. */
  datatype Request = Request(gen: Gen, index: nat)

  datatype Row = Row(tier: string, key: Key, epoch: int)

  type Table = map<Row, int>

  /** The sync round of a process: none, or one between its snapshot and its
      write-back. `serials` remembers which windows were reported. */
  datatype Sync =
    | Idle
    | InFlight(epoch: int, reports: map<Key, Pending>, serials: map<Key, nat>,
               folded: bool, totals: map<Key, int>)

  datatype Config = Config(tier: string, max: nat, window: nat)

  datatype Proc = Proc(
    cfg: Config,
    buckets: Map,
    overflow: Bucket,
    sync: Sync,
    // the record
    serials: map<Key, nat>,
    overflowSerial: nat,
    next: nat,
    births: map<Gen, Instant>,
    admits: map<Request, Instant>,
    ledger: map<Request, Row>,
    clock: Instant)

  datatype Event =
    | Check(key: Key, now: Instant, room: Map)
    | Snapshot(now: Instant, epoch: int, picked: set<Key>)
    | Fold(landed: set<Key>)
    | WriteBack

  // ------------------------------------------------------------------
  // Steps of one process
  // ------------------------------------------------------------------

  ghost predicate Started(p: Proc) {
    && 0 < p.cfg.max <= U32_MAX && p.cfg.window > 0
    && p.buckets == map[] && p.serials == map[] && p.sync == Idle
    && p.overflow == OpenedAt(p.clock) && p.overflowSerial == 0 && p.next == 1
    && p.births == map[Gen(Keyless, 0) := p.clock]
    && p.admits == map[] && p.ledger == map[]
  }

  ghost predicate Enabled(p: Proc, ev: Event) {
    match ev
    case Check(key, now, room) =>
      RoomMade(p.buckets, key, now, p.cfg.max, p.cfg.window, room)
    case Snapshot(now, epoch, picked) =>
      p.sync == Idle && Picks(p.buckets, now, p.cfg.window, picked)
    case Fold(landed) =>
      p.sync.InFlight? && !p.sync.folded && landed <= p.sync.reports.Keys
    case WriteBack =>
      p.sync.InFlight? && p.sync.folded
  }

  /** Keep the record of one check. */
  ghost function Recorded(p: Proc, gen: Gen, opens: bool, index: nat, now: Instant, a: Answer): Proc {
    p.(next := if opens then p.next + 1 else p.next,
       births := if opens then p.births[gen := now] else p.births,
       admits := if a.Admit? then p.admits[Request(gen, index) := now] else p.admits,
       clock := Max(p.clock, now))
  }

  ghost function SerialOf(p: Proc, key: Key): nat {
    if key in p.serials then p.serials[key] else 0
  }

  ghost predicate FreshWindow(p: Proc, key: Key, now: Instant, room: Map) {
    key !in room || !Live(room[key], now, p.cfg.window)
  }

  ghost function AfterKeyed(p: Proc, key: Key, now: Instant, room: Map): (Proc, Answer)
    requires p.cfg.window > 0
  {
    var (b, a) := Charge(Entry(room, key, now), now, p.cfg.max, p.cfg.window);
    var opens := FreshWindow(p, key, now, room);
    var serial := if opens then p.next else SerialOf(p, key);
    var kept := map k | k in p.serials && k in room :: p.serials[k];
    var index := Current(Entry(room, key, now), now, p.cfg.window).count;
    (Recorded(p.(buckets := room[key := b], serials := kept[key := serial]),
              Gen(Keyed(key), serial), opens, index, now, a), a)
  }

  ghost function AfterKeyless(p: Proc, now: Instant, room: Map): (Proc, Answer)
    requires p.cfg.window > 0
  {
    var (o, a) := ChargeOverflow(p.overflow, now, p.cfg.window);
    var opens := !Live(p.overflow, now, p.cfg.window);
    var serial := if opens then p.next else p.overflowSerial;
    var kept := map k | k in p.serials && k in room :: p.serials[k];
    var index := Current(p.overflow, now, p.cfg.window).count;
    (Recorded(p.(buckets := room, serials := kept, overflow := o, overflowSerial := serial),
              Gen(Keyless, serial), opens, index, now, a), a)
  }

  ghost function AfterCheck(p: Proc, key: Key, now: Instant, room: Map): (Proc, Answer)
    requires p.cfg.window > 0
  {
    if Saturated(room, key) then AfterKeyless(p, now, room) else AfterKeyed(p, key, now, room)
  }

  /** The record changes nothing: the real state and the answer are those of
      the limiter's own check. */
  lemma CheckIsTheLimiters(p: Proc, key: Key, now: Instant, room: Map)
    requires p.cfg.window > 0
    ensures var (q, a) := AfterCheck(p, key, now, room);
            (q.buckets, q.overflow, a) == Checked(room, p.overflow, key, now, p.cfg.max, p.cfg.window)
  {
  }

  ghost function AfterSnapshot(p: Proc, now: Instant, epoch: int, picked: set<Key>): Proc {
    p.(buckets := RolledMap(p.buckets, picked, epoch),
       sync := InFlight(epoch, Reports(p.buckets, picked, epoch),
                        map k | k in picked && k in p.buckets :: SerialOf(p, k), false, map[]),
       clock := Max(p.clock, now))
  }

  ghost function Hits(table: Table, row: Row): int {
    if row in table then table[row] else 0
  }

  /** What a fold adds to one row. */
  ghost function RowDelta(p: Proc, landed: set<Key>, row: Row): int {
    if p.sync.InFlight? && row.tier == p.cfg.tier && row.epoch == p.sync.epoch &&
       row.key in landed && row.key in p.sync.reports
    then p.sync.reports[row.key].delta else 0
  }

  ghost function FoldRows(p: Proc, landed: set<Key>): set<Row>
    requires p.sync.InFlight?
  {
    set k | k in landed :: Row(p.cfg.tier, k, p.sync.epoch)
  }

  /** `INSERT .. ON CONFLICT DO UPDATE SET hits = hits + EXCLUDED.hits` */
  ghost function FoldedTable(table: Table, p: Proc, landed: set<Key>): Table
    requires p.sync.InFlight?
  {
    map row | row in table.Keys + FoldRows(p, landed) :: Hits(table, row) + RowDelta(p, landed, row)
  }

  lemma FoldedHits(table: Table, p: Proc, landed: set<Key>, row: Row)
    requires p.sync.InFlight?
    ensures Hits(FoldedTable(table, p, landed), row) == Hits(table, row) + RowDelta(p, landed, row)
  {
    if RowDelta(p, landed, row) != 0 {
      assert row == Row(p.cfg.tier, row.key, p.sync.epoch);
      assert row in FoldRows(p, landed);
    }
  }

  /** The requests a report accounts for. */
  ghost predicate Covers(q: Pending, index: nat) {
    q.counted - q.delta <= index < q.counted
  }

  ghost predicate InFold(p: Proc, landed: set<Key>, r: Request) {
    && p.sync.InFlight? && r.gen.client.Keyed?
    && var k := r.gen.client.key;
       && k in landed && k in p.sync.reports && k in p.sync.serials
       && r.gen.serial == p.sync.serials[k] && Covers(p.sync.reports[k], r.index)
  }

  ghost function FoldedRequests(p: Proc, landed: set<Key>): (s: set<Request>)
    ensures forall r :: r in s <==> InFold(p, landed, r)
  {
    if !p.sync.InFlight? then {} else
    var s := set k: Key, i: int | k in landed && k in p.sync.reports && k in p.sync.serials &&
                 p.sync.reports[k].counted - p.sync.reports[k].delta <= i < p.sync.reports[k].counted && 0 <= i
              :: Request(Gen(Keyed(k), p.sync.serials[k]), i);
    assert forall r :: InFold(p, landed, r) ==> r == Request(Gen(Keyed(r.gen.client.key), p.sync.serials[r.gen.client.key]), r.index);
    s
  }

  ghost function RowFor(p: Proc, r: Request): Row
    requires p.sync.InFlight?
  {
    Row(p.cfg.tier, if r.gen.client.Keyed? then r.gen.client.key else "", p.sync.epoch)
  }

  /** The record after a fold: every request it covers, on the row it went to. */
  ghost function FoldedLedger(p: Proc, landed: set<Key>): (l: map<Request, Row>)
    requires p.sync.InFlight?
    ensures forall r :: r in l <==> r in p.ledger || InFold(p, landed, r)
    ensures forall r :: r in l ==> l[r] == if InFold(p, landed, r) then RowFor(p, r) else p.ledger[r]
  {
    p.ledger + map r | r in FoldedRequests(p, landed) :: RowFor(p, r)
  }

  ghost function AfterFold(p: Proc, landed: set<Key>, table: Table): Proc
    requires p.sync.InFlight?
  {
    var after := FoldedTable(table, p, landed);
    p.(sync := p.sync.(folded := true,
                       totals := map k | k in landed :: Hits(after, Row(p.cfg.tier, k, p.sync.epoch))),
       ledger := FoldedLedger(p, landed))
  }

  ghost function AfterWriteBack(p: Proc): Proc
    requires p.sync.InFlight?
  {
    p.(buckets := WrittenBack(p.buckets, p.sync.epoch, p.sync.reports, p.sync.totals), sync := Idle)
  }

  ghost function After(p: Proc, ev: Event, table: Table): Proc
    requires p.cfg.window > 0 && Enabled(p, ev)
  {
    match ev
    case Check(key, now, room) => AfterCheck(p, key, now, room).0
    case Snapshot(now, epoch, picked) => AfterSnapshot(p, now, epoch, picked)
    case Fold(landed) => AfterFold(p, landed, table)
    case WriteBack => AfterWriteBack(p)
  }

  // ------------------------------------------------------------------
  // What every step of a process keeps
  // ------------------------------------------------------------------

  /** The admits of a window are its first `n` requests. */
  ghost predicate Exactly(admits: map<Request, Instant>, g: Gen, n: nat) {
    forall i: nat :: Request(g, i) in admits <==> i < n
  }

  /** Nothing of a window from its `n`-th request on has been billed. */
  ghost predicate BilledBelow(ledger: map<Request, Row>, g: Gen, n: nat) {
    forall i: nat :: Request(g, i) in ledger ==> i < n
  }

  ghost predicate CoverAdmitted(admits: map<Request, Instant>, g: Gen, q: Pending) {
    forall i: nat :: Covers(q, i) ==> Request(g, i) in admits
  }

  ghost predicate CoverUnbilled(ledger: map<Request, Row>, g: Gen, q: Pending) {
    forall i: nat :: Covers(q, i) ==> Request(g, i) !in ledger
  }

  ghost function Limit(cfg: Config, client: Client): nat {
    if client.Keyed? then cfg.max else RATE_LIMIT_OVERFLOW_MAX
  }

  ghost function KeyedGen(p: Proc, key: Key): Gen {
    Gen(Keyed(key), SerialOf(p, key))
  }

  ghost function OverflowGen(p: Proc): Gen {
    Gen(Keyless, p.overflowSerial)
  }

  /** Counters are in range, and every bucket has its serial number. */
  ghost predicate Shaped(p: Proc) {
    && 0 < p.cfg.max <= U32_MAX && p.cfg.window > 0
    && p.serials.Keys == p.buckets.Keys
    && |p.buckets| <= PURGE_AT
    && (forall k :: k in p.buckets ==> BucketOk(p.buckets[k], p.cfg.max) && p.serials[k] < p.next)
    && p.overflow.count <= RATE_LIMIT_OVERFLOW_MAX && p.overflowSerial < p.next
  }

  ghost predicate AdmitsInRange(admits: map<Request, Instant>, next: nat, cfg: Config) {
    forall r :: r in admits ==> r.gen.serial < next && r.index < Limit(cfg, r.gen.client)
  }

  /** `count` is the number of requests admitted in the current window. */
  ghost predicate Counted(p: Proc) {
    && AdmitsInRange(p.admits, p.next, p.cfg)
    && (forall k :: k in p.buckets ==> Exactly(p.admits, KeyedGen(p, k), p.buckets[k].count))
    && Exactly(p.admits, OverflowGen(p), p.overflow.count)
  }

  /** How far into a window the requests have been accounted for. */
  ghost function Accounted(p: Proc, k: Key): nat
    requires k in p.buckets
  {
    if p.sync.InFlight? && k in p.sync.totals && k in p.sync.reports && k in p.sync.serials &&
       p.sync.serials[k] == SerialOf(p, k)
    then p.sync.reports[k].counted else p.buckets[k].pushed
  }

  /** Billed requests were admitted and went to a row of their own client. */
  ghost predicate BillsInOrder(ledger: map<Request, Row>, admits: map<Request, Instant>, tier: string) {
    forall r :: r in ledger ==>
      r in admits && r.gen.client.Keyed? && ledger[r].tier == tier && ledger[r].key == r.gen.client.key
  }

  /** And they are among those the bucket accounts for. */
  ghost predicate Billed(p: Proc) {
    && BillsInOrder(p.ledger, p.admits, p.cfg.tier)
    && (forall k :: k in p.buckets ==> BilledBelow(p.ledger, KeyedGen(p, k), Accounted(p, k)))
  }

  /** The bucket of a reported client either is still the reported window,
      waiting for its total, or is a later one that no round has touched. */
  ghost predicate BucketMatches(p: Proc, k: Key, q: Pending, serial: nat, epoch: int) {
    k in p.buckets ==>
      if SerialOf(p, k) == serial
      then StillCurrent(p.buckets[k], q, epoch) &&
           p.buckets[k].pushed == q.counted - q.delta && q.counted <= p.buckets[k].count
      else p.buckets[k].epoch == None
  }

  /** A report in flight: what it covers was admitted and, until it lands, is
      billed nowhere. */
  ghost predicate ReportOk(p: Proc, k: Key)
    requires p.sync.InFlight? && k in p.sync.reports && k in p.sync.serials
  {
    var (q, g) := (p.sync.reports[k], Gen(Keyed(k), p.sync.serials[k]));
    && 0 <= q.delta <= q.counted && g.serial < p.next
    && CoverAdmitted(p.admits, g, q)
    && (k !in p.sync.totals ==> CoverUnbilled(p.ledger, g, q))
    && BucketMatches(p, k, q, g.serial, p.sync.epoch)
  }

  ghost predicate Flying(p: Proc) {
    p.sync.InFlight? ==>
      && p.sync.serials.Keys == p.sync.reports.Keys
      && p.sync.totals.Keys <= p.sync.reports.Keys
      && (!p.sync.folded ==> p.sync.totals == map[])
      && forall k :: k in p.sync.reports ==> ReportOk(p, k)
  }

  ghost predicate ProcInv(p: Proc) {
    Shaped(p) && Counted(p) && Billed(p) && Flying(p)
  }

  lemma StartedInv(p: Proc)
    requires Started(p)
    ensures ProcInv(p)
  {
  }

  // ------------------------------------------------------------------
  // Checks
  // ------------------------------------------------------------------

  /** Buckets go, and none changes. */
  ghost predicate Within(p: Proc, room: Map) {
    && room.Keys <= p.buckets.Keys && |room| <= PURGE_AT
    && (forall k :: k in room ==> room[k] == p.buckets[k])
  }

  /** What making room does to the buckets of a process. */
  ghost predicate RoomOk(p: Proc, key: Key, now: Instant, room: Map) {
    && Within(p, room)
    && (forall k :: (k in p.buckets && Live(p.buckets[k], now, p.cfg.window) &&
          Spent(p.buckets[k]) >= p.cfg.max) ==> k in room)
    && (key in p.buckets ==> room == p.buckets)
  }

  lemma RoomMadeIsOk(p: Proc, key: Key, now: Instant, room: Map)
    requires |p.buckets| <= PURGE_AT
    requires RoomMade(p.buckets, key, now, p.cfg.max, p.cfg.window, room)
    ensures RoomOk(p, key, now, room)
  {
    if |p.buckets| >= PURGE_AT && key !in p.buckets {
      var swept := Swept(p.buckets, now, p.cfg.window);
      SubsetSize(swept.Keys, p.buckets.Keys);
      if |swept| >= PURGE_AT {
        EvictionFacts(swept, room, p.cfg.max);
      }
    }
  }

  lemma EvictionFacts(m: Map, kept: Map, max: nat)
    requires Evicted(m, kept, EVICTION_TARGET, max)
    ensures kept.Keys <= m.Keys && |kept| <= |m|
    ensures forall k :: k in kept ==> kept[k] == m[k]
    ensures forall k :: k in m && Spent(m[k]) >= max ==> k in kept
  {
    EvictedSize(m, kept, EVICTION_TARGET, max);
  }

  lemma KeyedKeepsShape(p: Proc, key: Key, now: Instant, room: Map)
    requires Shaped(p) && Within(p, room) && !Saturated(room, key)
    ensures Shaped(AfterKeyed(p, key, now, room).0)
  {
    var (b, a) := Charge(Entry(room, key, now), now, p.cfg.max, p.cfg.window);
    var q := AfterKeyed(p, key, now, room).0;
    assert BucketOk(Entry(room, key, now), p.cfg.max);
    ChargeKeepsBucketOk(Entry(room, key, now), now, p.cfg.max, p.cfg.window);
    InsertSize(room, key, b);
    forall k | k in q.buckets
      ensures BucketOk(q.buckets[k], q.cfg.max) && k in q.serials && q.serials[k] < q.next
    {
      if k != key {
        KeyedElsewhere(p, key, now, room, k);
      }
    }
    assert q.serials.Keys == q.buckets.Keys;
  }

  lemma ExactlyElsewhere(admits: map<Request, Instant>, r: Request, t: Instant, g: Gen, n: nat)
    requires Exactly(admits, g, n) && r.gen != g
    ensures Exactly(admits[r := t], g, n)
  {
  }

  lemma ExactlyNext(admits: map<Request, Instant>, t: Instant, g: Gen, n: nat)
    requires Exactly(admits, g, n)
    ensures Exactly(admits[Request(g, n) := t], g, n + 1)
  {
    forall i: nat
      ensures Request(g, i) in admits[Request(g, n) := t] <==> i < n + 1
    {
    }
  }

  lemma NothingYet(admits: map<Request, Instant>, next: nat, cfg: Config, client: Client)
    requires AdmitsInRange(admits, next, cfg)
    ensures Exactly(admits, Gen(client, next), 0)
  {
  }

  /** The window a keyed check charges, with the requests it already holds. */
  lemma ChargedWindow(p: Proc, key: Key, now: Instant, room: Map)
    requires Shaped(p) && Counted(p) && Within(p, room)
    ensures var opens := FreshWindow(p, key, now, room);
            var g := Gen(Keyed(key), if opens then p.next else SerialOf(p, key));
            Exactly(p.admits, g, Current(Entry(room, key, now), now, p.cfg.window).count)
  {
    NothingYet(p.admits, p.next, p.cfg, Keyed(key));
  }

  lemma KeyedElsewhere(p: Proc, key: Key, now: Instant, room: Map, k: Key)
    requires Shaped(p) && Within(p, room) && !Saturated(room, key) && k != key
    requires k in AfterKeyed(p, key, now, room).0.buckets
    ensures var q := AfterKeyed(p, key, now, room).0;
            k in p.buckets && KeyedGen(q, k) == KeyedGen(p, k) && q.buckets[k] == p.buckets[k]
  {
  }

  lemma KeyedKeepsCounts(p: Proc, key: Key, now: Instant, room: Map)
    requires Shaped(p) && Counted(p) && Within(p, room) && !Saturated(room, key)
    ensures Counted(AfterKeyed(p, key, now, room).0)
  {
    var (q, a) := AfterKeyed(p, key, now, room);
    var n := Current(Entry(room, key, now), now, p.cfg.window).count;
    var r := Request(KeyedGen(q, key), n);
    ChargeKeepsBucketOk(Entry(room, key, now), now, p.cfg.max, p.cfg.window);
    ChargedWindow(p, key, now, room);
    ExactlyNext(p.admits, now, r.gen, n);
    ExactlyElsewhere(p.admits, r, now, OverflowGen(p), p.overflow.count);
    assert q.admits == if a.Admit? then p.admits[r := now] else p.admits;
    forall k | k in q.buckets && k != key
      ensures Exactly(q.admits, KeyedGen(q, k), q.buckets[k].count)
    {
      KeyedElsewhere(p, key, now, room, k);
      assert Exactly(p.admits, KeyedGen(p, k), p.buckets[k].count);
      ExactlyElsewhere(p.admits, r, now, KeyedGen(p, k), p.buckets[k].count);
    }
  }

  lemma NoBillYet(p: Proc, client: Client)
    requires AdmitsInRange(p.admits, p.next, p.cfg) && BillsInOrder(p.ledger, p.admits, p.cfg.tier)
    ensures forall n :: BilledBelow(p.ledger, Gen(client, p.next), n)
  {
    forall i: nat
      ensures Request(Gen(client, p.next), i) !in p.ledger
    {
      assert Request(Gen(client, p.next), i) !in p.admits;
    }
  }

  lemma KeyedAccounts(p: Proc, key: Key, now: Instant, room: Map, k: Key)
    requires Shaped(p) && Flying(p) && Within(p, room) && !Saturated(room, key)
    requires k in AfterKeyed(p, key, now, room).0.buckets
    ensures var q := AfterKeyed(p, key, now, room).0;
            if k == key && FreshWindow(p, key, now, room)
            then KeyedGen(q, k) == Gen(Keyed(k), p.next)
            else k in p.buckets && KeyedGen(q, k) == KeyedGen(p, k) && Accounted(q, k) == Accounted(p, k)
  {
  }

  lemma KeyedKeepsBills(p: Proc, key: Key, now: Instant, room: Map)
    requires ProcInv(p) && Within(p, room) && !Saturated(room, key)
    ensures Billed(AfterKeyed(p, key, now, room).0)
  {
    var q := AfterKeyed(p, key, now, room).0;
    NoBillYet(p, Keyed(key));
    forall k | k in q.buckets
      ensures BilledBelow(q.ledger, KeyedGen(q, k), Accounted(q, k))
    {
      KeyedAccounts(p, key, now, room, k);
      if !(k == key && FreshWindow(p, key, now, room)) {
        assert BilledBelow(p.ledger, KeyedGen(p, k), Accounted(p, k));
      }
    }
  }

  lemma KeyedKeepsReports(p: Proc, key: Key, now: Instant, room: Map)
    requires ProcInv(p) && Within(p, room) && !Saturated(room, key)
    ensures Flying(AfterKeyed(p, key, now, room).0)
  {
    var (q, a) := AfterKeyed(p, key, now, room);
    ChargeKeepsBucketOk(Entry(room, key, now), now, p.cfg.max, p.cfg.window);
    if p.sync.InFlight? {
      forall k | k in p.sync.reports
        ensures ReportOk(q, k)
      {
        assert ReportOk(p, k);
        assert CoverAdmitted(q.admits, Gen(Keyed(k), p.sync.serials[k]), p.sync.reports[k]);
        if k in q.buckets {
          if k == key && FreshWindow(p, key, now, room) {
            assert q.serials[k] == p.next;
          } else {
            assert q.serials[k] == SerialOf(p, k);
          }
        }
      }
    }
  }

  lemma KeylessKeepsCounts(p: Proc, now: Instant, room: Map, key: Key)
    requires Shaped(p) && Counted(p) && Within(p, room)
    ensures Shaped(AfterKeyless(p, now, room).0) && Counted(AfterKeyless(p, now, room).0)
  {
    var (q, a) := AfterKeyless(p, now, room);
    var n := Current(p.overflow, now, p.cfg.window).count;
    var r := Request(OverflowGen(q), n);
    NothingYet(p.admits, p.next, p.cfg, Keyless);
    assert Exactly(p.admits, r.gen, n);
    ExactlyNext(p.admits, now, r.gen, n);
    forall k | k in q.buckets
      ensures Exactly(q.admits, KeyedGen(q, k), q.buckets[k].count)
    {
      assert KeyedGen(q, k) == KeyedGen(p, k);
      assert Exactly(p.admits, KeyedGen(p, k), p.buckets[k].count);
      ExactlyElsewhere(p.admits, r, now, KeyedGen(p, k), p.buckets[k].count);
    }
    assert q.serials.Keys == q.buckets.Keys;
  }

  lemma KeylessKeepsBills(p: Proc, now: Instant, room: Map, key: Key)
    requires ProcInv(p) && Within(p, room)
    ensures Billed(AfterKeyless(p, now, room).0) && Flying(AfterKeyless(p, now, room).0)
  {
    var (q, a) := AfterKeyless(p, now, room);
    forall k | k in q.buckets
      ensures BilledBelow(q.ledger, KeyedGen(q, k), Accounted(q, k))
    {
      assert KeyedGen(q, k) == KeyedGen(p, k);
      assert BilledBelow(p.ledger, KeyedGen(p, k), Accounted(p, k));
    }
    if p.sync.InFlight? {
      forall k | k in p.sync.reports
        ensures ReportOk(q, k)
      {
        assert ReportOk(p, k);
        assert CoverAdmitted(q.admits, Gen(Keyed(k), p.sync.serials[k]), p.sync.reports[k]);
      }
    }
  }

  // ------------------------------------------------------------------
  // Sync rounds
  // ------------------------------------------------------------------

  lemma RolledKeepsBucketOk(b: Bucket, epoch: int, max: nat)
    requires BucketOk(b, max)
    ensures BucketOk(Rolled(b, epoch), max)
    ensures b.pushed <= Rolled(b, epoch).pushed && Rolled(b, epoch).count == b.count
  {
  }

  lemma SnapshotKeepsCounts(p: Proc, now: Instant, epoch: int, picked: set<Key>)
    requires Shaped(p) && Counted(p)
    ensures Shaped(AfterSnapshot(p, now, epoch, picked)) && Counted(AfterSnapshot(p, now, epoch, picked))
  {
    var q := AfterSnapshot(p, now, epoch, picked);
    assert q.buckets.Keys == p.buckets.Keys;
    assert OverflowGen(q) == OverflowGen(p);
    forall k | k in q.buckets
      ensures BucketOk(q.buckets[k], q.cfg.max)
      ensures Exactly(q.admits, KeyedGen(q, k), q.buckets[k].count)
    {
      RolledKeepsBucketOk(p.buckets[k], epoch, p.cfg.max);
      assert KeyedGen(q, k) == KeyedGen(p, k);
      assert Exactly(p.admits, KeyedGen(p, k), p.buckets[k].count);
    }
  }

  lemma SnapshotKeepsBills(p: Proc, now: Instant, epoch: int, picked: set<Key>)
    requires ProcInv(p) && p.sync == Idle
    ensures Billed(AfterSnapshot(p, now, epoch, picked))
  {
    var q := AfterSnapshot(p, now, epoch, picked);
    forall k | k in q.buckets
      ensures BilledBelow(q.ledger, KeyedGen(q, k), q.buckets[k].pushed)
    {
      RolledKeepsBucketOk(p.buckets[k], epoch, p.cfg.max);
      assert KeyedGen(q, k) == KeyedGen(p, k);
      assert BilledBelow(p.ledger, KeyedGen(p, k), p.buckets[k].pushed);
    }
  }

  lemma SnapshotReports(p: Proc, now: Instant, epoch: int, picked: set<Key>)
    requires ProcInv(p) && p.sync == Idle && picked <= p.buckets.Keys
    ensures Flying(AfterSnapshot(p, now, epoch, picked))
  {
    var q := AfterSnapshot(p, now, epoch, picked);
    SnapshotKeepsBills(p, now, epoch, picked);
    forall k | k in q.sync.reports
      ensures ReportOk(q, k)
    {
      RolledKeepsBucketOk(p.buckets[k], epoch, p.cfg.max);
      assert KeyedGen(q, k) == KeyedGen(p, k) == Gen(Keyed(k), q.sync.serials[k]);
      assert Exactly(p.admits, KeyedGen(p, k), p.buckets[k].count);
      assert BilledBelow(q.ledger, KeyedGen(q, k), Accounted(q, k));
    }
  }

  /** What a fold bills was admitted, and was never billed before. */
  lemma FoldBillsAfresh(p: Proc, landed: set<Key>, r: Request)
    requires Flying(p) && p.sync.InFlight? && !p.sync.folded && InFold(p, landed, r)
    ensures r in p.admits && r !in p.ledger
  {
    var k := r.gen.client.key;
    assert ReportOk(p, k);
    assert r == Request(Gen(Keyed(k), p.sync.serials[k]), r.index);
  }

  lemma FoldKeepsOrder(p: Proc, landed: set<Key>)
    requires ProcInv(p) && p.sync.InFlight? && !p.sync.folded
    ensures BillsInOrder(FoldedLedger(p, landed), p.admits, p.cfg.tier)
  {
    var l := FoldedLedger(p, landed);
    forall r | r in l
      ensures r in p.admits && r.gen.client.Keyed? && l[r].tier == p.cfg.tier && l[r].key == r.gen.client.key
    {
      if InFold(p, landed, r) {
        FoldBillsAfresh(p, landed, r);
      }
    }
  }

  lemma FoldKeepsBelow(p: Proc, landed: set<Key>, table: Table, k: Key)
    requires ProcInv(p) && p.sync.InFlight? && !p.sync.folded && landed <= p.sync.reports.Keys
    requires k in p.buckets
    ensures var q := AfterFold(p, landed, table);
            BilledBelow(q.ledger, KeyedGen(q, k), Accounted(q, k))
  {
    var q := AfterFold(p, landed, table);
    var g := KeyedGen(p, k);
    assert KeyedGen(q, k) == g;
    var covered := k in landed && p.sync.serials[k] == g.serial;
    assert Accounted(p, k) == p.buckets[k].pushed;
    if covered {
      assert ReportOk(p, k);
      assert Accounted(q, k) == p.sync.reports[k].counted;
      BillsBelow(p, landed, g, p.buckets[k].pushed, p.sync.reports[k].counted);
    } else {
      BillsBelow(p, landed, g, p.buckets[k].pushed, p.buckets[k].pushed);
    }
  }

  lemma BillsBelow(p: Proc, landed: set<Key>, g: Gen, before: nat, after: nat)
    requires p.sync.InFlight? && BilledBelow(p.ledger, g, before) && before <= after
    requires forall i: nat :: InFold(p, landed, Request(g, i)) ==> i < after
    ensures BilledBelow(FoldedLedger(p, landed), g, after)
  {
    forall i: nat | Request(g, i) in FoldedLedger(p, landed)
      ensures i < after
    {
      assert Request(g, i) in p.ledger || InFold(p, landed, Request(g, i));
    }
  }

  lemma FoldKeepsReports(p: Proc, landed: set<Key>, table: Table)
    requires ProcInv(p) && p.sync.InFlight? && !p.sync.folded && landed <= p.sync.reports.Keys
    ensures Flying(AfterFold(p, landed, table))
  {
    var q := AfterFold(p, landed, table);
    assert q.sync.totals.Keys == landed;
    forall k | k in q.sync.reports
      ensures ReportOk(q, k)
    {
      assert ReportOk(p, k);
      if k !in landed {
        forall i: nat | Covers(p.sync.reports[k], i)
          ensures Request(Gen(Keyed(k), p.sync.serials[k]), i) !in q.ledger
        {
          assert !InFold(p, landed, Request(Gen(Keyed(k), p.sync.serials[k]), i));
        }
      }
    }
  }

  lemma FoldKeepsInv(p: Proc, landed: set<Key>, table: Table)
    requires ProcInv(p) && p.sync.InFlight? && !p.sync.folded && landed <= p.sync.reports.Keys
    ensures ProcInv(AfterFold(p, landed, table))
  {
    var q := AfterFold(p, landed, table);
    FoldKeepsOrder(p, landed);
    FoldKeepsReports(p, landed, table);
    assert OverflowGen(q) == OverflowGen(p);
    forall k | k in q.buckets
      ensures Exactly(q.admits, KeyedGen(q, k), q.buckets[k].count)
    {
      assert KeyedGen(q, k) == KeyedGen(p, k);
      assert Exactly(p.admits, KeyedGen(p, k), p.buckets[k].count);
    }
    forall k | k in q.buckets
      ensures BilledBelow(q.ledger, KeyedGen(q, k), Accounted(q, k))
    {
      FoldKeepsBelow(p, landed, table, k);
    }
  }

  lemma WriteBackKeepsBucket(p: Proc, k: Key)
    requires ProcInv(p) && p.sync.InFlight? && k in p.buckets
    ensures var q := AfterWriteBack(p);
            && BucketOk(q.buckets[k], q.cfg.max)
            && q.buckets[k].count == p.buckets[k].count
            && q.buckets[k].pushed == Accounted(p, k)
  {
    if k in p.sync.reports {
      assert ReportOk(p, k);
    }
  }

  lemma WriteBackKeepsInv(p: Proc)
    requires ProcInv(p) && p.sync.InFlight?
    ensures ProcInv(AfterWriteBack(p))
  {
    var q := AfterWriteBack(p);
    assert q.buckets.Keys == p.buckets.Keys;
    assert OverflowGen(q) == OverflowGen(p);
    forall k | k in q.buckets
      ensures BucketOk(q.buckets[k], q.cfg.max)
      ensures Exactly(q.admits, KeyedGen(q, k), q.buckets[k].count)
      ensures BilledBelow(q.ledger, KeyedGen(q, k), Accounted(q, k))
    {
      WriteBackKeepsBucket(p, k);
      assert KeyedGen(q, k) == KeyedGen(p, k);
      assert Exactly(p.admits, KeyedGen(p, k), p.buckets[k].count);
      assert BilledBelow(p.ledger, KeyedGen(p, k), Accounted(p, k));
    }
  }

  /** Every step keeps the invariant. */
  lemma StepKeepsInv(p: Proc, ev: Event, table: Table)
    requires ProcInv(p) && Enabled(p, ev)
    ensures ProcInv(After(p, ev, table))
  {
    match ev
    case Check(key, now, room) =>
      RoomMadeIsOk(p, key, now, room);
      if Saturated(room, key) {
        KeylessKeepsCounts(p, now, room, key);
        KeylessKeepsBills(p, now, room, key);
      } else {
        KeyedKeepsShape(p, key, now, room);
        KeyedKeepsCounts(p, key, now, room);
        KeyedKeepsBills(p, key, now, room);
        KeyedKeepsReports(p, key, now, room);
      }
    case Snapshot(now, epoch, picked) =>
      SnapshotKeepsCounts(p, now, epoch, picked);
      SnapshotKeepsBills(p, now, epoch, picked);
      SnapshotReports(p, now, epoch, picked);
    case Fold(landed) => FoldKeepsInv(p, landed, table);
    case WriteBack => WriteBackKeepsInv(p);
  }
}
