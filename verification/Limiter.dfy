/** The rate limiter of one process: its bucket map and overflow bucket behind
    their mutexes. Every method below is one mutex section, or a part of one. */
module Limiter {
  import opened Buckets
  import opened Eviction
  import opened RowKeys

  // ------------------------------------------------------------------
  // One section, on values
  // ------------------------------------------------------------------

  function Swept(m: Map, now: Instant, window: nat): Map {
    map k | k in m && Live(m[k], now, window) :: m[k]
  }

  /** The map a check works on: a new key at the cap first sweeps out the
      lapsed windows and, if that is not enough, evicts. */
  ghost predicate RoomMade(m: Map, key: Key, now: Instant, max: nat, window: nat, room: Map) {
    if |m| < PURGE_AT || key in m then room == m
    else
      var swept := Swept(m, now, window);
      if |swept| < PURGE_AT then room == swept
      else Evicted(swept, room, EVICTION_TARGET, max)
  }

  function Entry(m: Map, key: Key, now: Instant): Bucket {
    if key in m then m[key] else OpenedAt(now)
  }

  /** A new key that found no room is metered on the overflow bucket. */
  predicate Saturated(room: Map, key: Key) {
    key !in room && |room| >= PURGE_AT
  }

  /** The rest of a check, once room has been made. */
  function Checked(room: Map, overflow: Bucket, key: Key, now: Instant, max: nat, window: nat): (Map, Bucket, Answer)
    requires window > 0
  {
    if Saturated(room, key) then
      var (o, a) := ChargeOverflow(overflow, now, window);
      (room, o, a)
    else
      var (b, a) := Charge(Entry(room, key, now), now, max, window);
      (room[key := b], overflow, a)
  }

  /** What a bucket tells a round: how many admits are new, and up to which. */
  datatype Pending = Pending(key: Key, delta: int, counted: nat, windowStart: Instant)

  predicate Reportable(b: Bucket, now: Instant, window: nat) {
    b.count > 0 && Live(b, now, window)
  }

  function Reportables(m: Map, now: Instant, window: nat): set<Key> {
    set k | k in m && Reportable(m[k], now, window)
  }

  /** A round takes any reportable keys, and as many as it can. */
  ghost predicate Picks(m: Map, now: Instant, window: nat, picked: set<Key>) {
    && picked <= Reportables(m, now, window)
    && |picked| == Min(RATE_SYNC_MAX_KEYS, |Reportables(m, now, window)|)
  }

  /** A bucket turned towards the shared row of `epoch`. */
  function Rolled(b: Bucket, epoch: int): Bucket {
    if b.epoch == Some(epoch) then b
    else b.(pushed := if b.epoch.Some? then b.count else b.pushed, epoch := Some(epoch), remote := 0)
  }

  function Report(k: Key, b: Bucket): Pending {
    Pending(k, WrapSub(b.count, b.pushed), b.count, b.windowStart)
  }

  function RolledMap(m: Map, picked: set<Key>, epoch: int): Map {
    map k | k in m :: if k in picked then Rolled(m[k], epoch) else m[k]
  }

  function Reports(m: Map, picked: set<Key>, epoch: int): map<Key, Pending> {
    map k | k in picked && k in m :: Report(k, Rolled(m[k], epoch))
  }

  /** Whether a returned total is still about this bucket. */
  predicate StillCurrent(b: Bucket, p: Pending, epoch: int) {
    b.epoch == Some(epoch) && b.windowStart == p.windowStart
  }

  function Written(b: Bucket, p: Pending, total: int): Bucket {
    b.(pushed := p.counted, remote := Clamp(total))
  }

  function WrittenBack(m: Map, epoch: int, reports: map<Key, Pending>, totals: map<Key, int>): Map {
    map k | k in m ::
      if k in reports && k in totals && StillCurrent(m[k], reports[k], epoch)
      then Written(m[k], reports[k], totals[k]) else m[k]
  }

  // ------------------------------------------------------------------
  // From the vector and the row names to the values above
  // ------------------------------------------------------------------

  ghost predicate DistinctKeys(pending: seq<Pending>) {
    forall i, j :: 0 <= i < j < |pending| ==> pending[i].key != pending[j].key
  }

  ghost function ByKey(pending: seq<Pending>): map<Key, Pending> {
    if pending == [] then map[]
    else ByKey(pending[..|pending|-1])[pending[|pending|-1].key := pending[|pending|-1]]
  }

  /** The totals of the reported clients, read through their row names. */
  ghost function TotalsByKey(reports: map<Key, Pending>, totals: map<string, int>,
                             tier: string, digest: Key -> Digest, epoch: int): map<Key, int>
  {
    map k | k in reports && RowKey(tier, digest(k), epoch) in totals :: totals[RowKey(tier, digest(k), epoch)]
  }

  lemma {:induction false} ByKeyFacts(pending: seq<Pending>)
    ensures forall k :: k in ByKey(pending) <==> exists i :: 0 <= i < |pending| && pending[i].key == k
    ensures DistinctKeys(pending) ==> forall i :: 0 <= i < |pending| ==> ByKey(pending)[pending[i].key] == pending[i]
  {
    if pending != [] {
      var init, last := pending[..|pending|-1], pending[|pending|-1];
      ByKeyFacts(init);
      forall k
        ensures k in ByKey(pending) <==> exists i :: 0 <= i < |pending| && pending[i].key == k
      {
        if k in ByKey(init) {
          var i :| 0 <= i < |init| && init[i].key == k;
          assert pending[i].key == k;
        }
        if i :| 0 <= i < |pending| && pending[i].key == k {
          assert i < |init| ==> init[i].key == k;
        }
      }
    }
  }

  // ------------------------------------------------------------------
  // The limiter
  // ------------------------------------------------------------------

  class RateLimiter {
    const max: nat
    const window: nat
    var buckets: Map
    var overflow: Bucket

    ghost predicate Valid()
      reads this
    {
      && max <= U32_MAX && window > 0
      && |buckets| <= PURGE_AT
      && (forall k :: k in buckets ==> BucketOk(buckets[k], max))
      && overflow.count <= RATE_LIMIT_OVERFLOW_MAX
    }

    /** Nobody has a bucket yet, and the overflow window opens. */
    constructor (max: nat, now: Instant)
      requires max <= U32_MAX
      ensures Valid() && this.max == max && window == 60 * NANOS_PER_SEC
      ensures buckets == map[] && overflow == OpenedAt(now)
    {
      this.max := max;
      window := 60 * NANOS_PER_SEC;
      buckets := map[];
      overflow := OpenedAt(now);
    }

    method CheckOverflow(now: Instant) returns (answer: Answer)
      requires Valid()
      modifies this`overflow
      ensures Valid()
      ensures (overflow, answer) == ChargeOverflow(old(overflow), now, window)
    {
      if Elapsed(now, overflow.windowStart) >= window {
        overflow := OpenedAt(now);
      }
      if overflow.count < RATE_LIMIT_OVERFLOW_MAX {
        overflow := overflow.(count := WrapInc(overflow.count));
        return Admit;
      }
      var remaining := window - Elapsed(now, overflow.windowStart);
      return Refuse(Max(CeilSecs(remaining), 1));
    }

    /** Sweep and evict before a new key enters a full map. */
    method MakeRoom(key: Key, now: Instant)
      requires Valid() && max > 0
      modifies this`buckets
      ensures Valid() && RoomMade(old(buckets), key, now, max, window, buckets)
    {
      if |buckets| >= PURGE_AT && key !in buckets {
        buckets := map k | k in buckets && Elapsed(now, buckets[k].windowStart) < window :: buckets[k];
        assert buckets == Swept(old(buckets), now, window);
        SubsetSize(buckets.Keys, old(buckets).Keys);
        if |buckets| >= PURGE_AT {
          var kept, order, cutoff := EvictCheapest(buckets, EVICTION_TARGET, max);
          EvictedSize(buckets, kept, EVICTION_TARGET, max);
          buckets := kept;
        }
      }
    }

    /** Charge one request to the bucket of a key there is room for. */
    method ChargeKey(key: Key, now: Instant) returns (answer: Answer)
      requires Valid() && max > 0 && !Saturated(buckets, key)
      modifies this`buckets
      ensures Valid()
      ensures (buckets, overflow, answer) == Checked(old(buckets), overflow, key, now, max, window)
    {
      var bucket := if key in buckets then buckets[key] else OpenedAt(now);
      ChargeKeepsBucketOk(bucket, now, max, window);
      InsertSize(buckets, key, Charge(bucket, now, max, window).0);
      if Elapsed(now, bucket.windowStart) >= window {
        bucket := OpenedAt(now);
      }
      if Spent(bucket) < max {
        bucket := bucket.(count := WrapInc(bucket.count));
        answer := Admit;
      } else {
        var remaining := window - Elapsed(now, bucket.windowStart);
        answer := Refuse(Max(CeilSecs(remaining), 1));
      }
      buckets := buckets[key := bucket];
    }

    /** The whole check of one request. */
    method CheckKey(key: Key, now: Instant) returns (answer: Answer, ghost room: Map)
      requires Valid()
      modifies this
      ensures Valid()
      ensures max == 0 ==> buckets == old(buckets) && overflow == old(overflow) && answer == Admit
      ensures max > 0 ==>
                RoomMade(old(buckets), key, now, max, window, room) &&
                (buckets, overflow, answer) == Checked(room, old(overflow), key, now, max, window)
    {
      room := buckets;
      if max == 0 {
        return Admit, room;
      }
      MakeRoom(key, now);
      room := buckets;
      if |buckets| >= PURGE_AT && key !in buckets {
        answer := CheckOverflow(now);
      } else {
        answer := ChargeKey(key, now);
      }
    }

    /** Turn one bucket towards the row of `epoch` and report it. */
    method Turn(k: Key, epoch: int) returns (p: Pending)
      requires k in buckets
      modifies this`buckets
      ensures buckets == old(buckets)[k := Rolled(old(buckets)[k], epoch)]
      ensures p == Report(k, buckets[k])
    {
      var b := buckets[k];
      if b.epoch != Some(epoch) {
        if b.epoch.Some? {
          b := b.(pushed := b.count);
        }
        b := b.(epoch := Some(epoch), remote := 0);
      }
      buckets := buckets[k := b];
      p := Pending(k, WrapSub(b.count, b.pushed), b.count, b.windowStart);
    }

    /** The next bucket of a round's scan: passed over, or turned and reported. */
    method Visit(k: Key, now: Instant, epoch: int, pending: seq<Pending>, ghost m: Map, ghost picked: set<Key>)
      returns (more: seq<Pending>, ghost taken: set<Key>)
      requires k in m && k !in picked && buckets == RolledMap(m, picked, epoch) && ReportsOf(pending, m, picked, epoch)
      modifies this`buckets
      ensures taken == picked + (if Reportable(m[k], now, window) then {k} else {})
      ensures buckets == RolledMap(m, taken, epoch) && ReportsOf(more, m, taken, epoch)
      ensures |more| <= |pending| + 1
    {
      more, taken := pending, picked;
      PickOne(m, picked, epoch, k, pending);
      if buckets[k].count > 0 && Elapsed(now, buckets[k].windowStart) < window {
        var p := Turn(k, epoch);
        more, taken := pending + [p], picked + {k};
      }
    }

    /** The first section of a sync round: turn up to `RATE_SYNC_MAX_KEYS` live
        buckets towards the row of `epoch` and report their new admits. */
    method Snapshot(now: Instant, epoch: int) returns (pending: seq<Pending>, ghost picked: set<Key>)
      modifies this`buckets
      ensures Picks(old(buckets), now, window, picked)
      ensures buckets == RolledMap(old(buckets), picked, epoch)
      ensures DistinctKeys(pending) && |pending| == |picked|
      ensures ByKey(pending) == Reports(old(buckets), picked, epoch)
    {
      var order := IterationOrder(buckets);
      ghost var m := buckets;
      pending, picked := [], {};
      var i := 0;
      assert buckets == RolledMap(m, {}, epoch);
      while i < |order| && |pending| < RATE_SYNC_MAX_KEYS
        invariant i <= |order| && |pending| <= RATE_SYNC_MAX_KEYS
        invariant picked == PickedFrom(m, order[..i], now, window)
        invariant buckets == RolledMap(m, picked, epoch)
        invariant ReportsOf(pending, m, picked, epoch)
        decreases |order| - i
      {
        ScanOne(m, order, i, now, window);
        pending, picked := Visit(order[i], now, epoch, pending, m, picked);
        i := i + 1;
      }
      PickedSize(m, order, i, now, window);
    }

    /** One report's share of a write-back. */
    method Apply(p: Pending, epoch: int, row: string, totals: map<string, int>)
      modifies this`buckets
      ensures buckets ==
        if row in totals && p.key in old(buckets) && StillCurrent(old(buckets)[p.key], p, epoch)
        then old(buckets)[p.key := Written(old(buckets)[p.key], p, totals[row])] else old(buckets)
    {
      if row in totals && p.key in buckets {
        var bucket := buckets[p.key];
        if bucket.epoch == Some(epoch) && bucket.windowStart == p.windowStart {
          bucket := bucket.(pushed := p.counted, remote := Clamp(totals[row]));
          buckets := buckets[p.key := bucket];
        }
      }
    }

    /** The last section of a sync round: take the returned totals back into
        the buckets they are still about. */
    method WriteBack(tier: string, digest: Key -> Digest, epoch: int, pending: seq<Pending>, totals: map<string, int>)
      requires DistinctKeys(pending)
      modifies this`buckets
      ensures buckets == WrittenBack(old(buckets), epoch, ByKey(pending),
                                     TotalsByKey(ByKey(pending), totals, tier, digest, epoch))
    {
      ghost var m := buckets;
      for i := 0 to |pending|
        invariant buckets == WrittenBack(m, epoch, ByKey(pending[..i]),
                                         TotalsByKey(ByKey(pending[..i]), totals, tier, digest, epoch))
      {
        WriteStep(m, epoch, pending, i, totals, tier, digest);
        Apply(pending[i], epoch, RowKey(tier, digest(pending[i].key), epoch), totals);
      }
      assert pending[..|pending|] == pending;
    }
  }

  /** The reportable keys among those scanned so far. */
  ghost function PickedFrom(m: Map, scanned: seq<Key>, now: Instant, window: nat): set<Key> {
    set k | k in scanned && k in m && Reportable(m[k], now, window)
  }

  lemma ScanOne(m: Map, order: seq<Key>, i: nat, now: Instant, window: nat)
    requires IsOrder(order, m) && i < |order|
    ensures order[i] in m && order[i] !in PickedFrom(m, order[..i], now, window)
    ensures PickedFrom(m, order[..i+1], now, window) ==
            PickedFrom(m, order[..i], now, window) + (if Reportable(m[order[i]], now, window) then {order[i]} else {})
  {
    assert order[i] in order && order[i] !in order[..i];
    assert order[..i+1] == order[..i] + [order[i]];
  }

  lemma PickedSize(m: Map, order: seq<Key>, i: nat, now: Instant, window: nat)
    requires IsOrder(order, m) && i <= |order|
    requires |PickedFrom(m, order[..i], now, window)| <= RATE_SYNC_MAX_KEYS
    requires i < |order| ==> |PickedFrom(m, order[..i], now, window)| == RATE_SYNC_MAX_KEYS
    ensures Picks(m, now, window, PickedFrom(m, order[..i], now, window))
  {
    assert order[..|order|] == order;
    SubsetSize(PickedFrom(m, order[..i], now, window), Reportables(m, now, window));
  }

  /** `pending` holds the report of each picked key, once. */
  ghost predicate ReportsOf(pending: seq<Pending>, m: Map, picked: set<Key>, epoch: int) {
    && |pending| == |picked| && DistinctKeys(pending)
    && (forall j :: 0 <= j < |pending| ==> pending[j].key in picked)
    && ByKey(pending) == Reports(m, picked, epoch)
  }

  lemma PickOne(m: Map, picked: set<Key>, epoch: int, k: Key, pending: seq<Pending>)
    requires k in m && k !in picked && ReportsOf(pending, m, picked, epoch)
    ensures RolledMap(m, picked, epoch)[k] == m[k]
    ensures RolledMap(m, picked + {k}, epoch) == RolledMap(m, picked, epoch)[k := Rolled(m[k], epoch)]
    ensures ReportsOf(pending + [Report(k, Rolled(m[k], epoch))], m, picked + {k}, epoch)
  {
    var p := Report(k, Rolled(m[k], epoch));
    assert (pending + [p])[..|pending|] == pending;
    assert ByKey(pending + [p]) == ByKey(pending)[k := p];
    assert Reports(m, picked + {k}, epoch) == Reports(m, picked, epoch)[k := p];
  }

  lemma WriteOne(m: Map, epoch: int, reports: map<Key, Pending>, p: Pending,
                 totals: map<Key, int>, totals': map<Key, int>)
    requires p.key !in reports
    requires p.key !in totals && totals == totals' - {p.key}
    ensures var before := WrittenBack(m, epoch, reports, totals);
            WrittenBack(m, epoch, reports[p.key := p], totals') ==
              if p.key in m && p.key in totals' && StillCurrent(m[p.key], p, epoch)
              then before[p.key := Written(m[p.key], p, totals'[p.key])] else before
  {
  }

  lemma ByKeyStep(pending: seq<Pending>, i: nat)
    requires DistinctKeys(pending) && i < |pending|
    ensures pending[i].key !in ByKey(pending[..i])
    ensures ByKey(pending[..i+1]) == ByKey(pending[..i])[pending[i].key := pending[i]]
  {
    ByKeyFacts(pending[..i]);
    assert pending[..i+1][..i] == pending[..i];
  }

  lemma TotalsStep(reports: map<Key, Pending>, p: Pending, totals: map<string, int>,
                   tier: string, digest: Key -> Digest, epoch: int)
    requires p.key !in reports
    ensures var row := RowKey(tier, digest(p.key), epoch);
            var next := TotalsByKey(reports[p.key := p], totals, tier, digest, epoch);
            && TotalsByKey(reports, totals, tier, digest, epoch) == next - {p.key}
            && (p.key in next <==> row in totals)
            && (row in totals ==> next[p.key] == totals[row])
  {
  }

  /** The effect of the `i`-th report on the map written so far. */
  lemma WriteStep(m: Map, epoch: int, pending: seq<Pending>, i: nat,
                  totals: map<string, int>, tier: string, digest: Key -> Digest)
    requires DistinctKeys(pending) && i < |pending|
    ensures
      var p := pending[i];
      var row := RowKey(tier, digest(p.key), epoch);
      var (now, next) := (ByKey(pending[..i]), ByKey(pending[..i+1]));
      var before := WrittenBack(m, epoch, now, TotalsByKey(now, totals, tier, digest, epoch));
      && before.Keys == m.Keys
      && (p.key in m ==> before[p.key] == m[p.key])
      && WrittenBack(m, epoch, next, TotalsByKey(next, totals, tier, digest, epoch)) ==
           if row in totals && p.key in m && StillCurrent(m[p.key], p, epoch)
           then before[p.key := Written(m[p.key], p, totals[row])] else before
  {
    var p := pending[i];
    var (now, next) := (ByKey(pending[..i]), ByKey(pending[..i+1]));
    ByKeyStep(pending, i);
    TotalsStep(now, p, totals, tier, digest, epoch);
    WriteOne(m, epoch, now, p, TotalsByKey(now, totals, tier, digest, epoch),
             TotalsByKey(next, totals, tier, digest, epoch));
  }

  lemma InsertSize(m: Map, key: Key, b: Bucket)
    ensures |m[key := b]| == |m| + (if key in m then 0 else 1)
  {
    assert m[key := b].Keys == m.Keys + {key};
  }
}
