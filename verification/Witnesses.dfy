/** Full bucket maps on which an eviction does what "cheapest first" and "already
    in the map" would seem to rule out. */
module Witnesses {
  import opened Buckets
  import opened Eviction
  import opened Limiter

  /** As many different clients as one likes: they differ in length. */
  ghost function Caller(i: nat): (key: Key)
    ensures |key| == i && '-' !in key
  {
    seq(i, _ => 'a')
  }

  ghost function Callers(n: nat): set<Key> {
    set i: nat | i < n :: Caller(i)
  }

  lemma {:induction false} CallersSize(n: nat)
    ensures |Callers(n)| == n && Caller(n) !in Callers(n) && Callers(n + 1) == Callers(n) + {Caller(n)}
  {
    if n == 0 {
      assert Callers(n) == {};
    } else {
      CallersSize(n - 1);
    }
  }

  /** A map at its cap, every window just opened: one client has made one
      request and all others two. */
  ghost function Crowded(now: Instant): Map {
    map k | k in Callers(PURGE_AT) :: OpenedAt(now).(count := if k == Caller(0) then 1 else 2)
  }

  lemma CrowdedFacts(now: Instant, max: nat, window: nat)
    requires max > 2 && window > 0
    ensures var m := Crowded(now);
            && |m| == PURGE_AT && Swept(m, now, window) == m && Caller(0) in m && Caller(1) in m
            && Cheaper(m, max, 1) == {} && Cheaper(m, max, 2) == {Caller(0)}
            && AsCheap(m, max, 2) == Evictable(m, max) == m.Keys
            && Excess(m, EVICTION_TARGET, max) == PURGE_AT / 4
  {
    var m := Crowded(now);
    CallersSize(PURGE_AT);
    assert m.Keys == Callers(PURGE_AT);
  }

  /** A newcomer at a full map may cost dearer clients their buckets and leave
      the one client that has spent strictly less than all of them. */
  lemma CheapestFirstFails(key: Key, now: Instant, max: nat, window: nat) returns (room: Map)
    requires key !in Callers(PURGE_AT) && max > 2 && window > 0
    ensures RoomMade(Crowded(now), key, now, max, window, room) && !RankOrdered(Crowded(now), room, max)
  {
    var m := Crowded(now);
    CrowdedFacts(now, max, window);
    assert key !in m;
    assert Spent(m[Caller(1)]) == 2;
    assert !TiesFit(m, EVICTION_TARGET, max);
    room := RankBreaker(m, EVICTION_TARGET, max);
  }

  /** A newcomer at a full map may cost a client its bucket that was there, and
      live, and will now get a fresh budget. */
  lemma ResidentLosesItsBucket(key: Key, now: Instant, max: nat, window: nat) returns (room: Map)
    requires key !in Callers(PURGE_AT) && max > 2 && window > 0
    ensures RoomMade(Crowded(now), key, now, max, window, room)
    ensures Caller(0) in Crowded(now) && Live(Crowded(now)[Caller(0)], now, window) && Caller(0) !in room
  {
    var m := Crowded(now);
    CrowdedFacts(now, max, window);
    assert key !in m;
    assert Spent(m[Caller(0)]) == 1;
    room := Lose(m, Caller(0), EVICTION_TARGET, max);
  }
}
