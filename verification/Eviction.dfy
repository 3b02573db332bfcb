/** Dropping buckets from a full map: cheapest first, never an exhausted one,
    for every iteration order of the hash map. */
module Eviction {
  import opened Buckets

  type Map = map<Key, Bucket>

  ghost predicate NoDup(order: seq<Key>) {
    forall i, j :: 0 <= i < j < |order| ==> order[i] != order[j]
  }

  /** `order` is one way to iterate over `m`. */
  ghost predicate IsOrder(order: seq<Key>, m: Map) {
    NoDup(order) && (forall k :: k in m <==> k in order)
  }

  /** The keys an eviction may drop: those that have not spent `max`. */
  ghost function Evictable(m: Map, max: nat): set<Key> {
    set k | k in m && Spent(m[k]) < max
  }

  ghost function Cheaper(m: Map, max: nat, spent: int): set<Key> {
    set k | k in m && Spent(m[k]) < max && Spent(m[k]) < spent
  }

  ghost function AsCheap(m: Map, max: nat, spent: int): set<Key> {
    set k | k in m && Spent(m[k]) < max && Spent(m[k]) <= spent
  }

  /** How many entries one eviction removes. */
  ghost function Excess(m: Map, target: nat, max: nat): nat {
    if |m| <= target then 0 else Min(|m| - target, |Evictable(m, max)|)
  }

  /** The contract of an eviction. A removed key is un-exhausted and has fewer
      than `Excess` un-exhausted keys strictly below it, which is to say that
      its spend is at most the `Excess`-th smallest. */
  ghost predicate Evicted(m: Map, kept: Map, target: nat, max: nat) {
    && kept.Keys <= m.Keys
    && (forall k :: k in kept ==> kept[k] == m[k])
    && |m.Keys - kept.Keys| == Excess(m, target, max)
    && (forall k :: k in m && k !in kept ==>
          Spent(m[k]) < max && |Cheaper(m, max, Spent(m[k]))| < Excess(m, target, max))
  }

  // ------------------------------------------------------------------
  // Counting the spends of a sequence of keys
  // ------------------------------------------------------------------

  function CountAtMost(s: seq<int>, v: int): nat {
    if s == [] then 0 else CountAtMost(s[..|s|-1], v) + (if s[|s|-1] <= v then 1 else 0)
  }

  lemma {:induction false} CountAll(s: seq<int>, v: int)
    requires forall i :: 0 <= i < |s| ==> s[i] <= v
    ensures CountAtMost(s, v) == |s|
  {
    if s != [] { CountAll(s[..|s|-1], v); }
  }

  lemma {:induction false} CountNone(s: seq<int>, v: int)
    requires forall i :: 0 <= i < |s| ==> v < s[i]
    ensures CountAtMost(s, v) == 0
  {
    if s != [] { CountNone(s[..|s|-1], v); }
  }

  /** The un-exhausted spends, in iteration order. */
  ghost function SpentList(m: Map, order: seq<Key>, max: nat): seq<int>
    requires forall k :: k in order ==> k in m
  {
    if order == [] then []
    else
      var rest := SpentList(m, order[..|order|-1], max);
      var spent := Spent(m[order[|order|-1]]);
      if spent < max then rest + [spent] else rest
  }

  /** Counting in the list is counting keys. */
  lemma {:induction false} CountIsCardinality(m: Map, order: seq<Key>, max: nat, v: int)
    requires NoDup(order) && forall k :: k in order ==> k in m
    ensures CountAtMost(SpentList(m, order, max), v)
         == |set k | k in order && Spent(m[k]) < max && Spent(m[k]) <= v|
  {
    var here := set k | k in order && Spent(m[k]) < max && Spent(m[k]) <= v;
    if order == [] {
      assert here == {};
    } else {
      var init, last := order[..|order|-1], order[|order|-1];
      CountIsCardinality(m, init, max, v);
      var before := set k | k in init && Spent(m[k]) < max && Spent(m[k]) <= v;
      assert last !in init;
      assert order == init + [last];
      var list := SpentList(m, init, max);
      if Spent(m[last]) < max {
        assert (list + [Spent(m[last])])[..|list|] == list;
      }
      if Spent(m[last]) < max && Spent(m[last]) <= v {
        assert here == before + {last};
      } else {
        assert here == before;
      }
    }
  }

  lemma CountOverMap(m: Map, order: seq<Key>, max: nat, v: int)
    requires IsOrder(order, m)
    ensures CountAtMost(SpentList(m, order, max), v) == |AsCheap(m, max, v)|
  {
    CountIsCardinality(m, order, max, v);
    assert AsCheap(m, max, v) == set k | k in order && Spent(m[k]) < max && Spent(m[k]) <= v;
  }

  lemma {:induction false} SpentListSize(m: Map, order: seq<Key>, max: nat)
    requires IsOrder(order, m)
    ensures |SpentList(m, order, max)| == |Evictable(m, max)|
  {
    CountOverMap(m, order, max, max);
    assert AsCheap(m, max, max) == Evictable(m, max);
    SpentListBelow(m, order, max);
    CountAll(SpentList(m, order, max), max);
  }

  lemma {:induction false} SpentListBelow(m: Map, order: seq<Key>, max: nat)
    requires forall k :: k in order ==> k in m
    ensures forall i :: 0 <= i < |SpentList(m, order, max)| ==> 0 <= SpentList(m, order, max)[i] < max
  {
    if order != [] {
      SpentListBelow(m, order[..|order|-1], max);
    }
  }

  // ------------------------------------------------------------------
  // The code
  // ------------------------------------------------------------------

  /** Some enumeration of the map: which one is the hash map's business, so a
      caller is proved right for all of them. */
  method IterationOrder(m: Map) returns (order: seq<Key>)
    ensures IsOrder(order, m)
  {
    order := [];
    var rest := m.Keys;
    while rest != {}
      invariant NoDup(order) && rest <= m.Keys
      invariant forall k :: k in m <==> k in rest || k in order
      invariant forall k :: k in order ==> k !in rest
      decreases rest
    {
      var k :| k in rest;
      order, rest := order + [k], rest - {k};
    }
  }

  /** The `n`-th smallest element, counting from zero: what the library's
      selection returns. At most `n` elements are below it and more than `n`
      are at or below it. */
  method SelectNth(s: seq<int>, n: nat) returns (v: int)
    requires n < |s| && forall i :: 0 <= i < |s| ==> 0 <= s[i]
    ensures CountAtMost(s, v - 1) <= n < CountAtMost(s, v)
  {
    var top := 0;
    for i := 0 to |s|
      invariant forall j :: 0 <= j < i ==> s[j] <= top
    {
      if s[i] > top { top := s[i]; }
    }
    CountAll(s, top);
    CountNone(s, -1);
    v := 0;
    while CountAtMost(s, v) <= n
      invariant 0 <= v <= top
      invariant CountAtMost(s, v - 1) <= n
      decreases top - v
    {
      v := v + 1;
    }
  }

  /** The retain pass over the first `n` keys of `order`: what it has dropped. */
  ghost function Dropped(m: Map, order: seq<Key>, max: nat, cutoff: int, budget: nat): seq<Key>
    requires forall k :: k in order ==> k in m
  {
    if order == [] then []
    else
      var before := Dropped(m, order[..|order|-1], max, cutoff, budget);
      var k := order[|order|-1];
      if |before| < budget && Spent(m[k]) < max && Spent(m[k]) <= cutoff
      then before + [k] else before
  }

  /** The map an eviction leaves, for a given iteration order and cutoff. */
  ghost function Retained(m: Map, order: seq<Key>, max: nat, cutoff: int, budget: nat): Map
    requires forall k :: k in order ==> k in m
  {
    map k | k in m && k !in Dropped(m, order, max, cutoff, budget) :: m[k]
  }

  /** `cutoff` is the `Excess`-th smallest un-exhausted spend. */
  ghost predicate IsCutoff(m: Map, target: nat, max: nat, cutoff: int) {
    |AsCheap(m, max, cutoff - 1)| < Excess(m, target, max) <= |AsCheap(m, max, cutoff)|
  }

  method SpentOf(m: Map, order: seq<Key>, max: nat) returns (spent: seq<int>)
    requires forall k :: k in order ==> k in m
    ensures spent == SpentList(m, order, max)
  {
    spent := [];
    for i := 0 to |order|
      invariant spent == SpentList(m, order[..i], max)
    {
      assert order[..i+1][..i] == order[..i];
      if Spent(m[order[i]]) < max { spent := spent + [Spent(m[order[i]])]; }
    }
    assert order[..|order|] == order;
  }

  /** The budgeted pass. */
  method Retain(m: Map, order: seq<Key>, max: nat, cutoff: int, excess: nat) returns (kept: Map)
    requires IsOrder(order, m)
    ensures kept == Retained(m, order, max, cutoff, excess)
  {
    var budget := excess;
    var evicted: set<Key> := {};
    ghost var gone: seq<Key> := [];
    for i := 0 to |order|
      invariant gone == Dropped(m, order[..i], max, cutoff, excess)
      invariant budget == excess - |gone|
      invariant forall k :: k in gone <==> k in evicted
    {
      var k := order[i];
      assert order[..i+1][..i] == order[..i];
      if budget > 0 && Spent(m[k]) < max && Spent(m[k]) <= cutoff {
        budget := budget - 1;
        evicted := evicted + {k};
        gone := gone + [k];
      }
    }
    assert order[..|order|] == order;
    kept := map k | k in m && k !in evicted :: m[k];
  }

  /** Shrink a map to `target` entries, or as near as its exhausted ones allow.
      The result is what one budgeted pass in some iteration order leaves. */
  method EvictCheapest(m: Map, target: nat, max: nat) returns (kept: Map, ghost order: seq<Key>, ghost cutoff: int)
    ensures IsOrder(order, m)
    ensures Excess(m, target, max) == 0 ==> kept == m
    ensures Excess(m, target, max) > 0 ==>
              IsCutoff(m, target, max, cutoff) &&
              kept == Retained(m, order, max, cutoff, Excess(m, target, max))
    ensures Evicted(m, kept, target, max)
  {
    var keys := IterationOrder(m);
    order, cutoff := keys, 0;
    kept := m;
    if |m| <= target {
      KeptAll(m, target, max);
      return;
    }
    var spent := SpentOf(m, keys, max);
    SpentListSize(m, keys, max);
    SpentListBelow(m, keys, max);
    var excess := Min(|m| - target, |spent|);
    if excess == 0 {
      KeptAll(m, target, max);
      return;
    }
    var cut := SelectNth(spent, excess - 1);
    cutoff := cut;
    CountOverMap(m, keys, max, cut);
    CountOverMap(m, keys, max, cut - 1);
    kept := Retain(m, keys, max, cut, excess);
    RetainedIsEvicted(m, keys, target, max, cut);
  }

  lemma KeptAll(m: Map, target: nat, max: nat)
    requires Excess(m, target, max) == 0
    ensures Evicted(m, m, target, max)
  {
    assert m.Keys - m.Keys == {};
  }

  // ------------------------------------------------------------------
  // The contract is met, and it is exact
  // ------------------------------------------------------------------

  lemma {:induction false} DroppedFacts(m: Map, order: seq<Key>, max: nat, cutoff: int, budget: nat)
    requires NoDup(order) && forall k :: k in order ==> k in m
    ensures var d := Dropped(m, order, max, cutoff, budget);
            && NoDup(d) && |d| <= budget
            && (forall k :: k in d ==> k in order && Spent(m[k]) < max && Spent(m[k]) <= cutoff)
            && (|d| == budget ||
                forall k :: k in order && Spent(m[k]) < max && Spent(m[k]) <= cutoff ==> k in d)
  {
    if order != [] {
      DroppedFacts(m, order[..|order|-1], max, cutoff, budget);
    }
  }

  lemma {:induction false} SeqSetSize(s: seq<Key>)
    requires NoDup(s)
    ensures |set k | k in s| == |s|
  {
    if s != [] {
      var init, last := s[..|s|-1], s[|s|-1];
      SeqSetSize(init);
      assert s == init + [last];
      assert (set k | k in s) == (set k | k in init) + {last};
    }
  }

  lemma SubsetSize<T>(a: set<T>, b: set<T>)
    requires a <= b
    ensures |a| <= |b|
    ensures |a| == |b| ==> a == b
    ensures |b - a| == |b| - |a|
  {
    assert b == a + (b - a);
  }

  lemma RetainedIsEvicted(m: Map, order: seq<Key>, target: nat, max: nat, cutoff: int)
    requires IsOrder(order, m) && Excess(m, target, max) > 0 && IsCutoff(m, target, max, cutoff)
    ensures Evicted(m, Retained(m, order, max, cutoff, Excess(m, target, max)), target, max)
  {
    var excess := Excess(m, target, max);
    var d := Dropped(m, order, max, cutoff, excess);
    var kept := Retained(m, order, max, cutoff, excess);
    DroppedFacts(m, order, max, cutoff, excess);
    SeqSetSize(d);
    var gone := set k | k in d;
    assert m.Keys - kept.Keys == gone;
    if |d| < excess {
      SubsetSize(AsCheap(m, max, cutoff), gone);
    }
    forall k | k in m && k !in kept
      ensures |Cheaper(m, max, Spent(m[k]))| < excess
    {
      SubsetSize(Cheaper(m, max, Spent(m[k])), AsCheap(m, max, cutoff - 1));
    }
  }

  /** The contract allows nothing the code cannot do: every outcome it admits
      is what the pass leaves for some iteration order and the true cutoff. */
  lemma EveryOutcomeHasAnOrder(m: Map, kept: Map, target: nat, max: nat) returns (order: seq<Key>, cutoff: int)
    requires Evicted(m, kept, target, max) && Excess(m, target, max) > 0
    ensures IsOrder(order, m) && IsCutoff(m, target, max, cutoff)
    ensures kept == Retained(m, order, max, cutoff, Excess(m, target, max))
  {
    var excess := Excess(m, target, max);
    var gone, rest := SplitOrder(m, kept);
    order := gone + rest;
    cutoff := CutoffExists(m, order, target, max);
    UnderCutoff(m, kept, target, max, cutoff);
    DroppedPrefix(m, gone, rest, max, cutoff, excess);
  }

  lemma SplitOrder(m: Map, kept: Map) returns (gone: seq<Key>, rest: seq<Key>)
    requires kept.Keys <= m.Keys
    ensures IsOrder(gone + rest, m) && |gone| == |m.Keys - kept.Keys|
    ensures forall k :: k in gone <==> k in m && k !in kept
  {
    gone := Enumeration(m.Keys - kept.Keys);
    rest := Enumeration(kept.Keys);
    NoDupConcat(gone, rest);
    SameSize(gone, m.Keys - kept.Keys);
    forall k
      ensures k in m <==> k in gone + rest
    {
      assert k in gone + rest <==> k in gone || k in rest;
    }
  }

  lemma NoDupConcat(a: seq<Key>, b: seq<Key>)
    requires NoDup(a) && NoDup(b) && forall k :: k in a ==> k !in b
    ensures NoDup(a + b)
  {
    forall i, j | 0 <= i < j < |a + b|
      ensures (a + b)[i] != (a + b)[j]
    {
      if i < |a| <= j {
        assert (a + b)[i] in a && (a + b)[j] in b;
      }
    }
  }

  lemma SameSize(s: seq<Key>, keys: set<Key>)
    requires NoDup(s) && forall k :: k in keys <==> k in s
    ensures |s| == |keys|
  {
    SeqSetSize(s);
    assert keys == set k | k in s;
  }

  lemma UnderCutoff(m: Map, kept: Map, target: nat, max: nat, cutoff: int)
    requires Evicted(m, kept, target, max) && IsCutoff(m, target, max, cutoff)
    ensures forall k :: k in m && k !in kept ==> Spent(m[k]) <= cutoff
  {
    forall k | k in m && k !in kept
      ensures Spent(m[k]) <= cutoff
    {
      if cutoff < Spent(m[k]) {
        SubsetSize(AsCheap(m, max, cutoff), Cheaper(m, max, Spent(m[k])));
      }
    }
  }

  lemma {:induction false} Enumeration(keys: set<Key>) returns (order: seq<Key>)
    ensures NoDup(order) && forall k :: k in keys <==> k in order
  {
    if keys == {} {
      order := [];
    } else {
      var k :| k in keys;
      var rest := Enumeration(keys - {k});
      order := rest + [k];
    }
  }

  lemma CutoffExists(m: Map, order: seq<Key>, target: nat, max: nat) returns (cutoff: int)
    requires IsOrder(order, m) && Excess(m, target, max) > 0
    ensures IsCutoff(m, target, max, cutoff)
  {
    cutoff := 0;
    SpentListBelow(m, order, max);
    CountNone(SpentList(m, order, max), -1);
    CountOverMap(m, order, max, -1);
    assert AsCheap(m, max, max) == Evictable(m, max);
    while |AsCheap(m, max, cutoff)| < Excess(m, target, max)
      invariant 0 <= cutoff <= max
      invariant |AsCheap(m, max, cutoff - 1)| < Excess(m, target, max)
      decreases max - cutoff
    {
      cutoff := cutoff + 1;
    }
  }

  lemma {:induction false} DroppedPrefix(m: Map, gone: seq<Key>, rest: seq<Key>, max: nat, cutoff: int, budget: nat)
    requires forall k :: k in gone + rest ==> k in m
    requires forall k :: k in gone ==> Spent(m[k]) < max && Spent(m[k]) <= cutoff
    requires |gone| <= budget && (rest != [] ==> |gone| == budget)
    ensures Dropped(m, gone + rest, max, cutoff, budget) == gone
    decreases |gone| + |rest|
  {
    var order := gone + rest;
    if rest != [] {
      assert order[..|order|-1] == gone + rest[..|rest|-1];
      assert forall k :: k in rest[..|rest|-1] ==> k in rest;
      DroppedPrefix(m, gone, rest[..|rest|-1], max, cutoff, budget);
    } else if gone != [] {
      var init := gone[..|gone|-1];
      assert order[..|order|-1] == init + [];
      assert forall k :: k in init ==> k in gone;
      DroppedPrefix(m, init, [], max, cutoff, budget);
      assert gone == init + [gone[|gone|-1]];
    }
  }

  // ------------------------------------------------------------------
  // "Cheapest first" is not strict rank order
  // ------------------------------------------------------------------

  /** No survivor that could have been evicted is strictly cheaper than an
      evicted one. */
  ghost predicate RankOrdered(m: Map, kept: Map, max: nat) {
    forall a, b :: a in kept && b in m && b !in kept && a in m && Spent(m[a]) < max
                   ==> Spent(m[b]) <= Spent(m[a])
  }

  /** Every spend the eviction reaches either has nothing un-exhausted below
      it, or is reached with room for all of its ties. */
  ghost predicate TiesFit(m: Map, target: nat, max: nat) {
    forall b :: b in Evictable(m, max) && 0 < |Cheaper(m, max, Spent(m[b]))| < Excess(m, target, max)
                ==> |AsCheap(m, max, Spent(m[b]))| <= Excess(m, target, max)
  }

  /** The eviction follows strict rank order whatever the iteration order
      exactly when the ties at the cutoff fit. */
  lemma StrictRankIffTiesFit(m: Map, target: nat, max: nat)
    ensures TiesFit(m, target, max) <==>
            (forall kept: Map | Evicted(m, kept, target, max) :: RankOrdered(m, kept, max))
  {
    if TiesFit(m, target, max) {
      forall kept: Map | Evicted(m, kept, target, max)
        ensures RankOrdered(m, kept, max)
      {
        TiesFitGivesRank(m, kept, target, max);
      }
    } else {
      var kept := RankBreaker(m, target, max);
    }
  }

  lemma TiesFitGivesRank(m: Map, kept: Map, target: nat, max: nat)
    requires TiesFit(m, target, max) && Evicted(m, kept, target, max)
    ensures RankOrdered(m, kept, max)
  {
    forall a, b | a in kept && b in m && b !in kept && a in m && Spent(m[a]) < max
      ensures Spent(m[b]) <= Spent(m[a])
    {
      if Spent(m[a]) < Spent(m[b]) {
        var gone := m.Keys - kept.Keys;
        var top := Dearest(m, gone, b);
        assert a in Cheaper(m, max, Spent(m[top]));
        assert top in Evictable(m, max);
        SubsetSize(gone, AsCheap(m, max, Spent(m[top])));
        assert false;
      }
    }
  }

  lemma {:induction false} Dearest(m: Map, keys: set<Key>, b: Key) returns (top: Key)
    requires keys <= m.Keys && b in keys
    ensures top in keys && forall k :: k in keys ==> Spent(m[k]) <= Spent(m[top])
  {
    top := b;
    if keys != {b} {
      var k :| k in keys && k != b;
      top := Dearest(m, keys - {k}, b);
      if Spent(m[top]) < Spent(m[k]) { top := k; }
    }
  }

  lemma RankBreaker(m: Map, target: nat, max: nat) returns (kept: Map)
    requires !TiesFit(m, target, max)
    ensures Evicted(m, kept, target, max) && !RankOrdered(m, kept, max)
  {
    var excess := Excess(m, target, max);
    var b :| b in Evictable(m, max) && 0 < |Cheaper(m, max, Spent(m[b]))| < excess
             && excess < |AsCheap(m, max, Spent(m[b]))|;
    var a :| a in Cheaper(m, max, Spent(m[b]));
    var band := AsCheap(m, max, Spent(m[b]));
    var gone := SubsetWith(band - {a}, b, excess);
    kept := map k | k in m && k !in gone :: m[k];
    assert m.Keys - kept.Keys == gone;
    forall k | k in m && k !in kept
      ensures |Cheaper(m, max, Spent(m[k]))| < excess
    {
      SubsetSize(Cheaper(m, max, Spent(m[k])), Cheaper(m, max, Spent(m[b])));
    }
    assert a in kept && b !in kept;
  }

  lemma {:induction false} SubsetWith(s: set<Key>, b: Key, n: nat) returns (sub: set<Key>)
    requires b in s && 1 <= n <= |s|
    ensures sub <= s && |sub| == n && b in sub
    decreases n
  {
    if n == 1 {
      sub := {b};
    } else {
      SubsetSize({b}, s);
      var k :| k in s - {b};
      var rest := SubsetWith(s - {k}, b, n - 1);
      sub := rest + {k};
    }
  }

  // ------------------------------------------------------------------
  // Who can lose its bucket
  // ------------------------------------------------------------------

  /** A client can lose its bucket to an eviction exactly when it has not
      spent `max` and fewer than `Excess` un-exhausted clients spent less. So
      having a bucket does not protect it; being exhausted does. */
  lemma LosableIff(m: Map, k: Key, target: nat, max: nat)
    requires k in m
    ensures (exists kept: Map :: Evicted(m, kept, target, max) && k !in kept) <==>
            Spent(m[k]) < max && |Cheaper(m, max, Spent(m[k]))| < Excess(m, target, max)
  {
    if Spent(m[k]) < max && |Cheaper(m, max, Spent(m[k]))| < Excess(m, target, max) {
      var kept := Lose(m, k, target, max);
    }
  }

  lemma Lose(m: Map, k: Key, target: nat, max: nat) returns (kept: Map)
    requires k in m && Spent(m[k]) < max && |Cheaper(m, max, Spent(m[k]))| < Excess(m, target, max)
    ensures Evicted(m, kept, target, max) && k !in kept
  {
    var order := Enumeration(m.Keys);
    var cutoff := CutoffExists(m, order, target, max);
    var band := AsCheap(m, max, cutoff);
    if cutoff < Spent(m[k]) {
      SubsetSize(band, Cheaper(m, max, Spent(m[k])));
    }
    var gone := SubsetWith(band, k, Excess(m, target, max));
    kept := map x | x in m && x !in gone :: m[x];
    assert m.Keys - kept.Keys == gone;
    forall x | x in m && x !in kept
      ensures |Cheaper(m, max, Spent(m[x]))| < Excess(m, target, max)
    {
      SubsetSize(Cheaper(m, max, Spent(m[x])), AsCheap(m, max, cutoff - 1));
    }
  }

  // ------------------------------------------------------------------
  // What the limiter uses
  // ------------------------------------------------------------------

  lemma EvictedSize(m: Map, kept: Map, target: nat, max: nat)
    requires Evicted(m, kept, target, max)
    ensures |kept| == |m| - Excess(m, target, max)
    ensures |kept| < |m| || kept == m
    ensures |m| > target && |kept| > target ==>
              forall k :: k in kept ==> Spent(kept[k]) >= max
  {
    SubsetSize(kept.Keys, m.Keys);
    if |m| > target && |kept| > target {
      SubsetSize(m.Keys - kept.Keys, Evictable(m, max));
    }
  }
}
