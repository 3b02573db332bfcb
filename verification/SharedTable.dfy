/** The shared table as the database has it, keyed by row names, against the
    table keyed by (tier, client, window) that the protocol reasons about. */
module SharedTable {
  import opened Buckets
  import opened RowKeys
  import opened Eviction
  import opened Limiter
  import opened Protocol

  type Named = map<string, int>

  function HitsOf(t: Named, name: string): int {
    if name in t then t[name] else 0
  }

  function NameOf(row: Row, digest: Key -> Digest): string {
    RowKey(row.tier, digest(row.key), row.epoch)
  }

  /** No two of the clients in play share a digest. */
  ghost predicate NoCollision(keys: set<Key>, digest: Key -> Digest) {
    forall j, k :: j in keys && k in keys && digest(j) == digest(k) ==> j == k
  }

  /** `t` is `table` under its row names, as far as `keys` are concerned. */
  ghost predicate Represents(t: Named, table: Table, keys: set<Key>, digest: Key -> Digest) {
    forall row: Row :: row.key in keys ==> HitsOf(t, NameOf(row, digest)) == Hits(table, row)
  }

  lemma NamesDiffer(row: Row, other: Row, keys: set<Key>, digest: Key -> Digest)
    requires NoCollision(keys, digest) && row.key in keys && other.key in keys && row != other
    ensures NameOf(row, digest) != NameOf(other, digest)
  {
    if NameOf(row, digest) == NameOf(other, digest) {
      RowKeyInjective(row.tier, digest(row.key), row.epoch, other.tier, digest(other.key), other.epoch);
    }
  }

  /** What a name gains from a list of reports. */
  ghost function Gain(reports: map<Key, Pending>, tier: string, epoch: int, row: Row): int {
    if row.tier == tier && row.epoch == epoch && row.key in reports then reports[row.key].delta else 0
  }

  /** What one statement does to the rows of the clients in play, and the
      totals it returns. */
  ghost predicate Upserted(t: Named, after: Named, totals: Named, reports: map<Key, Pending>,
                           tier: string, epoch: int, digest: Key -> Digest, keys: set<Key>) {
    && (forall row: Row :: row.key in keys ==>
          HitsOf(after, NameOf(row, digest)) == HitsOf(t, NameOf(row, digest)) + Gain(reports, tier, epoch, row))
    && (forall row: Row :: row.key in keys ==>
          (NameOf(row, digest) in totals <==> row.tier == tier && row.epoch == epoch && row.key in reports))
    && (forall name :: name in totals ==> name in after && totals[name] == after[name])
  }

  /** One statement's upsert, report by report, with the totals it returns. */
  method Upsert(t: Named, pending: seq<Pending>, tier: string, epoch: int,
                digest: Key -> Digest, ghost keys: set<Key>)
    returns (after: Named, totals: Named)
    requires NoCollision(keys, digest) && DistinctKeys(pending)
    requires forall i :: 0 <= i < |pending| ==> pending[i].key in keys
    ensures Upserted(t, after, totals, ByKey(pending), tier, epoch, digest, keys)
  {
    after, totals := t, map[];
    assert ByKey(pending[..0]) == map[];
    for i := 0 to |pending|
      invariant Upserted(t, after, totals, ByKey(pending[..i]), tier, epoch, digest, keys)
    {
      var p := pending[i];
      ByKeyStep(pending, i);
      var name := RowKey(tier, digest(p.key), epoch);
      ghost var mine := Row(tier, p.key, epoch);
      forall row: Row | row.key in keys && row != mine
        ensures NameOf(row, digest) != name
      {
        NamesDiffer(row, mine, keys, digest);
      }
      after := after[name := HitsOf(after, name) + p.delta];
      totals := totals[name := after[name]];
    }
    assert pending[..|pending|] == pending;
  }

  /** The statement by names is the fold by rows: from a table that represents
      the protocol's it leaves one that represents the protocol's fold, and the
      totals read through the names are those the write-back uses. */
  lemma UpsertIsFold(p: Proc, t: Named, after: Named, totals: Named, table: Table, keys: set<Key>, digest: Key -> Digest)
    requires p.sync.InFlight? && p.sync.reports.Keys <= keys && Represents(t, table, keys, digest)
    requires Upserted(t, after, totals, p.sync.reports, p.cfg.tier, p.sync.epoch, digest, keys)
    ensures Represents(after, FoldedTable(table, p, p.sync.reports.Keys), keys, digest)
    ensures TotalsByKey(p.sync.reports, totals, p.cfg.tier, digest, p.sync.epoch)
         == AfterFold(p, p.sync.reports.Keys, table).sync.totals
  {
    var landed := p.sync.reports.Keys;
    forall row: Row | row.key in keys
      ensures HitsOf(after, NameOf(row, digest)) == Hits(FoldedTable(table, p, landed), row)
    {
      assert HitsOf(t, NameOf(row, digest)) == Hits(table, row);
      FoldedHits(table, p, landed, row);
    }
    forall k | k in landed
      ensures RowKey(p.cfg.tier, digest(k), p.sync.epoch) in totals
      ensures totals[RowKey(p.cfg.tier, digest(k), p.sync.epoch)]
           == Hits(FoldedTable(table, p, landed), Row(p.cfg.tier, k, p.sync.epoch))
    {
      TotalOf(p, t, after, totals, table, keys, digest, k);
    }
    TotalsAgree(p, totals, FoldedTable(table, p, landed), digest);
  }

  lemma TotalOf(p: Proc, t: Named, after: Named, totals: Named, table: Table, keys: set<Key>, digest: Key -> Digest, k: Key)
    requires p.sync.InFlight? && p.sync.reports.Keys <= keys && Represents(t, table, keys, digest)
    requires Upserted(t, after, totals, p.sync.reports, p.cfg.tier, p.sync.epoch, digest, keys)
    requires k in p.sync.reports
    ensures RowKey(p.cfg.tier, digest(k), p.sync.epoch) in totals
    ensures totals[RowKey(p.cfg.tier, digest(k), p.sync.epoch)]
         == Hits(FoldedTable(table, p, p.sync.reports.Keys), Row(p.cfg.tier, k, p.sync.epoch))
  {
    var row := Row(p.cfg.tier, k, p.sync.epoch);
    assert NameOf(row, digest) == RowKey(p.cfg.tier, digest(k), p.sync.epoch);
    assert HitsOf(t, NameOf(row, digest)) == Hits(table, row);
    assert NameOf(row, digest) in totals;
    FoldedHits(table, p, p.sync.reports.Keys, row);
    assert HitsOf(after, NameOf(row, digest)) == HitsOf(t, NameOf(row, digest)) + p.sync.reports[k].delta;
  }

  lemma TotalsAgree(p: Proc, totals: Named, folded: Table, digest: Key -> Digest)
    requires p.sync.InFlight?
    requires forall k :: k in p.sync.reports ==>
               var name := RowKey(p.cfg.tier, digest(k), p.sync.epoch);
               name in totals && totals[name] == Hits(folded, Row(p.cfg.tier, k, p.sync.epoch))
    ensures TotalsByKey(p.sync.reports, totals, p.cfg.tier, digest, p.sync.epoch)
         == map k | k in p.sync.reports.Keys :: Hits(folded, Row(p.cfg.tier, k, p.sync.epoch))
  {
  }
}
