/** Where a table's records live: calendar buckets and the write window (src/domain/schema.rs). */
module Tables {
  import opened Common
  import opened Records
  import opened Calendar
  import opened Tiling

  /** The part of a table definition that decides where a record lives. */
  datatype Table = Table(tableId: string, strategy: Strategy, writableBuckets: nat)

  function BucketFor(table: Table, partition: Bytes, t: int): BucketId {
    BucketId(table.tableId, partition, table.strategy,
             BucketKey(table.strategy, t), BucketStart(table.strategy, t), BucketEnd(table.strategy, t))
  }

  function Bucketing(table: Table, partition: Bytes): int -> BucketId {
    t => BucketFor(table, partition, t)
  }

  lemma SamePeriodSameBucket(table: Table, partition: Bytes, t: int, u: int)
    ensures Contains(BucketFor(table, partition, t), u) ==> BucketFor(table, partition, u) == BucketFor(table, partition, t)
  {
    var s := table.strategy;
    BucketContainsInstant(s, t);
    BucketContainsInstant(s, u);
    PeriodIff(s, u, Period(s, t));
    SameKeyIffSameBounds(s, t, u);
  }

  /** Calendar buckets cut all of UTC time into consecutive pieces, whatever the strategy. */
  lemma CalendarTiles(table: Table, partition: Bytes)
    ensures Tiles(Bucketing(table, partition))
  {
    forall t ensures Contains(BucketFor(table, partition, t), t) {
      BucketContainsInstant(table.strategy, t);
    }
    forall t, u | Contains(BucketFor(table, partition, t), u)
      ensures BucketFor(table, partition, u) == BucketFor(table, partition, t)
    {
      SamePeriodSameBucket(table, partition, t, u);
    }
  }

  method BucketsForRange(table: Table, partition: Bytes, range: TimeRange) returns (buckets: seq<BucketId>)
    ensures range.start >= range.end ==> buckets == []
    ensures range.start < range.end ==> Spans(Bucketing(table, partition), range, buckets)
  {
    CalendarTiles(table, partition);
    buckets := WalkForward(Bucketing(table, partition), range);
  }

  method RecentBuckets(table: Table, partition: Bytes, t: int, count: nat) returns (buckets: seq<BucketId>)
    ensures EndsWith(Bucketing(table, partition), t, count, buckets)
  {
    CalendarTiles(table, partition);
    buckets := WalkBackward(Bucketing(table, partition), t, count);
  }

  method WritableBucketsAt(table: Table, partition: Bytes, now: int) returns (buckets: seq<BucketId>)
    ensures EndsWith(Bucketing(table, partition), now, table.writableBuckets, buckets)
  {
    buckets := RecentBuckets(table, partition, now, table.writableBuckets);
  }

  /** The comparison of starts made by an append. */
  predicate OutsideWriteWindow(b: BucketId, window: seq<BucketId>)
    requires window != []
  {
    b.start < window[0].start || b.start > window[|window| - 1].start
  }

  /** An append passes the window check exactly when its bucket is one of the listed ones. */
  lemma WindowIffListed(f: int -> BucketId, window: seq<BucketId>, t: int)
    requires Tiles(f) && Chain(f, window) && window != []
    ensures OutsideWriteWindow(f(t), window) <==> f(t) !in window
  {
    var b, n := f(t), |window|;
    assert Contains(b, t) && Contains(b, b.start);
    assert Contains(f(window[n - 1].start), window[n - 1].start);
    if b in window {
      var i :| 0 <= i < n && window[i] == b;
      if 0 < i { ChainOrder(f, window, 0, i); assert Contains(f(window[0].start), window[0].start); }
      if i < n - 1 { ChainOrder(f, window, i, n - 1); }
    } else if !OutsideWriteWindow(b, window) {
      var i := ChainCovers(f, window, b.start);
    }
  }

  // ----- canonical identities -----

  /** Identities produced by `BucketFor`; the public type would allow others. */
  predicate Canonical(b: BucketId) {
    b == BucketFor(Table(b.tableId, b.strategy, 1), b.partitionKey, b.start)
  }

  lemma BucketForCanonical(table: Table, partition: Bytes, t: int)
    ensures Canonical(BucketFor(table, partition, t))
  {
    var b := BucketFor(table, partition, t);
    BucketContainsInstant(table.strategy, t);
    SamePeriodSameBucket(table, partition, t, b.start);
  }

  /** Table, partition and key text alone identify a canonical bucket. */
  lemma CanonicalByKey(a: BucketId, b: BucketId)
    requires Canonical(a) && Canonical(b)
    requires a.tableId == b.tableId && a.partitionKey == b.partitionKey && a.key == b.key
    ensures a == b
  {
    KeyNamesStrategy(a.strategy, DateOfInstant(a.start), b.strategy, DateOfInstant(b.start));
    SameKeyIffSameBounds(a.strategy, a.start, b.start);
  }

  lemma CanonicalKeyHasNoSlash(b: BucketId)
    requires Canonical(b)
    ensures '/' !in b.key
  {
    KeyInitial(b.strategy, DateOfInstant(b.start));
  }
}
