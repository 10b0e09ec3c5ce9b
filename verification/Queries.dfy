/**
 A query against the whole partition: the buckets it lists for its range are enough
 (src/application/durable_table.rs over src/domain/schema.rs).
 */
module Queries {
  import opened Common
  import opened Records
  import opened Tiling
  import opened Tables
  import opened BucketStore
  import opened Merge
  import opened MemoryArchive
  import opened TableRead

  // ----- the whole partition -----

  /**
   `stored` names, once each and in any order, at least the buckets of the partition that hold
   something, and `content` is what each bucket holds, filed under its own routed identity.
   */
  ghost predicate WholePartition(f: int -> BucketId, stored: seq<BucketId>, content: BucketId -> seq<Record>) {
    && RoutedOnce(f, stored)
    && (forall t :: WellFiled(f(t), content(f(t))))
    && (forall t :: f(t) !in stored ==> content(f(t)) == [])
  }

  ghost predicate RoutedOnce(f: int -> BucketId, bs: seq<BucketId>) {
    && (forall i :: 0 <= i < |bs| ==> bs[i] == f(bs[i].start))
    && (forall i, j :: 0 <= i < j < |bs| ==> bs[i] != bs[j])
  }

  function RowsOf(bs: seq<BucketId>, content: BucketId -> seq<Record>): (r: seq<seq<Record>>)
    ensures |r| == |bs| && forall i :: 0 <= i < |bs| ==> r[i] == content(bs[i])
  {
    seq(|bs|, i requires 0 <= i < |bs| => content(bs[i]))
  }

  lemma SpansOnce(f: int -> BucketId, range: TimeRange, bs: seq<BucketId>)
    requires Tiles(f) && range.start < range.end && Spans(f, range, bs)
    ensures RoutedOnce(f, bs) && Ascending(bs)
  {
    ChainAscending(f, bs);
    forall i, j | 0 <= i < j < |bs| ensures bs[i] != bs[j] { assert Contains(f(bs[i].start), bs[i].start); }
  }

  lemma {:induction false} FlattenNone(chunks: seq<seq<Record>>, c: Cursor)
    requires forall i :: 0 <= i < |chunks| ==> WithKey(chunks[i], c) == []
    ensures WithKey(Flatten(chunks), c) == []
  {
    if chunks != [] {
      var init, last := chunks[..|chunks| - 1], chunks[|chunks| - 1];
      FlattenNone(init, c);
      WithKeyConcat(Flatten(init), last, c);
    }
  }

  /** A key can only be found in the bucket of its instant. */
  lemma OnlyAtHome(f: int -> BucketId, b: BucketId, rows: seq<Record>, p: Record -> bool, c: Cursor)
    requires Tiles(f) && b == f(b.start) && WellFiled(b, rows) && b != f(c.eventTime)
    ensures WithKey(Filter(rows, p), c) == []
  {
    FilterMembers(rows, p);
    forall r | r in Filter(rows, p) ensures CursorOf(r) != c {
      assert BelongsTo(b, r);
      assert Contains(f(b.start), r.eventTime);
    }
    FilterNone(Filter(rows, p), r => CursorOf(r) == c);
  }

  /** The group of a key among listed buckets is its group in the bucket of its instant, if that is listed. */
  lemma HomeGroup(f: int -> BucketId, bs: seq<BucketId>, content: BucketId -> seq<Record>, p: Record -> bool, c: Cursor)
    requires Tiles(f) && RoutedOnce(f, bs) && forall t :: WellFiled(f(t), content(f(t)))
    ensures WithKey(Filter(Flatten(RowsOf(bs, content)), p), c) ==
            if f(c.eventTime) in bs then WithKey(Filter(content(f(c.eventTime)), p), c) else []
  {
    var home := f(c.eventTime);
    var chunks := FilterEach(RowsOf(bs, content), p);
    FilterFlatten(RowsOf(bs, content), p);
    forall i | 0 <= i < |bs| && bs[i] != home ensures WithKey(chunks[i], c) == [] {
      OnlyAtHome(f, bs[i], content(bs[i]), p, c);
    }
    if home in bs {
      var k :| 0 <= k < |bs| && bs[k] == home;
      FlattenGroup(chunks, c, k);
    } else {
      FlattenNone(chunks, c);
    }
  }

  lemma OutOfRangeGroup(rows: seq<Record>, range: TimeRange, after: Option<Cursor>, c: Cursor)
    requires !InRange(range, c.eventTime)
    ensures WithKey(Filter(rows, r => Selected(range, after, r)), c) == []
  {
    var p := r => Selected(range, after, r);
    FilterMembers(rows, p);
    FilterNone(Filter(rows, p), r => CursorOf(r) == c);
  }

  lemma SameGroups(
    f: int -> BucketId, range: TimeRange, bs: seq<BucketId>, stored: seq<BucketId>, content: BucketId -> seq<Record>,
    after: Option<Cursor>, c: Cursor)
    requires Tiles(f) && range.start < range.end && Spans(f, range, bs) && WholePartition(f, stored, content)
    ensures WithKey(Filter(Flatten(RowsOf(bs, content)), r => Selected(range, after, r)), c) ==
            WithKey(Filter(Flatten(RowsOf(stored, content)), r => Selected(range, after, r)), c)
  {
    var p := r => Selected(range, after, r);
    var home := f(c.eventTime);
    SpansOnce(f, range, bs);
    HomeGroup(f, bs, content, p, c);
    HomeGroup(f, stored, content, p, c);
    if InRange(range, c.eventTime) {
      assert Contains(home, c.eventTime);
      SpansIffMeets(f, range, bs, c.eventTime);
    } else {
      OutOfRangeGroup(content(home), range, after, c);
    }
  }

  /** Reading the buckets that span the range selects the same rows as reading the whole partition. */
  lemma SpanIsEnough(
    f: int -> BucketId, range: TimeRange, bs: seq<BucketId>, stored: seq<BucketId>, content: BucketId -> seq<Record>,
    after: Option<Cursor>)
    requires Tiles(f) && range.start < range.end && Spans(f, range, bs) && WholePartition(f, stored, content)
    ensures ReferenceRows(Flatten(RowsOf(bs, content)), range, after) == ReferenceRows(Flatten(RowsOf(stored, content)), range, after)
  {
    var p := r => Selected(range, after, r);
    var listed, whole := Filter(Flatten(RowsOf(bs, content)), p), Filter(Flatten(RowsOf(stored, content)), p);
    forall c ensures WithKey(listed, c) == WithKey(whole, c) { SameGroups(f, range, bs, stored, content, after, c); }
    SameGroupsSortAlike(listed, whole);
  }

  lemma SameGroupsSortAlike(s: seq<Record>, t: seq<Record>)
    requires forall c :: WithKey(s, c) == WithKey(t, c)
    ensures StableSort(s) == StableSort(t)
  {
    StableSortIsStableSort(s);
    StableSortSpec(t, StableSort(s));
  }

  lemma SpanWellFiled(f: int -> BucketId, range: TimeRange, bs: seq<BucketId>, stored: seq<BucketId>, content: BucketId -> seq<Record>)
    requires Tiles(f) && range.start < range.end && Spans(f, range, bs) && WholePartition(f, stored, content)
    ensures Ascending(bs) && AllWellFiled(bs, RowsOf(bs, content))
  {
    SpansOnce(f, range, bs);
    forall i | 0 <= i < |bs| ensures WellFiled(bs[i], content(bs[i])) { assert bs[i] == f(bs[i].start); }
  }

  // ----- the query -----

  /** Every listed bucket's read returns the page of what the bucket holds. */
  ghost predicate ReadsContent(
    bs: seq<BucketId>, read: (BucketId, nat) -> Reading, content: BucketId -> seq<Record>,
    range: TimeRange, after: Option<Cursor>, cap: nat)
  {
    forall i :: 0 <= i < |bs| ==> read(bs[i], cap) == Ok(Page(content(bs[i]), range, after, cap))
  }

  /**
   Whatever the tiers and the completion order, the answer is the first rows of the whole partition,
   sorted and filtered, after the cursor, and it carries a cursor exactly when more rows exist.
   */
  lemma QueryRefines(
    table: Table, partition: Bytes, stored: seq<BucketId>, content: BucketId -> seq<Record>,
    bs: seq<BucketId>, read: (BucketId, nat) -> Reading,
    range: TimeRange, after: Option<Cursor>, limit: nat, schedule: seq<nat>, r: Result<QueryPage, TableError>)
    requires range.start < range.end && 0 < limit <= USIZE_MAX
    requires WholePartition(Bucketing(table, partition), stored, content)
    requires Spans(Bucketing(table, partition), range, bs)
    requires ReadsContent(bs, read, content, range, after, PageCapacity(limit))
    requires limit == USIZE_MAX ==> |ReferenceRows(Flatten(RowsOf(stored, content)), range, after)| <= USIZE_MAX
    requires Answers(r, bs, schedule, ReadEach(bs, read, PageCapacity(limit)), limit)
    ensures r == Ok(PageOf(ReferenceRows(Flatten(RowsOf(stored, content)), range, after), limit))
  {
    var f := Bucketing(table, partition);
    CalendarTiles(table, partition);
    SpanWellFiled(f, range, bs, stored, content);
    SpanIsEnough(f, range, bs, stored, content, after);
    ListedRefines(bs, RowsOf(bs, content), read, range, after, limit, schedule);
  }

  /**
   `read(b, n)` is what reading at most `n` rows of bucket `b` returns whenever that read happens. When
   the reads return what a partition holds, the answer is the reference page of the whole partition.
   */
  method QueryTable(
    table: Table, partition: Bytes, range: TimeRange, after: Option<Cursor>, limit: nat, read: (BucketId, nat) -> Reading,
    ghost stored: seq<BucketId>, ghost content: BucketId -> seq<Record>)
    returns (r: Result<QueryPage, TableError>)
    requires limit <= USIZE_MAX
    ensures range.start >= range.end ==> r == Err(InvalidTimeRange)
    ensures range.start < range.end && limit == 0 ==> r == Ok(QueryPage([], after))
    ensures range.start < range.end && limit > 0 ==> exists bs, schedule ::
              Spans(Bucketing(table, partition), range, bs) &&
              Answers(r, bs, schedule, ReadEach(bs, read, PageCapacity(limit)), limit)
    ensures range.start < range.end && limit > 0 && Reads(table, partition, read, stored, content, range, after, limit) ==>
              r == Ok(PageOf(ReferenceRows(Flatten(RowsOf(stored, content)), range, after), limit))
  {
    if range.start >= range.end {
      return Err(InvalidTimeRange);
    }
    if limit == 0 {
      return Ok(QueryPage([], after));
    }
    var listed := BucketsForRange(table, partition, range);
    var completion := CompletionOrder(|listed|);
    var readings := ReadEach(listed, read, PageCapacity(limit));
    var gathered := ReadBuckets(readings, completion);
    r := if gathered.Err? then Err(gathered.error) else Ok(Finish(gathered.value, limit));
    assert Answers(r, listed, completion, readings, limit);
    if Reads(table, partition, read, stored, content, range, after, limit) {
      forall i | 0 <= i < |listed|
        ensures read(listed[i], PageCapacity(limit)) == Ok(Page(content(listed[i]), range, after, PageCapacity(limit)))
      {
        assert listed[i] == Bucketing(table, partition)(listed[i].start);
      }
      QueryRefines(table, partition, stored, content, listed, read, range, after, limit, completion, r);
    }
  }

  /** The reads of the partition's buckets return what the partition holds. */
  ghost predicate Reads(
    table: Table, partition: Bytes, read: (BucketId, nat) -> Reading, stored: seq<BucketId>, content: BucketId -> seq<Record>,
    range: TimeRange, after: Option<Cursor>, limit: nat)
  {
    && WholePartition(Bucketing(table, partition), stored, content)
    && (forall t :: var b := BucketFor(table, partition, t);
          read(b, PageCapacity(limit)) == Ok(Page(content(b), range, after, PageCapacity(limit))))
    && (limit == USIZE_MAX ==> |ReferenceRows(Flatten(RowsOf(stored, content)), range, after)| <= USIZE_MAX)
  }
}
