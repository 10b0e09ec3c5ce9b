/** Tier-transparent queries over a logical table (src/application/durable_table.rs). */
module TableRead {
  import opened Common
  import opened Records
  import opened Tiling
  import opened Cutover
  import opened BucketStore
  import opened Merge
  import opened MemoryArchive

  datatype TableError = InvalidTimeRange | ReadFailed(reason: string)

  type Reading = Result<seq<Record>, TableError>

  datatype QueryPage = QueryPage(records: seq<Record>, next: Option<Cursor>)

  // ----- one bucket -----

  /** The routed read of one bucket; `fetched` is what the archive returns for the routed key. */
  function ReadBucket(route: Read, fetched: Reading, range: TimeRange, after: Option<Cursor>, limit: nat): Reading {
    match route
    case HotRows(records) => Ok(records)
    case Archive(_) =>
      match fetched
      case Err(e) => Err(e)
      case Ok(records) => Ok(Take(StableSort(Filter(records, r => Selected(range, after, r))), limit))
  }

  /** A read does not depend on the tier: hot rows and the published object give the same page. */
  lemma TierTransparent(c: Bucket, fetched: Reading, rows: seq<Record>, range: TimeRange, after: Option<Cursor>, limit: nat)
    requires Sorted(rows)
    requires if c.state.Archived? then fetched == Ok(rows) else c.records == rows
    ensures ReadBucket(RouteRead(c, range, after, limit), fetched, range, after, limit) ==
            Ok(Page(rows, range, after, limit))
  {
    FilterKeepsOrder(rows, r => Selected(range, after, r));
    SortedIsFixed(Filter(rows, r => Selected(range, after, r)));
  }

  // ----- many buckets -----

  ghost predicate AllOk(readings: seq<Reading>) {
    forall i :: 0 <= i < |readings| ==> readings[i].Ok?
  }

  /** The rows each reading brings; a failed one brings none. */
  function Values(readings: seq<Reading>): (r: seq<seq<Record>>)
    ensures |r| == |readings| && forall i :: 0 <= i < |readings| && readings[i].Ok? ==> r[i] == readings[i].value
  {
    seq(|readings|, i requires 0 <= i < |readings| => if readings[i].Ok? then readings[i].value else [])
  }

  /**
   Joins the reads in the order they complete, which `schedule` gives; the first failure to be
   joined is returned.
   */
  method ReadBuckets(readings: seq<Reading>, schedule: seq<nat>) returns (r: Reading)
    requires Permutes(schedule, |readings|)
    ensures r.Ok? ==> AllOk(readings) && r.value == Gather(Values(readings), schedule)
    ensures r.Err? ==> r in readings
  {
    var result: seq<Record> := [];
    for i := 0 to |schedule|
      invariant InBounds(schedule[..i], |readings|)
      invariant result == Gather(Values(readings), schedule[..i])
      invariant forall k :: 0 <= k < i ==> readings[schedule[k]].Ok?
    {
      var read := readings[schedule[i]];
      if read.Err? {
        return read;
      }
      assert schedule[..i + 1][..i] == schedule[..i];
      result := result + read.value;
    }
    assert schedule[..|schedule|] == schedule;
    forall i: nat | i < |readings| ensures readings[i].Ok? {
      assert i in schedule;
    }
    r := Ok(result);
  }

  // ----- the logical table -----

  /** Rows are in clustering order and belong to the bucket they are filed under. */
  ghost predicate WellFiled(b: BucketId, rows: seq<Record>) {
    Sorted(rows) && AllBelong(b, rows)
  }

  ghost predicate AllWellFiled(bs: seq<BucketId>, rows: seq<seq<Record>>) {
    |rows| == |bs| && forall i :: 0 <= i < |bs| ==> WellFiled(bs[i], rows[i])
  }

  function FilterEach(rows: seq<seq<Record>>, p: Record -> bool): (r: seq<seq<Record>>)
    ensures |r| == |rows| && forall i :: 0 <= i < |rows| ==> r[i] == Filter(rows[i], p)
  {
    seq(|rows|, i requires 0 <= i < |rows| => Filter(rows[i], p))
  }

  lemma {:induction false} FilterFlatten(rows: seq<seq<Record>>, p: Record -> bool)
    ensures Filter(Flatten(rows), p) == Flatten(FilterEach(rows, p))
  {
    if rows != [] {
      var init, last := rows[..|rows| - 1], rows[|rows| - 1];
      FilterFlatten(init, p);
      FilterConcat(Flatten(init), last, p);
      assert FilterEach(rows, p)[..|rows| - 1] == FilterEach(init, p);
    }
  }

  /** Selected rows of buckets in ascending order stay separated and sorted. */
  lemma FiledSeparated(bs: seq<BucketId>, rows: seq<seq<Record>>, p: Record -> bool)
    requires Ascending(bs) && AllWellFiled(bs, rows)
    ensures AllSorted(FilterEach(rows, p)) && Separated(FilterEach(rows, p))
  {
    var f := FilterEach(rows, p);
    forall i | 0 <= i < |f| ensures Sorted(f[i]) {
      assert WellFiled(bs[i], rows[i]);
      FilterKeepsOrder(rows[i], p);
    }
    forall i, j, x, y | 0 <= i < j < |f| && x in f[i] && y in f[j] ensures Precedes(CursorOf(x), CursorOf(y)) {
      assert WellFiled(bs[i], rows[i]) && WellFiled(bs[j], rows[j]);
      FilterMembers(rows[i], p);
      FilterMembers(rows[j], p);
      assert BelongsTo(bs[i], x) && BelongsTo(bs[j], y);
    }
  }

  lemma TakeKeeps(chunks: seq<seq<Record>>, cap: nat)
    requires AllSorted(chunks) && Separated(chunks)
    ensures AllSorted(TakeEach(chunks, cap)) && Separated(TakeEach(chunks, cap))
  {
    var t := TakeEach(chunks, cap);
    forall i | 0 <= i < |t| ensures Sorted(t[i]) { assert Sorted(chunks[i]); }
    forall i, j, x, y | 0 <= i < j < |t| && x in t[i] && y in t[j] ensures Precedes(CursorOf(x), CursorOf(y)) {
      assert x in chunks[i] && y in chunks[j];
    }
  }

  /** The reference: filter the table, sort it, and keep what a page of `limit` rows shows. */
  function ReferenceRows(table: seq<Record>, range: TimeRange, after: Option<Cursor>): seq<Record> {
    StableSort(Filter(table, r => Selected(range, after, r)))
  }

  function PageOf(rows: seq<Record>, limit: nat): QueryPage
    requires limit > 0
  {
    QueryPage(Take(rows, limit), if |rows| > limit then Some(CursorOf(rows[limit - 1])) else None)
  }

  /** What each bucket's bounded read returns. */
  function PageEach(rows: seq<seq<Record>>, range: TimeRange, after: Option<Cursor>, cap: nat): (r: seq<seq<Record>>)
    ensures |r| == |rows| && forall i :: 0 <= i < |rows| ==> r[i] == Page(rows[i], range, after, cap)
  {
    seq(|rows|, i requires 0 <= i < |rows| => Page(rows[i], range, after, cap))
  }

  lemma ReferenceIsFlat(bs: seq<BucketId>, rows: seq<seq<Record>>, range: TimeRange, after: Option<Cursor>)
    requires Ascending(bs) && AllWellFiled(bs, rows)
    ensures ReferenceRows(Flatten(rows), range, after) == Flatten(FilterEach(rows, r => Selected(range, after, r)))
  {
    var p := r => Selected(range, after, r);
    FilterFlatten(rows, p);
    FiledSeparated(bs, rows, p);
    FlattenSorted(FilterEach(rows, p));
    SortedIsFixed(Flatten(FilterEach(rows, p)));
  }

  /**
   The merge computes the reference page: for every completion order, sorting the bounded reads and
   cutting them at the limit gives the first rows of the sorted, filtered table, and there are rows
   left over exactly when the table has more.
   */
  lemma MergeRefines(
    bs: seq<BucketId>, rows: seq<seq<Record>>, range: TimeRange, after: Option<Cursor>,
    cap: nat, limit: nat, schedule: seq<nat>)
    requires Ascending(bs) && AllWellFiled(bs, rows) && Permutes(schedule, |rows|)
    requires cap > limit || (cap == limit && |ReferenceRows(Flatten(rows), range, after)| <= limit)
    ensures var merged := StableSort(Gather(PageEach(rows, range, after, cap), schedule));
            var reference := ReferenceRows(Flatten(rows), range, after);
            Take(merged, limit) == Take(reference, limit) && (|merged| > limit <==> |reference| > limit)
  {
    var p := r => Selected(range, after, r);
    var filtered := FilterEach(rows, p);
    ReferenceIsFlat(bs, rows, range, after);
    FiledSeparated(bs, rows, p);
    TakeKeeps(filtered, cap);
    assert PageEach(rows, range, after, cap) == TakeEach(filtered, cap);
    SortRestoresOrder(TakeEach(filtered, cap), schedule);
    if cap > limit {
      TruncationHarmless(filtered, cap, limit);
    } else {
      UntruncatedIsSame(filtered, cap);
    }
  }

  lemma {:induction false} UntruncatedIsSame(chunks: seq<seq<Record>>, cap: nat)
    requires |Flatten(chunks)| <= cap
    ensures Flatten(TakeEach(chunks, cap)) == Flatten(chunks)
  {
    if chunks != [] {
      UntruncatedIsSame(chunks[..|chunks| - 1], cap);
      assert TakeEach(chunks, cap)[..|chunks| - 1] == TakeEach(chunks[..|chunks| - 1], cap);
    }
  }

  // ----- the query -----

  function PageCapacity(limit: nat): nat {
    if limit >= USIZE_MAX then USIZE_MAX else limit + 1
  }

  /** Sorts, cuts and adds the cursor. */
  function Finish(merged: seq<Record>, limit: nat): QueryPage
    requires limit > 0
  {
    var sorted := StableSort(merged);
    var page := Take(sorted, limit);
    QueryPage(page, if |sorted| > limit then Some(CursorOf(page[|page| - 1])) else None)
  }

  /** Callers may rely on nothing about the order but that every read completes once. */
  method CompletionOrder(n: nat) returns (schedule: seq<nat>)
    ensures Permutes(schedule, n)
  {
    schedule := Range(n);
    forall i: nat | i < n ensures i in schedule { assert schedule[i] == i; }
  }

  /** The page made from one read per listed bucket, or the error of one of them. */
  ghost predicate Answers(
    r: Result<QueryPage, TableError>, buckets: seq<BucketId>, schedule: seq<nat>, readings: seq<Reading>, limit: nat)
    requires limit > 0
  {
    && |readings| == |buckets| && Permutes(schedule, |buckets|)
    && (r.Ok? ==> AllOk(readings) && r.value == Finish(Gather(Values(readings), schedule), limit))
    && (r.Err? ==> Err(r.error) in readings)
  }

  function ReadEach(bs: seq<BucketId>, read: (BucketId, nat) -> Reading, cap: nat): (r: seq<Reading>)
    ensures |r| == |bs| && forall i :: 0 <= i < |bs| ==> r[i] == read(bs[i], cap)
  {
    seq(|bs|, i requires 0 <= i < |bs| => read(bs[i], cap))
  }

  /** Whatever the tiers and the completion order, a page is the reference page of the rows of the buckets it reads. */
  lemma ListedRefines(
    bs: seq<BucketId>, rows: seq<seq<Record>>, read: (BucketId, nat) -> Reading,
    range: TimeRange, after: Option<Cursor>, limit: nat, schedule: seq<nat>)
    requires 0 < limit <= USIZE_MAX && Ascending(bs) && AllWellFiled(bs, rows) && Permutes(schedule, |bs|)
    requires forall i :: 0 <= i < |bs| ==> read(bs[i], PageCapacity(limit)) == Ok(Page(rows[i], range, after, PageCapacity(limit)))
    requires limit == USIZE_MAX ==> |ReferenceRows(Flatten(rows), range, after)| <= USIZE_MAX
    ensures Finish(Gather(Values(ReadEach(bs, read, PageCapacity(limit))), schedule), limit) ==
            PageOf(ReferenceRows(Flatten(rows), range, after), limit)
    ensures forall r :: Answers(r, bs, schedule, ReadEach(bs, read, PageCapacity(limit)), limit) ==>
              r == Ok(PageOf(ReferenceRows(Flatten(rows), range, after), limit))
  {
    var cap := PageCapacity(limit);
    assert Values(ReadEach(bs, read, cap)) == PageEach(rows, range, after, cap);
    MergeRefines(bs, rows, range, after, cap, limit, schedule);
  }
}
