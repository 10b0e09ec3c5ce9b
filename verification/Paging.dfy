/**
 Paging through a table that keeps changing: appends and archive steps between pages, and between
 the bucket reads of one page (src/application/durable_table.rs over src/ports/storage.rs).
 */
module Paging {
  import opened Common
  import opened Records
  import opened Tiling
  import opened Cutover
  import opened Fencing
  import opened BucketStore
  import opened Merge
  import opened MemoryArchive
  import opened TableRead
  import opened Queries
  import opened Tables

  // ----- pages over any sequence of table contents -----

  /** The cursor page `p` starts after. */
  function CursorAt(start: Option<Cursor>, pages: seq<QueryPage>, p: nat): Option<Cursor>
    requires p <= |pages|
  {
    if p == 0 then start else pages[p - 1].next
  }

  ghost predicate PageFrom(start: Option<Cursor>, range: TimeRange, limit: nat, tables: seq<seq<Record>>, pages: seq<QueryPage>, p: nat)
    requires limit > 0 && p < |pages| == |tables|
  {
    pages[p] == PageOf(ReferenceRows(tables[p], range, CursorAt(start, pages, p)), limit)
  }

  /** Each page is the reference page of the table as its reads saw it, continuing from the page before. */
  ghost predicate Paged(start: Option<Cursor>, range: TimeRange, limit: nat, tables: seq<seq<Record>>, pages: seq<QueryPage>)
    requires limit > 0
  {
    && |pages| == |tables|
    && (forall p :: 0 <= p < |pages| ==> UniqueKeys(tables[p]))
    && (forall p :: 0 <= p < |pages| ==> PageFrom(start, range, limit, tables, pages, p))
    && (forall p :: 0 <= p < |pages| - 1 ==> pages[p].next.Some?)
  }

  function Shown(pages: seq<QueryPage>): seq<Record> {
    if pages == [] then [] else Shown(pages[..|pages| - 1]) + pages[|pages| - 1].records
  }

  predicate Past(c: Option<Cursor>, r: Record) {
    c.None? || Precedes(c.value, CursorOf(r))
  }

  lemma ReferenceStrict(table: seq<Record>, range: TimeRange, after: Option<Cursor>)
    requires UniqueKeys(table)
    ensures StrictlySorted(ReferenceRows(table, range, after))
    ensures forall r :: r in ReferenceRows(table, range, after) <==> r in table && Selected(range, after, r)
  {
    var p := r => Selected(range, after, r);
    FilterKeepsUnique(table, p);
    SortKeepsUnique(Filter(table, p));
    SortSameElements(Filter(table, p));
    FilterMembers(table, p);
  }

  lemma {:induction false} FilterKeepsUnique(s: seq<Record>, p: Record -> bool)
    requires UniqueKeys(s)
    ensures UniqueKeys(Filter(s, p))
  {
    if s != [] {
      var init, last := s[..|s| - 1], s[|s| - 1];
      FilterKeepsUnique(init, p);
      var f := Filter(init, p);
      forall i | 0 <= i < |f| ensures CursorOf(f[i]) != CursorOf(last) {
        FilterMembers(init, p);
        assert f[i] in f;
        var j :| 0 <= j < |init| && init[j] == f[i];
        assert s[j] == init[j];
      }
    }
  }

  /** A selected row is on the page or lies past the page's cursor. */
  lemma ShownOrDeferred(table: seq<Record>, range: TimeRange, after: Option<Cursor>, limit: nat, r: Record)
    requires limit > 0 && UniqueKeys(table) && r in table && Selected(range, after, r)
    ensures var page := PageOf(ReferenceRows(table, range, after), limit);
            r in page.records || (page.next.Some? && Precedes(page.next.value, CursorOf(r)))
  {
    var rows := ReferenceRows(table, range, after);
    ReferenceStrict(table, range, after);
    var i :| 0 <= i < |rows| && rows[i] == r;
    if i < limit {
      assert Take(rows, limit)[i] == r;
    }
  }

  /** Every row of a page is past its starting cursor and not past its next cursor, and the page is strictly ordered. */
  lemma PageOrder(table: seq<Record>, range: TimeRange, after: Option<Cursor>, limit: nat)
    requires limit > 0 && UniqueKeys(table)
    ensures var page := PageOf(ReferenceRows(table, range, after), limit);
            && StrictlySorted(page.records)
            && (forall r :: r in page.records ==> Past(after, r) && InRange(range, r.eventTime) && r in table)
            && (page.next.Some? ==> forall r :: r in page.records ==> AtMost(CursorOf(r), page.next.value))
            && (page.next.Some? ==> exists r :: r in page.records && CursorOf(r) == page.next.value)
  {
    var rows := ReferenceRows(table, range, after);
    ReferenceStrict(table, range, after);
    var page := PageOf(rows, limit);
    assert forall r :: r in page.records ==> r in rows;
    if page.next.Some? {
      assert page.records[limit - 1] == rows[limit - 1];
      forall r | r in page.records ensures AtMost(CursorOf(r), page.next.value) {
        var i :| 0 <= i < |page.records| && page.records[i] == r;
        Trichotomy(CursorOf(rows[i]), CursorOf(rows[limit - 1]));
      }
    }
  }

  /** After any number of pages a row that was always there has been shown, or is still ahead of the cursor. */
  lemma {:induction false} ShownOrAhead(
    start: Option<Cursor>, range: TimeRange, limit: nat, tables: seq<seq<Record>>, pages: seq<QueryPage>, r: Record, n: nat)
    requires limit > 0 && Paged(start, range, limit, tables, pages) && n <= |pages|
    requires InRange(range, r.eventTime) && Past(start, r)
    requires forall p :: 0 <= p < |tables| ==> r in tables[p]
    ensures r in Shown(pages[..n]) || (n < |pages| && Past(CursorAt(start, pages, n), r)) ||
            (n == |pages| && n > 0 && pages[n - 1].next.Some? && Precedes(pages[n - 1].next.value, CursorOf(r))) || n == 0 == |pages|
  {
    if n > 0 {
      ShownOrAhead(start, range, limit, tables, pages, r, n - 1);
      assert pages[..n][..n - 1] == pages[..n - 1];
      assert PageFrom(start, range, limit, tables, pages, n - 1);
      if r !in Shown(pages[..n - 1]) {
        ShownOrDeferred(tables[n - 1], range, CursorAt(start, pages, n - 1), limit, r);
      }
    }
  }

  /** The concatenated pages are strictly increasing and end no later than the cursor they lead to. */
  lemma {:induction false} ShownIncreases(
    start: Option<Cursor>, range: TimeRange, limit: nat, tables: seq<seq<Record>>, pages: seq<QueryPage>, n: nat)
    requires limit > 0 && Paged(start, range, limit, tables, pages) && n <= |pages|
    ensures StrictlySorted(Shown(pages[..n]))
    ensures n < |pages| ==> forall r :: r in Shown(pages[..n]) ==>
              CursorAt(start, pages, n).Some? && AtMost(CursorOf(r), CursorAt(start, pages, n).value)
  {
    if n > 0 {
      ShownIncreases(start, range, limit, tables, pages, n - 1);
      var before, page, c := Shown(pages[..n - 1]), pages[n - 1], CursorAt(start, pages, n - 1);
      assert pages[..n][..n - 1] == pages[..n - 1];
      assert PageFrom(start, range, limit, tables, pages, n - 1);
      PageOrder(tables[n - 1], range, c, limit);
      JoinStrict(before, page.records, c);
      if n < |pages| {
        assert page.next.Some?;
        ReachesCursor(before, page, c);
      }
    }
  }

  lemma JoinStrict(a: seq<Record>, b: seq<Record>, c: Option<Cursor>)
    requires StrictlySorted(a) && StrictlySorted(b)
    requires forall r :: r in a ==> c.Some? && AtMost(CursorOf(r), c.value)
    requires forall r :: r in b ==> Past(c, r)
    ensures StrictlySorted(a + b)
  {
    var s := a + b;
    forall i, j | 0 <= i < j < |s| ensures Precedes(CursorOf(s[i]), CursorOf(s[j])) {
      if i < |a| <= j {
        assert s[i] in a && s[j] in b;
        Trichotomy(c.value, CursorOf(s[j]));
        AtMostTransitive(CursorOf(s[i]), c.value, CursorOf(s[j]));
      }
    }
  }

  lemma ReachesCursor(before: seq<Record>, page: QueryPage, c: Option<Cursor>)
    requires page.next.Some?
    requires forall r :: r in before ==> c.Some? && AtMost(CursorOf(r), c.value)
    requires forall r :: r in page.records ==> Past(c, r) && AtMost(CursorOf(r), page.next.value)
    requires exists r :: r in page.records && CursorOf(r) == page.next.value
    ensures forall r :: r in before + page.records ==> AtMost(CursorOf(r), page.next.value)
  {
    var last :| last in page.records && CursorOf(last) == page.next.value;
    forall r | r in before ensures AtMost(CursorOf(r), page.next.value) {
      Trichotomy(c.value, CursorOf(last));
      AtMostTransitive(CursorOf(r), c.value, page.next.value);
    }
  }

  function Occurrences(s: seq<Record>, r: Record): nat {
    multiset(s)[r]
  }

  lemma StrictOccursOnce(s: seq<Record>, r: Record)
    requires StrictlySorted(s) && r in s
    ensures Occurrences(s, r) == 1
  {
    var i :| 0 <= i < |s| && s[i] == r;
    var a, b := s[..i], s[i + 1..];
    assert s == a + [r] + b;
    forall j | 0 <= j < |s| && j != i ensures s[j] != r { Trichotomy(CursorOf(s[j]), CursorOf(r)); }
    assert r !in a && r !in b;
  }

  /**
   Paging is stable: when the last page has no cursor, every row in range and past the starting
   cursor that every page's reads could see was shown exactly once, and all shown keys strictly increase.
   */
  lemma ShownExactlyOnce(
    start: Option<Cursor>, range: TimeRange, limit: nat, tables: seq<seq<Record>>, pages: seq<QueryPage>, r: Record)
    requires limit > 0 && Paged(start, range, limit, tables, pages)
    requires pages != [] && pages[|pages| - 1].next.None?
    requires InRange(range, r.eventTime) && Past(start, r)
    requires forall p :: 0 <= p < |tables| ==> r in tables[p]
    ensures Occurrences(Shown(pages), r) == 1
    ensures StrictlySorted(Shown(pages))
  {
    assert pages[..|pages|] == pages;
    ShownOrAhead(start, range, limit, tables, pages, r, |pages|);
    ShownIncreases(start, range, limit, tables, pages, |pages|);
    StrictOccursOnce(Shown(pages), r);
  }

  // ----- paging against a running cluster -----

  /** Every committed record belongs to the bucket it was appended to and no bucket has two rows with one key. */
  ghost predicate Filed(sys: System) {
    forall b :: AllBelong(b, LogOf(sys, b)) && UniqueKeys(LogOf(sys, b))
  }

  lemma FiledEarlier(cfg: Config, states: seq<System>, i: nat, j: nat)
    requires Run(cfg, states) && i <= j < |states| && Filed(states[j])
    ensures Filed(states[i])
  {
    forall b ensures AllBelong(b, LogOf(states[i], b)) && UniqueKeys(LogOf(states[i], b)) {
      LogGrows(cfg, states, i, j, b);
      assert AllBelong(b, LogOf(states[j], b)) && UniqueKeys(LogOf(states[j], b));
    }
  }

  lemma ExpectedFiled(sys: System, b: BucketId)
    requires Filed(sys)
    ensures WellFiled(b, Expected(sys, b)) && StrictlySorted(Expected(sys, b))
  {
    assert AllBelong(b, LogOf(sys, b)) && UniqueKeys(LogOf(sys, b));
    SortKeepsUnique(LogOf(sys, b));
    SortSorted(LogOf(sys, b));
    SortSameElements(LogOf(sys, b));
    forall i | 0 <= i < |Expected(sys, b)| ensures BelongsTo(b, Expected(sys, b)[i]) {
      assert Expected(sys, b)[i] in LogOf(sys, b);
    }
  }

  /** What the archive returns at a moment for the key an earlier route named. */
  ghost function Fetch(sys: System, b: BucketId, route: Read): Reading {
    match route
    case HotRows(_) => Err(ReadFailed("not fetched"))
    case Archive(key) =>
      if key in sys.objects && AllBelong(b, sys.objects[key].records) then Ok(sys.objects[key].records)
      else Err(ReadFailed("archive read"))
  }

  /**
   A bucket read whose route is taken at one moment and whose archive object is fetched at any later
   moment succeeds and returns the page of the rows committed when the route was taken.
   */
  lemma ReadIsAtomic(
    cfg: Config, states: seq<System>, t: nat, u: nat, b: BucketId, range: TimeRange, after: Option<Cursor>, limit: nat)
    requires Fenced(cfg) && Run(cfg, states) && t <= u < |states| && Filed(states[u])
    ensures var route := RouteRead(At(states[t], b), range, after, limit);
            ReadBucket(route, Fetch(states[u], b, route), range, after, limit) ==
            Ok(Page(Expected(states[t], b), range, after, limit))
  {
    FiledEarlier(cfg, states, t, u);
    ExpectedFiled(states[t], b);
    NothingLost(cfg, states, t, b);
    var c := At(states[t], b);
    var route := RouteRead(c, range, after, limit);
    if c.state.Archived? {
      ArchivedForever(cfg, states, t, u, b);
      NothingLost(cfg, states, u, b);
    }
    TierTransparent(c, Fetch(states[u], b, route), Expected(states[t], b), range, after, limit);
  }

  lemma ExpectedGrows(cfg: Config, states: seq<System>, i: nat, j: nat, b: BucketId, r: Record)
    requires Run(cfg, states) && i <= j < |states| && r in Expected(states[i], b)
    ensures r in Expected(states[j], b)
  {
    LogGrows(cfg, states, i, j, b);
    SortSameElements(LogOf(states[i], b));
    SortSameElements(LogOf(states[j], b));
  }

  /** The rows one page's reads see: bucket `i` of page `p` is routed in state `when(p, i)`. */
  ghost function SeenBy(states: seq<System>, bs: seq<BucketId>, when: (nat, nat) -> nat, p: nat): (r: seq<seq<Record>>)
    requires forall i: nat :: i < |bs| ==> when(p, i) < |states|
    ensures |r| == |bs| && forall i: nat :: i < |bs| ==> r[i] == Expected(states[when(p, i)], bs[i])
  {
    seq(|bs|, i requires 0 <= i < |bs| => Expected(states[when(p, i)], bs[i]))
  }

  lemma SeenIsFiled(cfg: Config, states: seq<System>, bs: seq<BucketId>, when: (nat, nat) -> nat, p: nat)
    requires Run(cfg, states) && Filed(states[|states| - 1]) && Ascending(bs)
    requires forall i: nat :: i < |bs| ==> when(p, i) < |states|
    ensures AllWellFiled(bs, SeenBy(states, bs, when, p))
    ensures UniqueKeys(Flatten(SeenBy(states, bs, when, p)))
  {
    var rows := SeenBy(states, bs, when, p);
    forall i: nat | i < |bs| ensures WellFiled(bs[i], rows[i]) && StrictlySorted(rows[i]) {
      FiledEarlier(cfg, states, when(p, i), |states| - 1);
      ExpectedFiled(states[when(p, i)], bs[i]);
    }
    FiledFlatStrict(bs, rows);
  }

  lemma {:induction false} FiledFlatStrict(bs: seq<BucketId>, rows: seq<seq<Record>>)
    requires Ascending(bs) && AllWellFiled(bs, rows) && forall i :: 0 <= i < |rows| ==> StrictlySorted(rows[i])
    ensures StrictlySorted(Flatten(rows)) && UniqueKeys(Flatten(rows))
  {
    if rows != [] {
      var init, last := rows[..|rows| - 1], rows[|rows| - 1];
      FiledFlatStrict(bs[..|rows| - 1], init);
      var s := Flatten(init) + last;
      forall i, j | 0 <= i < j < |s| ensures Precedes(CursorOf(s[i]), CursorOf(s[j])) {
        if i < |Flatten(init)| <= j { EarlierBucketPrecedes(bs, rows, s[i], s[j]); }
      }
      forall i, j | 0 <= i < j < |s| ensures CursorOf(s[i]) != CursorOf(s[j]) {
        Trichotomy(CursorOf(s[i]), CursorOf(s[j]));
      }
    }
  }

  lemma EarlierBucketPrecedes(bs: seq<BucketId>, rows: seq<seq<Record>>, x: Record, y: Record)
    requires Ascending(bs) && AllWellFiled(bs, rows) && rows != []
    requires x in Flatten(rows[..|rows| - 1]) && y in rows[|rows| - 1]
    ensures Precedes(CursorOf(x), CursorOf(y))
  {
    var n := |rows| - 1;
    var i :| 0 <= i < n && x in rows[..n][i];
    assert WellFiled(bs[i], rows[i]) && WellFiled(bs[n], rows[n]);
    assert BelongsTo(bs[i], x) && BelongsTo(bs[n], y);
  }

  /** When the reads of a page happen: each routes in one state and fetches in that or a later one. */
  datatype Timing = Timing(routed: (nat, nat) -> nat, fetched: (nat, nat) -> nat)

  ghost predicate Timely(states: seq<System>, n: nat, begun: nat, at: Timing, p: nat) {
    forall i: nat :: i < n ==> begun <= at.routed(p, i) <= at.fetched(p, i) < |states|
  }

  ghost function LiveReading(
    states: seq<System>, t: nat, u: nat, b: BucketId, range: TimeRange, after: Option<Cursor>, cap: nat): Reading
    requires t <= u < |states|
  {
    var route := RouteRead(At(states[t], b), range, after, cap);
    ReadBucket(route, Fetch(states[u], b, route), range, after, cap)
  }

  ghost function LiveReadings(
    states: seq<System>, bs: seq<BucketId>, begun: nat, at: Timing, p: nat,
    range: TimeRange, after: Option<Cursor>, cap: nat): (r: seq<Reading>)
    requires Timely(states, |bs|, begun, at, p)
    ensures |r| == |bs|
    ensures forall i: nat :: i < |bs| ==> r[i] == LiveReading(states, at.routed(p, i), at.fetched(p, i), bs[i], range, after, cap)
  {
    seq(|bs|, i requires 0 <= i < |bs| => LiveReading(states, at.routed(p, i), at.fetched(p, i), bs[i], range, after, cap))
  }

  /** No more rows than a vector can hold; only a limit of `usize::MAX` needs it. */
  ghost predicate Countable(limit: nat, rows: seq<Record>) {
    limit == USIZE_MAX ==> |rows| <= USIZE_MAX
  }

  ghost predicate LiveAt(
    states: seq<System>, bs: seq<BucketId>, at: Timing, begun: nat,
    start: Option<Cursor>, range: TimeRange, limit: nat, pages: seq<QueryPage>, p: nat)
    requires 0 < limit <= USIZE_MAX && p < |pages|
  {
    && Timely(states, |bs|, begun, at, p)
    && Countable(limit, ReferenceRows(Flatten(SeenBy(states, bs, at.routed, p)), range, CursorAt(start, pages, p)))
    && exists schedule ::
         Answers(Ok(pages[p]), bs, schedule,
                 LiveReadings(states, bs, begun, at, p, range, CursorAt(start, pages, p), PageCapacity(limit)), limit)
  }

  lemma LiveReadingsArePages(
    cfg: Config, states: seq<System>, bs: seq<BucketId>, begun: nat, at: Timing, p: nat,
    range: TimeRange, after: Option<Cursor>, cap: nat)
    requires Fenced(cfg) && Run(cfg, states) && Filed(states[|states| - 1])
    requires Timely(states, |bs|, begun, at, p)
    ensures forall i: nat :: i < |bs| ==>
              LiveReadings(states, bs, begun, at, p, range, after, cap)[i] ==
              Ok(Page(SeenBy(states, bs, at.routed, p)[i], range, after, cap))
  {
    forall i: nat | i < |bs|
      ensures LiveReadings(states, bs, begun, at, p, range, after, cap)[i] ==
              Ok(Page(SeenBy(states, bs, at.routed, p)[i], range, after, cap))
    {
      FiledEarlier(cfg, states, at.fetched(p, i), |states| - 1);
      ReadIsAtomic(cfg, states, at.routed(p, i), at.fetched(p, i), bs[i], range, after, cap);
    }
  }

  /** The bounded, routed, merged reads of a live page give the reference page of the rows of the buckets it read. */
  lemma LivePageOfListed(
    cfg: Config, states: seq<System>, bs: seq<BucketId>, at: Timing, begun: nat,
    start: Option<Cursor>, range: TimeRange, limit: nat, pages: seq<QueryPage>, p: nat)
    requires Fenced(cfg) && Run(cfg, states) && Filed(states[|states| - 1]) && Ascending(bs)
    requires 0 < limit <= USIZE_MAX && p < |pages|
    requires LiveAt(states, bs, at, begun, start, range, limit, pages, p)
    ensures pages[p] == PageOf(ReferenceRows(Flatten(SeenBy(states, bs, at.routed, p)), range, CursorAt(start, pages, p)), limit)
  {
    var after, cap := CursorAt(start, pages, p), PageCapacity(limit);
    var rows := SeenBy(states, bs, at.routed, p);
    var readings := LiveReadings(states, bs, begun, at, p, range, after, cap);
    LiveReadingsArePages(cfg, states, bs, begun, at, p, range, after, cap);
    SeenIsFiled(cfg, states, bs, at.routed, p);
    var schedule :| Answers(Ok(pages[p]), bs, schedule, readings, limit);
    AnswersRefine(bs, rows, readings, range, after, limit, schedule, pages[p]);
  }

  lemma AnswersRefine(
    bs: seq<BucketId>, rows: seq<seq<Record>>, readings: seq<Reading>,
    range: TimeRange, after: Option<Cursor>, limit: nat, schedule: seq<nat>, page: QueryPage)
    requires 0 < limit <= USIZE_MAX && Ascending(bs) && AllWellFiled(bs, rows) && |readings| == |bs|
    requires forall i :: 0 <= i < |bs| ==> readings[i] == Ok(Page(rows[i], range, after, PageCapacity(limit)))
    requires Countable(limit, ReferenceRows(Flatten(rows), range, after))
    requires Answers(Ok(page), bs, schedule, readings, limit)
    ensures page == PageOf(ReferenceRows(Flatten(rows), range, after), limit)
  {
    var cap := PageCapacity(limit);
    assert Values(readings) == PageEach(rows, range, after, cap);
    MergeRefines(bs, rows, range, after, cap, limit, schedule);
  }

  /**
   A live page is the reference page of the whole partition: whatever buckets hold that it does not
   list, and for the listed ones what each held at the moment it was routed.
   */
  lemma LivePageIsReference(
    table: Table, partition: Bytes, cfg: Config, states: seq<System>, bs: seq<BucketId>, at: Timing, begun: nat,
    start: Option<Cursor>, range: TimeRange, limit: nat, pages: seq<QueryPage>, p: nat,
    stored: seq<BucketId>, content: BucketId -> seq<Record>)
    requires Fenced(cfg) && Run(cfg, states) && Filed(states[|states| - 1])
    requires range.start < range.end && Spans(Bucketing(table, partition), range, bs)
    requires 0 < limit <= USIZE_MAX && p < |pages|
    requires LiveAt(states, bs, at, begun, start, range, limit, pages, p)
    requires WholePartition(Bucketing(table, partition), stored, content)
    requires forall i: nat :: i < |bs| ==> content(bs[i]) == Expected(states[at.routed(p, i)], bs[i])
    ensures pages[p] == PageOf(ReferenceRows(Flatten(RowsOf(stored, content)), range, CursorAt(start, pages, p)), limit)
  {
    var f := Bucketing(table, partition);
    CalendarTiles(table, partition);
    SpansOnce(f, range, bs);
    LivePageOfListed(cfg, states, bs, at, begun, start, range, limit, pages, p);
    assert RowsOf(bs, content) == SeenBy(states, bs, at.routed, p);
    SpanIsEnough(f, range, bs, stored, content, CursorAt(start, pages, p));
  }

  /** Pages queried one after another from a run, from state `begun` on, until one has no cursor. */
  ghost predicate LivePages(
    states: seq<System>, bs: seq<BucketId>, at: Timing, begun: nat,
    start: Option<Cursor>, range: TimeRange, limit: nat, pages: seq<QueryPage>)
    requires 0 < limit <= USIZE_MAX
  {
    && pages != [] && pages[|pages| - 1].next.None?
    && (forall p :: 0 <= p < |pages| - 1 ==> pages[p].next.Some?)
    && (forall p: nat :: p < |pages| ==> LiveAt(states, bs, at, begun, start, range, limit, pages, p))
  }

  ghost function TableOf(states: seq<System>, bs: seq<BucketId>, at: Timing, p: nat): seq<Record> {
    if forall i: nat :: i < |bs| ==> at.routed(p, i) < |states| then Flatten(SeenBy(states, bs, at.routed, p)) else []
  }

  ghost function TablesOf(states: seq<System>, bs: seq<BucketId>, at: Timing, n: nat): (r: seq<seq<Record>>)
    ensures |r| == n && forall p: nat :: p < n ==> r[p] == TableOf(states, bs, at, p)
  {
    seq(n, p requires 0 <= p < n => TableOf(states, bs, at, p))
  }

  lemma LivePageSees(
    cfg: Config, states: seq<System>, bs: seq<BucketId>, at: Timing, begun: nat, p: nat, k: nat, r: Record)
    requires Run(cfg, states) && Filed(states[|states| - 1]) && Ascending(bs)
    requires Timely(states, |bs|, begun, at, p)
    requires begun < |states| && k < |bs| && r in Expected(states[begun], bs[k])
    ensures UniqueKeys(TableOf(states, bs, at, p)) && r in TableOf(states, bs, at, p)
  {
    SeenIsFiled(cfg, states, bs, at.routed, p);
    ExpectedGrows(cfg, states, begun, at.routed(p, k), bs[k], r);
    assert r in SeenBy(states, bs, at.routed, p)[k];
  }

  lemma ListedPagingIsStable(
    cfg: Config, states: seq<System>, bs: seq<BucketId>, at: Timing, begun: nat,
    start: Option<Cursor>, range: TimeRange, limit: nat, pages: seq<QueryPage>, k: nat, r: Record)
    requires Fenced(cfg) && Run(cfg, states) && Filed(states[|states| - 1]) && Ascending(bs)
    requires 0 < limit <= USIZE_MAX && LivePages(states, bs, at, begun, start, range, limit, pages)
    requires begun < |states| && k < |bs| && r in Expected(states[begun], bs[k])
    requires InRange(range, r.eventTime) && Past(start, r)
    ensures Occurrences(Shown(pages), r) == 1
    ensures StrictlySorted(Shown(pages))
  {
    var tables := TablesOf(states, bs, at, |pages|);
    forall p: nat | p < |pages|
      ensures UniqueKeys(tables[p]) && r in tables[p] && PageFrom(start, range, limit, tables, pages, p)
    {
      assert LiveAt(states, bs, at, begun, start, range, limit, pages, p);
      LivePageSees(cfg, states, bs, at, begun, p, k, r);
      LivePageOfListed(cfg, states, bs, at, begun, start, range, limit, pages, p);
    }
    ShownExactlyOnce(start, range, limit, tables, pages, r);
  }

  /**
   Paging against a live cluster: while writers append and workers archive, crash and retry between
   pages and between the reads of one page, every record of the partition that was committed in range
   when paging began is shown exactly once, and the shown keys strictly increase. `bs` is what a query
   lists for the range.
   */
  lemma PagingIsStable(
    table: Table, partition: Bytes, cfg: Config, states: seq<System>, bs: seq<BucketId>, at: Timing, begun: nat,
    start: Option<Cursor>, range: TimeRange, limit: nat, pages: seq<QueryPage>, r: Record)
    requires Fenced(cfg) && Run(cfg, states) && Filed(states[|states| - 1])
    requires range.start < range.end && Spans(Bucketing(table, partition), range, bs)
    requires 0 < limit <= USIZE_MAX && LivePages(states, bs, at, begun, start, range, limit, pages)
    requires begun < |states| && r in Expected(states[begun], BucketFor(table, partition, r.eventTime))
    requires InRange(range, r.eventTime) && Past(start, r)
    ensures Occurrences(Shown(pages), r) == 1
    ensures StrictlySorted(Shown(pages))
  {
    var f := Bucketing(table, partition);
    CalendarTiles(table, partition);
    assert Contains(f(r.eventTime), r.eventTime);
    SpansIffMeets(f, range, bs, r.eventTime);
    var k :| 0 <= k < |bs| && bs[k] == f(r.eventTime);
    ListedPagingIsStable(cfg, states, bs, at, begun, start, range, limit, pages, k, r);
  }
}
