/**
 Paging where rows may share a clustering key: the SQL primary key rules that out, the in-memory store
 does not (src/application/durable_table.rs over src/ports/storage.rs).
 */
module Ties {
  import opened Common
  import opened Records
  import opened BucketStore
  import opened TableRead

  predicate PastCursor(c: Cursor, r: Record) {
    Precedes(c, CursorOf(r))
  }

  lemma ContinueFromRows(table: seq<Record>, range: TimeRange, after: Option<Cursor>, c: Cursor)
    requires after.None? || AtMost(after.value, c)
    ensures ReferenceRows(table, range, Some(c)) == Filter(ReferenceRows(table, range, after), r => PastCursor(c, r))
  {
    var p, q := r => Selected(range, after, r), r => PastCursor(c, r);
    SortCommutesWithFilter(Filter(table, p), q);
    FilterTwice(table, range, after, c);
  }

  lemma {:induction false} FilterTwice(table: seq<Record>, range: TimeRange, after: Option<Cursor>, c: Cursor)
    requires after.None? || AtMost(after.value, c)
    ensures Filter(table, r => Selected(range, Some(c), r)) ==
            Filter(Filter(table, r => Selected(range, after, r)), r => PastCursor(c, r))
  {
    if table != [] {
      var init, last := table[..|table| - 1], table[|table| - 1];
      FilterTwice(init, range, after, c);
      if after.Some? && PastCursor(c, last) {
        Trichotomy(c, CursorOf(last));
        AtMostTransitive(after.value, c, CursorOf(last));
      }
    }
  }

  lemma DropsPrefix(a: seq<Record>, b: seq<Record>, c: Cursor)
    requires forall r :: r in a ==> !PastCursor(c, r)
    requires forall r :: r in b ==> PastCursor(c, r)
    ensures Filter(a + b, r => PastCursor(c, r)) == b
  {
    var q := r => PastCursor(c, r);
    FilterNone(a, q);
    FilterAll(b, q);
    FilterConcat(a, b, q);
  }

  lemma SplitAt(rows: seq<Record>, k: nat, c: Cursor, i: nat)
    requires Sorted(rows) && 0 < k < |rows| && c == CursorOf(rows[k - 1]) && Precedes(c, CursorOf(rows[k])) && i < |rows|
    ensures PastCursor(c, rows[i]) <==> i >= k
  {
    Trichotomy(CursorOf(rows[i]), c);
    Trichotomy(c, CursorOf(rows[k]));
    if i > k { AtMostTransitive(c, CursorOf(rows[k]), CursorOf(rows[i])); }
  }

  lemma RestFrom(rows: seq<Record>, k: nat, c: Cursor)
    requires k <= |rows| && forall i :: 0 <= i < |rows| ==> (PastCursor(c, rows[i]) <==> i >= k)
    ensures Filter(rows, r => PastCursor(c, r)) == rows[k..]
  {
    DropsPrefix(rows[..k], rows[k..], c);
    assert rows == rows[..k] + rows[k..];
  }

  lemma RestPast(rows: seq<Record>, k: nat, c: Cursor)
    requires Sorted(rows) && 0 < k < |rows| && c == CursorOf(rows[k - 1]) && Precedes(c, CursorOf(rows[k]))
    ensures Filter(rows, r => PastCursor(c, r)) == rows[k..]
  {
    forall i: nat | i < |rows| ensures PastCursor(c, rows[i]) <==> i >= k { SplitAt(rows, k, c, i); }
    RestFrom(rows, k, c);
  }

  lemma ReferenceSelected(table: seq<Record>, range: TimeRange, after: Option<Cursor>)
    ensures Sorted(ReferenceRows(table, range, after))
    ensures forall r :: r in ReferenceRows(table, range, after) ==> Selected(range, after, r)
  {
    var p := r => Selected(range, after, r);
    SortSorted(Filter(table, p));
    SortSameElements(Filter(table, p));
    FilterMembers(table, p);
  }

  // ----- following the cursors to the end -----

  lemma {:induction false} FilterShorter(s: seq<Record>, p: Record -> bool, i: nat)
    requires i < |s| && !p(s[i])
    ensures |Filter(s, p)| < |s|
  {
    FilterNoLonger(s[..|s| - 1], p);
    if i < |s| - 1 { FilterShorter(s[..|s| - 1], p, i); }
  }

  lemma {:induction false} FilterNoLonger(s: seq<Record>, p: Record -> bool)
    ensures |Filter(s, p)| <= |s|
  {
    if s != [] { FilterNoLonger(s[..|s| - 1], p); }
  }

  /** What is left to show after a full page: the rows past its last key. */
  lemma NextRows(table: seq<Record>, range: TimeRange, after: Option<Cursor>, limit: nat)
    requires 0 < limit < |ReferenceRows(table, range, after)|
    ensures var rows := ReferenceRows(table, range, after);
            var c := CursorOf(rows[limit - 1]);
            && ReferenceRows(table, range, Some(c)) == Filter(rows, r => PastCursor(c, r))
            && |ReferenceRows(table, range, Some(c))| < |rows|
  {
    var rows := ReferenceRows(table, range, after);
    var c := CursorOf(rows[limit - 1]);
    ReferenceSelected(table, range, after);
    assert rows[limit - 1] in rows;
    if after.Some? { Trichotomy(after.value, c); }
    ContinueFromRows(table, range, after, c);
    Trichotomy(c, c);
    FilterShorter(rows, r => PastCursor(c, r), limit - 1);
  }

  /** The rows of all pages of a table that does not change, following each page's cursor. */
  function AllPages(table: seq<Record>, range: TimeRange, after: Option<Cursor>, limit: nat): seq<Record>
    requires limit > 0
    decreases |ReferenceRows(table, range, after)|
  {
    var rows := ReferenceRows(table, range, after);
    var page := PageOf(rows, limit);
    if page.next.None? then page.records
    else
      NextRows(table, range, after, limit);
      page.records + AllPages(table, range, page.next, limit)
  }

  lemma {:induction false} NeverMore(table: seq<Record>, range: TimeRange, after: Option<Cursor>, limit: nat)
    requires limit > 0
    ensures |AllPages(table, range, after, limit)| <= |ReferenceRows(table, range, after)|
    decreases |ReferenceRows(table, range, after)|
  {
    var rows := ReferenceRows(table, range, after);
    if |rows| > limit {
      var c := CursorOf(rows[limit - 1]);
      NextRows(table, range, after, limit);
      NeverMore(table, range, Some(c), limit);
      RestIsShort(rows, limit, c);
      ReferenceSelected(table, range, after);
    }
  }

  /** The first `k` rows of a sorted list are not past the key of the last of them. */
  lemma RestIsShort(rows: seq<Record>, k: nat, c: Cursor)
    requires 0 < k <= |rows| && c == CursorOf(rows[k - 1])
    ensures Sorted(rows) ==> |Filter(rows, r => PastCursor(c, r))| <= |rows| - k
    ensures Sorted(rows) && k < |rows| && CursorOf(rows[k]) == c ==> |Filter(rows, r => PastCursor(c, r))| < |rows| - k
  {
    if Sorted(rows) {
      var q := r => PastCursor(c, r);
      forall i | 0 <= i < k ensures !q(rows[..k][i]) { Trichotomy(CursorOf(rows[i]), c); }
      FilterNone(rows[..k], q);
      FilterConcat(rows[..k], rows[k..], q);
      assert rows == rows[..k] + rows[k..];
      FilterNoLonger(rows[k..], q);
      if k < |rows| && CursorOf(rows[k]) == c {
        Trichotomy(c, c);
        FilterShorter(rows[k..], q, 0);
      }
    }
  }

  lemma {:induction false} StrictShowsAll(table: seq<Record>, range: TimeRange, after: Option<Cursor>, limit: nat)
    requires limit > 0 && StrictlySorted(ReferenceRows(table, range, after))
    ensures AllPages(table, range, after, limit) == ReferenceRows(table, range, after)
    decreases |ReferenceRows(table, range, after)|
  {
    var rows := ReferenceRows(table, range, after);
    if |rows| > limit {
      var c := CursorOf(rows[limit - 1]);
      NextRows(table, range, after, limit);
      ReferenceSelected(table, range, after);
      RestPast(rows, limit, c);
      StrictShowsAll(table, range, Some(c), limit);
      assert rows == rows[..limit] + rows[limit..];
    }
  }

  /** A page that ends between two rows with one key loses a row. */
  lemma TieLosesARow(table: seq<Record>, range: TimeRange, after: Option<Cursor>, limit: nat)
    requires 0 < limit < |ReferenceRows(table, range, after)|
    requires CursorOf(ReferenceRows(table, range, after)[limit - 1]) == CursorOf(ReferenceRows(table, range, after)[limit])
    ensures |AllPages(table, range, after, limit)| < |ReferenceRows(table, range, after)|
  {
    var rows := ReferenceRows(table, range, after);
    var c := CursorOf(rows[limit - 1]);
    ReferenceSelected(table, range, after);
    NextRows(table, range, after, limit);
    NeverMore(table, range, Some(c), limit);
    RestIsShort(rows, limit, c);
  }

  ghost predicate NeighboursDiffer(rows: seq<Record>) {
    forall i {:trigger rows[i]} :: 0 <= i < |rows| - 1 ==> CursorOf(rows[i]) != CursorOf(rows[i + 1])
  }

  lemma {:induction false} NeighboursSuffice(rows: seq<Record>, i: nat, j: nat)
    requires Sorted(rows) && NeighboursDiffer(rows) && i < j < |rows|
    ensures Precedes(CursorOf(rows[i]), CursorOf(rows[j]))
    decreases j - i
  {
    Trichotomy(CursorOf(rows[j - 1]), CursorOf(rows[j - 1 + 1]));
    if i + 1 < j {
      NeighboursSuffice(rows, i, j - 1);
      Transitive(CursorOf(rows[i]), CursorOf(rows[j - 1]), CursorOf(rows[j]));
    }
  }

  lemma StrictIffUnique(table: seq<Record>, range: TimeRange, after: Option<Cursor>)
    ensures var rows := ReferenceRows(table, range, after);
            && (UniqueKeys(Filter(table, r => Selected(range, after, r))) <==> StrictlySorted(rows))
            && (NeighboursDiffer(rows) ==> StrictlySorted(rows))
  {
    var selected := Filter(table, r => Selected(range, after, r));
    var rows := ReferenceRows(table, range, after);
    SortSorted(selected);
    if UniqueKeys(selected) { SortKeepsUnique(selected); }
    if StrictlySorted(rows) { StrictIsUnique(selected); }
    if NeighboursDiffer(rows) {
      forall i: nat, j: nat | i < j < |rows| ensures Precedes(CursorOf(rows[i]), CursorOf(rows[j])) { NeighboursSuffice(rows, i, j); }
    }
  }

  lemma StrictIsUnique(s: seq<Record>)
    requires StrictlySorted(StableSort(s))
    ensures UniqueKeys(s)
  {
    var t := StableSort(s);
    forall i, j | 0 <= i < j < |t| ensures CursorOf(t[i]) != CursorOf(t[j]) { Trichotomy(CursorOf(t[i]), CursorOf(t[j])); }
    UniqueKeysByGroups(t);
    forall c ensures |WithKey(s, c)| <= 1 {
      SortKeepsKeyOrder(s, c);
      assert |WithKey(t, c)| <= 1;
    }
    UniqueKeysByGroups(s);
  }

  ghost predicate ShowsAll(table: seq<Record>, range: TimeRange, after: Option<Cursor>, limit: nat)
    requires limit > 0
  {
    AllPages(table, range, after, limit) == ReferenceRows(table, range, after)
  }

  /** Paging shows every selected row, whatever the page size, if and only if the selected rows have unique keys. */
  lemma ShowsAllIffUnique(table: seq<Record>, range: TimeRange, after: Option<Cursor>)
    ensures (forall limit: nat :: limit > 0 ==> ShowsAll(table, range, after, limit)) <==>
            UniqueKeys(Filter(table, r => Selected(range, after, r)))
  {
    var rows := ReferenceRows(table, range, after);
    StrictIffUnique(table, range, after);
    if StrictlySorted(rows) {
      forall limit: nat | limit > 0 ensures ShowsAll(table, range, after, limit) { StrictShowsAll(table, range, after, limit); }
    } else {
      assert !NeighboursDiffer(rows);
      var i: nat :| i < |rows| - 1 && CursorOf(rows[i]) == CursorOf(rows[i + 1]);
      TieLosesARow(table, range, after, i + 1);
      assert !ShowsAll(table, range, after, i + 1);
    }
  }

  /** The in-memory store takes two records with one key, and paging by one row never shows the second. */
  lemma SecondOfTieIsNeverShown(r: Record, s: Record, range: TimeRange)
    requires CursorOf(r) == CursorOf(s) && InRange(range, r.eventTime)
    ensures var entry := PerformAll(DEFAULT_ENTRY, [AppendCall(r), AppendCall(s)]);
            && Perform(DEFAULT_ENTRY, AppendCall(r)).outcome.Ok?
            && Perform(Perform(DEFAULT_ENTRY, AppendCall(r)).entry, AppendCall(s)).outcome.Ok?
            && entry.records == [r, s]
            && AllPages(entry.records, range, None, 1) == [r]
  {
    TwoAppends(DEFAULT_ENTRY, AppendCall(r), AppendCall(s));
    AppendsInOrder(r, s);
    TieOfTwo(r, s, range);
  }

  lemma TwoAppends(e: Entry, a: Call, b: Call)
    ensures PerformAll(e, [a, b]) == Perform(Perform(e, a).entry, b).entry
  {
    var rest := [a, b][1..];
    assert rest == [b] && rest[1..] == [];
    assert PerformAll(Perform(e, a).entry, rest) == PerformAll(Perform(Perform(e, a).entry, b).entry, rest[1..]);
  }

  lemma AppendsInOrder(r: Record, s: Record)
    requires CursorOf(r) == CursorOf(s)
    ensures StableSort([] + [r]) == [r] && StableSort([r] + [s]) == [r, s]
  {
    SortAfterPush([], r);
    Trichotomy(CursorOf(r), CursorOf(s));
    SortAfterPush([r], s);
  }

  lemma TieOfTwo(r: Record, s: Record, range: TimeRange)
    requires CursorOf(r) == CursorOf(s) && InRange(range, r.eventTime)
    ensures AllPages([r, s], range, None, 1) == [r]
  {
    var p := x => Selected(range, None, x);
    FilterAll([r, s], p);
    Trichotomy(CursorOf(r), CursorOf(s));
    SortedIsFixed([r, s]);
    assert ReferenceRows([r, s], range, None) == [r, s];
    var c := CursorOf(r);
    NextRows([r, s], range, None, 1);
    FilterNone([r, s], x => PastCursor(c, x));
  }
}
