/** Merging bounded bucket reads that finish in any order (src/application/durable_table.rs). */
module Merge {
  import opened Records
  import opened BucketStore

  // ----- gathering chunks -----

  predicate InBounds(order: seq<nat>, n: nat) {
    forall i :: 0 <= i < |order| ==> order[i] < n
  }

  /** The chunks named by `order`, one after another. */
  function Gather(chunks: seq<seq<Record>>, order: seq<nat>): (r: seq<Record>)
    requires InBounds(order, |chunks|)
  {
    if order == [] then []
    else Gather(chunks, order[..|order| - 1]) + chunks[order[|order| - 1]]
  }

  function Flatten(chunks: seq<seq<Record>>): (r: seq<Record>)
    ensures forall x :: x in r <==> exists i :: 0 <= i < |chunks| && x in chunks[i]
  {
    if chunks == [] then [] else
      var r := Flatten(chunks[..|chunks| - 1]) + chunks[|chunks| - 1];
      assert forall x :: x in r <==> x in Flatten(chunks[..|chunks| - 1]) || x in chunks[|chunks| - 1];
      r
  }

  ghost predicate Distinct(order: seq<nat>) {
    forall i, j :: 0 <= i < j < |order| ==> order[i] != order[j]
  }

  /** `order` lists every chunk exactly once. */
  ghost predicate Permutes(order: seq<nat>, n: nat) {
    && |order| == n && Distinct(order) && InBounds(order, n)
    && (forall i: nat :: i < n ==> i in order)
  }

  /** Every record of an earlier chunk strictly precedes every record of a later one. */
  ghost predicate Separated(chunks: seq<seq<Record>>) {
    forall i, j, x, y :: 0 <= i < j < |chunks| && x in chunks[i] && y in chunks[j] ==> Precedes(CursorOf(x), CursorOf(y))
  }

  ghost predicate AllSorted(chunks: seq<seq<Record>>) {
    forall i :: 0 <= i < |chunks| ==> Sorted(chunks[i])
  }

  lemma {:induction false} FlattenSorted(chunks: seq<seq<Record>>)
    requires AllSorted(chunks) && Separated(chunks)
    ensures Sorted(Flatten(chunks))
  {
    if chunks != [] {
      var init, last := chunks[..|chunks| - 1], chunks[|chunks| - 1];
      FlattenSorted(init);
      ConcatSorted(Flatten(init), last);
    }
  }

  lemma ConcatSorted(a: seq<Record>, b: seq<Record>)
    requires Sorted(a) && Sorted(b)
    requires forall x, y :: x in a && y in b ==> Precedes(CursorOf(x), CursorOf(y))
    ensures Sorted(a + b)
  {
    var s := a + b;
    forall i, j | 0 <= i < j < |s| ensures AtMost(CursorOf(s[i]), CursorOf(s[j])) {
      if i < |a| <= j { Trichotomy(CursorOf(s[i]), CursorOf(s[j])); }
    }
  }

  lemma {:induction false} GatherGroup(chunks: seq<seq<Record>>, order: seq<nat>, c: Cursor, k: nat)
    requires Distinct(order) && InBounds(order, |chunks|)
    requires k < |chunks| && forall i :: 0 <= i < |chunks| && i != k ==> WithKey(chunks[i], c) == []
    ensures WithKey(Gather(chunks, order), c) == if k in order then WithKey(chunks[k], c) else []
  {
    if order != [] {
      var init, last := order[..|order| - 1], order[|order| - 1];
      assert order == init + [last] && last !in init;
      GatherGroup(chunks, init, c, k);
      WithKeyConcat(Gather(chunks, init), chunks[last], c);
    }
  }

  lemma {:induction false} FlattenGroup(chunks: seq<seq<Record>>, c: Cursor, k: nat)
    requires k < |chunks| && forall i :: 0 <= i < |chunks| && i != k ==> WithKey(chunks[i], c) == []
    ensures WithKey(Flatten(chunks), c) == WithKey(chunks[k], c)
  {
    var init, last := chunks[..|chunks| - 1], chunks[|chunks| - 1];
    WithKeyConcat(Flatten(init), last, c);
    if k < |init| {
      FlattenGroup(init, c, k);
    } else {
      forall r | r in Flatten(init) ensures CursorOf(r) != c {
        var i :| 0 <= i < |init| && r in init[i];
        WithKeyMembers(chunks[i], c);
      }
      FilterNone(Flatten(init), r => CursorOf(r) == c);
    }
  }

  /** In separated chunks a clustering key occurs in at most one chunk. */
  lemma KeyHome(chunks: seq<seq<Record>>, c: Cursor) returns (k: nat)
    requires Separated(chunks) && chunks != []
    ensures k < |chunks| && forall i :: 0 <= i < |chunks| && i != k ==> WithKey(chunks[i], c) == []
  {
    if i :| 0 <= i < |chunks| && WithKey(chunks[i], c) != [] {
      k := i;
      forall j | 0 <= j < |chunks| && j != k ensures WithKey(chunks[j], c) == [] {
        OneHome(chunks, c, k, j);
      }
    } else {
      k := 0;
    }
  }

  lemma OneHome(chunks: seq<seq<Record>>, c: Cursor, k: nat, j: nat)
    requires Separated(chunks) && k < |chunks| && j < |chunks| && j != k && WithKey(chunks[k], c) != []
    ensures WithKey(chunks[j], c) == []
  {
    var x := WithKey(chunks[k], c)[0];
    assert x in WithKey(chunks[k], c);
    WithKeyMembers(chunks[k], c);
    forall r | r in chunks[j] ensures CursorOf(r) != c {
      Trichotomy(CursorOf(x), CursorOf(r));
      assert if j < k then Precedes(CursorOf(r), CursorOf(x)) else Precedes(CursorOf(x), CursorOf(r));
    }
    FilterNone(chunks[j], r => CursorOf(r) == c);
  }

  /** Sorting the reads in whatever order they finished puts them back in bucket order. */
  lemma SortRestoresOrder(chunks: seq<seq<Record>>, order: seq<nat>)
    requires AllSorted(chunks) && Separated(chunks) && Permutes(order, |chunks|)
    ensures StableSort(Gather(chunks, order)) == Flatten(chunks)
  {
    var merged := Gather(chunks, order);
    FlattenSorted(chunks);
    if chunks != [] {
      forall c ensures WithKey(Flatten(chunks), c) == WithKey(merged, c) {
        var k := KeyHome(chunks, c);
        GatherGroup(chunks, order, c, k);
        FlattenGroup(chunks, c, k);
      }
    }
    StableSortSpec(merged, Flatten(chunks));
  }

  // ----- truncating each read is harmless -----

  function TakeEach(rows: seq<seq<Record>>, cap: nat): (r: seq<seq<Record>>)
    ensures |r| == |rows| && forall i :: 0 <= i < |rows| ==> r[i] == Take(rows[i], cap)
  {
    seq(|rows|, i requires 0 <= i < |rows| => Take(rows[i], cap))
  }

  /** A read of `limit + 1` rows per bucket is enough for the first `limit` rows and for knowing whether there are more. */
  lemma {:induction false} TruncationHarmless(rows: seq<seq<Record>>, cap: nat, limit: nat)
    requires cap > limit
    ensures Take(Flatten(TakeEach(rows, cap)), limit) == Take(Flatten(rows), limit)
    ensures |Flatten(TakeEach(rows, cap))| > limit <==> |Flatten(rows)| > limit
    ensures |Flatten(rows)| <= limit ==> Flatten(TakeEach(rows, cap)) == Flatten(rows)
  {
    if rows != [] {
      var init, last := rows[..|rows| - 1], rows[|rows| - 1];
      TruncationHarmless(init, cap, limit);
      assert TakeEach(rows, cap)[..|rows| - 1] == TakeEach(init, cap);
      TakeConcat(Flatten(TakeEach(init, cap)), Flatten(init), last, cap, limit);
    }
  }

  lemma TakeConcat(a: seq<Record>, b: seq<Record>, c: seq<Record>, cap: nat, limit: nat)
    requires cap > limit && Take(a, limit) == Take(b, limit) && (|a| > limit <==> |b| > limit)
    requires |b| <= limit ==> a == b
    ensures Take(a + Take(c, cap), limit) == Take(b + c, limit)
    ensures |a + Take(c, cap)| > limit <==> |b + c| > limit
    ensures |b + c| <= limit ==> a + Take(c, cap) == b + c
  {
    if |b| > limit {
      assert (a + Take(c, cap))[..limit] == a[..limit];
      assert (b + c)[..limit] == b[..limit];
    }
  }
}
