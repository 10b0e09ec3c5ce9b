/**
 Walking a family of half-open buckets that cut time into consecutive pieces
 (the loops of src/domain/schema.rs, for any such family).
 */
module Tiling {
  import opened Common
  import opened Records
  import Calendar

  datatype BucketId = BucketId(
    tableId: string, partitionKey: Bytes, strategy: Calendar.Strategy, key: string, start: int, end: int)

  predicate Contains(b: BucketId, t: int) {
    b.start <= t < b.end
  }

  /** `f` assigns every instant a bucket holding it, and the same bucket to all instants in it. */
  ghost predicate Tiles(f: int -> BucketId) {
    && (forall t :: Contains(f(t), t))
    && (forall t, u :: Contains(f(t), u) ==> f(u) == f(t))
  }

  ghost predicate Meets(b: BucketId, range: TimeRange) {
    exists t :: Contains(b, t) && InRange(range, t)
  }

  predicate Adjoins(bs: seq<BucketId>, i: int)
    requires 0 <= i < |bs| - 1
  {
    bs[i].end == bs[i + 1].start
  }

  /** Consecutive buckets of `f` with no gap and no overlap, oldest first. */
  ghost predicate Chain(f: int -> BucketId, bs: seq<BucketId>) {
    && (forall i :: 0 <= i < |bs| ==> bs[i] == f(bs[i].start))
    && (forall i :: 0 <= i < |bs| - 1 ==> Adjoins(bs, i))
  }

  ghost predicate Ascending(bs: seq<BucketId>) {
    forall i, j :: 0 <= i < j < |bs| ==> bs[i].end <= bs[j].start
  }

  lemma {:induction false} ChainOrder(f: int -> BucketId, bs: seq<BucketId>, i: int, j: int)
    requires Tiles(f) && Chain(f, bs) && 0 <= i < j < |bs|
    ensures bs[i].end <= bs[j].start
    decreases j - i
  {
    assert Adjoins(bs, j - 1);
    if i + 1 < j {
      ChainOrder(f, bs, i, j - 1);
      assert Contains(f(bs[j - 1].start), bs[j - 1].start);
    }
  }

  lemma ChainAscending(f: int -> BucketId, bs: seq<BucketId>)
    requires Tiles(f) && Chain(f, bs)
    ensures Ascending(bs)
  {
    forall i, j | 0 <= i < j < |bs| ensures bs[i].end <= bs[j].start { ChainOrder(f, bs, i, j); }
  }

  /** Every instant between the ends of a chain lies in one of its buckets. */
  lemma {:induction false} ChainCovers(f: int -> BucketId, bs: seq<BucketId>, t: int) returns (i: int)
    requires Tiles(f) && Chain(f, bs) && bs != [] && bs[0].start <= t < bs[|bs| - 1].end
    ensures 0 <= i < |bs| && Contains(bs[i], t) && bs[i] == f(t)
  {
    i := |bs| - 1;
    while t < bs[i].start
      invariant 0 <= i < |bs| && t < bs[i].end
    {
      assert Adjoins(bs, i - 1);
      i := i - 1;
    }
    assert bs[i] == f(bs[i].start);
  }

  // ----- the forward walk -----

  /** The buckets met by a nonempty range: they start at the bucket of its start and just reach its end. */
  ghost predicate Spans(f: int -> BucketId, range: TimeRange, bs: seq<BucketId>) {
    && Chain(f, bs)
    && bs != [] && bs[0] == f(range.start)
    && bs[|bs| - 1].start < range.end <= bs[|bs| - 1].end
  }

  lemma ExtendChain(f: int -> BucketId, bs: seq<BucketId>, b: BucketId)
    requires Chain(f, bs) && b == f(b.start) && (bs != [] ==> bs[|bs| - 1].end == b.start)
    ensures Chain(f, bs + [b])
  {
    forall i | 0 <= i < |bs| ensures Adjoins(bs + [b], i) {
      if i < |bs| - 1 { assert Adjoins(bs, i); }
    }
  }

  method WalkForward(f: int -> BucketId, range: TimeRange) returns (buckets: seq<BucketId>)
    requires Tiles(f)
    ensures range.start >= range.end ==> buckets == []
    ensures range.start < range.end ==> Spans(f, range, buckets)
  {
    if range.start >= range.end {
      return [];
    }
    var bucket := f(range.start);
    buckets := [];
    assert Contains(f(range.start), range.start);
    while bucket.start < range.end
      invariant Chain(f, buckets)
      invariant bucket == f(bucket.start)
      invariant buckets == [] ==> bucket == f(range.start) && bucket.start < range.end
      invariant buckets != [] ==> buckets[0] == f(range.start)
      invariant buckets != [] ==> buckets[|buckets| - 1].end == bucket.start && buckets[|buckets| - 1].start < range.end
      decreases range.end - bucket.start
    {
      assert Contains(f(bucket.start), bucket.start);
      var next := bucket.end;
      NextStarts(f, bucket.start);
      ExtendChain(f, buckets, bucket);
      buckets := buckets + [bucket];
      bucket := f(next);
    }
  }

  /** The bucket of a bucket's end starts there. */
  lemma NextStarts(f: int -> BucketId, t: int)
    requires Tiles(f)
    ensures f(f(t).end).start == f(t).end && f(f(f(t).end).start) == f(f(t).end)
  {
    var b := f(t);
    var c := f(b.end);
    assert Contains(c, b.end) && Contains(b, t) && Contains(b, b.end - 1);
    assert f(b.end - 1) == b;
    if c.start < b.end { assert Contains(c, b.end - 1); }
  }

  /** A spanning chain lists exactly the buckets that meet the range, in ascending order. */
  lemma SpansIffMeets(f: int -> BucketId, range: TimeRange, bs: seq<BucketId>, t: int)
    requires Tiles(f) && range.start < range.end && Spans(f, range, bs)
    ensures f(t) in bs <==> Meets(f(t), range)
    ensures Ascending(bs) && bs[0].start <= range.start
  {
    ChainAscending(f, bs);
    assert Contains(f(range.start), range.start);
    if f(t) in bs {
      var i :| 0 <= i < |bs| && bs[i] == f(t);
      ListedMeets(f, range, bs, i);
    }
    if Meets(f(t), range) {
      var u :| Contains(f(t), u) && InRange(range, u);
      var i := ChainCovers(f, bs, u);
    }
  }

  lemma ListedMeets(f: int -> BucketId, range: TimeRange, bs: seq<BucketId>, i: int)
    requires Tiles(f) && range.start < range.end && Spans(f, range, bs) && 0 <= i < |bs|
    ensures Meets(bs[i], range)
  {
    assert Contains(f(range.start), range.start) && Contains(f(bs[i].start), bs[i].start);
    if i == 0 {
      assert InRange(range, range.start);
    } else {
      ChainOrder(f, bs, 0, i);
      if i < |bs| - 1 { ChainOrder(f, bs, i, |bs| - 1); }
      assert InRange(range, bs[i].start);
    }
  }

  // ----- the backward walk -----

  /** The bucket one instant before a bucket's start ends there. */
  lemma PreviousEnds(f: int -> BucketId, t: int)
    requires Tiles(f)
    ensures f(f(t).start - 1).end == f(t).start && f(f(f(t).start - 1).start) == f(f(t).start - 1)
    ensures f(f(t).start) == f(t)
  {
    var b := f(t);
    var c := f(b.start - 1);
    assert Contains(c, b.start - 1) && Contains(b, t) && Contains(b, b.start);
    assert f(b.start) == b;
    if c.end > b.start { assert Contains(c, b.start); }
  }

  function Reversed<T>(s: seq<T>): (r: seq<T>)
    ensures |r| == |s| && forall i :: 0 <= i < |s| ==> r[i] == s[|s| - 1 - i]
  {
    seq(|s|, i requires 0 <= i < |s| => s[|s| - 1 - i])
  }

  predicate FollowedBy(bs: seq<BucketId>, i: int)
    requires 1 <= i < |bs|
  {
    bs[i].end == bs[i - 1].start
  }

  /** Consecutive buckets, newest first. */
  ghost predicate Adjacent(bs: seq<BucketId>) {
    forall i :: 1 <= i < |bs| ==> FollowedBy(bs, i)
  }

  lemma ReversedAdjoins(bs: seq<BucketId>)
    requires Adjacent(bs)
    ensures forall i :: 0 <= i < |bs| - 1 ==> Adjoins(Reversed(bs), i)
  {
    forall i | 0 <= i < |bs| - 1 ensures Adjoins(Reversed(bs), i) {
      assert FollowedBy(bs, |bs| - 1 - i);
    }
  }

  /** `count` consecutive buckets of which the last holds `t`. */
  ghost predicate EndsWith(f: int -> BucketId, t: int, count: nat, bs: seq<BucketId>) {
    && |bs| == count
    && Chain(f, bs)
    && (count > 0 ==> bs[count - 1] == f(t))
  }

  method WalkBackward(f: int -> BucketId, t: int, count: nat) returns (buckets: seq<BucketId>)
    requires Tiles(f)
    ensures EndsWith(f, t, count, buckets)
  {
    if count == 0 {
      return [];
    }
    var bucket := f(t);
    buckets := [bucket];
    PreviousEnds(f, t);
    for i := 1 to count
      invariant |buckets| == i && buckets[0] == f(t) && buckets[i - 1] == bucket
      invariant forall k :: 0 <= k < i ==> buckets[k] == f(buckets[k].start)
      invariant Adjacent(buckets)
    {
      PreviousEnds(f, bucket.start);
      ghost var before := buckets;
      bucket := f(bucket.start - 1);
      buckets := buckets + [bucket];
      forall k | 1 <= k < |buckets| ensures FollowedBy(buckets, k) {
        if k < i { assert FollowedBy(before, k); }
      }
    }
    ReversedAdjoins(buckets);
    buckets := Reversed(buckets);
  }

  lemma {:induction false} ChainsAgree(f: int -> BucketId, a: seq<BucketId>, b: seq<BucketId>, i: nat)
    requires Tiles(f) && Chain(f, a) && Chain(f, b)
    requires i < |a| && i < |b| && a[0] == b[0]
    ensures a[i] == b[i]
  {
    if i > 0 {
      ChainsAgree(f, a, b, i - 1);
      assert Adjoins(a, i - 1) && Adjoins(b, i - 1);
    }
  }

  /** Stepping back and walking forward over the same stretch list the same buckets. */
  lemma WalksAgree(f: int -> BucketId, t: int, count: nat, back: seq<BucketId>, forth: seq<BucketId>)
    requires Tiles(f) && count > 0 && EndsWith(f, t, count, back)
    requires Spans(f, TimeRange(back[0].start, back[count - 1].end), forth)
    ensures back == forth
  {
    assert back[0] == f(back[0].start) && forth[0] == back[0];
    var m, n := |forth|, count;
    assert Contains(f(back[n - 1].start), back[n - 1].start);
    if m < n {
      ChainsAgree(f, back, forth, m - 1);
      ChainOrder(f, back, m - 1, n - 1);
    } else if n < m {
      ChainsAgree(f, back, forth, n - 1);
      ChainOrder(f, forth, n - 1, m - 1);
    }
    forall i | 0 <= i < n ensures back[i] == forth[i] { ChainsAgree(f, back, forth, i); }
  }
}
