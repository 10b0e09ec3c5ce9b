/** Discovery of archive work from durable state (src/ports/storage.rs). */
module Discovery {
  import opened Common
  import opened Tiling
  import opened Cutover
  import opened BucketStore

  datatype Work = CutoverWork(bucket: BucketId) | CleanupWork(bucket: BucketId)

  /** The derived order on bucket identities enters as any total order. */
  ghost predicate TotalOrder(le: (BucketId, BucketId) -> bool) {
    && (forall a, b :: le(a, b) || le(b, a))
    && (forall a, b, c :: le(a, b) && le(b, c) ==> le(a, c))
    && (forall a, b :: le(a, b) && le(b, a) ==> a == b)
  }

  /** Each element comes strictly before all later ones. */
  ghost predicate Ordered(le: (BucketId, BucketId) -> bool, s: seq<BucketId>) {
    s != [] ==> (forall y :: y in s[1..] ==> le(s[0], y) && s[0] != y) && Ordered(le, s[1..])
  }

  lemma {:induction false} OrderedAt(le: (BucketId, BucketId) -> bool, s: seq<BucketId>, i: nat, j: nat)
    requires Ordered(le, s) && i < j < |s|
    ensures le(s[i], s[j]) && s[i] != s[j]
  {
    if i == 0 {
      assert s[1..][j - 1] == s[j];
    } else {
      OrderedAt(le, s[1..], i - 1, j - 1);
    }
  }

  function Place(le: (BucketId, BucketId) -> bool, s: seq<BucketId>, b: BucketId): (t: seq<BucketId>)
    ensures forall x :: x in t <==> x in s || x == b
  {
    if s == [] then [b]
    else if le(b, s[0]) then [b] + s
    else [s[0]] + Place(le, s[1..], b)
  }

  lemma {:induction false} PlaceOrdered(le: (BucketId, BucketId) -> bool, s: seq<BucketId>, b: BucketId)
    requires TotalOrder(le) && Ordered(le, s) && b !in s
    ensures Ordered(le, Place(le, s, b))
  {
    if s != [] {
      assert s[0] in s && forall y :: y in s ==> y == s[0] || y in s[1..];
      if le(b, s[0]) {
        assert ([b] + s)[1..] == s;
      } else {
        PlaceOrdered(le, s[1..], b);
        assert Place(le, s, b)[1..] == Place(le, s[1..], b);
        assert le(s[0], b);
      }
    }
  }

  predicate Eligible(b: BucketId, eligibleBefore: int) {
    b.end <= eligibleBefore
  }

  function Works(cleanup: seq<BucketId>, cutover: seq<BucketId>): (r: seq<Work>)
    ensures |r| == |cleanup| + |cutover|
    ensures forall i :: 0 <= i < |cleanup| ==> r[i] == CleanupWork(cleanup[i])
    ensures forall i :: 0 <= i < |cutover| ==> r[|cleanup| + i] == CutoverWork(cutover[i])
  {
    seq(|cleanup| + |cutover|, i requires 0 <= i < |cleanup| + |cutover| =>
      if i < |cleanup| then CleanupWork(cleanup[i]) else CutoverWork(cutover[i - |cleanup|]))
  }

  /** All due work in the order it is offered: ordered cleanups, then ordered cutovers. */
  ghost predicate DueWork(
    le: (BucketId, BucketId) -> bool, buckets: map<BucketId, Entry>, now: int, eligibleBefore: int,
    cleanup: seq<BucketId>, cutover: seq<BucketId>)
  {
    && Ordered(le, cleanup) && Ordered(le, cutover)
    && (forall b :: b in cleanup <==> b in buckets && CleanupClaimable(buckets[b], now))
    && (forall b :: b in cutover <==> b in buckets && CutoverClaimable(buckets[b], now) && Eligible(b, eligibleBefore))
  }

  /** The list is the start of all due work, as long as the limit allows. */
  ghost predicate Offered(
    le: (BucketId, BucketId) -> bool, buckets: map<BucketId, Entry>, now: int, eligibleBefore: int, limit: nat, work: seq<Work>)
  {
    exists cleanup, cutover ::
      DueWork(le, buckets, now, eligibleBefore, cleanup, cutover) && work == Take(Works(cleanup, cutover), limit)
  }

  lemma OfferedFrom(
    le: (BucketId, BucketId) -> bool, buckets: map<BucketId, Entry>, now: int, eligibleBefore: int, limit: nat,
    cleanup: seq<BucketId>, cutover: seq<BucketId>)
    requires DueWork(le, buckets, now, eligibleBefore, cleanup, cutover)
    ensures Offered(le, buckets, now, eligibleBefore, limit, Take(Works(cleanup, cutover), limit))
  {
  }

  method DiscoverArchiveWork(
    le: (BucketId, BucketId) -> bool, buckets: map<BucketId, Entry>, now: int, eligibleBefore: int, limit: nat)
    returns (work: seq<Work>)
    requires TotalOrder(le)
    ensures Offered(le, buckets, now, eligibleBefore, limit, work)
  {
    var due, closed := [], [];
    var unseen := buckets.Keys;
    while unseen != {}
      invariant unseen <= buckets.Keys
      invariant Ordered(le, due) && Ordered(le, closed)
      invariant forall b :: b in due <==> b in buckets.Keys - unseen && CleanupClaimable(buckets[b], now)
      invariant forall b :: b in closed <==>
                  b in buckets.Keys - unseen && CutoverClaimable(buckets[b], now) && Eligible(b, eligibleBefore)
      decreases |unseen|
    {
      var b :| b in unseen;
      var entry := buckets[b];
      if AttemptDue(entry, now) {
        match entry.state
        case Archived(_, deleted) =>
          if !deleted && LeaseExpired(entry, now) {
            PlaceOrdered(le, due, b);
            due := Place(le, due, b);
          }
        case Hot =>
          if b.end <= eligibleBefore {
            PlaceOrdered(le, closed, b);
            closed := Place(le, closed, b);
          }
        case Archiving =>
          if b.end <= eligibleBefore && LeaseExpired(entry, now) {
            PlaceOrdered(le, closed, b);
            closed := Place(le, closed, b);
          }
      }
      unseen := unseen - {b};
    }
    work := Take(Works(due, closed), limit);
    OfferedFrom(le, buckets, now, eligibleBefore, limit, due, closed);
  }

  /** The claim that a work item calls for. */
  function ClaimOf(w: Work, token: string, now: int, expiresAt: int): Call {
    match w
    case CutoverWork(_) => ClaimArchiveCall(token, now, expiresAt)
    case CleanupWork(_) => ClaimCleanupCall(token, now, expiresAt)
  }

  /** At the same instant, the claim of a listed item succeeds. */
  lemma ListedIsClaimable(
    le: (BucketId, BucketId) -> bool, buckets: map<BucketId, Entry>, now: int, eligibleBefore: int,
    cleanup: seq<BucketId>, cutover: seq<BucketId>, w: Work, token: string, expiresAt: int)
    requires DueWork(le, buckets, now, eligibleBefore, cleanup, cutover) && w in Works(cleanup, cutover)
    ensures w.bucket in buckets
    ensures Perform(buckets[w.bucket], ClaimOf(w, token, now, expiresAt)).outcome ==
            if buckets[w.bucket].generation < U64_MAX then Ok(Claimed(buckets[w.bucket].generation + 1))
            else Err(OperationFailed)
  {
    WorkListed(cleanup, cutover, w.bucket);
  }

  /** No bucket is listed twice, and cleanups precede cutovers. */
  lemma ListedOnce(
    le: (BucketId, BucketId) -> bool, buckets: map<BucketId, Entry>, now: int, eligibleBefore: int,
    cleanup: seq<BucketId>, cutover: seq<BucketId>, i: nat, j: nat)
    requires DueWork(le, buckets, now, eligibleBefore, cleanup, cutover)
    requires i < j < |Works(cleanup, cutover)|
    ensures Works(cleanup, cutover)[i].bucket != Works(cleanup, cutover)[j].bucket
    ensures Works(cleanup, cutover)[j].CleanupWork? ==> Works(cleanup, cutover)[i].CleanupWork?
  {
    if j < |cleanup| {
      OrderedAt(le, cleanup, i, j);
    } else if i < |cleanup| {
      assert cleanup[i] in cleanup && cutover[j - |cleanup|] in cutover;
    } else {
      OrderedAt(le, cutover, i - |cleanup|, j - |cleanup|);
    }
  }

  /** A list shorter than the limit names every bucket that could be claimed. */
  lemma ShortListIsComplete(
    le: (BucketId, BucketId) -> bool, buckets: map<BucketId, Entry>, now: int, eligibleBefore: int, limit: nat,
    cleanup: seq<BucketId>, cutover: seq<BucketId>, b: BucketId)
    requires DueWork(le, buckets, now, eligibleBefore, cleanup, cutover) && b in buckets
    requires |Take(Works(cleanup, cutover), limit)| < limit
    ensures CleanupClaimable(buckets[b], now) <==> CleanupWork(b) in Take(Works(cleanup, cutover), limit)
    ensures CutoverClaimable(buckets[b], now) && Eligible(b, eligibleBefore) <==>
            CutoverWork(b) in Take(Works(cleanup, cutover), limit)
  {
    WorkListed(cleanup, cutover, b);
  }

  lemma WorkListed(cleanup: seq<BucketId>, cutover: seq<BucketId>, b: BucketId)
    ensures CleanupWork(b) in Works(cleanup, cutover) <==> b in cleanup
    ensures CutoverWork(b) in Works(cleanup, cutover) <==> b in cutover
  {
    var all := Works(cleanup, cutover);
    if b in cleanup {
      var i :| 0 <= i < |cleanup| && cleanup[i] == b;
      assert all[i] == CleanupWork(b);
    }
    if b in cutover {
      var i :| 0 <= i < |cutover| && cutover[i] == b;
      assert all[|cleanup| + i] == CutoverWork(b);
    }
  }
}
