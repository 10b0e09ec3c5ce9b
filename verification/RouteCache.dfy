/**
 The bounded cache of published archive routes, and why every process's cache agrees with the
 database (src/adapters/cockroach_durable.rs).
 */
module RouteCache {
  import opened Common
  import opened Records
  import opened Tiling
  import opened Cutover
  import opened BucketStore
  import opened CockroachRows

  const MAX_ENTRIES: nat := 4096

  datatype CachedRoute = CachedRoute(objectKey: string, observedAt: int)

  class Cache {
    var entries: map<BucketId, CachedRoute>

    ghost predicate Valid()
      reads this
    {
      |entries| <= MAX_ENTRIES
    }

    constructor ()
      ensures Valid() && entries == map[]
    {
      entries := map[];
    }

    method Archived(b: BucketId) returns (key: Option<string>)
      ensures key == if b in entries then Some(entries[b].objectKey) else None
    {
      key := if b in entries then Some(entries[b].objectKey) else None;
    }

    /** The entry observed longest ago; on equal times any of them. */
    method Oldest() returns (oldest: BucketId)
      requires entries != map[]
      ensures oldest in entries
      ensures forall d :: d in entries ==> entries[oldest].observedAt <= entries[d].observedAt
    {
      var unseen := entries.Keys;
      oldest :| oldest in entries;
      while unseen != {}
        invariant unseen <= entries.Keys && oldest in entries
        invariant forall d :: d in entries.Keys - unseen ==> entries[oldest].observedAt <= entries[d].observedAt
      {
        var d :| d in unseen;
        if entries[d].observedAt < entries[oldest].observedAt {
          oldest := d;
        }
        unseen := unseen - {d};
      }
    }

    /** Inserts a route; a full cache first gives up one oldest entry, and no other. */
    method CacheArchiveAt(b: BucketId, key: string, at: int)
      requires Valid()
      modifies this
      ensures Valid()
      ensures b in entries && entries[b] == CachedRoute(key, at)
      ensures forall d :: d in entries && d != b ==> d in old(entries) && entries[d] == old(entries)[d]
      ensures b in old(entries) || |old(entries)| < MAX_ENTRIES ==> entries == old(entries)[b := CachedRoute(key, at)]
      ensures forall d, kept :: d in old(entries) && d !in entries && kept in old(entries) ==>
                old(entries)[d].observedAt <= old(entries)[kept].observedAt
      ensures forall d, d' :: d in old(entries) && d' in old(entries) && d !in entries && d' !in entries ==> d == d'
    {
      if b !in entries && |entries| >= MAX_ENTRIES {
        var oldest := Oldest();
        SizeWithout(entries, oldest);
        entries := entries - {oldest};
      }
      SizeWith(entries, b, CachedRoute(key, at));
      entries := entries[b := CachedRoute(key, at)];
    }

    method Invalidate(b: BucketId)
      requires Valid()
      modifies this
      ensures Valid() && entries == old(entries) - {b}
    {
      if b in entries { SizeWithout(entries, b); } else { assert entries - {b} == entries; }
      entries := entries - {b};
    }
  }

  // ----- many processes -----

  /** The primary key of a bucket's row. */
  datatype RowKey = RowKey(tableId: string, partitionKey: Bytes, key: string)

  function RowKeyOf(b: BucketId): RowKey {
    RowKey(b.tableId, b.partitionKey, b.key)
  }

  /**
   The database, what each process has cached, and the archive routes a process has read but not yet
   stored in its cache.
   */
  datatype Fleet = Fleet(
    slots: map<RowKey, Slot>, caches: map<nat, map<BucketId, string>>, observed: set<(nat, BucketId, string)>)

  function SlotAt(f: Fleet, b: BucketId): Slot {
    if RowKeyOf(b) in f.slots then f.slots[RowKeyOf(b)] else Slot(None, [])
  }

  function CacheOf(f: Fleet, process: nat): map<BucketId, string> {
    if process in f.caches then f.caches[process] else map[]
  }

  datatype FleetEvent =
    | Transacts(bucket: BucketId, tx: Tx)
    | Observes(process: nat, bucket: BucketId, range: TimeRange, after: Option<Cursor>, limit: nat)
    | Stores(process: nat, bucket: BucketId, key: string, kept: set<BucketId>)
    | Drops(process: nat, dropped: set<BucketId>)

  /** An uncached read that was routed to the archive remembers the key it saw. */
  function Observation(f: Fleet, ev: FleetEvent): set<(nat, BucketId, string)>
    requires ev.Observes?
  {
    match UncachedRead(SlotAt(f, ev.bucket), ev.range, ev.after, ev.limit)
    case Ok(Archive(key)) => {(ev.process, ev.bucket, key)}
    case _ => {}
  }

  predicate CanHappen(f: Fleet, ev: FleetEvent) {
    ev.Stores? ==> (ev.process, ev.bucket, ev.key) in f.observed
  }

  function Happen(f: Fleet, ev: FleetEvent): Fleet
    requires CanHappen(f, ev)
  {
    match ev
    case Transacts(b, tx) => f.(slots := f.slots[RowKeyOf(b) := After(SlotAt(f, b), tx)])
    case Observes(p, b, _, _, _) => f.(observed := f.observed + Observation(f, ev))
    case Stores(p, b, key, kept) =>
      var survivors := map d | d in CacheOf(f, p) && d in kept :: CacheOf(f, p)[d];
      f.(caches := f.caches[p := survivors[b := key]])
    case Drops(p, dropped) => f.(caches := f.caches[p := CacheOf(f, p) - dropped])
  }

  ghost predicate RoutedTo(f: Fleet, b: BucketId, key: string) {
    var slot := SlotAt(f, b);
    slot.row.Some? && slot.row.value.state == "archived" && slot.row.value.objectKey == Some(key)
  }

  /** Rows satisfy their constraints and every remembered route is the database's. */
  ghost predicate Coherent(f: Fleet) {
    && (forall k :: k in f.slots ==> SlotOk(f.slots[k]))
    && (forall p, b :: b in CacheOf(f, p) ==> RoutedTo(f, b, CacheOf(f, p)[b]))
    && (forall p, b, key :: (p, b, key) in f.observed ==> RoutedTo(f, b, key))
  }

  /** No transaction changes or removes a published route. */
  lemma PublishedRouteIsFinal(slot: Slot, tx: Tx)
    requires SlotOk(slot) && slot.row.Some? && slot.row.value.state == "archived"
    ensures After(slot, tx).row.Some? && After(slot, tx).row.value.state == "archived"
    ensures After(slot, tx).row.value.objectKey == slot.row.value.objectKey
  {
  }

  lemma SlotAtOk(f: Fleet, b: BucketId)
    requires Coherent(f)
    ensures SlotOk(SlotAt(f, b))
  {
  }

  lemma TransactsKeepsRoute(f: Fleet, b: BucketId, tx: Tx, d: BucketId, key: string)
    requires Coherent(f) && RoutedTo(f, d, key)
    ensures RoutedTo(Happen(f, Transacts(b, tx)), d, key)
  {
    SlotAtOk(f, b);
    if RowKeyOf(d) == RowKeyOf(b) { PublishedRouteIsFinal(SlotAt(f, b), tx); }
  }

  lemma TransactsKeepsCoherent(f: Fleet, b: BucketId, tx: Tx)
    requires Coherent(f)
    ensures Coherent(Happen(f, Transacts(b, tx)))
  {
    var f' := Happen(f, Transacts(b, tx));
    SlotAtOk(f, b);
    TransactKeepsChecks(SlotAt(f, b), tx);
    forall p, d | d in CacheOf(f', p) ensures RoutedTo(f', d, CacheOf(f', p)[d]) {
      assert CacheOf(f', p) == CacheOf(f, p);
      TransactsKeepsRoute(f, b, tx, d, CacheOf(f, p)[d]);
    }
    forall p, d, key | (p, d, key) in f'.observed ensures RoutedTo(f', d, key) {
      TransactsKeepsRoute(f, b, tx, d, key);
    }
  }

  lemma ObservesKeepsCoherent(f: Fleet, ev: FleetEvent)
    requires Coherent(f) && ev.Observes?
    ensures Coherent(Happen(f, ev))
  {
    var f' := Happen(f, ev);
    assert forall b, key :: RoutedTo(f', b, key) == RoutedTo(f, b, key);
    forall p, d, key | (p, d, key) in f'.observed ensures RoutedTo(f', d, key) {
      if (p, d, key) !in f.observed { assert (p, d, key) in Observation(f, ev); }
    }
    forall p, d | d in CacheOf(f', p) ensures RoutedTo(f', d, CacheOf(f', p)[d]) {
      assert CacheOf(f', p) == CacheOf(f, p);
    }
  }

  lemma CachesKeepCoherent(f: Fleet, ev: FleetEvent)
    requires Coherent(f) && CanHappen(f, ev) && (ev.Stores? || ev.Drops?)
    ensures Coherent(Happen(f, ev))
  {
    var f' := Happen(f, ev);
    assert forall b, key :: RoutedTo(f', b, key) == RoutedTo(f, b, key);
    forall p, d | d in CacheOf(f', p) ensures RoutedTo(f', d, CacheOf(f', p)[d]) {
      if ev.Stores? && p == ev.process && d == ev.bucket {
        assert (p, d, ev.key) in f.observed;
      } else {
        assert d in CacheOf(f, p) && CacheOf(f', p)[d] == CacheOf(f, p)[d];
      }
    }
  }

  lemma EventKeepsCoherent(f: Fleet, ev: FleetEvent)
    requires Coherent(f) && CanHappen(f, ev)
    ensures Coherent(Happen(f, ev))
  {
    match ev
    case Transacts(b, tx) => TransactsKeepsCoherent(f, b, tx);
    case Observes(_, _, _, _, _) => ObservesKeepsCoherent(f, ev);
    case Stores(_, _, _, _) => CachesKeepCoherent(f, ev);
    case Drops(_, _) => CachesKeepCoherent(f, ev);
  }

  ghost predicate Happening(fleet: seq<Fleet>, i: int)
    requires 0 <= i < |fleet| - 1
  {
    exists ev :: CanHappen(fleet[i], ev) && fleet[i + 1] == Happen(fleet[i], ev)
  }

  ghost predicate FleetRun(fleet: seq<Fleet>) {
    && fleet != [] && fleet[0] == Fleet(map[], map[], {})
    && forall i :: 0 <= i < |fleet| - 1 ==> Happening(fleet, i)
  }

  lemma {:induction false} RunIsCoherent(fleet: seq<Fleet>, i: nat)
    requires FleetRun(fleet) && i < |fleet|
    ensures Coherent(fleet[i])
  {
    if i > 0 {
      RunIsCoherent(fleet, i - 1);
      assert Happening(fleet, i - 1);
      var ev :| CanHappen(fleet[i - 1], ev) && fleet[i] == Happen(fleet[i - 1], ev);
      EventKeepsCoherent(fleet[i - 1], ev);
    }
  }

  /**
   A cache hit is never wrong: at any moment of any run, in any process, it is what the uncached
   statement would return for any range, cursor and limit.
   */
  lemma HitEqualsUncachedRead(
    fleet: seq<Fleet>, i: nat, process: nat, b: BucketId, range: TimeRange, after: Option<Cursor>, limit: nat)
    requires FleetRun(fleet) && i < |fleet| && b in CacheOf(fleet[i], process)
    ensures UncachedRead(SlotAt(fleet[i], b), range, after, limit) == Ok(Archive(CacheOf(fleet[i], process)[b]))
  {
    RunIsCoherent(fleet, i);
    assert RoutedTo(fleet[i], b, CacheOf(fleet[i], process)[b]);
  }
}
