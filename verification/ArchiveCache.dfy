/** The byte-bounded least-recently-used cache of archive reads (src/adapters/immutable_archive_cache.rs). */
module ArchiveCache {
  import opened Common
  import opened Records
  import opened Tiling

  datatype CacheKey = CacheKey(bucket: BucketId, objectKey: string)

  datatype CacheEntry = CacheEntry(records: seq<Record>, estimatedBytes: nat, lastAccess: nat)

  datatype CacheState = CacheState(entries: map<CacheKey, CacheEntry>, usedBytes: nat)

  /** `recordSize` is the in-memory size of a record apart from its byte strings. */
  datatype Limits = Limits(maxBytes: nat, maxEntries: nat, recordSize: nat)

  function SaturatingAdd(a: nat, b: nat): nat {
    if a + b > USIZE_MAX then USIZE_MAX else a + b
  }

  function SaturatingSub(a: nat, b: nat): nat {
    if a < b then 0 else a - b
  }

  // ----- sizes -----

  function EstimatedSize(recordSize: nat, rs: seq<Record>): nat {
    if rs == [] then 0
    else
      var r := rs[|rs| - 1];
      SaturatingAdd(SaturatingAdd(SaturatingAdd(SaturatingAdd(EstimatedSize(recordSize, rs[..|rs| - 1]),
        recordSize), |r.partitionKey|), |r.sortKey|), |r.value|)
  }

  function TrueSize(recordSize: nat, rs: seq<Record>): nat {
    if rs == [] then 0
    else
      var r := rs[|rs| - 1];
      TrueSize(recordSize, rs[..|rs| - 1]) + recordSize + |r.partitionKey| + |r.sortKey| + |r.value|
  }

  /** Saturating step by step is the same as capping the true size once. */
  lemma {:induction false} EstimateIsCapped(recordSize: nat, rs: seq<Record>)
    ensures EstimatedSize(recordSize, rs) == if TrueSize(recordSize, rs) > USIZE_MAX then USIZE_MAX else TrueSize(recordSize, rs)
  {
    if rs != [] { EstimateIsCapped(recordSize, rs[..|rs| - 1]); }
  }

  ghost function Total(entries: map<CacheKey, CacheEntry>): nat
    decreases |entries|
  {
    if entries == map[] then 0
    else
      var k :| k in entries;
      SizeWithout(entries, k);
      entries[k].estimatedBytes + Total(entries - {k})
  }

  lemma {:induction false} TotalWithout(entries: map<CacheKey, CacheEntry>, k: CacheKey)
    requires k in entries
    ensures Total(entries) == entries[k].estimatedBytes + Total(entries - {k})
    decreases |entries|
  {
    var c :| c in entries && Total(entries) == entries[c].estimatedBytes + Total(entries - {c});
    if c != k {
      SizeWithout(entries, c);
      TotalWithout(entries - {c}, k);
      SizeWithout(entries, k);
      TotalWithout(entries - {k}, c);
      assert entries - {c} - {k} == entries - {k} - {c};
    }
  }

  // ----- eviction -----

  function Remove(s: CacheState, key: CacheKey): CacheState {
    if key in s.entries then CacheState(s.entries - {key}, SaturatingSub(s.usedBytes, s.entries[key].estimatedBytes)) else s
  }

  predicate Full(limits: Limits, s: CacheState, need: nat) {
    |s.entries| >= limits.maxEntries || SaturatingAdd(s.usedBytes, need) > limits.maxBytes
  }

  ghost predicate IsOldest(entries: map<CacheKey, CacheEntry>, k: CacheKey) {
    k in entries && forall d :: d in entries ==> entries[k].lastAccess <= entries[d].lastAccess
  }

  lemma {:induction false} SomeOldest(entries: map<CacheKey, CacheEntry>)
    requires entries != map[]
    ensures exists k :: IsOldest(entries, k)
    decreases |entries|
  {
    var k :| k in entries;
    if entries - {k} == map[] {
      forall d | d in entries ensures d == k { assert d in entries - {k} || d == k; }
      assert IsOldest(entries, k);
    } else {
      SizeWithout(entries, k);
      SomeOldest(entries - {k});
      var d :| IsOldest(entries - {k}, d);
      var least := if entries[k].lastAccess < entries[d].lastAccess then k else d;
      forall c | c in entries ensures entries[least].lastAccess <= entries[c].lastAccess { assert c == k || c in entries - {k}; }
      assert IsOldest(entries, least);
    }
  }

  ghost function Oldest(entries: map<CacheKey, CacheEntry>): (k: CacheKey)
    requires entries != map[]
    ensures IsOldest(entries, k)
  {
    SomeOldest(entries);
    var k :| IsOldest(entries, k);
    k
  }

  ghost predicate DistinctAccesses(entries: map<CacheKey, CacheEntry>) {
    forall a, b :: a in entries && b in entries && entries[a].lastAccess == entries[b].lastAccess ==> a == b
  }

  /** The state after evicting the least recently used entries until `need` more bytes fit. */
  ghost function MakeRoom(limits: Limits, s: CacheState, need: nat): CacheState
    decreases |s.entries|
  {
    if !Full(limits, s, need) || s.entries == map[] then s
    else
      SizeWithout(s.entries, Oldest(s.entries));
      MakeRoom(limits, Remove(s, Oldest(s.entries)), need)
  }

  ghost function Inserted(limits: Limits, s: CacheState, key: CacheKey, rs: seq<Record>, access: nat): CacheState {
    var need := EstimatedSize(limits.recordSize, rs);
    if limits.maxBytes == 0 || limits.maxEntries == 0 || need > limits.maxBytes then s
    else
      var room := MakeRoom(limits, Remove(s, key), need);
      CacheState(room.entries[key := CacheEntry(rs, need, access)], SaturatingAdd(room.usedBytes, need))
  }

  // ----- what eviction keeps -----

  ghost predicate Counted(s: CacheState) {
    s.usedBytes == Total(s.entries)
  }

  /** The bytes in use are the sum of the entry sizes, and both limits hold. */
  ghost predicate Accounted(limits: Limits, s: CacheState) {
    Counted(s) && |s.entries| <= limits.maxEntries && s.usedBytes <= limits.maxBytes
  }

  lemma RemoveCounts(s: CacheState, key: CacheKey)
    requires Counted(s)
    ensures Counted(Remove(s, key)) && |Remove(s, key).entries| <= |s.entries| && Remove(s, key).usedBytes <= s.usedBytes
  {
    if key in s.entries {
      TotalWithout(s.entries, key);
      SizeWithout(s.entries, key);
    }
  }

  /** The eviction loop ends with room for the new entry. */
  lemma {:induction false} RoomIsMade(limits: Limits, s: CacheState, need: nat)
    requires Counted(s) && limits.maxEntries > 0 && need <= limits.maxBytes && need <= USIZE_MAX
    ensures Counted(MakeRoom(limits, s, need)) && !Full(limits, MakeRoom(limits, s, need), need)
    decreases |s.entries|
  {
    if Full(limits, s, need) && s.entries != map[] {
      SizeWithout(s.entries, Oldest(s.entries));
      RemoveCounts(s, Oldest(s.entries));
      RoomIsMade(limits, Remove(s, Oldest(s.entries)), need);
    }
  }

  /** Evicted entries are older than every survivor, and survivors are unchanged. */
  lemma {:induction false} EvictedAreOlder(limits: Limits, s: CacheState, need: nat, gone: CacheKey, kept: CacheKey)
    requires DistinctAccesses(s.entries)
    requires gone in s.entries && gone !in MakeRoom(limits, s, need).entries && kept in MakeRoom(limits, s, need).entries
    ensures kept in s.entries && MakeRoom(limits, s, need).entries[kept] == s.entries[kept]
    ensures s.entries[gone].lastAccess < s.entries[kept].lastAccess
    decreases |s.entries|
  {
    var k := Oldest(s.entries);
    SizeWithout(s.entries, k);
    SurvivorsAreUnchanged(limits, Remove(s, k), need, kept);
    if gone != k { EvictedAreOlder(limits, Remove(s, k), need, gone, kept); }
  }

  lemma {:induction false} SurvivorsAreUnchanged(limits: Limits, s: CacheState, need: nat, kept: CacheKey)
    requires kept in MakeRoom(limits, s, need).entries
    ensures kept in s.entries && MakeRoom(limits, s, need).entries[kept] == s.entries[kept]
    decreases |s.entries|
  {
    if Full(limits, s, need) && s.entries != map[] {
      SizeWithout(s.entries, Oldest(s.entries));
      SurvivorsAreUnchanged(limits, Remove(s, Oldest(s.entries)), need, kept);
    }
  }

  /** Nothing is evicted in vain: with the youngest evicted entry still there the new one would not fit. */
  lemma {:induction false} EvictionIsMinimal(limits: Limits, s: CacheState, need: nat) returns (last: CacheState)
    requires Counted(s) && MakeRoom(limits, s, need) != s
    ensures Counted(last) && Full(limits, last, need) && last.entries != map[]
    ensures MakeRoom(limits, s, need) == Remove(last, Oldest(last.entries))
    ensures forall k :: k in last.entries ==> k in s.entries && last.entries[k] == s.entries[k]
    decreases |s.entries|
  {
    var next := Remove(s, Oldest(s.entries));
    SizeWithout(s.entries, Oldest(s.entries));
    RemoveCounts(s, Oldest(s.entries));
    if MakeRoom(limits, next, need) == next {
      last := s;
    } else {
      last := EvictionIsMinimal(limits, next, need);
    }
  }

  /**
   The new entry fits the address space beside the ones that are cached. Counted bytes are live
   allocations of one process, so this holds of every insertion that can happen.
   */
  ghost predicate FitsMemory(limits: Limits, s: CacheState, rs: seq<Record>) {
    Total(s.entries) + TrueSize(limits.recordSize, rs) <= USIZE_MAX
  }

  /** Whatever the limits, an insertion keeps the books: no addition saturates and both limits hold. */
  lemma InsertAccounts(limits: Limits, s: CacheState, key: CacheKey, rs: seq<Record>, access: nat)
    requires Accounted(limits, s) && FitsMemory(limits, s, rs)
    ensures Accounted(limits, Inserted(limits, s, key, rs, access))
  {
    var need := EstimatedSize(limits.recordSize, rs);
    EstimateIsCapped(limits.recordSize, rs);
    if limits.maxBytes > 0 && limits.maxEntries > 0 && need <= limits.maxBytes {
      RemoveCounts(s, key);
      RoomIsMade(limits, Remove(s, key), need);
      RoomOnlyShrinks(limits, Remove(s, key), need);
      var room := MakeRoom(limits, Remove(s, key), need);
      if key in room.entries { SurvivorsAreUnchanged(limits, Remove(s, key), need, key); }
      assert key !in room.entries;
      var e := CacheEntry(rs, need, access);
      SizeWith(room.entries, key, e);
      TotalWithout(room.entries[key := e], key);
      assert room.entries[key := e] - {key} == room.entries;
    }
  }

  lemma {:induction false} RoomOnlyShrinks(limits: Limits, s: CacheState, need: nat)
    requires Counted(s)
    ensures MakeRoom(limits, s, need).usedBytes <= s.usedBytes
    decreases |s.entries|
  {
    if Full(limits, s, need) && s.entries != map[] {
      SizeWithout(s.entries, Oldest(s.entries));
      RemoveCounts(s, Oldest(s.entries));
      RoomOnlyShrinks(limits, Remove(s, Oldest(s.entries)), need);
    }
  }

  // ----- the cache object -----

  class ImmutableArchiveCache {
    var entries: map<CacheKey, CacheEntry>
    var usedBytes: nat
    var nextAccess: nat
    const limits: Limits

    ghost function State(): CacheState
      reads this
    {
      CacheState(entries, usedBytes)
    }

    /** Access numbers are handed out once, so entries never share one. */
    ghost predicate Valid()
      reads this
    {
      DistinctAccesses(entries) && forall k :: k in entries ==> entries[k].lastAccess < nextAccess
    }

    constructor (limits: Limits)
      ensures Valid() && this.limits == limits && State() == CacheState(map[], 0)
    {
      this.limits := limits;
      entries, usedBytes, nextAccess := map[], 0, 0;
    }

    method GetCached(key: CacheKey) returns (hit: Option<seq<Record>>)
      requires Valid()
      modifies this
      ensures Valid() && nextAccess == old(nextAccess) + 1
      ensures State() == Touch(old(State()), key, old(nextAccess))
      ensures hit == if key in old(entries) then Some(old(entries)[key].records) else None
    {
      var access := nextAccess;
      nextAccess := nextAccess + 1;
      if key !in entries {
        return None;
      }
      entries := entries[key := entries[key].(lastAccess := access)];
      hit := Some(entries[key].records);
    }

    method RemoveEntry(key: CacheKey)
      requires Valid()
      modifies `entries, `usedBytes
      ensures Valid() && State() == Remove(old(State()), key)
    {
      if key in entries {
        usedBytes := SaturatingSub(usedBytes, entries[key].estimatedBytes);
        entries := entries - {key};
      }
    }

    method LeastRecentlyUsed() returns (oldest: CacheKey)
      requires Valid() && entries != map[]
      ensures oldest == Oldest(entries)
    {
      var unseen := entries.Keys;
      oldest :| oldest in entries;
      while unseen != {}
        invariant unseen <= entries.Keys && oldest in entries
        invariant forall d :: d in entries.Keys - unseen ==> entries[oldest].lastAccess <= entries[d].lastAccess
      {
        var d :| d in unseen;
        if entries[d].lastAccess < entries[oldest].lastAccess {
          oldest := d;
        }
        unseen := unseen - {d};
      }
      assert entries[Oldest(entries)].lastAccess == entries[oldest].lastAccess;
    }

    method CacheRecords(key: CacheKey, records: seq<Record>)
      requires Valid()
      modifies this
      ensures Valid() && State() == Inserted(limits, old(State()), key, records, old(nextAccess))
    {
      if limits.maxBytes == 0 || limits.maxEntries == 0 {
        return;
      }
      var estimatedBytes := EstimatedSize(limits.recordSize, records);
      if estimatedBytes > limits.maxBytes {
        return;
      }
      var access := nextAccess;
      nextAccess := nextAccess + 1;
      RemoveEntry(key);
      ghost var start := State();
      while |entries| >= limits.maxEntries || SaturatingAdd(usedBytes, estimatedBytes) > limits.maxBytes
        invariant Valid() && nextAccess == access + 1 && (forall k :: k in entries ==> entries[k].lastAccess < access)
        invariant MakeRoom(limits, State(), estimatedBytes) == MakeRoom(limits, start, estimatedBytes)
        decreases |entries|
      {
        if entries == map[] {
          break;
        }
        var evictionKey := LeastRecentlyUsed();
        SizeWithout(entries, evictionKey);
        RemoveEntry(evictionKey);
      }
      usedBytes := SaturatingAdd(usedBytes, estimatedBytes);
      entries := entries[key := CacheEntry(records, estimatedBytes, access)];
    }

    method Invalidate(key: CacheKey)
      requires Valid()
      modifies this
      ensures Valid() && State() == Remove(old(State()), key)
    {
      RemoveEntry(key);
    }

    /** A read through the cache; `reply` is what the inner store would answer now. */
    method GetBucket<E>(key: CacheKey, reply: Result<seq<Record>, E>) returns (r: Result<seq<Record>, E>)
      requires Valid()
      modifies this
      ensures Valid()
      ensures r == if key in old(entries) then Ok(old(entries)[key].records) else reply
      ensures key in old(entries) ==> State() == Touch(old(State()), key, old(nextAccess))
      ensures key !in old(entries) && reply.Err? ==> State() == old(State())
      ensures key !in old(entries) && reply.Ok? ==> State() == Inserted(limits, old(State()), key, reply.value, old(nextAccess) + 1)
    {
      var hit := GetCached(key);
      if hit.Some? {
        return Ok(hit.value);
      }
      if reply.Ok? {
        CacheRecords(key, reply.value);
      }
      r := reply;
    }
  }

  function Touch(s: CacheState, key: CacheKey, access: nat): CacheState {
    if key in s.entries then s.(entries := s.entries[key := s.entries[key].(lastAccess := access)]) else s
  }

  // ----- every interleaving of callers -----

  /** The cache, the next access number, and the numbers drawn by callers that do not hold the lock yet. */
  datatype World = World(cache: CacheState, next: nat, drawn: set<nat>)

  datatype Event =
    | Draw
    | Look(key: CacheKey, access: nat)
    | Store(key: CacheKey, records: seq<Record>, access: nat)
    | Invalidate(key: CacheKey)

  /** `truth` is what the immutable inner store holds under each key; only its successful reads are stored. */
  predicate Can(truth: CacheKey -> seq<Record>, w: World, ev: Event) {
    match ev
    case Draw => true
    case Look(_, access) => access in w.drawn
    case Store(key, records, access) => access in w.drawn && records == truth(key)
    case Invalidate(_) => true
  }

  ghost function Next(limits: Limits, w: World, ev: Event): World {
    match ev
    case Draw => w.(next := w.next + 1, drawn := w.drawn + {w.next})
    case Look(key, access) => w.(cache := Touch(w.cache, key, access), drawn := w.drawn - {access})
    case Store(key, records, access) => w.(cache := Inserted(limits, w.cache, key, records, access), drawn := w.drawn - {access})
    case Invalidate(key) => w.(cache := Remove(w.cache, key))
  }

  ghost predicate Moves(limits: Limits, truth: CacheKey -> seq<Record>, run: seq<World>, i: int)
    requires 0 <= i < |run| - 1
  {
    exists ev :: Can(truth, run[i], ev) && run[i + 1] == Next(limits, run[i], ev)
  }

  ghost predicate Run(limits: Limits, truth: CacheKey -> seq<Record>, run: seq<World>) {
    && run != [] && run[0] == World(CacheState(map[], 0), 0, {})
    && forall i :: 0 <= i < |run| - 1 ==> Moves(limits, truth, run, i)
  }

  ghost predicate Tickets(w: World) {
    && DistinctAccesses(w.cache.entries)
    && (forall k :: k in w.cache.entries ==> w.cache.entries[k].lastAccess < w.next && w.cache.entries[k].lastAccess !in w.drawn)
    && (forall a :: a in w.drawn ==> a < w.next)
  }

  ghost predicate Truthful(truth: CacheKey -> seq<Record>, s: CacheState) {
    forall k :: k in s.entries ==> s.entries[k].records == truth(k)
  }

  lemma TouchCounts(s: CacheState, key: CacheKey, access: nat)
    ensures Total(Touch(s, key, access).entries) == Total(s.entries) && |Touch(s, key, access).entries| == |s.entries|
  {
    if key in s.entries {
      var t := Touch(s, key, access).entries;
      TotalWithout(s.entries, key);
      TotalWithout(t, key);
      assert t - {key} == s.entries - {key};
      SizeWith(s.entries, key, t[key]);
    }
  }

  /** Entries of a cache after an insert: the new one, or unchanged old ones. */
  lemma InsertedEntries(limits: Limits, s: CacheState, key: CacheKey, rs: seq<Record>, access: nat, k: CacheKey)
    requires k in Inserted(limits, s, key, rs, access).entries
    ensures var e := Inserted(limits, s, key, rs, access).entries[k];
            (k in s.entries && e == s.entries[k] && (k == key ==> Inserted(limits, s, key, rs, access) == s))
            || (k == key && e.records == rs && e.lastAccess == access)
  {
    var need := EstimatedSize(limits.recordSize, rs);
    if Inserted(limits, s, key, rs, access) != s && k != key { SurvivorsAreUnchanged(limits, Remove(s, key), need, k); }
  }

  lemma EventKeepsTickets(limits: Limits, truth: CacheKey -> seq<Record>, w: World, ev: Event)
    requires Tickets(w) && Truthful(truth, w.cache) && Can(truth, w, ev)
    ensures Tickets(Next(limits, w, ev)) && Truthful(truth, Next(limits, w, ev).cache)
  {
    if ev.Store? {
      forall k | k in Next(limits, w, ev).cache.entries
        ensures var e := Next(limits, w, ev).cache.entries[k];
                (k in w.cache.entries && e == w.cache.entries[k]) || (k == ev.key && e.records == truth(k) && e.lastAccess == ev.access)
      {
        InsertedEntries(limits, w.cache, ev.key, ev.records, ev.access, k);
      }
    }
  }

  /** A stored read fits in memory beside what is cached. */
  ghost predicate Fits(limits: Limits, w: World, ev: Event) {
    ev.Store? ==> FitsMemory(limits, w.cache, ev.records)
  }

  lemma EventAccounts(limits: Limits, w: World, ev: Event)
    requires Fits(limits, w, ev) && Accounted(limits, w.cache)
    ensures Accounted(limits, Next(limits, w, ev).cache)
  {
    match ev
    case Draw =>
    case Look(key, access) => TouchCounts(w.cache, key, access);
    case Store(key, rs, access) => InsertAccounts(limits, w.cache, key, rs, access);
    case Invalidate(key) => RemoveCounts(w.cache, key);
  }

  /** A hit in any interleaving returns what the inner store holds. */
  lemma {:induction false} HitsAreTrue(limits: Limits, truth: CacheKey -> seq<Record>, run: seq<World>, i: nat)
    requires Run(limits, truth, run) && i < |run|
    ensures Tickets(run[i]) && Truthful(truth, run[i].cache)
  {
    if i > 0 {
      HitsAreTrue(limits, truth, run, i - 1);
      assert Moves(limits, truth, run, i - 1);
      var ev :| Can(truth, run[i - 1], ev) && run[i] == Next(limits, run[i - 1], ev);
      EventKeepsTickets(limits, truth, run[i - 1], ev);
    }
  }

  ghost predicate MovesInMemory(limits: Limits, truth: CacheKey -> seq<Record>, run: seq<World>, i: int)
    requires 0 <= i < |run| - 1
  {
    exists ev :: Can(truth, run[i], ev) && Fits(limits, run[i], ev) && run[i + 1] == Next(limits, run[i], ev)
  }

  /** A run of one process: at every insertion the cached and the new records are live at once. */
  ghost predicate MemoryRun(limits: Limits, truth: CacheKey -> seq<Record>, run: seq<World>) {
    && run != [] && run[0] == World(CacheState(map[], 0), 0, {})
    && forall i :: 0 <= i < |run| - 1 ==> MovesInMemory(limits, truth, run, i)
  }

  /** For all limits and every interleaving, the byte count is the sum of the entry sizes and both limits hold. */
  lemma {:induction false} RunsAccount(limits: Limits, truth: CacheKey -> seq<Record>, run: seq<World>, i: nat)
    requires MemoryRun(limits, truth, run) && i < |run|
    ensures Accounted(limits, run[i].cache)
  {
    if i > 0 {
      RunsAccount(limits, truth, run, i - 1);
      assert MovesInMemory(limits, truth, run, i - 1);
      var ev :| Can(truth, run[i - 1], ev) && Fits(limits, run[i - 1], ev) && run[i] == Next(limits, run[i - 1], ev);
      EventAccounts(limits, run[i - 1], ev);
    }
  }
}
