/**
 The cutover over the stores themselves: calls to the in-memory store (src/ports/storage.rs) or
 transactions on CockroachDB rows (src/adapters/cockroach_durable.rs), with any clocks and leases, beside
 uploads to the archive. Every such deployment runs the protocol, so its theorems hold of the stores.
 */
module Deployment {
  import opened Common
  import opened Records
  import opened Tiling
  import opened Cutover
  import opened BucketStore
  import CockroachRows
  import RouteCache
  import MemoryArchive
  import Tables

  datatype HotStore =
    | Memory(entries: map<BucketId, Entry>)
    | Database(slots: map<RouteCache.RowKey, CockroachRows.Slot>)

  /** The hot store, and the protocol's record of objects, commitments and what callers were told. */
  datatype World = World(hot: HotStore, system: System)

  const EMPTY_SLOT := CockroachRows.Slot(None, [])

  function EntryIn(hot: HotStore, b: BucketId): Entry
    requires hot.Memory?
  {
    if b in hot.entries then hot.entries[b] else DEFAULT_ENTRY
  }

  function SlotIn(hot: HotStore, b: BucketId): CockroachRows.Slot
    requires hot.Database?
  {
    if RouteCache.RowKeyOf(b) in hot.slots then hot.slots[RouteCache.RowKeyOf(b)] else EMPTY_SLOT
  }

  ghost predicate Sound(hot: HotStore) {
    match hot
    case Memory(entries) => forall b :: b in entries ==> Sorted(entries[b].records)
    case Database(slots) => forall k :: k in slots ==> CockroachRows.SlotOk(slots[k])
  }

  /** What the store holds of a bucket, as the protocol sees it. */
  ghost function Core(hot: HotStore, b: BucketId): Bucket
    requires Sound(hot)
  {
    match hot
    case Memory(_) => CoreOf(EntryIn(hot, b))
    case Database(_) => CockroachRows.CoreOfSlot(SlotIn(hot, b))
  }

  // ----- deeds -----

  datatype Deed =
    | MemoryCall(bucket: BucketId, call: Call)
    | RowTransaction(bucket: BucketId, tx: CockroachRows.Tx)
    | ArchivePut(session: Session, records: seq<Record>)

  function OnCall(e: Entry, b: BucketId, call: Call): Option<Event> {
    if call.SnapshotCall? then
      if Perform(e, call).outcome.Ok? then Some(TakeSnapshot(call.session)) else None
    else match ActionOf(e, call)
      case Some(a) => Some(OnBucket(b, a))
      case None => None
  }

  function OnTransaction(slot: CockroachRows.Slot, b: BucketId, tx: CockroachRows.Tx): Option<Event> {
    if tx.SnapshotTx? then
      if CockroachRows.Transact(slot, tx).Ok? then Some(TakeSnapshot(tx.session)) else None
    else match CockroachRows.ActionOfTx(slot, tx)
      case Some(a) => Some(OnBucket(b, a))
      case None => None
  }

  /** Callers use sessions they were given, upload what a snapshot returned and publish what an upload returned. */
  ghost predicate Permitted(cfg: Config, w: World, deed: Deed) {
    match deed
    case MemoryCall(b, call) =>
      && w.hot.Memory? && b in cfg.buckets
      && (CallerOf(call).Some? ==> CallerOf(call).value in w.system.issued && CallerOf(call).value.bucket == b)
      && (call.PublishCall? ==> (call.session, call.key) in w.system.uploads)
    case RowTransaction(b, tx) =>
      && w.hot.Database? && b in cfg.buckets
      && (CockroachRows.SessionOf(tx).Some? ==>
            CockroachRows.SessionOf(tx).value in w.system.issued && CockroachRows.SessionOf(tx).value.bucket == b)
      && (tx.PublishTx? ==> (tx.session, tx.key) in w.system.uploads)
    case ArchivePut(s, rs) => (s, rs) in w.system.snapshots
  }

  function EventOf(w: World, deed: Deed): Option<Event> {
    match deed
    case MemoryCall(b, call) => if w.hot.Memory? then OnCall(EntryIn(w.hot, b), b, call) else None
    case RowTransaction(b, tx) => if w.hot.Database? then OnTransaction(SlotIn(w.hot, b), b, tx) else None
    case ArchivePut(s, rs) => Some(Upload(s, rs))
  }

  function StoreAfter(hot: HotStore, deed: Deed): HotStore {
    match deed
    case MemoryCall(b, call) =>
      if hot.Memory? then Memory(hot.entries[b := Perform(EntryIn(hot, b), call).entry]) else hot
    case RowTransaction(b, tx) =>
      if hot.Database? then Database(hot.slots[RouteCache.RowKeyOf(b) := CockroachRows.After(SlotIn(hot, b), tx)]) else hot
    case ArchivePut(_, _) => hot
  }

  /** The store answers by itself; the record follows what it did, and is unconstrained where the protocol would not allow that. */
  ghost predicate Does(cfg: Config, w: World, deed: Deed, w': World) {
    && Permitted(cfg, w, deed)
    && w'.hot == StoreAfter(w.hot, deed)
    && match EventOf(w, deed)
       case None => w'.system == w.system
       case Some(ev) => Accepted(w.system, ev) ==> w'.system == Occur(cfg, w.system, ev)
  }

  // ----- refinement -----

  /** Rows of different buckets have different primary keys. */
  ghost predicate RowsDistinct(cfg: Config) {
    forall b, c :: b in cfg.buckets && c in cfg.buckets && RouteCache.RowKeyOf(b) == RouteCache.RowKeyOf(c) ==> b == c
  }

  ghost predicate Linked(cfg: Config, w: World) {
    Sound(w.hot) && forall b :: b in cfg.buckets ==> Core(w.hot, b) == At(w.system, b)
  }

  lemma EmptyLinked(cfg: Config, hot: HotStore)
    requires hot == Memory(map[]) || hot == Database(map[])
    ensures Linked(cfg, World(hot, START))
  {
  }

  lemma CallIsAllowed(cfg: Config, w: World, b: BucketId, call: Call)
    requires Linked(cfg, w) && Permitted(cfg, w, MemoryCall(b, call))
    ensures var ev := OnCall(EntryIn(w.hot, b), b, call);
            && (ev.Some? ==> Allowed(cfg, w.system, ev.value))
            && (ev.Some? && ev.value.OnBucket? ==>
                  ev.value.bucket == b && CoreOf(Perform(EntryIn(w.hot, b), call).entry) == Act(At(w.system, b), ev.value.action))
            && (ev.None? || ev.value.TakeSnapshot? ==> CoreOf(Perform(EntryIn(w.hot, b), call).entry) == At(w.system, b))
            && Sorted(Perform(EntryIn(w.hot, b), call).entry.records)
  {
    var e := EntryIn(w.hot, b);
    assert CoreOf(e) == At(w.system, b);
    CallRefines(e, call);
  }

  lemma TransactionIsAllowed(cfg: Config, w: World, b: BucketId, tx: CockroachRows.Tx)
    requires Linked(cfg, w) && Permitted(cfg, w, RowTransaction(b, tx))
    ensures var (slot, ev) := (SlotIn(w.hot, b), OnTransaction(SlotIn(w.hot, b), b, tx));
            && CockroachRows.SlotOk(CockroachRows.After(slot, tx))
            && (ev.Some? ==> Allowed(cfg, w.system, ev.value))
            && (ev.Some? && ev.value.OnBucket? ==>
                  ev.value.bucket == b && CockroachRows.CoreOfSlot(CockroachRows.After(slot, tx)) == Act(At(w.system, b), ev.value.action))
            && (ev.None? || ev.value.TakeSnapshot? ==> CockroachRows.CoreOfSlot(CockroachRows.After(slot, tx)) == At(w.system, b))
  {
    var slot := SlotIn(w.hot, b);
    assert CockroachRows.CoreOfSlot(slot) == At(w.system, b);
    CockroachRows.TransactRefines(slot, tx);
    if tx.SnapshotTx? && CockroachRows.Transact(slot, tx).Ok? { CockroachRows.AnswersAreTrue(slot, tx); }
  }

  /** Every deed is a step of the protocol and leaves the store holding what the protocol says. */
  lemma DeedRefines(cfg: Config, w: World, deed: Deed, w': World)
    requires RowsDistinct(cfg) && Linked(cfg, w) && Does(cfg, w, deed, w')
    ensures Step(cfg, w.system, w'.system) && Linked(cfg, w')
  {
    match deed
    case MemoryCall(b, call) =>
      CallIsAllowed(cfg, w, b, call);
      LinkedAfter(cfg, w, deed, w', b);
    case RowTransaction(b, tx) =>
      TransactionIsAllowed(cfg, w, b, tx);
      LinkedAfter(cfg, w, deed, w', b);
    case ArchivePut(s, rs) =>
      assert Allowed(cfg, w.system, Upload(s, rs));
  }

  /** Only the bucket of the deed changes, in the store and in the protocol. */
  lemma LinkedAfter(cfg: Config, w: World, deed: Deed, w': World, b: BucketId)
    requires RowsDistinct(cfg) && Linked(cfg, w) && Does(cfg, w, deed, w') && !deed.ArchivePut? && deed.bucket == b
    requires Sound(w'.hot)
    requires EventOf(w, deed).Some? ==> Allowed(cfg, w.system, EventOf(w, deed).value)
    requires Core(w'.hot, b) == At(w'.system, b)
    ensures Step(cfg, w.system, w'.system) && Linked(cfg, w')
  {
    forall d | d in cfg.buckets ensures Core(w'.hot, d) == At(w'.system, d) {
      if d != b {
        assert Core(w'.hot, d) == Core(w.hot, d);
        assert At(w'.system, d) == At(w.system, d);
      }
    }
  }

  // ----- runs -----

  /** A deed, or nothing that the stores and the archive notice. */
  ghost predicate Moves(cfg: Config, w: World, w': World) {
    w' == w || exists deed :: Does(cfg, w, deed, w')
  }

  lemma MoveRefines(cfg: Config, w: World, w': World)
    requires RowsDistinct(cfg) && Linked(cfg, w) && Moves(cfg, w, w')
    ensures Step(cfg, w.system, w'.system) && Linked(cfg, w')
  {
    if w' != w {
      var deed :| Does(cfg, w, deed, w');
      DeedRefines(cfg, w, deed, w');
    }
  }

  ghost predicate DoesAt(cfg: Config, run: seq<World>, i: int)
    requires 0 <= i < |run| - 1
  {
    Moves(cfg, run[i], run[i + 1])
  }

  ghost predicate DeploymentRun(cfg: Config, run: seq<World>) {
    && run != [] && (run[0] == World(Memory(map[]), START) || run[0] == World(Database(map[]), START))
    && forall i :: 0 <= i < |run| - 1 ==> DoesAt(cfg, run, i)
  }

  function Protocol(run: seq<World>): (r: seq<System>)
    ensures |r| == |run| && forall i :: 0 <= i < |run| ==> r[i] == run[i].system
  {
    seq(|run|, i requires 0 <= i < |run| => run[i].system)
  }

  lemma {:induction false} RunLinked(cfg: Config, run: seq<World>, i: nat)
    requires RowsDistinct(cfg) && DeploymentRun(cfg, run) && i < |run|
    ensures Linked(cfg, run[i])
  {
    if i == 0 {
      EmptyLinked(cfg, run[0].hot);
    } else {
      RunLinked(cfg, run, i - 1);
      assert DoesAt(cfg, run, i - 1);
      MoveRefines(cfg, run[i - 1], run[i]);
    }
  }

  lemma RunIsProtocolRun(cfg: Config, run: seq<World>)
    requires RowsDistinct(cfg) && DeploymentRun(cfg, run)
    ensures Cutover.Run(cfg, Protocol(run))
  {
    var states := Protocol(run);
    forall i | 0 <= i < |states| - 1 ensures StepAt(cfg, states, i) {
      RunLinked(cfg, run, i);
      assert DoesAt(cfg, run, i);
      MoveRefines(cfg, run[i], run[i + 1]);
    }
  }

  /** What a reader finds: the object behind the published key, or the rows of the hot store. */
  ghost function Readable(w: World, b: BucketId): Option<seq<Record>>
    requires Sound(w.hot)
  {
    match Core(w.hot, b).state
    case Archived(key, _) => if key in w.system.objects then Some(w.system.objects[key].records) else None
    case _ => Some(Core(w.hot, b).records)
  }

  /**
   Over every run of calls or transactions, under any clocks, leases, crashes and stale retries, what a
   reader finds in either store or behind its published key is exactly the accepted appends in clustering order.
   */
  lemma StoresLoseNothing(cfg: Config, run: seq<World>, i: nat, b: BucketId)
    requires Fenced(cfg) && RowsDistinct(cfg) && DeploymentRun(cfg, run) && i < |run| && b in cfg.buckets
    ensures Sound(run[i].hot)
    ensures Readable(run[i], b) == Some(StableSort(LogOf(run[i].system, b)))
  {
    RunLinked(cfg, run, i);
    RunIsProtocolRun(cfg, run);
    NothingLost(cfg, Protocol(run), i, b);
  }

  /** The identities of table routing satisfy the condition on rows. */
  lemma CanonicalRowsDistinct(cfg: Config)
    requires cfg.buckets == MemoryArchive.CanonicalIds()
    ensures RowsDistinct(cfg)
  {
    forall b, c | b in cfg.buckets && c in cfg.buckets && RouteCache.RowKeyOf(b) == RouteCache.RowKeyOf(c) ensures b == c {
      Tables.CanonicalByKey(b, c);
    }
  }
}
