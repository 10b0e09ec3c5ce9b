/**
 The pieces joined: paging over a CockroachDB deployment, whose primary key gives unique clustering keys,
 and reads of published buckets through the object store (src/adapters/cockroach_durable.rs,
 src/adapters/opendal_store.rs, src/application/durable_table.rs).
 */
module EndToEnd {
  import opened Common
  import opened Records
  import opened Tiling
  import opened Tables
  import opened Cutover
  import opened BucketStore
  import opened MemoryArchive
  import opened TableRead
  import opened Paging
  import opened Deployment
  import CockroachRows
  import Fencing
  import ArchiveKeys
  import ArchiveObjects

  // ----- appends by `DurableTable::append` -----

  /** Records are in the bucket of their own partition and instant. */
  ghost predicate WellRouted(sys: System) {
    forall b :: AllBelong(b, LogOf(sys, b))
  }

  /** The record and the bucket of an append. */
  function AppendOf(deed: Deed): Option<(BucketId, Record)> {
    match deed
    case MemoryCall(b, AppendCall(r)) => Some((b, r))
    case RowTransaction(b, AppendTx(r, _)) => Some((b, r))
    case _ => None
  }

  /** An append goes to the bucket that the table's routing gives for the record. */
  predicate RoutedDeed(deed: Deed) {
    AppendOf(deed).Some? ==>
      var (b, r) := AppendOf(deed).value;
      b == BucketFor(Table(b.tableId, b.strategy, 1), r.partitionKey, r.eventTime)
  }

  ghost predicate RoutedMoves(cfg: Config, w: World, w': World) {
    w' == w || exists deed :: Does(cfg, w, deed, w') && RoutedDeed(deed)
  }

  ghost predicate RoutedAt(cfg: Config, run: seq<World>, i: int)
    requires 0 <= i < |run| - 1
  {
    RoutedMoves(cfg, run[i], run[i + 1])
  }

  /** A run of a deployment whose appends all come through table routing. */
  ghost predicate RoutedRun(cfg: Config, run: seq<World>) {
    DeploymentRun(cfg, run) && forall i :: 0 <= i < |run| - 1 ==> RoutedAt(cfg, run, i)
  }

  lemma RoutedBelongs(deed: Deed)
    requires RoutedDeed(deed) && AppendOf(deed).Some?
    ensures BelongsTo(AppendOf(deed).value.0, AppendOf(deed).value.1)
  {
    var (b, r) := AppendOf(deed).value;
    CalendarTiles(Table(b.tableId, b.strategy, 1), r.partitionKey);
    assert Contains(Bucketing(Table(b.tableId, b.strategy, 1), r.partitionKey)(r.eventTime), r.eventTime);
  }

  /** Only appends add to the log, and each adds its own record to its own bucket. */
  lemma OnlyAppendsAppend(w: World, deed: Deed)
    requires EventOf(w, deed).Some? && EventOf(w, deed).value.OnBucket? && EventOf(w, deed).value.action.Append?
    ensures AppendOf(deed) == Some((EventOf(w, deed).value.bucket, EventOf(w, deed).value.action.record))
    ensures deed.RowTransaction? ==> w.hot.Database? && CockroachRows.Transact(SlotIn(w.hot, deed.bucket), deed.tx).Ok?
  {
  }

  lemma RoutedStep(cfg: Config, w: World, w': World)
    requires Linked(cfg, w) && RoutedMoves(cfg, w, w') && WellRouted(w.system)
    ensures WellRouted(w'.system)
  {
    if w' != w {
      var deed :| Does(cfg, w, deed, w') && RoutedDeed(deed);
      forall b ensures AllBelong(b, LogOf(w'.system, b)) { RoutedLog(cfg, w, deed, w', b); }
    }
  }

  lemma RoutedLog(cfg: Config, w: World, deed: Deed, w': World, b: BucketId)
    requires Linked(cfg, w) && Does(cfg, w, deed, w') && RoutedDeed(deed) && AllBelong(b, LogOf(w.system, b))
    ensures AllBelong(b, LogOf(w'.system, b))
  {
    if EventOf(w, deed).Some? {
      EventIsAllowed(cfg, w, deed);
      AppendIsRouted(w, deed);
      EventBelongs(cfg, w.system, EventOf(w, deed).value, b);
    }
  }

  lemma AppendIsRouted(w: World, deed: Deed)
    requires RoutedDeed(deed) && EventOf(w, deed).Some?
    ensures var ev := EventOf(w, deed).value;
            ev.OnBucket? && ev.action.Append? ==> BelongsTo(ev.bucket, ev.action.record)
  {
    var ev := EventOf(w, deed).value;
    if ev.OnBucket? && ev.action.Append? {
      OnlyAppendsAppend(w, deed);
      RoutedBelongs(deed);
    }
  }

  lemma EventBelongs(cfg: Config, sys: System, ev: Event, b: BucketId)
    requires Allowed(cfg, sys, ev) && AllBelong(b, LogOf(sys, b))
    requires ev.OnBucket? && ev.action.Append? ==> BelongsTo(ev.bucket, ev.action.record)
    ensures AllBelong(b, LogOf(Occur(cfg, sys, ev), b))
  {
    Fencing.OccurFacts(cfg, sys, ev, b);
  }

  lemma {:induction false} RoutedRunBelongs(cfg: Config, run: seq<World>, i: nat)
    requires RowsDistinct(cfg) && RoutedRun(cfg, run) && i < |run|
    ensures WellRouted(run[i].system)
  {
    if i > 0 {
      RoutedRunBelongs(cfg, run, i - 1);
      RunLinked(cfg, run, i - 1);
      assert RoutedAt(cfg, run, i - 1);
      RoutedStep(cfg, run[i - 1], run[i]);
    }
  }

  // ----- unique keys from the primary key -----

  lemma KeepsKind(hot: HotStore, deed: Deed)
    ensures StoreAfter(hot, deed).Database? == hot.Database?
  {
  }

  lemma DoesKeepsKind(cfg: Config, w: World, w': World)
    requires Moves(cfg, w, w')
    ensures w'.hot.Database? == w.hot.Database?
  {
    if w' != w {
      var deed :| Does(cfg, w, deed, w');
      KeepsKind(w.hot, deed);
    }
  }

  lemma {:induction false} StaysDatabase(cfg: Config, run: seq<World>, i: nat)
    requires DeploymentRun(cfg, run) && run[0].hot.Database? && i < |run|
    ensures run[i].hot.Database?
  {
    if i > 0 {
      StaysDatabase(cfg, run, i - 1);
      assert DoesAt(cfg, run, i - 1);
      DoesKeepsKind(cfg, run[i - 1], run[i]);
    }
  }

  ghost predicate LogFollows(sys: System, sys': System, b: BucketId) {
    || LogOf(sys', b) == LogOf(sys, b)
    || exists r :: LogOf(sys', b) == LogOf(sys, b) + [r] && !CockroachRows.HasKey(Expected(sys, b), CursorOf(r))
  }

  /** A committed row append adds a key the bucket does not have yet; nothing else adds to the log. */
  lemma LogStep(cfg: Config, w: World, deed: Deed, w': World, b: BucketId)
    requires RowsDistinct(cfg) && Linked(cfg, w) && w.hot.Database? && Does(cfg, w, deed, w')
    requires At(w.system, b).state.Hot? ==> At(w.system, b).records == Expected(w.system, b)
    ensures LogFollows(w.system, w'.system, b)
  {
    var ev := EventOf(w, deed);
    if ev.Some? {
      EventIsAllowed(cfg, w, deed);
      Fencing.OccurFacts(cfg, w.system, ev.value, b);
      if ev.value.OnBucket? && ev.value.bucket == b && ev.value.action.Append? {
        OnlyAppendsAppend(w, deed);
        assert deed.RowTransaction? by { assert Permitted(cfg, w, deed); }
        AppendedIsNew(cfg, w, b, deed.tx);
      }
    }
  }

  lemma EventIsAllowed(cfg: Config, w: World, deed: Deed)
    requires Linked(cfg, w) && Permitted(cfg, w, deed) && EventOf(w, deed).Some?
    ensures Allowed(cfg, w.system, EventOf(w, deed).value)
  {
    match deed
    case MemoryCall(b, call) => CallIsAllowed(cfg, w, b, call);
    case RowTransaction(b, tx) => TransactionIsAllowed(cfg, w, b, tx);
    case ArchivePut(_, _) =>
  }

  lemma AppendedIsNew(cfg: Config, w: World, b: BucketId, tx: CockroachRows.Tx)
    requires Linked(cfg, w) && w.hot.Database? && b in cfg.buckets && tx.AppendTx?
    requires CockroachRows.Transact(SlotIn(w.hot, b), tx).Ok?
    requires At(w.system, b).state.Hot? ==> At(w.system, b).records == Expected(w.system, b)
    ensures !CockroachRows.HasKey(Expected(w.system, b), CursorOf(tx.record))
  {
    assert CockroachRows.CoreOfSlot(SlotIn(w.hot, b)) == At(w.system, b);
  }

  lemma UniqueAfterPush(log: seq<Record>, r: Record)
    requires UniqueKeys(log) && !CockroachRows.HasKey(StableSort(log), CursorOf(r))
    ensures UniqueKeys(log + [r])
  {
    SortSameElements(log);
    forall i | 0 <= i < |log| ensures CursorOf(log[i]) != CursorOf(r) {
      assert log[i] in log;
      var j :| 0 <= j < |StableSort(log)| && StableSort(log)[j] == log[i];
    }
  }

  /** In every run of a database deployment no bucket ever commits two records with one key. */
  lemma {:induction false} DatabaseKeysUnique(cfg: Config, run: seq<World>, i: nat, b: BucketId)
    requires Fenced(cfg) && RowsDistinct(cfg) && DeploymentRun(cfg, run) && run[0].hot.Database? && i < |run|
    ensures UniqueKeys(LogOf(run[i].system, b))
  {
    if i > 0 {
      DatabaseKeysUnique(cfg, run, i - 1, b);
      StaysDatabase(cfg, run, i - 1);
      RunLinked(cfg, run, i - 1);
      RunIsProtocolRun(cfg, run);
      NothingLost(cfg, Protocol(run), i - 1, b);
      assert DoesAt(cfg, run, i - 1);
      if run[i] != run[i - 1] {
        var deed :| Does(cfg, run[i - 1], deed, run[i]);
        LogStep(cfg, run[i - 1], deed, run[i], b);
      }
      UniqueFollows(run[i - 1].system, run[i].system, b);
    }
  }

  lemma UniqueFollows(sys: System, sys': System, b: BucketId)
    requires UniqueKeys(LogOf(sys, b)) && LogFollows(sys, sys', b)
    ensures UniqueKeys(LogOf(sys', b))
  {
    if r :| LogOf(sys', b) == LogOf(sys, b) + [r] && !CockroachRows.HasKey(Expected(sys, b), CursorOf(r)) {
      UniqueAfterPush(LogOf(sys, b), r);
    }
  }

  /**
   Paging over a CockroachDB deployment that appends through table routing is stable with nothing assumed
   about keys or filing: every record of the partition committed in range when paging began is shown exactly
   once, in strictly increasing key order.
   */
  lemma DatabasePagingIsStable(
    table: Table, partition: Bytes, cfg: Config, run: seq<World>, states: seq<System>, bs: seq<BucketId>, at: Timing, begun: nat,
    start: Option<Cursor>, range: TimeRange, limit: nat, pages: seq<QueryPage>, r: Record)
    requires Fenced(cfg) && RowsDistinct(cfg) && RoutedRun(cfg, run) && run[0].hot.Database?
    requires states == Protocol(run)
    requires range.start < range.end && Spans(Bucketing(table, partition), range, bs)
    requires 0 < limit <= USIZE_MAX && LivePages(states, bs, at, begun, start, range, limit, pages)
    requires begun < |states| && r in Expected(states[begun], BucketFor(table, partition, r.eventTime))
    requires InRange(range, r.eventTime) && Past(start, r)
    ensures Occurrences(Shown(pages), r) == 1
    ensures StrictlySorted(Shown(pages))
  {
    DatabaseIsFiled(cfg, run, states);
    PagingIsStable(table, partition, cfg, states, bs, at, begun, start, range, limit, pages, r);
  }

  lemma DatabaseIsFiled(cfg: Config, run: seq<World>, states: seq<System>)
    requires Fenced(cfg) && RowsDistinct(cfg) && RoutedRun(cfg, run) && run[0].hot.Database?
    requires states == Protocol(run)
    ensures Cutover.Run(cfg, states) && Filed(states[|states| - 1])
  {
    RunIsProtocolRun(cfg, run);
    RoutedRunBelongs(cfg, run, |run| - 1);
    var sys := states[|states| - 1];
    forall b ensures AllBelong(b, LogOf(sys, b)) && UniqueKeys(LogOf(sys, b)) { DatabaseKeysUnique(cfg, run, |run| - 1, b); }
  }

  // ----- reading through the object store -----

  /** A deployment and the bytes its object store holds. */
  datatype Site = Site(world: World, bytes: map<string, Bytes>)

  /** A write of the snapshot reported success, as `WriteRecords` specifies it, under some weather. */
  ghost predicate Wrote(at: ArchiveKeys.Target, s: Session, rs: seq<Record>, bytes: map<string, Bytes>, bytes': map<string, Bytes>) {
    && ArchiveObjects.ValidateRecords(s.bucket, rs).None?
    && var plan := ArchiveKeys.Planned(at, s.bucket, Some(s.generation), rs);
    && plan.Some?
    && exists w, w' :: WroteIn(at, plan.value, w, w', bytes, bytes')
  }

  ghost predicate WroteIn(
    at: ArchiveKeys.Target, p: ArchiveKeys.Plan, w: ArchiveObjects.Weather, w': ArchiveObjects.Weather,
    bytes: map<string, Bytes>, bytes': map<string, Bytes>)
  {
    && ArchiveObjects.WriteSucceeds(p, ArchiveObjects.PayloadAccepted(at, p), w, w', bytes)
    && bytes' == ArchiveObjects.AfterWrite(p, ArchiveObjects.PayloadAccepted(at, p), w, w', bytes)
  }

  /** A deed, with a successful write behind every upload, or a failed or foreign write that only adds objects. */
  ghost predicate SiteStep(at: ArchiveKeys.Target, x: Site, x': Site) {
    && ArchiveObjects.Grows(x.bytes, x'.bytes)
    && (x'.world == x.world || exists deed :: SiteDeed(at, x, deed, x'))
  }

  ghost predicate SiteDeed(at: ArchiveKeys.Target, x: Site, deed: Deed, x': Site) {
    && Does(ArchiveKeys.ArchiveConfig(at), x.world, deed, x'.world)
    && (deed.ArchivePut? ==> Wrote(at, deed.session, deed.records, x.bytes, x'.bytes))
  }

  /** Every uploaded snapshot is behind its key, payload and manifest. */
  ghost predicate BackedAt(at: ArchiveKeys.Target, sys: System, bytes: map<string, Bytes>, key: string)
    requires key in sys.objects
  {
    var o := sys.objects[key];
    var plan := ArchiveKeys.Planned(at, o.author.bucket, Some(o.author.generation), o.records);
    && ArchiveObjects.ValidateRecords(o.author.bucket, o.records).None?
    && plan.Some? && plan.value.manifestKey == key && ArchiveObjects.Holds(bytes, plan.value)
  }

  ghost predicate Backed(at: ArchiveKeys.Target, sys: System, bytes: map<string, Bytes>) {
    forall key :: key in sys.objects ==> BackedAt(at, sys, bytes, key)
  }

  lemma BackedStays(at: ArchiveKeys.Target, sys: System, bytes: map<string, Bytes>, bytes': map<string, Bytes>)
    requires Backed(at, sys, bytes) && ArchiveObjects.Grows(bytes, bytes')
    ensures Backed(at, sys, bytes')
  {
    forall key | key in sys.objects ensures BackedAt(at, sys, bytes', key) { assert BackedAt(at, sys, bytes, key); }
  }

  /** A successful write backs the upload it belongs to. */
  lemma WriteBacks(at: ArchiveKeys.Target, s: Session, rs: seq<Record>, bytes: map<string, Bytes>, bytes': map<string, Bytes>)
    requires Wrote(at, s, rs, bytes, bytes')
    ensures var plan := ArchiveKeys.Planned(at, s.bucket, Some(s.generation), rs).value;
            ArchiveObjects.Holds(bytes', plan) && ArchiveKeys.ArchiveNaming(at)(s.bucket, s.generation, rs) == plan.manifestKey
  {
    var plan := ArchiveKeys.Planned(at, s.bucket, Some(s.generation), rs).value;
    var w, w' :| WroteIn(at, plan, w, w', bytes, bytes');
    ArchiveObjects.WriteIsAdditive(plan, ArchiveObjects.PayloadAccepted(at, plan), w, w', bytes);
  }

  lemma UploadBacks(at: ArchiveKeys.Target, sys: System, s: Session, rs: seq<Record>, bytes: map<string, Bytes>, bytes': map<string, Bytes>)
    requires Backed(at, sys, bytes) && ArchiveObjects.Grows(bytes, bytes') && Wrote(at, s, rs, bytes, bytes')
    ensures Backed(at, Occur(ArchiveKeys.ArchiveConfig(at), sys, Upload(s, rs)), bytes')
  {
    var sys' := Occur(ArchiveKeys.ArchiveConfig(at), sys, Upload(s, rs));
    var key := ArchiveKeys.ArchiveNaming(at)(s.bucket, s.generation, rs);
    WriteBacks(at, s, rs, bytes, bytes');
    BackedStays(at, sys, bytes, bytes');
    forall k | k in sys'.objects ensures BackedAt(at, sys', bytes', k) {
      if k != key { assert BackedAt(at, sys, bytes', k); }
    }
  }

  /** Only uploads put objects into the record. */
  lemma ObjectsFollow(cfg: Config, sys: System, ev: Event)
    requires Accepted(sys, ev) && !ev.Upload?
    ensures Occur(cfg, sys, ev).objects == sys.objects
  {
  }

  lemma DeedObjects(cfg: Config, w: World, deed: Deed, w': World)
    requires Linked(cfg, w) && Does(cfg, w, deed, w')
    ensures deed.ArchivePut? ==> w'.system == Occur(cfg, w.system, Upload(deed.session, deed.records))
    ensures !deed.ArchivePut? ==> w'.system.objects == w.system.objects
  {
    var ev := EventOf(w, deed);
    if ev.Some? {
      EventIsAllowed(cfg, w, deed);
      if !ev.value.Upload? { ObjectsFollow(cfg, w.system, ev.value); }
    }
  }

  lemma DeedBacks(at: ArchiveKeys.Target, x: Site, x': Site, deed: Deed)
    requires Backed(at, x.world.system, x.bytes) && ArchiveObjects.Grows(x.bytes, x'.bytes)
    requires deed.ArchivePut? ==> Wrote(at, deed.session, deed.records, x.bytes, x'.bytes)
    requires deed.ArchivePut? ==>
               x'.world.system == Occur(ArchiveKeys.ArchiveConfig(at), x.world.system, Upload(deed.session, deed.records))
    requires !deed.ArchivePut? ==> x'.world.system.objects == x.world.system.objects
    ensures Backed(at, x'.world.system, x'.bytes)
  {
    if deed.ArchivePut? {
      UploadBacks(at, x.world.system, deed.session, deed.records, x.bytes, x'.bytes);
    } else {
      BackedStays(at, x.world.system, x.bytes, x'.bytes);
      SameObjectsBacked(at, x.world.system, x'.world.system, x'.bytes);
    }
  }

  lemma SiteStepBacks(at: ArchiveKeys.Target, x: Site, x': Site)
    requires Linked(ArchiveKeys.ArchiveConfig(at), x.world) && Backed(at, x.world.system, x.bytes) && SiteStep(at, x, x')
    ensures Backed(at, x'.world.system, x'.bytes)
  {
    if x'.world == x.world {
      BackedStays(at, x.world.system, x.bytes, x'.bytes);
    } else {
      var deed :| SiteDeed(at, x, deed, x');
      DeedObjects(ArchiveKeys.ArchiveConfig(at), x.world, deed, x'.world);
      DeedBacks(at, x, x', deed);
    }
  }

  lemma SameObjectsBacked(at: ArchiveKeys.Target, sys: System, sys': System, bytes: map<string, Bytes>)
    requires Backed(at, sys, bytes) && sys'.objects == sys.objects
    ensures Backed(at, sys', bytes)
  {
    forall key | key in sys'.objects ensures BackedAt(at, sys', bytes, key) { assert BackedAt(at, sys, bytes, key); }
  }

  ghost predicate SiteStepAt(at: ArchiveKeys.Target, run: seq<Site>, i: int)
    requires 0 <= i < |run| - 1
  {
    SiteStep(at, run[i], run[i + 1])
  }

  /** A run from empty hot storage; the object store may hold anything to begin with. */
  ghost predicate SiteRun(at: ArchiveKeys.Target, run: seq<Site>) {
    && run != [] && (run[0].world == World(Memory(map[]), START) || run[0].world == World(Database(map[]), START))
    && forall i :: 0 <= i < |run| - 1 ==> SiteStepAt(at, run, i)
  }

  function Worlds(run: seq<Site>): (r: seq<World>)
    ensures |r| == |run| && forall i :: 0 <= i < |run| ==> r[i] == run[i].world
  {
    seq(|run|, i requires 0 <= i < |run| => run[i].world)
  }

  lemma SiteMoves(at: ArchiveKeys.Target, x: Site, x': Site)
    requires SiteStep(at, x, x')
    ensures Moves(ArchiveKeys.ArchiveConfig(at), x.world, x'.world)
  {
    if x'.world != x.world { var deed :| SiteDeed(at, x, deed, x'); }
  }

  lemma SiteIsDeployment(at: ArchiveKeys.Target, run: seq<Site>)
    requires SiteRun(at, run)
    ensures DeploymentRun(ArchiveKeys.ArchiveConfig(at), Worlds(run))
  {
    forall i | 0 <= i < |run| - 1 ensures DoesAt(ArchiveKeys.ArchiveConfig(at), Worlds(run), i) {
      assert SiteStepAt(at, run, i);
      SiteMoves(at, run[i], run[i + 1]);
    }
  }

  lemma {:induction false} BytesGrow(at: ArchiveKeys.Target, run: seq<Site>, i: nat, j: nat)
    requires SiteRun(at, run) && i <= j < |run|
    ensures ArchiveObjects.Grows(run[i].bytes, run[j].bytes)
  {
    if i < j {
      BytesGrow(at, run, i, j - 1);
      assert SiteStepAt(at, run, j - 1);
    }
  }

  lemma {:induction false} RunBacked(at: ArchiveKeys.Target, run: seq<Site>, i: nat)
    requires SiteRun(at, run) && i < |run| && RowsDistinct(ArchiveKeys.ArchiveConfig(at))
    ensures Backed(at, run[i].world.system, run[i].bytes)
  {
    if i > 0 {
      RunBacked(at, run, i - 1);
      SiteIsDeployment(at, run);
      RunLinked(ArchiveKeys.ArchiveConfig(at), Worlds(run), i - 1);
      assert SiteStepAt(at, run, i - 1);
      SiteStepBacks(at, run[i - 1], run[i]);
    }
  }

  /** A published key leads to an upload made for the same bucket. */
  ghost predicate HomeKey(sys: System, b: BucketId) {
    var c := At(sys, b);
    c.state.Archived? ==> c.state.objectKey in sys.objects && sys.objects[c.state.objectKey].author.bucket == b
  }

  lemma EventKeepsHome(cfg: Config, sys: System, ev: Event, b: BucketId)
    requires Fenced(cfg) && Inv(cfg, sys) && Allowed(cfg, sys, ev) && HomeKey(sys, b)
    ensures HomeKey(Occur(cfg, sys, ev), b)
  {
    Fencing.OccurFacts(cfg, sys, ev, b);
    if ev.Upload? { UploadKept(cfg, sys, ev.holder, ev.records); }
  }

  lemma {:induction false} KeysAreHome(cfg: Config, states: seq<System>, i: nat, b: BucketId)
    requires Fenced(cfg) && Cutover.Run(cfg, states) && i < |states|
    ensures HomeKey(states[i], b)
  {
    if i > 0 {
      KeysAreHome(cfg, states, i - 1, b);
      RunKeepsInv(cfg, states, i - 1);
      assert StepAt(cfg, states, i - 1);
      if states[i] != states[i - 1] {
        var ev :| Allowed(cfg, states[i - 1], ev) && states[i] == Occur(cfg, states[i - 1], ev);
        EventKeepsHome(cfg, states[i - 1], ev, b);
      }
    }
  }

  /** An intact upload is read back exactly. */
  lemma BackedIsReadable(
    at: ArchiveKeys.Target, sys: System, key: string, bytes: map<string, Bytes>, first: map<string, Bytes>, second: map<string, Bytes>)
    requires ArchiveKeys.RoundTrips(at.lib) && key in sys.objects && BackedAt(at, sys, bytes, key)
    requires ArchiveObjects.Grows(bytes, first) && ArchiveObjects.Grows(bytes, second)
    ensures ArchiveObjects.GetBucket(at.lib, sys.objects[key].author.bucket, key, first, second) == Ok(sys.objects[key].records)
  {
    var o := sys.objects[key];
    ArchiveObjects.ReadIsWritten(at, o.author.bucket, Some(o.author.generation), o.records, o.author.bucket, first, second);
  }

  /** What the read path makes of an archive read. */
  function Fetched(at: ArchiveKeys.Target, b: BucketId, key: string, first: map<string, Bytes>, second: map<string, Bytes>): Reading {
    match ArchiveObjects.GetBucket(at.lib, b, key, first, second)
    case Ok(rs) => Ok(rs)
    case Err(_) => Err(ReadFailed("archive read"))
  }

  /** A published key leads to an intact upload, for the bucket itself, of all its committed appends. */
  lemma PublishedIsBacked(at: ArchiveKeys.Target, run: seq<Site>, t: nat, b: BucketId)
    requires ArchiveKeys.RoundTrips(at.lib) && SiteRun(at, run) && t < |run|
    requires At(run[t].world.system, b).state.Archived?
    ensures var sys := run[t].world.system;
            var key := At(sys, b).state.objectKey;
            && key in sys.objects && sys.objects[key].author.bucket == b
            && sys.objects[key].records == Expected(sys, b) && BackedAt(at, sys, run[t].bytes, key)
  {
    var cfg, worlds := ArchiveKeys.ArchiveConfig(at), Worlds(run);
    ArchiveKeys.ArchiveConfigFenced(at);
    CanonicalRowsDistinct(cfg);
    SiteIsDeployment(at, run);
    RunIsProtocolRun(cfg, worlds);
    RunBacked(at, run, t);
    KeysAreHome(cfg, Protocol(worlds), t, b);
    NothingLost(cfg, Protocol(worlds), t, b);
  }

  /**
   A published bucket read through the object store: whatever is written before the manifest and the payload
   are fetched, the read returns exactly the appends committed when the route was taken.
   */
  lemma ArchiveReadIsWhole(at: ArchiveKeys.Target, run: seq<Site>, t: nat, u: nat, v: nat, b: BucketId)
    requires ArchiveKeys.RoundTrips(at.lib) && SiteRun(at, run) && t < |run| && t <= u < |run| && t <= v < |run|
    requires Canonical(b) && At(run[t].world.system, b).state.Archived?
    ensures Fetched(at, b, At(run[t].world.system, b).state.objectKey, run[u].bytes, run[v].bytes) ==
            Ok(Expected(run[t].world.system, b))
  {
    PublishedIsBacked(at, run, t, b);
    BytesGrow(at, run, t, u);
    BytesGrow(at, run, t, v);
    var sys := run[t].world.system;
    BackedIsReadable(at, sys, At(sys, b).state.objectKey, run[t].bytes, run[u].bytes, run[v].bytes);
  }

  /** The archive reply that goes with a routed bucket. */
  function FetchedFor(at: ArchiveKeys.Target, c: Bucket, b: BucketId, first: map<string, Bytes>, second: map<string, Bytes>): Reading {
    if c.state.Archived? then Fetched(at, b, c.state.objectKey, first, second) else Err(ReadFailed("not fetched"))
  }

  /**
   A bucket read over either hot store and the real archive returns the page of the rows committed when it
   was routed, whichever tier it was routed to and however late the objects are fetched.
   */
  lemma SiteReadIsAtomic(
    at: ArchiveKeys.Target, run: seq<Site>, t: nat, u: nat, v: nat, b: BucketId, range: TimeRange, after: Option<Cursor>, limit: nat)
    requires ArchiveKeys.RoundTrips(at.lib) && SiteRun(at, run) && t < |run| && t <= u < |run| && t <= v < |run| && Canonical(b)
    ensures Sound(run[t].world.hot)
    ensures var c := Core(run[t].world.hot, b);
            ReadBucket(RouteRead(c, range, after, limit), FetchedFor(at, c, b, run[u].bytes, run[v].bytes), range, after, limit) ==
            Ok(Page(StableSort(LogOf(run[t].world.system, b)), range, after, limit))
  {
    SiteContent(at, run, t, b);
    var c := Core(run[t].world.hot, b);
    if c.state.Archived? { ArchiveReadIsWhole(at, run, t, u, v, b); }
    SortSorted(LogOf(run[t].world.system, b));
    TierTransparent(c, FetchedFor(at, c, b, run[u].bytes, run[v].bytes), Expected(run[t].world.system, b), range, after, limit);
  }

  lemma SiteContent(at: ArchiveKeys.Target, run: seq<Site>, t: nat, b: BucketId)
    requires ArchiveKeys.RoundTrips(at.lib) && SiteRun(at, run) && t < |run| && Canonical(b)
    ensures Sound(run[t].world.hot) && Core(run[t].world.hot, b) == At(run[t].world.system, b)
    ensures !At(run[t].world.system, b).state.Archived? ==> At(run[t].world.system, b).records == Expected(run[t].world.system, b)
  {
    var cfg := ArchiveKeys.ArchiveConfig(at);
    ArchiveKeys.ArchiveConfigFenced(at);
    CanonicalRowsDistinct(cfg);
    SiteIsDeployment(at, run);
    RunLinked(cfg, Worlds(run), t);
    RunIsProtocolRun(cfg, Worlds(run));
    NothingLost(cfg, Protocol(Worlds(run)), t, b);
  }

  // ----- paging through the object store -----

  /** When the reads of a page happen: the route, the fetch of the manifest and the fetch of the payload. */
  datatype SiteTiming = SiteTiming(routed: (nat, nat) -> nat, manifest: (nat, nat) -> nat, payload: (nat, nat) -> nat)

  ghost predicate SiteTimely(run: seq<Site>, n: nat, begun: nat, at: SiteTiming, p: nat) {
    forall i: nat :: i < n ==>
      begun <= at.routed(p, i) <= at.manifest(p, i) < |run| && at.routed(p, i) <= at.payload(p, i) < |run|
  }

  /** A bucket read against the site; the hot store always holds rows that decode. */
  ghost function SiteReading(
    target: ArchiveKeys.Target, run: seq<Site>, t: nat, u: nat, v: nat, b: BucketId,
    range: TimeRange, after: Option<Cursor>, cap: nat): Reading
    requires t < |run| && u < |run| && v < |run|
  {
    if !Sound(run[t].world.hot) then Err(ReadFailed("undecodable"))
    else
      var c := Core(run[t].world.hot, b);
      ReadBucket(RouteRead(c, range, after, cap), FetchedFor(target, c, b, run[u].bytes, run[v].bytes), range, after, cap)
  }

  ghost function SiteReadings(
    target: ArchiveKeys.Target, run: seq<Site>, bs: seq<BucketId>, begun: nat, at: SiteTiming, p: nat,
    range: TimeRange, after: Option<Cursor>, cap: nat): (r: seq<Reading>)
    requires SiteTimely(run, |bs|, begun, at, p)
    ensures |r| == |bs|
    ensures forall i: nat :: i < |bs| ==>
              r[i] == SiteReading(target, run, at.routed(p, i), at.manifest(p, i), at.payload(p, i), bs[i], range, after, cap)
  {
    seq(|bs|, i requires 0 <= i < |bs| =>
      SiteReading(target, run, at.routed(p, i), at.manifest(p, i), at.payload(p, i), bs[i], range, after, cap))
  }

  /** Routing and fetching at one moment, as far as the abstract archive is concerned. */
  function Abstractly(at: SiteTiming): Timing {
    Timing(at.routed, at.routed)
  }

  ghost predicate SitePageAt(
    target: ArchiveKeys.Target, run: seq<Site>, states: seq<System>, bs: seq<BucketId>, at: SiteTiming, begun: nat,
    start: Option<Cursor>, range: TimeRange, limit: nat, pages: seq<QueryPage>, p: nat)
    requires 0 < limit <= USIZE_MAX && p < |pages| && |states| == |run|
  {
    && SiteTimely(run, |bs|, begun, at, p)
    && Countable(limit, ReferenceRows(Merge.Flatten(SeenBy(states, bs, at.routed, p)), range, CursorAt(start, pages, p)))
    && exists schedule ::
         Answers(Ok(pages[p]), bs, schedule,
                 SiteReadings(target, run, bs, begun, at, p, range, CursorAt(start, pages, p), PageCapacity(limit)), limit)
  }

  /** Pages queried one after another against the site, until one has no cursor. */
  ghost predicate SitePages(
    target: ArchiveKeys.Target, run: seq<Site>, states: seq<System>, bs: seq<BucketId>, at: SiteTiming, begun: nat,
    start: Option<Cursor>, range: TimeRange, limit: nat, pages: seq<QueryPage>)
    requires 0 < limit <= USIZE_MAX && |states| == |run|
  {
    && pages != [] && pages[|pages| - 1].next.None?
    && (forall p :: 0 <= p < |pages| - 1 ==> pages[p].next.Some?)
    && (forall p: nat :: p < |pages| ==> SitePageAt(target, run, states, bs, at, begun, start, range, limit, pages, p))
  }

  /** Reads through the object store return what reads of the abstract archive do. */
  lemma SiteReadingsAgree(
    target: ArchiveKeys.Target, cfg: Config, run: seq<Site>, states: seq<System>, bs: seq<BucketId>, begun: nat, at: SiteTiming, p: nat,
    range: TimeRange, after: Option<Cursor>, cap: nat)
    requires ArchiveKeys.RoundTrips(target.lib) && SiteRun(target, run) && SiteTimely(run, |bs|, begun, at, p)
    requires |states| == |run| && forall i :: 0 <= i < |run| ==> states[i] == run[i].world.system
    requires Fenced(cfg) && Cutover.Run(cfg, states) && Filed(states[|states| - 1])
    requires forall i: nat :: i < |bs| ==> Canonical(bs[i])
    ensures Timely(states, |bs|, begun, Abstractly(at), p)
    ensures SiteReadings(target, run, bs, begun, at, p, range, after, cap) ==
            LiveReadings(states, bs, begun, Abstractly(at), p, range, after, cap)
  {
    LiveReadingsArePages(cfg, states, bs, begun, Abstractly(at), p, range, after, cap);
    forall i: nat | i < |bs|
      ensures SiteReadings(target, run, bs, begun, at, p, range, after, cap)[i] ==
              LiveReadings(states, bs, begun, Abstractly(at), p, range, after, cap)[i]
    {
      SiteReadIsAtomic(target, run, at.routed(p, i), at.manifest(p, i), at.payload(p, i), bs[i], range, after, cap);
    }
  }

  lemma SpannedAreCanonical(table: Table, partition: Bytes, range: TimeRange, bs: seq<BucketId>)
    requires Spans(Bucketing(table, partition), range, bs)
    ensures forall i: nat :: i < |bs| ==> Canonical(bs[i])
  {
    forall i: nat | i < |bs| ensures Canonical(bs[i]) { BucketForCanonical(table, partition, bs[i].start); }
  }

  lemma SitePageIsLive(
    target: ArchiveKeys.Target, cfg: Config, run: seq<Site>, states: seq<System>, bs: seq<BucketId>, at: SiteTiming, begun: nat,
    start: Option<Cursor>, range: TimeRange, limit: nat, pages: seq<QueryPage>, p: nat)
    requires ArchiveKeys.RoundTrips(target.lib) && SiteRun(target, run)
    requires |states| == |run| && forall i :: 0 <= i < |run| ==> states[i] == run[i].world.system
    requires Fenced(cfg) && Cutover.Run(cfg, states) && Filed(states[|states| - 1])
    requires forall i: nat :: i < |bs| ==> Canonical(bs[i])
    requires 0 < limit <= USIZE_MAX && p < |pages|
    requires SitePageAt(target, run, states, bs, at, begun, start, range, limit, pages, p)
    ensures LiveAt(states, bs, Abstractly(at), begun, start, range, limit, pages, p)
  {
    var after, cap := CursorAt(start, pages, p), PageCapacity(limit);
    SiteReadingsAgree(target, cfg, run, states, bs, begun, at, p, range, after, cap);
    assert Abstractly(at).routed == at.routed;
    var schedule :|
      Answers(Ok(pages[p]), bs, schedule, SiteReadings(target, run, bs, begun, at, p, range, after, cap), limit);
    assert Answers(Ok(pages[p]), bs, schedule, LiveReadings(states, bs, begun, Abstractly(at), p, range, after, cap), limit);
  }

  /**
   Paging against a CockroachDB deployment and its object store: each page routes its buckets, fetches the
   manifests and the payloads at its own moments, and still every record of the partition committed in range
   when paging began is shown exactly once, in strictly increasing key order.
   */
  lemma SitePagingIsStable(
    table: Table, partition: Bytes, target: ArchiveKeys.Target, run: seq<Site>, states: seq<System>, bs: seq<BucketId>, at: SiteTiming,
    begun: nat, start: Option<Cursor>, range: TimeRange, limit: nat, pages: seq<QueryPage>, r: Record)
    requires ArchiveKeys.RoundTrips(target.lib) && SiteRun(target, run)
    requires RoutedRun(ArchiveKeys.ArchiveConfig(target), Worlds(run)) && run[0].world.hot.Database?
    requires states == Protocol(Worlds(run))
    requires range.start < range.end && Spans(Bucketing(table, partition), range, bs)
    requires 0 < limit <= USIZE_MAX && SitePages(target, run, states, bs, at, begun, start, range, limit, pages)
    requires begun < |states| && r in Expected(states[begun], BucketFor(table, partition, r.eventTime))
    requires InRange(range, r.eventTime) && Past(start, r)
    ensures Occurrences(Shown(pages), r) == 1
    ensures StrictlySorted(Shown(pages))
  {
    var cfg := ArchiveKeys.ArchiveConfig(target);
    ArchiveKeys.ArchiveConfigFenced(target);
    CanonicalRowsDistinct(cfg);
    DatabaseIsFiled(cfg, Worlds(run), states);
    SpannedAreCanonical(table, partition, range, bs);
    forall p: nat | p < |pages| ensures LiveAt(states, bs, Abstractly(at), begun, start, range, limit, pages, p) {
      SitePageIsLive(target, cfg, run, states, bs, at, begun, start, range, limit, pages, p);
    }
    PagingIsStable(table, partition, cfg, states, bs, Abstractly(at), begun, start, range, limit, pages, r);
  }
}
