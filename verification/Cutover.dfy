/**
 The fenced cutover protocol as a state machine over any number of writers and archive workers
 (the contract of src/ports/storage.rs, driven by src/application/durable_archive.rs and
 src/application/durable_archive_recovery.rs).

 Leases and retry times only decide when a claim is allowed, so the protocol state leaves them
 out and allows a claim at any time: everything proved here rests on owner and generation alone
 and holds for every clock. A worker is represented by what it has learned. Any session ever
 issued may be used again at any later moment, which covers delay, crash, lost replies,
 supervision that runs an operation after a failed renewal, and stale retries.
 */
module Cutover {
  import opened Common
  import opened Records
  import opened Tiling

  datatype BucketState = Hot | Archiving | Archived(objectKey: string, hotDeleted: bool)

  datatype Session = Session(bucket: BucketId, owner: string, generation: nat)

  /** What the fence depends on of one bucket's durable entry. */
  datatype Bucket = Bucket(state: BucketState, generation: nat, owner: Option<string>, records: seq<Record>)

  const UNTOUCHED := Bucket(Hot, 0, None, [])

  /** The bucket's current owner credential is this session's. */
  predicate Active(c: Bucket, s: Session) {
    c.generation == s.generation && c.owner == Some(s.owner)
  }

  predicate Holding(c: Bucket, s: Session) {
    c.state.Archiving? && Active(c, s)
  }

  // ----- one bucket -----

  datatype Action =
    | Append(record: Record)
    | Claim(claimant: string)
    | ClaimCleanup(claimant: string)
    | Reopen(session: Session)
    | Publish(session: Session, key: string)
    | Delete(session: Session)

  predicate Enabled(c: Bucket, a: Action) {
    match a
    case Append(_) => c.state.Hot?
    case Claim(_) => c.state.Hot? || c.state.Archiving?
    case ClaimCleanup(_) => c.state.Archived? && !c.state.hotDeleted
    case Reopen(s) => Holding(c, s)
    case Publish(s, _) => Holding(c, s)
    case Delete(s) => c.state.Archived? && !c.state.hotDeleted && Active(c, s)
  }

  function Act(c: Bucket, a: Action): Bucket
    requires Enabled(c, a)
  {
    match a
    case Append(r) => c.(records := Insert(c.records, r))
    case Claim(o) => c.(state := Archiving, generation := c.generation + 1, owner := Some(o))
    case ClaimCleanup(o) => c.(generation := c.generation + 1, owner := Some(o))
    case Reopen(_) => c.(state := Hot, owner := None)
    case Publish(_, key) => c.(state := Archived(key, false))
    case Delete(_) => c.(state := Archived(c.state.objectKey, true), records := [])
  }

  // ----- the whole system -----

  /** Which identities are in use, and the key under which a snapshot of a generation is uploaded. */
  datatype Config = Config(buckets: iset<BucketId>, naming: (BucketId, nat, seq<Record>) -> string)

  /** Two buckets or two generations never share a key. */
  ghost predicate Fenced(cfg: Config) {
    forall b, g, rs, b', g', rs' {:trigger cfg.naming(b, g, rs), cfg.naming(b', g', rs')} ::
      b in cfg.buckets && b' in cfg.buckets && cfg.naming(b, g, rs) == cfg.naming(b', g', rs') ==>
        b == b' && g == g'
  }

  datatype Stored = Stored(author: Session, records: seq<Record>)

  datatype System = System(
    buckets: map<BucketId, Bucket>,
    objects: map<string, Stored>,
    issued: set<Session>,                          // sessions returned by claims
    snapshots: set<(Session, seq<Record>)>,        // replies to accepted snapshot calls
    uploads: set<(Session, string)>,               // keys returned by uploads of such a reply
    log: map<BucketId, seq<Record>>)               // committed appends, in commit order

  function At(sys: System, b: BucketId): Bucket {
    if b in sys.buckets then sys.buckets[b] else UNTOUCHED
  }

  function LogOf(sys: System, b: BucketId): seq<Record> {
    if b in sys.log then sys.log[b] else []
  }

  /** What the committed appends of a bucket amount to, in clustering order. */
  function Expected(sys: System, b: BucketId): seq<Record> {
    StableSort(LogOf(sys, b))
  }

  datatype Event =
    | OnBucket(bucket: BucketId, action: Action)
    | TakeSnapshot(holder: Session)
    | Upload(holder: Session, records: seq<Record>)

  /** The stores accept the call: the fence for archive mutations, the state for appends and claims. */
  predicate Accepted(sys: System, ev: Event) {
    match ev
    case OnBucket(b, a) => Enabled(At(sys, b), a)
    case TakeSnapshot(s) => Holding(At(sys, s.bucket), s)
    case Upload(_, _) => true
  }

  /** The call can be made: nobody invents a session, a snapshot or a key. Only publishing and uploading depend on it. */
  ghost predicate Disciplined(cfg: Config, sys: System, ev: Event) {
    match ev
    case OnBucket(b, a) =>
      && b in cfg.buckets
      && (a.Publish? ==> a.session.bucket == b && (a.session, a.key) in sys.uploads)
    case TakeSnapshot(s) => s in sys.issued
    case Upload(s, rs) => (s, rs) in sys.snapshots
  }

  ghost predicate Allowed(cfg: Config, sys: System, ev: Event) {
    Accepted(sys, ev) && Disciplined(cfg, sys, ev)
  }

  function Issue(b: BucketId, c: Bucket, a: Action): set<Session> {
    match a
    case Claim(o) => {Session(b, o, c.generation + 1)}
    case ClaimCleanup(o) => {Session(b, o, c.generation + 1)}
    case _ => {}
  }

  function Occur(cfg: Config, sys: System, ev: Event): System
    requires Accepted(sys, ev)
  {
    match ev
    case OnBucket(b, a) =>
      var c := At(sys, b);
      sys.(buckets := sys.buckets[b := Act(c, a)],
           issued := sys.issued + Issue(b, c, a),
           log := if a.Append? then sys.log[b := LogOf(sys, b) + [a.record]] else sys.log)
    case TakeSnapshot(s) => sys.(snapshots := sys.snapshots + {(s, At(sys, s.bucket).records)})
    case Upload(s, rs) =>
      var key := cfg.naming(s.bucket, s.generation, rs);
      sys.(objects := sys.objects[key := Stored(s, rs)], uploads := sys.uploads + {(s, key)})
  }

  const START := System(map[], map[], {}, {}, {}, map[])

  // ----- the invariant -----

  /** The bucket holds `expected`, in its rows until publication and in its object from then on. */
  ghost predicate Fits(c: Bucket, objects: map<string, Stored>, expected: seq<Record>) {
    match c.state
    case Archived(key, deleted) =>
      && key in objects && objects[key].records == expected
      && c.records == if deleted then [] else expected
    case _ => c.records == expected
  }

  ghost predicate ContentOk(sys: System, b: BucketId) {
    Fits(At(sys, b), sys.objects, Expected(sys, b))
  }

  ghost predicate ContentsOk(sys: System) {
    forall b :: ContentOk(sys, b)
  }

  ghost predicate SessionsOk(cfg: Config, sys: System) {
    && (forall s :: s in sys.issued ==> s.bucket in cfg.buckets && s.generation <= At(sys, s.bucket).generation)
    && (forall s, t :: s in sys.issued && t in sys.issued && s.bucket == t.bucket && s.generation == t.generation ==> s == t)
    && (forall b :: OwnerOk(sys, b))
  }

  ghost predicate OwnerOk(sys: System, b: BucketId) {
    var c := At(sys, b);
    && (c.owner.Some? ==> Session(b, c.owner.value, c.generation) in sys.issued)
    && (c.state.Hot? ==> c.owner.None?)
  }

  ghost predicate SnapshotsOk(sys: System) {
    && (forall s, rs :: (s, rs) in sys.snapshots ==>
          s in sys.issued && (Holding(At(sys, s.bucket), s) ==> rs == At(sys, s.bucket).records))
    && (forall s, rs, rs' :: (s, rs) in sys.snapshots && (s, rs') in sys.snapshots ==> rs == rs')
  }

  ghost predicate ObjectsOk(cfg: Config, sys: System) {
    && (forall k :: k in sys.objects ==>
          var o := sys.objects[k];
          (o.author, o.records) in sys.snapshots && k == cfg.naming(o.author.bucket, o.author.generation, o.records))
    && (forall s, k :: (s, k) in sys.uploads ==> k in sys.objects && sys.objects[k].author == s)
  }

  ghost predicate Inv(cfg: Config, sys: System) {
    && ContentsOk(sys)
    && SessionsOk(cfg, sys)
    && SnapshotsOk(sys)
    && ObjectsOk(cfg, sys)
  }

  // ----- preservation -----

  lemma StartInv(cfg: Config)
    ensures Inv(cfg, START)
  {
  }

  /** A publication stores exactly the committed records: the snapshot of the holder is still the whole bucket. */
  lemma PublishedIsWhole(cfg: Config, sys: System, s: Session, key: string)
    requires Inv(cfg, sys) && Holding(At(sys, s.bucket), s) && (s, key) in sys.uploads
    ensures key in sys.objects
    ensures sys.objects[key].records == At(sys, s.bucket).records == Expected(sys, s.bucket)
  {
    assert sys.objects[key].author == s;
    assert (s, sys.objects[key].records) in sys.snapshots;
    assert ContentOk(sys, s.bucket);
  }

  /** A bucket whose entry and log are untouched keeps its content while no stored object changes. */
  lemma ContentFrame(sys: System, sys': System, d: BucketId)
    requires ContentOk(sys, d)
    requires At(sys', d) == At(sys, d) && LogOf(sys', d) == LogOf(sys, d)
    requires forall k :: k in sys.objects ==> k in sys'.objects && sys'.objects[k] == sys.objects[k]
    ensures ContentOk(sys', d)
  {
  }

  lemma ActFits(c: Bucket, a: Action, objects: map<string, Stored>, expected: seq<Record>)
    requires Fits(c, objects, expected) && Enabled(c, a)
    requires a.Publish? ==> a.key in objects && objects[a.key].records == expected
    ensures Fits(Act(c, a), objects, if a.Append? then Insert(expected, a.record) else expected)
  {
  }

  lemma ContentHere(cfg: Config, sys: System, b: BucketId, a: Action)
    requires Inv(cfg, sys) && Allowed(cfg, sys, OnBucket(b, a))
    ensures ContentOk(Occur(cfg, sys, OnBucket(b, a)), b)
  {
    assert ContentOk(sys, b);
    if a.Append? { AppendKept(sys, b, a.record); }
    if a.Publish? { PublishedIsWhole(cfg, sys, a.session, a.key); }
    ActFits(At(sys, b), a, sys.objects, Expected(sys, b));
  }

  lemma ContentsKept(cfg: Config, sys: System, b: BucketId, a: Action)
    requires Inv(cfg, sys) && Allowed(cfg, sys, OnBucket(b, a))
    ensures ContentsOk(Occur(cfg, sys, OnBucket(b, a)))
  {
    var sys' := Occur(cfg, sys, OnBucket(b, a));
    forall d ensures ContentOk(sys', d) {
      if d == b {
        ContentHere(cfg, sys, b, a);
      } else {
        assert ContentOk(sys, d);
        ContentFrame(sys, sys', d);
      }
    }
  }

  lemma AppendKept(sys: System, b: BucketId, r: Record)
    ensures Insert(Expected(sys, b), r) == StableSort(LogOf(sys, b) + [r])
  {
    SortPush(LogOf(sys, b), r);
  }

  lemma SessionsKept(cfg: Config, sys: System, b: BucketId, a: Action)
    requires Inv(cfg, sys) && Allowed(cfg, sys, OnBucket(b, a))
    ensures SessionsOk(cfg, Occur(cfg, sys, OnBucket(b, a)))
  {
    var sys' := Occur(cfg, sys, OnBucket(b, a));
    forall d ensures OwnerOk(sys', d) {
      assert OwnerOk(sys, d);
    }
  }

  lemma SnapshotsKept(cfg: Config, sys: System, b: BucketId, a: Action)
    requires Inv(cfg, sys) && Allowed(cfg, sys, OnBucket(b, a))
    ensures SnapshotsOk(Occur(cfg, sys, OnBucket(b, a)))
  {
    var sys' := Occur(cfg, sys, OnBucket(b, a));
    assert OwnerOk(sys, b);
    forall s, rs | (s, rs) in sys'.snapshots
      ensures s in sys'.issued && (Holding(At(sys', s.bucket), s) ==> rs == At(sys', s.bucket).records)
    {
      assert (s, rs) in sys.snapshots;
    }
  }

  lemma UploadKept(cfg: Config, sys: System, s: Session, rs: seq<Record>)
    requires Fenced(cfg) && Inv(cfg, sys) && (s, rs) in sys.snapshots
    ensures var key := cfg.naming(s.bucket, s.generation, rs);
            key in sys.objects ==> sys.objects[key] == Stored(s, rs)
  {
    var key := cfg.naming(s.bucket, s.generation, rs);
    if key in sys.objects {
      var o := sys.objects[key];
      assert (o.author, o.records) in sys.snapshots && key == cfg.naming(o.author.bucket, o.author.generation, o.records);
    }
  }

  lemma OnBucketKeepsInv(cfg: Config, sys: System, b: BucketId, a: Action)
    requires Inv(cfg, sys) && Allowed(cfg, sys, OnBucket(b, a))
    ensures Inv(cfg, Occur(cfg, sys, OnBucket(b, a)))
  {
    ContentsKept(cfg, sys, b, a);
    SessionsKept(cfg, sys, b, a);
    SnapshotsKept(cfg, sys, b, a);
  }

  /** Knowledge gained without touching an entry changes no content and no ownership. */
  lemma EntriesFrame(cfg: Config, sys: System, sys': System)
    requires ContentsOk(sys) && SessionsOk(cfg, sys)
    requires sys'.buckets == sys.buckets && sys'.log == sys.log && sys'.issued == sys.issued
    requires forall k :: k in sys.objects ==> k in sys'.objects && sys'.objects[k] == sys.objects[k]
    ensures ContentsOk(sys') && SessionsOk(cfg, sys')
  {
    forall d ensures ContentOk(sys', d) && OwnerOk(sys', d) {
      assert ContentOk(sys, d) && OwnerOk(sys, d);
      ContentFrame(sys, sys', d);
    }
  }

  lemma SnapshotKeepsInv(cfg: Config, sys: System, s: Session)
    requires Inv(cfg, sys) && Allowed(cfg, sys, TakeSnapshot(s))
    ensures Inv(cfg, Occur(cfg, sys, TakeSnapshot(s)))
  {
    EntriesFrame(cfg, sys, Occur(cfg, sys, TakeSnapshot(s)));
  }

  lemma UploadKeepsInv(cfg: Config, sys: System, s: Session, rs: seq<Record>)
    requires Fenced(cfg) && Inv(cfg, sys) && Allowed(cfg, sys, Upload(s, rs))
    ensures Inv(cfg, Occur(cfg, sys, Upload(s, rs)))
  {
    UploadKept(cfg, sys, s, rs);
    var sys' := Occur(cfg, sys, Upload(s, rs));
    EntriesFrame(cfg, sys, sys');
    assert SnapshotsOk(sys');
    assert ObjectsOk(cfg, sys') by {
      forall t, k | (t, k) in sys'.uploads ensures k in sys'.objects && sys'.objects[k].author == t {
        assert (t, k) in sys.uploads || (t, k) == (s, cfg.naming(s.bucket, s.generation, rs));
      }
    }
  }

  /** No event, by anyone, breaks the invariant. */
  lemma EventKeepsInv(cfg: Config, sys: System, ev: Event)
    requires Fenced(cfg) && Inv(cfg, sys) && Allowed(cfg, sys, ev)
    ensures Inv(cfg, Occur(cfg, sys, ev))
  {
    match ev
    case OnBucket(b, a) => OnBucketKeepsInv(cfg, sys, b, a);
    case TakeSnapshot(s) => SnapshotKeepsInv(cfg, sys, s);
    case Upload(s, rs) => UploadKeepsInv(cfg, sys, s, rs);
  }

  // ----- runs -----

  /** One event, or a pause in which nothing the protocol depends on changes. */
  ghost predicate Step(cfg: Config, sys: System, sys': System) {
    sys' == sys || exists ev :: Allowed(cfg, sys, ev) && sys' == Occur(cfg, sys, ev)
  }

  ghost predicate StepAt(cfg: Config, states: seq<System>, i: int)
    requires 0 <= i < |states| - 1
  {
    Step(cfg, states[i], states[i + 1])
  }

  /** A finite run from the empty system. */
  ghost predicate Run(cfg: Config, states: seq<System>) {
    && states != [] && states[0] == START
    && forall i :: 0 <= i < |states| - 1 ==> StepAt(cfg, states, i)
  }

  lemma {:induction false} RunKeepsInv(cfg: Config, states: seq<System>, i: nat)
    requires Fenced(cfg) && Run(cfg, states) && i < |states|
    ensures Inv(cfg, states[i])
  {
    if i == 0 {
      StartInv(cfg);
    } else {
      RunKeepsInv(cfg, states, i - 1);
      assert StepAt(cfg, states, i - 1);
      if states[i] != states[i - 1] {
        var ev :| Allowed(cfg, states[i - 1], ev) && states[i] == Occur(cfg, states[i - 1], ev);
        EventKeepsInv(cfg, states[i - 1], ev);
      }
    }
  }

  /** What a reader is routed to: the published object if there is one, the hot rows otherwise. */
  function Content(sys: System, b: BucketId): Option<seq<Record>> {
    var c := At(sys, b);
    match c.state
    case Archived(key, _) => if key in sys.objects then Some(sys.objects[key].records) else None
    case _ => Some(c.records)
  }

  /**
   Nothing is lost, altered or invented: in every state of every run, every bucket's logical
   content is exactly its committed appends in clustering order, and the hot rows are either all
   of them or, after cleanup of a published bucket, none.
   */
  lemma NothingLost(cfg: Config, states: seq<System>, i: nat, b: BucketId)
    requires Fenced(cfg) && Run(cfg, states) && i < |states|
    ensures Content(states[i], b) == Some(Expected(states[i], b))
    ensures IsStableSortOf(Expected(states[i], b), LogOf(states[i], b))
    ensures At(states[i], b).records == Expected(states[i], b) ||
            (At(states[i], b).records == [] && At(states[i], b).state.Archived? && At(states[i], b).state.hotDeleted)
  {
    RunKeepsInv(cfg, states, i);
    assert ContentOk(states[i], b);
    StableSortIsStableSort(LogOf(states[i], b));
  }
}
