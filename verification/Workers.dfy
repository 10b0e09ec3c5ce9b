/**
 The archive worker programs (src/application/durable_archive_recovery.rs,
 src/application/durable_archive.rs) running concurrently with appends. Each step is one store or
 archive call. A call may fail without effect, take effect with its reply lost, or be followed by
 a failed renewal, which ends the program after the operation it supervised has run.
 */
module Workers {
  import opened Common
  import opened Records
  import opened Tiling
  import opened Cutover

  datatype Program = RecoverCutover | RecoverCleanup | DirectCutover

  datatype Pc =
    | Claiming
    | Snapshotting
    | Uploading(records: seq<Record>)
    | Publishing(key: string)
    | CheckingState
    | Cleaning
    | Reopening
    | DeferringCleanup
    | Stopped

  datatype Worker = Worker(program: Program, bucket: BucketId, session: Option<Session>, pc: Pc)

  /** After a failed snapshot or upload both programs reopen the bucket: one defers, one aborts. */
  predicate AfterFailure(w: Worker, pc: Pc) {
    pc.Reopening? || pc.Stopped?
  }

  /** A published cutover goes on to cleanup; a failed publish is looked into only by the recovery program. */
  predicate AfterPublish(w: Worker, replied: bool, pc: Pc) {
    || pc.Stopped?
    || (replied && pc.Cleaning?)
    || (!replied && w.program.RecoverCutover? && pc.CheckingState?)
  }

  predicate AfterStateCheck(state: BucketState, pc: Pc) {
    || pc.Stopped?
    || (state.Archived? && !state.hotDeleted && pc.Cleaning?)
    || (state.Archiving? && pc.Reopening?)
  }

  predicate AfterCleanup(w: Worker, pc: Pc) {
    pc.Stopped? || (!w.program.DirectCutover? && pc.DeferringCleanup?)
  }

  function ClaimAction(p: Program, token: string): Action {
    if p.RecoverCleanup? then ClaimCleanup(token) else Claim(token)
  }

  /** The store or archive took the call. */
  predicate Took(cfg: Config, sys: System, ev: Event, sys': System) {
    Accepted(sys, ev) && sys' == Occur(cfg, sys, ev)
  }

  /** One step of a worker's program. Crashes and failed renewals stop it at any point. */
  ghost predicate WorkerStep(cfg: Config, sys: System, w: Worker, sys': System, w': Worker) {
    && w'.program == w.program && w'.bucket == w.bucket
    && match w.pc
       case Claiming => ClaimStep(cfg, sys, w, sys', w')
       case Stopped => sys' == sys && w' == w
       case _ => w.session.Some? && w'.session == w.session && OwnerStep(cfg, sys, w, w.session.value, sys', w'.pc)
  }

  ghost predicate ClaimStep(cfg: Config, sys: System, w: Worker, sys': System, w': Worker) {
    || (sys' == sys && w'.session == w.session && w'.pc.Stopped?)
    || exists token: string ::
         && Took(cfg, sys, OnBucket(w.bucket, ClaimAction(w.program, token)), sys')
         && (|| (w'.session == w.session && w'.pc.Stopped?)
             || (&& w'.session == Some(Session(w.bucket, token, At(sys, w.bucket).generation + 1))
                 && w'.pc == if w.program.RecoverCleanup? then Cleaning else Snapshotting))
  }

  ghost predicate OwnerStep(cfg: Config, sys: System, w: Worker, s: Session, sys': System, pc': Pc) {
    match w.pc
    case Snapshotting =>
      || (sys' == sys && AfterFailure(w, pc'))
      || (Took(cfg, sys, TakeSnapshot(s), sys') && (pc'.Stopped? || pc' == Uploading(At(sys, s.bucket).records)))
    case Uploading(rs) =>
      || (sys' == sys && AfterFailure(w, pc'))
      || (Took(cfg, sys, Upload(s, rs), sys') &&
          (AfterFailure(w, pc') || pc' == Publishing(cfg.naming(s.bucket, s.generation, rs))))
    case Publishing(key) =>
      || (sys' == sys && AfterPublish(w, false, pc'))
      || (Took(cfg, sys, OnBucket(s.bucket, Publish(s, key)), sys') && exists replied :: AfterPublish(w, replied, pc'))
    case CheckingState => sys' == sys && AfterStateCheck(At(sys, w.bucket).state, pc')
    case Cleaning =>
      || (sys' == sys && AfterCleanup(w, pc'))
      || (Took(cfg, sys, OnBucket(s.bucket, Delete(s)), sys') && AfterCleanup(w, pc'))
    case Reopening =>
      (sys' == sys || Took(cfg, sys, OnBucket(s.bucket, Reopen(s)), sys')) && pc'.Stopped?
    case DeferringCleanup => sys' == sys && pc'.Stopped?
    case _ => false
  }

  // ----- the discipline each program keeps -----

  /** A worker knows only what it was told: its session by a claim, its records by a snapshot, its key by an upload of them. */
  ghost predicate Informed(cfg: Config, sys: System, w: Worker) {
    && w.bucket in cfg.buckets
    && (w.pc.Claiming? || w.pc.Stopped? || w.session.Some?)
    && (w.session.Some? ==> w.session.value in sys.issued && w.session.value.bucket == w.bucket)
    && (w.pc.Uploading? ==> (w.session.value, w.pc.records) in sys.snapshots)
    && (w.pc.Publishing? ==> (w.session.value, w.pc.key) in sys.uploads)
  }

  /** Knowledge is never taken back, whatever anyone does. */
  lemma StaysInformed(cfg: Config, sys: System, sys': System, w: Worker)
    requires Informed(cfg, sys, w)
    requires sys.issued <= sys'.issued && sys.snapshots <= sys'.snapshots && sys.uploads <= sys'.uploads
    ensures Informed(cfg, sys', w)
  {
  }

  lemma TookGrows(cfg: Config, sys: System, ev: Event, sys': System)
    requires Took(cfg, sys, ev, sys')
    ensures sys.issued <= sys'.issued && sys.snapshots <= sys'.snapshots && sys.uploads <= sys'.uploads
  {
  }

  ghost predicate Advances(cfg: Config, sys: System, sys': System) {
    && Step(cfg, sys, sys')
    && sys.issued <= sys'.issued && sys.snapshots <= sys'.snapshots && sys.uploads <= sys'.uploads
  }

  lemma TookAdvances(cfg: Config, sys: System, ev: Event, sys': System)
    requires Took(cfg, sys, ev, sys') && Disciplined(cfg, sys, ev)
    ensures Advances(cfg, sys, sys')
  {
    TookGrows(cfg, sys, ev, sys');
    assert Allowed(cfg, sys, ev) && sys' == Occur(cfg, sys, ev);
  }

  lemma ClaimStepRefines(cfg: Config, sys: System, w: Worker, sys': System, w': Worker)
    requires Informed(cfg, sys, w) && w.pc.Claiming? && WorkerStep(cfg, sys, w, sys', w')
    ensures Advances(cfg, sys, sys') && Informed(cfg, sys', w')
  {
    if !(sys' == sys && w'.session == w.session && w'.pc.Stopped?) {
      var token: string :|
        && Took(cfg, sys, OnBucket(w.bucket, ClaimAction(w.program, token)), sys')
        && (|| (w'.session == w.session && w'.pc.Stopped?)
            || (&& w'.session == Some(Session(w.bucket, token, At(sys, w.bucket).generation + 1))
                && w'.pc == if w.program.RecoverCleanup? then Cleaning else Snapshotting));
      TookAdvances(cfg, sys, OnBucket(w.bucket, ClaimAction(w.program, token)), sys');
    }
  }

  /** What an informed owner may do is always a disciplined protocol event, and leaves it informed. */
  lemma OwnerStepRefines(cfg: Config, sys: System, w: Worker, sys': System, w': Worker)
    requires Informed(cfg, sys, w) && !w.pc.Claiming? && WorkerStep(cfg, sys, w, sys', w')
    ensures Advances(cfg, sys, sys') && Informed(cfg, sys', w')
  {
    if sys' != sys {
      var s := w.session.value;
      match w.pc
      case Snapshotting => TookAdvances(cfg, sys, TakeSnapshot(s), sys');
      case Uploading(rs) => TookAdvances(cfg, sys, Upload(s, rs), sys');
      case Publishing(key) => TookAdvances(cfg, sys, OnBucket(s.bucket, Publish(s, key)), sys');
      case Cleaning => TookAdvances(cfg, sys, OnBucket(s.bucket, Delete(s)), sys');
      case Reopening => TookAdvances(cfg, sys, OnBucket(s.bucket, Reopen(s)), sys');
    } else if w.pc.Snapshotting? && w'.pc.Uploading? {
      assert (w.session.value, w'.pc.records) in sys.snapshots + {(w.session.value, At(sys, w.bucket).records)};
    } else if w.pc.Uploading? && w'.pc.Publishing? {
      assert (w.session.value, w'.pc.key) in sys.uploads + {(w.session.value, w'.pc.key)};
    }
  }

  // ----- any number of workers and writers -----

  datatype Cluster = Cluster(system: System, workers: map<nat, Worker>)

  ghost predicate AllInformed(cfg: Config, c: Cluster) {
    forall i :: i in c.workers ==> Informed(cfg, c.system, c.workers[i])
  }

  /** One worker moves, one writer appends, or a new worker begins on some bucket. */
  ghost predicate ClusterStep(cfg: Config, c: Cluster, c': Cluster) {
    || (exists i, w' :: i in c.workers && c'.workers == c.workers[i := w']
          && WorkerStep(cfg, c.system, c.workers[i], c'.system, w'))
    || (exists b, r :: c'.workers == c.workers && b in cfg.buckets
          && Took(cfg, c.system, OnBucket(b, Append(r)), c'.system))
    || (exists i: nat, p, b :: i !in c.workers && b in cfg.buckets && c'.system == c.system
          && c'.workers == c.workers[i := Worker(p, b, None, Claiming)])
  }

  lemma WorkerMoveRefines(cfg: Config, c: Cluster, c': Cluster, i: nat, w': Worker)
    requires AllInformed(cfg, c) && i in c.workers && c'.workers == c.workers[i := w']
    requires WorkerStep(cfg, c.system, c.workers[i], c'.system, w')
    ensures Step(cfg, c.system, c'.system) && AllInformed(cfg, c')
  {
    var w := c.workers[i];
    if w.pc.Claiming? {
      ClaimStepRefines(cfg, c.system, w, c'.system, w');
    } else {
      OwnerStepRefines(cfg, c.system, w, c'.system, w');
    }
    forall j | j in c'.workers ensures Informed(cfg, c'.system, c'.workers[j]) {
      if j != i { StaysInformed(cfg, c.system, c'.system, c.workers[j]); }
    }
  }

  lemma AppendRefines(cfg: Config, c: Cluster, c': Cluster, b: BucketId, r: Record)
    requires AllInformed(cfg, c) && c'.workers == c.workers && b in cfg.buckets
    requires Took(cfg, c.system, OnBucket(b, Append(r)), c'.system)
    ensures Step(cfg, c.system, c'.system) && AllInformed(cfg, c')
  {
    TookAdvances(cfg, c.system, OnBucket(b, Append(r)), c'.system);
    forall j | j in c'.workers ensures Informed(cfg, c'.system, c'.workers[j]) {
      StaysInformed(cfg, c.system, c'.system, c.workers[j]);
    }
  }

  lemma ClusterStepRefines(cfg: Config, c: Cluster, c': Cluster)
    requires AllInformed(cfg, c) && ClusterStep(cfg, c, c')
    ensures Step(cfg, c.system, c'.system) && AllInformed(cfg, c')
  {
    if i, w' :| i in c.workers && c'.workers == c.workers[i := w']
                && WorkerStep(cfg, c.system, c.workers[i], c'.system, w') {
      WorkerMoveRefines(cfg, c, c', i, w');
    } else if b, r :| c'.workers == c.workers && b in cfg.buckets
                      && Took(cfg, c.system, OnBucket(b, Append(r)), c'.system) {
      AppendRefines(cfg, c, c', b, r);
    }
  }

  ghost predicate ClusterStepAt(cfg: Config, run: seq<Cluster>, i: int)
    requires 0 <= i < |run| - 1
  {
    ClusterStep(cfg, run[i], run[i + 1])
  }

  ghost predicate ClusterRun(cfg: Config, run: seq<Cluster>) {
    && run != [] && run[0] == Cluster(START, map[])
    && forall i :: 0 <= i < |run| - 1 ==> ClusterStepAt(cfg, run, i)
  }

  function Systems(run: seq<Cluster>): (r: seq<System>)
    ensures |r| == |run| && forall i :: 0 <= i < |run| ==> r[i] == run[i].system
  {
    seq(|run|, i requires 0 <= i < |run| => run[i].system)
  }

  lemma {:induction false} ClusterInformed(cfg: Config, run: seq<Cluster>, i: nat)
    requires ClusterRun(cfg, run) && i < |run|
    ensures AllInformed(cfg, run[i])
  {
    if i > 0 {
      ClusterInformed(cfg, run, i - 1);
      assert ClusterStepAt(cfg, run, i - 1);
      ClusterStepRefines(cfg, run[i - 1], run[i]);
    }
  }

  /** Forgetting the workers' program counters turns a run of the programs into a run of the protocol. */
  lemma ClusterRunRefines(cfg: Config, run: seq<Cluster>)
    requires ClusterRun(cfg, run)
    ensures Run(cfg, Systems(run))
  {
    var states := Systems(run);
    forall i | 0 <= i < |states| - 1 ensures StepAt(cfg, states, i) {
      ClusterInformed(cfg, run, i);
      assert ClusterStepAt(cfg, run, i);
      ClusterStepRefines(cfg, run[i], run[i + 1]);
    }
  }

  /** Whatever the workers do and whenever they fail, readers see exactly the committed appends. */
  lemma ProgramsLoseNothing(cfg: Config, run: seq<Cluster>, i: nat, b: BucketId)
    requires Fenced(cfg) && ClusterRun(cfg, run) && i < |run|
    ensures Content(run[i].system, b) == Some(Expected(run[i].system, b))
  {
    ClusterRunRefines(cfg, run);
    NothingLost(cfg, Systems(run), i, b);
  }
}
