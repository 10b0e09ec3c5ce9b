/**
 One bounded cycle of the archive coordinator (src/application/durable_archive_recovery.rs), and cycles
 until nothing is left. The durable store answers as in `BucketStore`; the clock, owner tokens, archive
 replies, lost replies, the renewals that happen while an operation runs, and anything other replicas do
 to the store come from a script.
 */
module Recovery {
  import opened Common
  import opened Records
  import opened Tiling
  import opened Cutover
  import opened BucketStore
  import opened Discovery

  datatype RecoveryConfig = RecoveryConfig(
    eligibleBefore: int, scanLimit: nat, leaseFor: nat, leaseRenewalInterval: nat, retryBackoff: nat)

  datatype RecoveryError = InvalidConfig | DurableStore(reason: StoreError) | UploadFailed

  datatype Outcome = Outcome(discovered: nat, claimed: nat, completed: nat, deferred: nat)

  predicate ConfigAccepted(c: RecoveryConfig) {
    c.scanLimit > 0 && c.leaseFor > 0 && 0 < c.leaseRenewalInterval < c.leaseFor && c.retryBackoff > 0
  }

  // ----- the script -----

  /** A call may fail without effect or take effect with its reply lost. */
  datatype Fault = Reliable | FailsBefore | ReplyLost

  datatype Renewal = Renewal(now: int, fault: Fault)

  /**
   What surrounds a call: others may have changed the store arbitrarily before it, the renewer renews the
   held session while it runs, and a renewal may fail after the call took effect.
   */
  datatype Moment = Moment(
    now: int, token: string, renewals: seq<Renewal>,
    others: Option<map<BucketId, Entry>>, fault: Fault, renewalFails: bool)

  /** The key an archive returns for a bucket's records under a generation. */
  type Naming = (BucketId, nat, seq<Record>) -> string

  /** A cycle: the discovery, and for each item its calls, of which the first is the claim. */
  datatype Cycle = Cycle(discovery: Moment, items: nat -> nat -> Moment)

  /** When the lease was last set, by the last of the renewals or at `last`. */
  function LastTouch(renewals: seq<Renewal>, last: int): int {
    if renewals == [] then last else renewals[|renewals| - 1].now
  }

  /** Each renewal gets through before the lease set by the one before it ends. */
  ghost predicate InTime(renewals: seq<Renewal>, last: int, leaseFor: nat) {
    forall i :: 0 <= i < |renewals| ==>
      && renewals[i].fault.Reliable? && renewals[i].now + leaseFor <= INSTANT_MAX
      && renewals[i].now < LastTouch(renewals[..i], last) + leaseFor
  }

  /** When the lease of an item's session was last set, at the end of its call `k`. */
  function Touched(calls: nat -> Moment, k: nat): int {
    if k == 0 then calls(0).now else LastTouch(calls(k).renewals, Touched(calls, k - 1))
  }

  predicate Quiet(m: Moment) {
    m.others.None? && m.fault.Reliable? && !m.renewalFails
  }

  /** Nothing fails, and from the claim on the gaps between renewals stay below the lease, however long a call takes. */
  ghost predicate CalmCall(c: RecoveryConfig, calls: nat -> Moment, k: nat) {
    && Quiet(calls(k))
    && (k == 0 ==> calls(0).now + c.leaseFor <= INSTANT_MAX)
    && (k > 0 ==> InTime(calls(k).renewals, Touched(calls, k - 1), c.leaseFor) && calls(k).now < Touched(calls, k) + c.leaseFor)
  }

  ghost predicate CalmItem(c: RecoveryConfig, calls: nat -> Moment) {
    forall k: nat :: k <= 4 ==> CalmCall(c, calls, k)
  }

  /** A cycle without faults and interference in which items are claimed after they were discovered. */
  ghost predicate CalmCycle(c: RecoveryConfig, cycle: Cycle) {
    && Quiet(cycle.discovery)
    && forall i: nat :: CalmItem(c, cycle.items(i)) && cycle.discovery.now <= cycle.items(i)(0).now
  }

  // ----- what an item can end in -----

  predicate Finished(e: Entry) {
    e.state.Archived? && e.state.hotDeleted && e.records == []
  }

  /** The bucket was carried to the end of its cutover; a key published earlier is still its key. */
  predicate Completes(e: Entry, e': Entry) {
    Finished(e') && (e.state.Archived? ==> e'.state.objectKey == e.state.objectKey)
  }

  /** The bucket waits for a retry: reopened, or published with its rows and its lease running to the retry time. */
  predicate Deferred(e: Entry, s: Session) {
    && e.generation == s.generation && e.nextAttemptAt.Some?
    && (|| (e.state.Hot? && e.owner.None? && e.ownerExpiresAt.None?)
        || (e.state.Archived? && !e.state.hotDeleted && e.ownerExpiresAt == e.nextAttemptAt))
  }

  /** What an owner's run on its session may report: a completion, or an error and at most one deferral, each as the store has it. */
  ghost predicate Reports(before: Outcome, after: Outcome, ok: bool, buckets: map<BucketId, Entry>, s: Session) {
    && after.discovered == before.discovered && after.claimed == before.claimed
    && (ok ==> && after.completed == before.completed + 1 && after.deferred == before.deferred
               && s.bucket in buckets && Finished(buckets[s.bucket]))
    && (!ok ==> && after.completed == before.completed && before.deferred <= after.deferred <= before.deferred + 1
                && (after.deferred > before.deferred ==> s.bucket in buckets && Deferred(buckets[s.bucket], s)))
  }

  ghost predicate Tallies(before: Outcome, after: Outcome) {
    && after.discovered == before.discovered && after.deferred == before.deferred
    && after.completed - before.completed == after.claimed - before.claimed
    && before.claimed <= after.claimed <= before.claimed + 1
  }

  class DurableArchiveRecoveryRunner {
    var buckets: map<BucketId, Entry>
    var objects: map<string, seq<Record>>       // what the archive was given under each key
    var outcome: Outcome
    var cycle: nat                               // where in the script the runner is
    var item: nat
    var call: nat
    const config: RecoveryConfig
    const naming: Naming
    const script: nat -> Cycle
    const order: (BucketId, BucketId) -> bool

    constructor (
      config: RecoveryConfig, naming: Naming, script: nat -> Cycle, order: (BucketId, BucketId) -> bool, buckets: map<BucketId, Entry>)
      ensures this.config == config && this.naming == naming && this.script == script && this.order == order
      ensures this.buckets == buckets && cycle == 0
    {
      this.config, this.naming, this.script, this.order := config, naming, script, order;
      this.buckets, objects, outcome := buckets, map[], Outcome(0, 0, 0, 0);
      cycle, item, call := 0, 0, 0;
    }

    /** A runner exists only for an acceptable configuration. */
    static method WithConfig(
      config: RecoveryConfig, naming: Naming, script: nat -> Cycle, order: (BucketId, BucketId) -> bool, buckets: map<BucketId, Entry>)
      returns (r: Result<DurableArchiveRecoveryRunner, RecoveryError>)
      ensures r.Ok? <==> ConfigAccepted(config)
      ensures r.Ok? ==> fresh(r.value) && r.value.config == config && r.value.buckets == buckets
      ensures r.Err? ==> r.error == InvalidConfig
    {
      if config.scanLimit == 0 || config.leaseFor == 0 || config.leaseRenewalInterval == 0
         || config.leaseRenewalInterval >= config.leaseFor || config.retryBackoff == 0 {
        return Err(InvalidConfig);
      }
      var runner := new DurableArchiveRecoveryRunner(config, naming, script, order, buckets);
      r := Ok(runner);
    }

    // ----- calls -----

    /** The calls of the current item. */
    function Calls(): nat -> Moment
      reads this
    {
      script(cycle).items(item)
    }

    method Tick() returns (m: Moment)
      modifies `buckets, `call
      ensures m == Calls()(old(call)) && call == old(call) + 1
      ensures m.others.None? ==> buckets == old(buckets)
    {
      m := script(cycle).items(item)(call);
      call := call + 1;
      if m.others.Some? {
        buckets := m.others.value;
      }
    }

    method Deliver(fault: Fault, b: BucketId, call: Call) returns (r: Result<Answer, StoreError>)
      modifies `buckets
      ensures fault.Reliable? && b in old(buckets) ==>
                && r == Perform(old(buckets)[b], call).outcome
                && buckets == old(buckets)[b := Perform(old(buckets)[b], call).entry]
      ensures r.Ok? && CallerOf(call).Some? ==>
                && b in old(buckets) && b in buckets
                && Perform(old(buckets)[b], call) == Reply(buckets[b], r)
    {
      if fault.FailsBefore? {
        return Err(OperationFailed);
      }
      var reply := Perform(if b in buckets then buckets[b] else DEFAULT_ENTRY, call);
      if b in buckets || call.ClaimArchiveCall? {
        buckets := buckets[b := reply.entry];
      }
      r := if fault.ReplyLost? then Err(OperationFailed) else reply.outcome;
    }

    /** The session owns its bucket on a lease that ends at `until`. */
    ghost predicate Owns(s: Session, until: int)
      reads this
    {
      s.bucket in buckets && Leased(buckets[s.bucket], s) && buckets[s.bucket].ownerExpiresAt == Some(until)
    }

    /** The session's lease is as old as the script's last renewal before the current call. */
    ghost predicate OnLease(s: Session)
      reads this
    {
      0 < call <= 4 && Owns(s, Touched(Calls(), call - 1) + config.leaseFor)
    }

    /** Nothing goes wrong in the current item, which is about to make call `k` on its lease. */
    ghost predicate CalmAt(s: Session, k: nat)
      reads this
    {
      CalmItem(config, Calls()) && config.leaseFor > 0 && call == k && OnLease(s)
    }

    /** The renewer's loop while an operation runs: it stops at its first failure. */
    method Renew(s: Session, renewals: seq<Renewal>, ghost last: int) returns (failure: Option<StoreError>)
      modifies `buckets
      ensures old(Owns(s, last + config.leaseFor)) && InTime(renewals, last, config.leaseFor) && config.leaseFor > 0 ==>
                && failure.None?
                && buckets == old(buckets)[s.bucket := old(buckets)[s.bucket].(
                     ownerExpiresAt := Some(LastTouch(renewals, last) + config.leaseFor))]
    {
      ghost var kept := Owns(s, last + config.leaseFor) && InTime(renewals, last, config.leaseFor) && config.leaseFor > 0;
      ghost var before := buckets;
      var i := 0;
      while i < |renewals|
        invariant 0 <= i <= |renewals|
        invariant kept ==> buckets == before[s.bucket := before[s.bucket].(
                             ownerExpiresAt := Some(LastTouch(renewals[..i], last) + config.leaseFor))]
      {
        assert kept ==> renewals[i].now < LastTouch(renewals[..i], last) + config.leaseFor;
        var expiresAt := LeaseDeadline(renewals[i].now, config.leaseFor);
        if expiresAt.Err? {
          return Some(expiresAt.error);
        }
        var renewed := Deliver(renewals[i].fault, s.bucket, RenewCall(s, renewals[i].now, expiresAt.value));
        if renewed.Err? {
          return Some(renewed.error);
        }
        assert renewals[..i + 1][i] == renewals[i];
        i := i + 1;
      }
      assert renewals[..i] == renewals;
      failure := None;
    }

    /** Starts a supervised operation: the renewals that happen while it runs, and whether one is seen to fail. */
    method Supervise(s: Session) returns (m: Moment, failure: Option<StoreError>)
      modifies `buckets, `call
      ensures m == Calls()(old(call)) && call == old(call) + 1
      ensures CalmItem(config, Calls()) && config.leaseFor > 0 && old(OnLease(s)) ==>
                && failure.None? && m.fault.Reliable?
                && m.now < Touched(Calls(), old(call)) + config.leaseFor
                && buckets == old(buckets)[s.bucket := old(buckets)[s.bucket].(
                     ownerExpiresAt := Some(Touched(Calls(), old(call)) + config.leaseFor))]
    {
      ghost var calm := CalmItem(config, Calls()) && config.leaseFor > 0 && OnLease(s);
      if calm { assert CalmCall(config, Calls(), call); }
      m := Tick();
      failure := Renew(s, m.renewals, if call > 1 then Touched(Calls(), call - 2) else 0);
      if failure.None? && m.renewalFails {
        failure := Some(OperationFailed);
      }
    }

    // ----- the steps of one item -----

    method FinishCleanup(s: Session) returns (r: Result<(), RecoveryError>)
      modifies this
      ensures cycle == old(cycle) && item == old(item)
      ensures Reports(old(outcome), outcome, r.Ok?, buckets, s)
      ensures old(CalmAt(s, call)) && old(buckets)[s.bucket].state.Archived? ==>
                && r.Ok? && Completes(old(buckets)[s.bucket], buckets[s.bucket])
                && buckets == old(buckets)[s.bucket := buckets[s.bucket]] && objects == old(objects)
    {
      var m, failure := Supervise(s);
      var deleted := Deliver(m.fault, s.bucket, DeleteHotCall(s, m.now));
      if failure.Some? {
        return Err(DurableStore(failure.value));
      }
      if deleted.Ok? {
        outcome := outcome.(completed := outcome.completed + 1);
        return Ok(());
      }
      var error, _ := Defer(s, true, deleted.error);
      r := Err(error);
    }

    /** Gives the session's work up until the retry time; `recorded` when the store says so. */
    method Defer(s: Session, cleanup: bool, reason: StoreError) returns (error: RecoveryError, recorded: bool)
      modifies this
      ensures cycle == old(cycle) && item == old(item) && objects == old(objects)
      ensures outcome == if recorded then old(outcome).(deferred := old(outcome).deferred + 1) else old(outcome)
      ensures recorded ==> s.bucket in buckets && Deferred(buckets[s.bucket], s)
      ensures recorded ==> buckets[s.bucket].state.Hot? == !cleanup
      ensures recorded ==> buckets[s.bucket].nextAttemptAt == Some(Calls()(old(call)).now + config.retryBackoff)
      ensures recorded ==> error == DurableStore(reason)
    {
      var m, failure := Supervise(s);
      var retryAt := LeaseDeadline(m.now, config.retryBackoff);
      var deferred := Err(OperationFailed);
      if retryAt.Ok? {
        deferred := Deliver(m.fault, s.bucket,
          if cleanup then DeferCleanupCall(s, m.now, retryAt.value) else DeferArchiveCall(s, m.now, retryAt.value));
      }
      if failure.Some? {
        return DurableStore(failure.value), false;
      }
      if deferred.Err? {
        return DurableStore(deferred.error), false;
      }
      outcome := outcome.(deferred := outcome.deferred + 1);
      return DurableStore(reason), true;
    }

    /** A publish that reported an error may have taken effect: durable state decides how to go on. */
    method ResolvePublish(s: Session, reason: StoreError) returns (r: Result<(), RecoveryError>)
      modifies this
      ensures cycle == old(cycle) && item == old(item)
      ensures Reports(old(outcome), outcome, r.Ok?, buckets, s)
    {
      var m, failure := Supervise(s);
      if failure.Some? || !m.fault.Reliable? {
        return Err(DurableStore(OperationFailed));
      }
      var state := if s.bucket in buckets then buckets[s.bucket].state else Hot;
      if state.Archived? && !state.hotDeleted {
        r := FinishCleanup(s);
      } else if state.Archiving? {
        var error, _ := Defer(s, false, reason);
        r := Err(error);
      } else {
        r := Err(DurableStore(reason));
      }
    }

    method PublishAndClean(s: Session, key: string) returns (r: Result<(), RecoveryError>)
      modifies this
      ensures cycle == old(cycle) && item == old(item)
      ensures Reports(old(outcome), outcome, r.Ok?, buckets, s)
      ensures old(CalmAt(s, 3)) && old(buckets)[s.bucket].state.Archiving? ==>
                && r.Ok? && buckets[s.bucket].state.objectKey == key
                && buckets == old(buckets)[s.bucket := buckets[s.bucket]] && objects == old(objects)
    {
      var m, failure := Supervise(s);
      var published := Deliver(m.fault, s.bucket, PublishCall(s, key, m.now));
      if failure.Some? {
        return Err(DurableStore(failure.value));
      }
      if published.Err? {
        r := ResolvePublish(s, published.error);
        return r;
      }
      r := FinishCleanup(s);
    }

    method UploadAndPublish(s: Session, records: seq<Record>) returns (r: Result<(), RecoveryError>)
      modifies this
      ensures cycle == old(cycle) && item == old(item)
      ensures Reports(old(outcome), outcome, r.Ok?, buckets, s)
      ensures old(CalmAt(s, 2)) && old(buckets)[s.bucket].state.Archiving? ==>
                && r.Ok? && buckets[s.bucket].state.objectKey == naming(s.bucket, s.generation, records)
                && objects == old(objects)[naming(s.bucket, s.generation, records) := records]
                && buckets == old(buckets)[s.bucket := buckets[s.bucket]]
    {
      var m, failure := Supervise(s);
      var key := naming(s.bucket, s.generation, records);
      if !m.fault.FailsBefore? {
        objects := objects[key := records];
      }
      if failure.Some? {
        return Err(DurableStore(failure.value));
      }
      if !m.fault.Reliable? {
        var error, recorded := Defer(s, false, OperationFailed);
        return Err(if recorded then UploadFailed else error);
      }
      r := PublishAndClean(s, key);
    }

    method RecoverClaimedCutover(s: Session) returns (r: Result<(), RecoveryError>)
      modifies this
      ensures cycle == old(cycle) && item == old(item)
      ensures Reports(old(outcome), outcome, r.Ok?, buckets, s)
      ensures old(CalmAt(s, 1)) && old(buckets)[s.bucket].state.Archiving? ==>
                var rows := old(buckets)[s.bucket].records;
                && r.Ok? && buckets[s.bucket].state.objectKey == naming(s.bucket, s.generation, rows)
                && objects == old(objects)[naming(s.bucket, s.generation, rows) := rows]
                && buckets == old(buckets)[s.bucket := buckets[s.bucket]]
    {
      var m, failure := Supervise(s);
      var snapshot := Deliver(m.fault, s.bucket, SnapshotCall(s, m.now));
      if failure.Some? {
        return Err(DurableStore(failure.value));
      }
      if snapshot.Err? {
        var error, _ := Defer(s, false, snapshot.error);
        return Err(error);
      }

      r := UploadAndPublish(s, snapshot.value.records);
    }

    method RecoverCutover(b: BucketId) returns (r: Result<(), RecoveryError>)
      modifies this
      ensures cycle == old(cycle) && item == old(item)
      ensures r.Ok? ==> Tallies(old(outcome), outcome)
      ensures r.Ok? && outcome.completed > old(outcome).completed ==> b in buckets && Finished(buckets[b])
      ensures CalmItem(config, old(Calls())) && config.leaseFor > 0 && old(call) == 0 && b in old(buckets) &&
              CutoverClaimable(old(buckets)[b], old(Calls())(0).now) && old(buckets)[b].generation < U64_MAX ==>
                && r.Ok? && outcome.claimed == old(outcome).claimed + 1
                && b in buckets && Completes(old(buckets)[b], buckets[b])
                && Shelves(naming, b, old(buckets)[b], buckets[b], old(objects), objects)
                && buckets == old(buckets)[b := buckets[b]]
    {
      if CalmItem(config, Calls()) { assert CalmCall(config, Calls(), 0); }
      var m := Tick();
      var deadline := LeaseDeadline(m.now, config.leaseFor);
      if deadline.Err? {
        return Err(DurableStore(deadline.error));
      }
      var claim := Deliver(m.fault, b, ClaimArchiveCall(m.token, m.now, deadline.value));
      if claim.Err? {
        return Err(DurableStore(claim.error));
      }
      if !claim.value.Claimed? {
        return Ok(());
      }
      outcome := outcome.(claimed := outcome.claimed + 1);
      r := RecoverClaimedCutover(Session(b, m.token, claim.value.generation));
    }

    method RecoverCleanup(b: BucketId) returns (r: Result<(), RecoveryError>)
      modifies this
      ensures cycle == old(cycle) && item == old(item)
      ensures r.Ok? ==> Tallies(old(outcome), outcome)
      ensures r.Ok? && outcome.completed > old(outcome).completed ==> b in buckets && Finished(buckets[b])
      ensures CalmItem(config, old(Calls())) && config.leaseFor > 0 && old(call) == 0 && b in old(buckets) &&
              CleanupClaimable(old(buckets)[b], old(Calls())(0).now) && old(buckets)[b].generation < U64_MAX ==>
                && r.Ok? && outcome.claimed == old(outcome).claimed + 1
                && b in buckets && Completes(old(buckets)[b], buckets[b])
                && Shelves(naming, b, old(buckets)[b], buckets[b], old(objects), objects)
                && buckets == old(buckets)[b := buckets[b]]
    {
      if CalmItem(config, Calls()) { assert CalmCall(config, Calls(), 0); }
      var m := Tick();
      var deadline := LeaseDeadline(m.now, config.leaseFor);
      if deadline.Err? {
        return Err(DurableStore(deadline.error));
      }
      var claim := Deliver(m.fault, b, ClaimCleanupCall(m.token, m.now, deadline.value));
      if claim.Err? {
        return Err(DurableStore(claim.error));
      }
      if !claim.value.Claimed? {
        return Ok(());
      }
      outcome := outcome.(claimed := outcome.claimed + 1);
      r := FinishCleanup(Session(b, m.token, claim.value.generation));
    }

    method RecoverItem(work: Work) returns (r: Result<(), RecoveryError>)
      modifies this
      ensures cycle == old(cycle) && item == old(item)
      ensures r.Ok? ==> Tallies(old(outcome), outcome)
      ensures r.Ok? && outcome.completed > old(outcome).completed ==> work.bucket in buckets && Finished(buckets[work.bucket])
      ensures CalmItem(config, old(Calls())) && config.leaseFor > 0 && old(call) == 0 && work.bucket in old(buckets) &&
              ItemReady(work, old(buckets)[work.bucket], old(Calls())(0).now) ==>
                && r.Ok? && outcome.claimed == old(outcome).claimed + 1
                && work.bucket in buckets && Completes(old(buckets)[work.bucket], buckets[work.bucket])
                && Shelves(naming, work.bucket, old(buckets)[work.bucket], buckets[work.bucket], old(objects), objects)
                && buckets == old(buckets)[work.bucket := buckets[work.bucket]]
    {
      match work {
        case CleanupWork(bucket) => r := RecoverCleanup(bucket);
        case CutoverWork(bucket) => r := RecoverCutover(bucket);
      }
    }

    // ----- cycles -----

    /** The loop over the discovered items; the first error ends the cycle. */
    method Process(work: seq<Work>, ghost now: int, ghost base: map<BucketId, Entry>) returns (error: Option<RecoveryError>)
      requires outcome == Outcome(|work|, 0, 0, 0)
      modifies this
      ensures cycle == old(cycle)
      ensures error.None? ==>
                outcome.deferred == 0 && outcome.completed == outcome.claimed <= outcome.discovered == |work|
      ensures CalmCycle(config, script(cycle)) && config.leaseFor > 0 && now == script(cycle).discovery.now &&
              AllDue(config, old(buckets), work, now) && GenerationsLeft(config, old(buckets)) ==>
                && error.None? && outcome.claimed == |work|
                && CycleDid(old(buckets), buckets, set w | w in work :: w.bucket)
                && (KeepsRows(naming, base, old(buckets), old(objects)) ==> KeepsRows(naming, base, buckets, objects))
    {
      ghost var before := buckets;
      ghost var kept := KeepsRows(naming, base, buckets, objects);
      ghost var calm := CalmCycle(config, script(cycle)) && config.leaseFor > 0 && now == script(cycle).discovery.now
                        && AllDue(config, before, work, now) && GenerationsLeft(config, before);
      var i := 0;
      while i < |work|
        invariant 0 <= i <= |work| && cycle == old(cycle)
        invariant outcome.discovered == |work| && outcome.deferred == 0 && outcome.completed == outcome.claimed <= i
        invariant calm ==> outcome.claimed == i && CycleDid(before, buckets, Handled(work, i))
        invariant calm && kept ==> KeepsRows(naming, base, buckets, objects)
      {
        ghost var prior, given := buckets, objects;
        item, call := i, 0;
        if calm { NextIsReady(config, script(cycle), before, buckets, work, i); }
        var result := RecoverItem(work[i]);
        if result.Err? {
          return Some(result.error);
        }
        if calm { CycleExtends(before, prior, buckets, work, i); }
        if calm && kept { RowsKept(naming, base, prior, buckets, given, objects, work[i].bucket); }
        i := i + 1;
      }
      error := None;
      assert Handled(work, |work|) == (set w | w in work :: w.bucket);
    }

    /** Discovers and processes at most `scanLimit` items. Archived rows are compared with the entries `base` that work began with. */
    method RunOnce(ghost base: map<BucketId, Entry>) returns (r: Result<Outcome, RecoveryError>)
      requires TotalOrder(order)
      modifies this
      ensures cycle == old(cycle) + 1
      ensures r.Ok? ==> && r.value.deferred == 0
                        && r.value.completed == r.value.claimed <= r.value.discovered <= config.scanLimit
      ensures CalmCycle(config, script(old(cycle))) && config.leaseFor > 0 && GenerationsLeft(config, old(buckets)) ==>
                && r.Ok? && r.value.completed == r.value.discovered
                && CycleDone(config, old(buckets), buckets, script(old(cycle)).discovery.now, r.value.completed)
                && (KeepsRows(naming, base, old(buckets), old(objects)) ==> KeepsRows(naming, base, buckets, objects))
    {
      var m := script(cycle).discovery;
      if m.others.Some? {
        buckets := m.others.value;
      }
      if !m.fault.Reliable? {
        cycle := cycle + 1;
        return Err(DurableStore(OperationFailed));
      }
      var work := DiscoverArchiveWork(order, buckets, m.now, config.eligibleBefore, config.scanLimit);
      outcome := Outcome(|work|, 0, 0, 0);
      DiscoveredIsDue(config, order, buckets, m.now, work);
      var error := Process(work, m.now, base);
      cycle := cycle + 1;
      r := if error.Some? then Err(error.value) else Ok(outcome);
    }

    /** One more calm cycle of a drain that began with the entries `before`, after `cycles` others. */
    method DrainOnce(ghost before: map<BucketId, Entry>, ghost cycles: nat, ghost last: nat) returns (found: nat)
      requires TotalOrder(order) && ConfigAccepted(config) && CalmCycle(config, script(cycle))
      requires Drained(config, before, buckets) && GenerationsLeft(config, buckets)
      modifies this
      ensures cycle == old(cycle) + 1
      ensures Drained(config, before, buckets) && GenerationsLeft(config, buckets)
      ensures |PendingSet(config, buckets)| == |PendingSet(config, old(buckets))| - found
      ensures found == 0 ==> DueSet(config, buckets, script(old(cycle)).discovery.now) == {}
      ensures KeepsRows(naming, before, old(buckets), old(objects)) ==> KeepsRows(naming, before, buckets, objects)
      ensures AllRipe(config, before, script(old(cycle)).discovery.now) && last > 0 &&
              Draining(config, before, old(buckets), cycles, last) ==>
                Draining(config, before, buckets, cycles + 1, found)
    {
      ghost var prior, now := buckets, script(cycle).discovery.now;
      var r := RunOnce(before);
      DrainsOn(config, before, prior, buckets, now, r.value.completed);
      found := r.value.discovered;
      if AllRipe(config, before, now) && last > 0 && Draining(config, before, prior, cycles, last) {
        RipeIsDue(config, before, prior, now);
        NextOnCourse(|PendingSet(config, before)|, config.scanLimit, cycles, last, |PendingSet(config, prior)|);
      }
    }

    /**
     Calm cycles until one discovers nothing. What is left then is untouched and waits for a retry or a
     lease that ends later; everything else that was pending has been carried to the end.
     */
    method Drain() returns (cycles: nat)
      requires TotalOrder(order) && ConfigAccepted(config) && GenerationsLeft(config, buckets)
      requires forall k: nat :: cycle <= k ==> CalmCycle(config, script(k))
      modifies this
      ensures cycles > 0 && cycle == old(cycle) + cycles
      ensures Drained(config, old(buckets), buckets)
      ensures KeepsRows(naming, old(buckets), buckets, objects)
      ensures NoneRipe(config, buckets, script(cycle - 1).discovery.now)
      ensures old(AlwaysRipe()) ==>
                && PendingSet(config, buckets) == {}
                && JustEnough(cycles, config.scanLimit, |PendingSet(config, old(buckets))|)
    {
      ghost var before, first, ripe := buckets, cycle, AlwaysRipe();
      cycles := 0;
      var found: nat := 1;
      while found > 0
        invariant cycle == first + cycles && (found == 0 ==> cycles > 0)
        invariant Drained(config, before, buckets) && GenerationsLeft(config, buckets)
        invariant KeepsRows(naming, before, buckets, objects)
        invariant found == 0 ==> DueSet(config, buckets, script(cycle - 1).discovery.now) == {}
        invariant ripe ==> Draining(config, before, buckets, cycles, found)
        decreases |PendingSet(config, buckets)| + found
      {
        assert ripe ==> AllRipe(config, before, script(cycle).discovery.now);
        found := DrainOnce(before, cycles, found);
        cycles := cycles + 1;
      }
      DrainEnds(config, before, buckets, script(cycle - 1).discovery.now, cycles);
    }

    /** All pending work is due whenever a cycle of the rest of the script discovers. */
    ghost predicate AlwaysRipe()
      reads this
    {
      forall k: nat :: cycle <= k ==> AllRipe(config, buckets, script(k).discovery.now)
    }
  }

  // ----- what a calm cycle achieves -----

  /** Buckets with archive work left, due or not. */
  function PendingSet(c: RecoveryConfig, buckets: map<BucketId, Entry>): set<BucketId> {
    set b | b in buckets &&
      if buckets[b].state.Archived? then !buckets[b].state.hotDeleted else Eligible(b, c.eligibleBefore)
  }

  /** Claims of pending buckets can still be numbered. */
  ghost predicate GenerationsLeft(c: RecoveryConfig, buckets: map<BucketId, Entry>) {
    forall b :: b in PendingSet(c, buckets) ==> buckets[b].generation < U64_MAX
  }

  /** Retry time and lease have passed. */
  predicate RipeBy(e: Entry, now: int) {
    && (e.nextAttemptAt.Some? ==> e.nextAttemptAt.value <= now)
    && (!e.state.Hot? && e.ownerExpiresAt.Some? ==> e.ownerExpiresAt.value <= now)
  }

  ghost predicate AllRipe(c: RecoveryConfig, buckets: map<BucketId, Entry>, now: int) {
    forall b {:trigger RipeBy(buckets[b], now)} :: b in PendingSet(c, buckets) ==> RipeBy(buckets[b], now)
  }

  /** Whatever is still pending waits for a later retry time or the end of a lease. */
  ghost predicate NoneRipe(c: RecoveryConfig, buckets: map<BucketId, Entry>, now: int) {
    forall b {:trigger RipeBy(buckets[b], now)} :: b in PendingSet(c, buckets) ==> !RipeBy(buckets[b], now)
  }

  /** A pending bucket is due exactly once its retry time and its lease have passed. */
  lemma DueIffRipe(c: RecoveryConfig, buckets: map<BucketId, Entry>, now: int, b: BucketId)
    requires b in PendingSet(c, buckets)
    ensures b in DueSet(c, buckets, now) <==> RipeBy(buckets[b], now)
  {
  }

  /** The buckets a cycle could claim at `now`. */
  function DueSet(c: RecoveryConfig, buckets: map<BucketId, Entry>, now: int): set<BucketId> {
    set b | b in buckets &&
      (CleanupClaimable(buckets[b], now) || (CutoverClaimable(buckets[b], now) && Eligible(b, c.eligibleBefore)))
  }

  /** The archive names different buckets differently. */
  ghost predicate Separates(naming: Naming, buckets: map<BucketId, Entry>) {
    forall b, g, rs, c, h, ss {:trigger naming(b, g, rs), naming(c, h, ss)} ::
      b in buckets && c in buckets && naming(b, g, rs) == naming(c, h, ss) ==> b == c
  }

  /** Any archive that meets the key condition of the cutover protocol does. */
  lemma FencedSeparates(cfg: Config, buckets: map<BucketId, Entry>)
    requires Fenced(cfg) && forall b :: b in buckets ==> b in cfg.buckets
    ensures Separates(cfg.naming, buckets)
  {
    forall b, g, rs, c, h, ss {:trigger cfg.naming(b, g, rs), cfg.naming(c, h, ss)} |
      b in buckets && c in buckets && cfg.naming(b, g, rs) == cfg.naming(c, h, ss)
      ensures b == c
    {
      assert b in cfg.buckets && c in cfg.buckets;
    }
  }

  /** The key under which the next cutover of a bucket uploads its rows. */
  function KeyOf(naming: Naming, b: BucketId, e: Entry): string {
    naming(b, e.generation + 1, e.records)
  }

  /** A cutover uploads the rows and publishes their key; a cleanup leaves the archive alone. */
  ghost predicate Shelves(
    naming: Naming, b: BucketId, e: Entry, e': Entry, objects: map<string, seq<Record>>, objects': map<string, seq<Record>>)
  {
    if e.state.Archived? then objects' == objects
    else
      && objects' == objects[KeyOf(naming, b, e) := e.records]
      && e'.state.Archived? && e'.state.objectKey == KeyOf(naming, b, e)
  }

  /** Every bucket is as it was in `base`, or finished with its published key leading to the rows it had. */
  ghost predicate Shelved(
    naming: Naming, base: map<BucketId, Entry>, buckets: map<BucketId, Entry>, objects: map<string, seq<Record>>)
  {
    && buckets.Keys == base.Keys
    && forall b :: b in base ==> buckets[b] == base[b] || OnShelf(naming, b, base[b], buckets[b], objects)
  }

  ghost predicate OnShelf(naming: Naming, b: BucketId, e: Entry, e': Entry, objects: map<string, seq<Record>>) {
    && Finished(e')
    && (!e.state.Archived? ==>
          e'.state.objectKey == KeyOf(naming, b, e) && e'.state.objectKey in objects && objects[e'.state.objectKey] == e.records)
  }

  /** If the archive names different buckets differently, every bucket is shelved. */
  ghost predicate KeepsRows(
    naming: Naming, base: map<BucketId, Entry>, buckets: map<BucketId, Entry>, objects: map<string, seq<Record>>)
  {
    Separates(naming, base) ==> Shelved(naming, base, buckets, objects)
  }

  lemma RowsKept(
    naming: Naming, base: map<BucketId, Entry>, prior: map<BucketId, Entry>, after: map<BucketId, Entry>,
    objects: map<string, seq<Record>>, objects': map<string, seq<Record>>, b: BucketId)
    requires KeepsRows(naming, base, prior, objects)
    requires b in prior && b in after && !Finished(prior[b]) && Completes(prior[b], after[b]) && after == prior[b := after[b]]
    requires Shelves(naming, b, prior[b], after[b], objects, objects')
    ensures KeepsRows(naming, base, after, objects')
  {
    if Separates(naming, base) { ShelvedExtends(naming, base, prior, after, objects, objects', b); }
  }

  lemma ShelvedExtends(
    naming: Naming, base: map<BucketId, Entry>, prior: map<BucketId, Entry>, after: map<BucketId, Entry>,
    objects: map<string, seq<Record>>, objects': map<string, seq<Record>>, b: BucketId)
    requires Separates(naming, base) && Shelved(naming, base, prior, objects)
    requires b in prior && b in after && !Finished(prior[b]) && Completes(prior[b], after[b]) && after == prior[b := after[b]]
    requires Shelves(naming, b, prior[b], after[b], objects, objects')
    ensures Shelved(naming, base, after, objects')
  {
    assert prior[b] == base[b];
    forall d | d in base ensures after[d] == base[d] || OnShelf(naming, d, base[d], after[d], objects') {
      if d != b && prior[d] != base[d] {
        assert OnShelf(naming, d, base[d], prior[d], objects);
        assert KeyOf(naming, d, base[d]) != KeyOf(naming, b, base[b]);
      }
    }
  }

  /** Exactly the buckets in `done` were carried to the end, and all others are untouched. */
  ghost predicate CycleDid(before: map<BucketId, Entry>, after: map<BucketId, Entry>, done: set<BucketId>) {
    && done <= before.Keys && after.Keys == before.Keys
    && forall b :: b in before ==> if b in done then Completes(before[b], after[b]) else after[b] == before[b]
  }

  ghost predicate CycleDone(c: RecoveryConfig, before: map<BucketId, Entry>, after: map<BucketId, Entry>, now: int, completed: nat) {
    && completed == Min(c.scanLimit, |DueSet(c, before, now)|)
    && exists done :: done <= DueSet(c, before, now) && |done| == completed && CycleDid(before, after, done)
  }

  predicate ItemClaimable(item: Work, e: Entry, now: int) {
    if item.CleanupWork? then CleanupClaimable(e, now) else CutoverClaimable(e, now)
  }

  predicate ItemReady(item: Work, e: Entry, now: int) {
    ItemClaimable(item, e, now) && e.generation < U64_MAX
  }

  /** The buckets of the first `i` items. */
  function Handled(work: seq<Work>, i: nat): set<BucketId>
    requires i <= |work|
  {
    set j | 0 <= j < i :: work[j].bucket
  }

  /** Distinct items, all claimable at `now`. */
  ghost predicate AllDue(c: RecoveryConfig, buckets: map<BucketId, Entry>, work: seq<Work>, now: int) {
    && (forall i :: 0 <= i < |work| ==> work[i].bucket in DueSet(c, buckets, now) && ItemClaimable(work[i], buckets[work[i].bucket], now))
    && (forall i, j :: 0 <= i < j < |work| ==> work[i].bucket != work[j].bucket)
  }

  lemma NextIsReady(
    c: RecoveryConfig, cycle: Cycle, before: map<BucketId, Entry>, buckets: map<BucketId, Entry>, work: seq<Work>, i: nat)
    requires CalmCycle(c, cycle) && GenerationsLeft(c, before) && AllDue(c, before, work, cycle.discovery.now)
    requires i < |work| && CycleDid(before, buckets, Handled(work, i))
    ensures CalmItem(c, cycle.items(i)) && work[i].bucket !in Handled(work, i) && work[i].bucket in buckets
    ensures ItemReady(work[i], buckets[work[i].bucket], cycle.items(i)(0).now) && !Finished(buckets[work[i].bucket])
  {
    DueIsPending(c, before, cycle.discovery.now);
    assert work[i].bucket in DueSet(c, before, cycle.discovery.now);
  }

  lemma CycleExtends(before: map<BucketId, Entry>, prior: map<BucketId, Entry>, after: map<BucketId, Entry>, work: seq<Work>, i: nat)
    requires i < |work| && CycleDid(before, prior, Handled(work, i))
    requires var b := work[i].bucket;
             b in before && b !in Handled(work, i) && b in after && Completes(prior[b], after[b]) && after == prior[b := after[b]]
    ensures CycleDid(before, after, Handled(work, i + 1))
  {
    assert Handled(work, i + 1) == Handled(work, i) + {work[i].bucket};
  }

  lemma DiscoveredIsDue(c: RecoveryConfig, le: (BucketId, BucketId) -> bool, buckets: map<BucketId, Entry>, now: int, work: seq<Work>)
    requires Offered(le, buckets, now, c.eligibleBefore, c.scanLimit, work)
    ensures AllDue(c, buckets, work, now)
    ensures |work| == Min(c.scanLimit, |DueSet(c, buckets, now)|)
    ensures |(set w | w in work :: w.bucket)| == |work|
    ensures (set w | w in work :: w.bucket) <= DueSet(c, buckets, now)
  {
    var cleanup, cutover :|
      DueWork(le, buckets, now, c.eligibleBefore, cleanup, cutover) && work == Take(Works(cleanup, cutover), c.scanLimit);
    DueCount(c, le, buckets, now, cleanup, cutover);
    forall i | 0 <= i < |work|
      ensures work[i].bucket in DueSet(c, buckets, now) && ItemClaimable(work[i], buckets[work[i].bucket], now)
    {
      assert work[i] == Works(cleanup, cutover)[i];
      WorkListed(cleanup, cutover, work[i].bucket);
    }
    forall i, j | 0 <= i < j < |work| ensures work[i].bucket != work[j].bucket {
      ListedOnce(le, buckets, now, c.eligibleBefore, cleanup, cutover, i, j);
    }
    var all := BucketsOf(work);
    DistinctCount(all);
    assert (set w | w in work :: w.bucket) == (set b | b in all) by {
      forall b | b in all ensures b in (set w | w in work :: w.bucket) {
        var i :| 0 <= i < |all| && all[i] == b;
        assert work[i] in work;
      }
    }
  }

  lemma {:induction false} DistinctCount<T>(s: seq<T>)
    requires forall i, j :: 0 <= i < j < |s| ==> s[i] != s[j]
    ensures |(set x | x in s)| == |s|
  {
    if s != [] {
      var t := s[..|s| - 1];
      DistinctCount(t);
      assert (set x | x in s) == (set x | x in t) + {s[|s| - 1]};
    }
  }

  function BucketsOf(work: seq<Work>): (r: seq<BucketId>)
    ensures |r| == |work| && forall i :: 0 <= i < |work| ==> r[i] == work[i].bucket
  {
    seq(|work|, i requires 0 <= i < |work| => work[i].bucket)
  }

  lemma DueCount(c: RecoveryConfig, le: (BucketId, BucketId) -> bool, buckets: map<BucketId, Entry>, now: int,
                 cleanup: seq<BucketId>, cutover: seq<BucketId>)
    requires DueWork(le, buckets, now, c.eligibleBefore, cleanup, cutover)
    ensures |Works(cleanup, cutover)| == |DueSet(c, buckets, now)|
  {
    var all := BucketsOf(Works(cleanup, cutover));
    forall i, j | 0 <= i < j < |all| ensures all[i] != all[j] {
      ListedOnce(le, buckets, now, c.eligibleBefore, cleanup, cutover, i, j);
    }
    DistinctCount(all);
    forall b ensures b in all <==> b in DueSet(c, buckets, now) {
      if b in DueSet(c, buckets, now) {
        if b in cleanup { var i :| 0 <= i < |cleanup| && cleanup[i] == b; assert all[i] == b; }
        if b in cutover { var i :| 0 <= i < |cutover| && cutover[i] == b; assert all[|cleanup| + i] == b; }
      }
    }
    assert (set b | b in all) == DueSet(c, buckets, now);
  }

  // ----- cycle after cycle -----

  /** A calm cycle removes what it completed from the due and from the pending buckets, and nothing else. */
  lemma CycleShrinks(c: RecoveryConfig, before: map<BucketId, Entry>, after: map<BucketId, Entry>, now: int, later: int, completed: nat)
    requires CycleDone(c, before, after, now, completed) && now <= later
    ensures |DueSet(c, after, now)| == |DueSet(c, before, now)| - completed
    ensures |PendingSet(c, after)| == |PendingSet(c, before)| - completed
    ensures PendingSet(c, after) <= PendingSet(c, before)
    ensures forall b :: b in PendingSet(c, before) && b !in PendingSet(c, after) ==> b in after && Finished(after[b])
    ensures forall b :: b in before && Finished(before[b]) ==> b in after && Finished(after[b])
    ensures PendingSet(c, before) == DueSet(c, before, now) ==> PendingSet(c, after) == DueSet(c, after, later)
  {
    var done :| done <= DueSet(c, before, now) && |done| == completed && CycleDid(before, after, done);
    DueIsPending(c, before, now);
    DueWithout(c, before, after, now, done);
    PendingWithout(c, before, after, done);
    StaysAllDue(c, after, now, later);
    FinishedStay(before, after, done);
  }

  lemma FinishedStay(before: map<BucketId, Entry>, after: map<BucketId, Entry>, done: set<BucketId>)
    requires CycleDid(before, after, done)
    ensures forall b :: b in done ==> b in after && Finished(after[b])
    ensures forall b :: b in before && Finished(before[b]) ==> b in after && Finished(after[b])
  {
  }

  lemma StaysAllDue(c: RecoveryConfig, buckets: map<BucketId, Entry>, now: int, later: int)
    requires now <= later
    ensures PendingSet(c, buckets) == DueSet(c, buckets, now) ==> PendingSet(c, buckets) == DueSet(c, buckets, later)
  {
    DueIsPending(c, buckets, later);
    DueStays(c, buckets, now, later);
  }

  lemma DueIsPending(c: RecoveryConfig, buckets: map<BucketId, Entry>, now: int)
    ensures DueSet(c, buckets, now) <= PendingSet(c, buckets)
  {
  }

  lemma DueStays(c: RecoveryConfig, buckets: map<BucketId, Entry>, now: int, later: int)
    requires now <= later
    ensures DueSet(c, buckets, now) <= DueSet(c, buckets, later)
  {
  }

  lemma DueWithout(c: RecoveryConfig, before: map<BucketId, Entry>, after: map<BucketId, Entry>, now: int, done: set<BucketId>)
    requires CycleDid(before, after, done)
    ensures DueSet(c, after, now) == DueSet(c, before, now) - done
  {
  }

  lemma PendingWithout(c: RecoveryConfig, before: map<BucketId, Entry>, after: map<BucketId, Entry>, done: set<BucketId>)
    requires CycleDid(before, after, done)
    ensures PendingSet(c, after) == PendingSet(c, before) - done
  {
  }

  /** Buckets that were pending and no longer are were carried to the end; all others are untouched. */
  ghost predicate Drained(c: RecoveryConfig, before: map<BucketId, Entry>, after: map<BucketId, Entry>) {
    && after.Keys == before.Keys && PendingSet(c, after) <= PendingSet(c, before)
    && forall b {:trigger DrainedAt(c, before, after, b)} :: b in before ==> DrainedAt(c, before, after, b)
  }

  ghost predicate DrainedAt(c: RecoveryConfig, before: map<BucketId, Entry>, after: map<BucketId, Entry>, b: BucketId)
    requires b in before && b in after
  {
    if b in PendingSet(c, before) - PendingSet(c, after) then Completes(before[b], after[b]) else after[b] == before[b]
  }

  /** A calm cycle drains further, keeps generations in hand, and makes progress whenever it discovered something. */
  lemma DrainsOn(
    c: RecoveryConfig, before: map<BucketId, Entry>, prior: map<BucketId, Entry>, after: map<BucketId, Entry>, now: int, completed: nat)
    requires c.scanLimit > 0 && Drained(c, before, prior) && GenerationsLeft(c, prior) && CycleDone(c, prior, after, now, completed)
    ensures Drained(c, before, after) && GenerationsLeft(c, after)
    ensures |PendingSet(c, after)| == |PendingSet(c, prior)| - completed
    ensures completed == 0 ==> DueSet(c, after, now) == {}
  {
    var done :| done <= DueSet(c, prior, now) && |done| == completed && CycleDid(prior, after, done);
    CycleShrinks(c, prior, after, now, now, completed);
    DueIsPending(c, prior, now);
    PendingWithout(c, prior, after, done);
    DrainsStep(c, before, prior, after, done);
  }

  lemma DrainsStep(
    c: RecoveryConfig, before: map<BucketId, Entry>, prior: map<BucketId, Entry>, after: map<BucketId, Entry>, done: set<BucketId>)
    requires Drained(c, before, prior) && GenerationsLeft(c, prior) && CycleDid(prior, after, done) && done <= PendingSet(c, prior)
    requires PendingSet(c, after) == PendingSet(c, prior) - done
    ensures Drained(c, before, after) && GenerationsLeft(c, after)
  {
    forall b | b in before ensures DrainedAt(c, before, after, b) { assert DrainedAt(c, before, prior, b); }
  }

  /** Untouched ripe work is due. */
  lemma RipeIsDue(c: RecoveryConfig, before: map<BucketId, Entry>, prior: map<BucketId, Entry>, now: int)
    requires Drained(c, before, prior) && AllRipe(c, before, now)
    ensures PendingSet(c, prior) == DueSet(c, prior, now)
  {
    DueIsPending(c, prior, now);
    forall b | b in PendingSet(c, prior) ensures b in DueSet(c, prior, now) {
      assert DrainedAt(c, before, prior, b);
      DueIffRipe(c, prior, now, b);
    }
  }

  lemma NothingRipe(c: RecoveryConfig, buckets: map<BucketId, Entry>, now: int)
    requires DueSet(c, buckets, now) == {}
    ensures NoneRipe(c, buckets, now)
  {
    forall b | b in PendingSet(c, buckets) ensures !RipeBy(buckets[b], now) { DueIffRipe(c, buckets, now, b); }
  }

  lemma StillRipe(c: RecoveryConfig, before: map<BucketId, Entry>, after: map<BucketId, Entry>, now: int)
    requires Drained(c, before, after) && DueSet(c, after, now) == {} && AllRipe(c, before, now)
    ensures PendingSet(c, after) == {}
  {
    RipeIsDue(c, before, after, now);
  }

  /** What `k` cycles of at most `limit` items leave of `start` items. */
  function Left(start: nat, limit: nat, k: nat): nat {
    if k == 0 then start else Left(start, limit, k - 1) - Min(limit, Left(start, limit, k - 1))
  }

  lemma {:induction false} LeftIs(start: nat, limit: nat, k: nat)
    ensures Left(start, limit, k) == if start < k * limit then 0 else start - k * limit
  {
    if k > 0 {
      LeftIs(start, limit, k - 1);
      assert k * limit == (k - 1) * limit + limit;
    }
  }

  /** Where a drain of `start` due items stands after `cycles` cycles, the last of which found `found`. */
  predicate OnCourse(start: nat, limit: nat, cycles: nat, found: nat, pending: nat) {
    && pending == Left(start, limit, cycles)
    && (cycles > 0 ==> (found > 0 <==> Left(start, limit, cycles - 1) > 0))
    && (cycles > 1 ==> Left(start, limit, cycles - 2) > 0)
  }

  lemma NextOnCourse(start: nat, limit: nat, cycles: nat, found: nat, pending: nat)
    requires limit > 0 && found > 0 && OnCourse(start, limit, cycles, found, pending)
    ensures OnCourse(start, limit, cycles + 1, Min(limit, pending), pending - Min(limit, pending))
  {
  }

  ghost predicate Draining(c: RecoveryConfig, before: map<BucketId, Entry>, after: map<BucketId, Entry>, cycles: nat, found: nat) {
    OnCourse(|PendingSet(c, before)|, c.scanLimit, cycles, found, |PendingSet(c, after)|)
  }

  /** All cycles but the last are needed for `start` items, and the last one finds nothing. */
  predicate JustEnough(cycles: int, limit: nat, start: nat) {
    (cycles - 1) * limit >= start && (cycles >= 2 ==> (cycles - 2) * limit < start)
  }

  lemma DrainEnds(c: RecoveryConfig, before: map<BucketId, Entry>, after: map<BucketId, Entry>, now: int, cycles: nat)
    requires cycles > 0 && Drained(c, before, after) && DueSet(c, after, now) == {}
    ensures NoneRipe(c, after, now)
    ensures AllRipe(c, before, now) && Draining(c, before, after, cycles, 0) ==>
              PendingSet(c, after) == {} && JustEnough(cycles, c.scanLimit, |PendingSet(c, before)|)
  {
    NothingRipe(c, after, now);
    if AllRipe(c, before, now) && Draining(c, before, after, cycles, 0) {
      StillRipe(c, before, after, now);
      EndOfCourse(|PendingSet(c, before)|, c.scanLimit, cycles);
    }
  }

  lemma EndOfCourse(start: nat, limit: nat, cycles: nat)
    requires cycles > 0 && OnCourse(start, limit, cycles, 0, 0)
    ensures JustEnough(cycles, limit, start)
  {
    LeftIs(start, limit, cycles - 1);
    if cycles >= 2 { LeftIs(start, limit, cycles - 2); }
  }
}
