/**
 The in-memory coupled bucket store (src/ports/storage.rs): one entry per bucket, changed under
 one lock. Clock readings and fresh owner tokens are parameters.
 */
module BucketStore {
  import opened Common
  import opened Records
  import opened Tiling
  import opened Cutover

  datatype Entry = Entry(
    state: BucketState, generation: nat, owner: Option<string>,
    ownerExpiresAt: Option<int>, nextAttemptAt: Option<int>, records: seq<Record>)

  const DEFAULT_ENTRY := Entry(Hot, 0, None, None, None, [])

  datatype StoreError =
    | OperationFailed
    | BucketReadOnly(state: BucketState)
    | ArchiveNotAllowed(state: BucketState)
    | StaleArchiveSession

  // ----- guards -----

  predicate AttemptDue(e: Entry, now: int) {
    e.nextAttemptAt.None? || e.nextAttemptAt.value <= now
  }

  predicate LeaseExpired(e: Entry, now: int) {
    e.ownerExpiresAt.None? || e.ownerExpiresAt.value <= now
  }

  /** The last representable monotonic instant, in nanoseconds. */
  const INSTANT_MAX := 0x7FFF_FFFF_FFFF_FFFF * 1_000_000_000 + 999_999_999

  /** Five minutes, the lease of a direct cutover. */
  const DIRECT_LEASE: nat := 300_000_000_000

  function LeaseDeadline(now: int, duration: nat): Result<int, StoreError> {
    if duration == 0 || now + duration > INSTANT_MAX then Err(OperationFailed) else Ok(now + duration)
  }

  /** `validate_active_session`. */
  predicate Accepts(e: Entry, s: Session, now: int) {
    e.generation == s.generation && e.owner == Some(s.owner) && !LeaseExpired(e, now)
  }

  predicate CutoverClaimable(e: Entry, now: int) {
    AttemptDue(e, now) && (e.state.Hot? || (e.state.Archiving? && LeaseExpired(e, now)))
  }

  predicate CleanupClaimable(e: Entry, now: int) {
    e.state.Archived? && !e.state.hotDeleted && AttemptDue(e, now) && LeaseExpired(e, now)
  }

  // ----- operations on one entry -----

  datatype Call =
    | AppendCall(record: Record)
    | ClaimArchiveCall(token: string, now: int, expiresAt: int)
    | ClaimCleanupCall(token: string, now: int, expiresAt: int)
    | BeginArchiveCall(token: string, deadline: Result<int, StoreError>)
    | RenewCall(session: Session, now: int, expiresAt: int)
    | DeferArchiveCall(session: Session, now: int, retryAt: int)
    | DeferCleanupCall(session: Session, now: int, retryAt: int)
    | SnapshotCall(session: Session, now: int)
    | PublishCall(session: Session, key: string, now: int)
    | DeleteHotCall(session: Session, now: int)
    | AbortCall(session: Session, now: int)

  /** The entry after the call, and what the caller is told. */
  datatype Reply = Reply(entry: Entry, outcome: Result<Answer, StoreError>)

  datatype Answer = Done | NotClaimed | Claimed(generation: nat) | Rows(records: seq<Record>)

  function Perform(e: Entry, call: Call): Reply {
    match call
    case AppendCall(r) =>
      if !e.state.Hot? then Reply(e, Err(BucketReadOnly(e.state)))
      else Reply(e.(records := StableSort(e.records + [r])), Ok(Done))
    case ClaimArchiveCall(token, now, expiresAt) =>
      if !CutoverClaimable(e, now) then Reply(e, Ok(NotClaimed))
      else if e.generation >= U64_MAX then Reply(e, Err(OperationFailed))
      else Reply(Entry(Archiving, e.generation + 1, Some(token), Some(expiresAt), None, e.records),
                 Ok(Claimed(e.generation + 1)))
    case ClaimCleanupCall(token, now, expiresAt) =>
      if !CleanupClaimable(e, now) then Reply(e, Ok(NotClaimed))
      else if e.generation >= U64_MAX then Reply(e, Err(OperationFailed))
      else Reply(Entry(e.state, e.generation + 1, Some(token), Some(expiresAt), None, e.records),
                 Ok(Claimed(e.generation + 1)))
    case BeginArchiveCall(token, deadline) =>
      if !e.state.Hot? then Reply(e, Err(ArchiveNotAllowed(e.state)))
      else if e.generation >= U64_MAX then Reply(e, Err(OperationFailed))
      else
        // The deadline is computed after the fence is closed, so its failure leaves it closed.
        var fenced := e.(state := Archiving, generation := e.generation + 1, owner := Some(token));
        (match deadline
         case Err(error) => Reply(fenced, Err(error))
         case Ok(at) => Reply(fenced.(ownerExpiresAt := Some(at), nextAttemptAt := None), Ok(Claimed(e.generation + 1))))
    case RenewCall(s, now, expiresAt) =>
      if !Accepts(e, s, now) then Reply(e, Err(StaleArchiveSession))
      else Reply(e.(ownerExpiresAt := Some(expiresAt)), Ok(Done))
    case DeferArchiveCall(s, now, retryAt) =>
      if !(e.state.Archiving? && Accepts(e, s, now)) then Reply(e, Err(StaleArchiveSession))
      else Reply(Entry(Hot, e.generation, None, None, Some(retryAt), e.records), Ok(Done))
    case DeferCleanupCall(s, now, retryAt) =>
      if !(Accepts(e, s, now) && e.state.Archived? && !e.state.hotDeleted) then Reply(e, Err(StaleArchiveSession))
      else Reply(e.(ownerExpiresAt := Some(retryAt), nextAttemptAt := Some(retryAt)), Ok(Done))
    case SnapshotCall(s, now) =>
      if !(e.state.Archiving? && Accepts(e, s, now)) then Reply(e, Err(StaleArchiveSession))
      else Reply(e, Ok(Rows(e.records)))
    case PublishCall(s, key, now) =>
      if !(e.state.Archiving? && Accepts(e, s, now)) then Reply(e, Err(StaleArchiveSession))
      else Reply(e.(state := Archived(key, false)), Ok(Done))
    case DeleteHotCall(s, now) =>
      if !(e.state.Archived? && !e.state.hotDeleted && Accepts(e, s, now)) then Reply(e, Err(StaleArchiveSession))
      else Reply(e.(state := Archived(e.state.objectKey, true), records := []), Ok(Done))
    case AbortCall(s, now) =>
      if !(e.state.Archiving? && Accepts(e, s, now)) then Reply(e, Err(StaleArchiveSession))
      else Reply(Entry(Hot, e.generation, None, None, None, e.records), Ok(Done))
  }

  // ----- refinement -----

  function CoreOf(e: Entry): Bucket {
    Bucket(e.state, e.generation, e.owner, e.records)
  }

  /** The protocol action a call amounts to, if it changed anything the protocol depends on. */
  function ActionOf(e: Entry, call: Call): Option<Action> {
    var accepted := Perform(e, call).outcome.Ok?;
    match call
    case AppendCall(r) => if accepted then Some(Append(r)) else None
    case ClaimArchiveCall(token, _, _) => if Perform(e, call).entry != e then Some(Claim(token)) else None
    case ClaimCleanupCall(token, _, _) => if Perform(e, call).entry != e then Some(ClaimCleanup(token)) else None
    case BeginArchiveCall(token, _) => if Perform(e, call).entry != e then Some(Claim(token)) else None
    case DeferArchiveCall(s, _, _) => if accepted then Some(Reopen(s)) else None
    case AbortCall(s, _) => if accepted then Some(Reopen(s)) else None
    case PublishCall(s, key, _) => if accepted then Some(Publish(s, key)) else None
    case DeleteHotCall(s, _) => if accepted then Some(Delete(s)) else None
    case _ => None
  }

  /** Every call is a step of the protocol or invisible to it; rows stay sorted and no error changes them. */
  lemma CallRefines(e: Entry, call: Call)
    requires Sorted(e.records)
    ensures var e', a := Perform(e, call).entry, ActionOf(e, call);
            && (a.None? ==> CoreOf(e') == CoreOf(e))
            && (a.Some? ==> Enabled(CoreOf(e), a.value) && CoreOf(e') == Act(CoreOf(e), a.value))
            && Sorted(e'.records)
            && (Perform(e, call).outcome.Err? ==> e'.records == e.records)
  {
    if call.AppendCall? {
      SortAfterPush(e.records, call.record);
      SortSorted(e.records + [call.record]);
    }
  }

  /** The owner token a claim would install. */
  function TokenOf(call: Call): Option<string> {
    match call
    case ClaimArchiveCall(token, _, _) => Some(token)
    case ClaimCleanupCall(token, _, _) => Some(token)
    case BeginArchiveCall(token, _) => Some(token)
    case _ => None
  }

  /** What a worker is told is true: the bucket is its own under the new generation, its rows are the fenced bucket's rows. */
  lemma AnswersAreTrue(e: Entry, call: Call)
    requires Perform(e, call).outcome.Ok?
    ensures var answer, e' := Perform(e, call).outcome.value, Perform(e, call).entry;
            && (answer.Claimed? ==> answer.generation == e'.generation == e.generation + 1 && e'.owner == TokenOf(call) != None)
            && (answer.Rows? ==> call.SnapshotCall? && Holding(CoreOf(e), call.session) && answer.records == e.records)
  {
  }

  /** Any number of calls keeps generations from going back and rows in clustering order. */
  function PerformAll(e: Entry, calls: seq<Call>): Entry
    decreases |calls|
  {
    if calls == [] then e else PerformAll(Perform(e, calls[0]).entry, calls[1..])
  }

  lemma {:induction false} CallsKeepRows(e: Entry, calls: seq<Call>)
    requires Sorted(e.records)
    ensures Sorted(PerformAll(e, calls).records)
    ensures e.generation <= PerformAll(e, calls).generation
    ensures e.state.Archived? ==>
              PerformAll(e, calls).state.Archived? && PerformAll(e, calls).state.objectKey == e.state.objectKey
    decreases |calls|
  {
    if calls != [] {
      CallRefines(e, calls[0]);
      CallsKeepRows(Perform(e, calls[0]).entry, calls[1..]);
    }
  }

  /** A session accepted by the lease check is the protocol's active one, and two cannot be accepted at once. */
  lemma AcceptedIsActive(e: Entry, s: Session, t: Session, now: int, later: int)
    requires Accepts(e, s, now)
    ensures Active(CoreOf(e), s)
    ensures s.bucket == t.bucket && Accepts(e, t, later) ==> s == t
  {
  }

  // ----- leases -----

  /** The session owns a cutover or a cleanup in progress, under a lease. */
  predicate Leased(e: Entry, s: Session) {
    && e.generation == s.generation && e.owner == Some(s.owner) && e.ownerExpiresAt.Some?
    && (e.state.Archiving? || (e.state.Archived? && !e.state.hotDeleted))
  }

  function CallerOf(call: Call): Option<Session> {
    match call
    case RenewCall(s, _, _) => Some(s)
    case DeferArchiveCall(s, _, _) => Some(s)
    case DeferCleanupCall(s, _, _) => Some(s)
    case SnapshotCall(s, _) => Some(s)
    case PublishCall(s, _, _) => Some(s)
    case DeleteHotCall(s, _) => Some(s)
    case AbortCall(s, _) => Some(s)
    case _ => None
  }

  /** A call that is not made with the session, by a clock that has not reached `until`. */
  predicate Outside(call: Call, s: Session, until: int) {
    && (CallerOf(call).Some? ==> CallerOf(call).value != s && CallerOf(call).value.bucket == s.bucket)
    && (call.ClaimArchiveCall? || call.ClaimCleanupCall? ==> call.now < until)
  }

  /** Until its lease runs out nobody but the owner can change anything about the bucket. */
  lemma {:induction false} LeaseProtects(e: Entry, s: Session, calls: seq<Call>)
    requires Leased(e, s) && forall i :: 0 <= i < |calls| ==> Outside(calls[i], s, e.ownerExpiresAt.value)
    ensures PerformAll(e, calls) == e
    decreases |calls|
  {
    if calls != [] {
      OutsiderIsRefused(e, s, calls[0]);
      LeaseProtects(e, s, calls[1..]);
    }
  }

  lemma OutsiderIsRefused(e: Entry, s: Session, call: Call)
    requires Leased(e, s) && Outside(call, s, e.ownerExpiresAt.value)
    ensures Perform(e, call).entry == e
  {
  }

  /** A renewal of the session's lease for `leaseFor` from its own instant on. */
  predicate Renews(call: Call, s: Session, leaseFor: nat) {
    call.RenewCall? && call.session == s && call.expiresAt == call.now + leaseFor
  }

  /** When the lease was last set, by a renewal among the calls or at `last`. */
  function LastRenewal(calls: seq<Call>, s: Session, leaseFor: nat, last: int): int {
    if calls == [] then last
    else LastRenewal(calls[1..], s, leaseFor, if Renews(calls[0], s, leaseFor) then calls[0].now else last)
  }

  /** Each renewal comes before the lease of the one before it ends, and all other calls are made by others. */
  predicate Kept(calls: seq<Call>, s: Session, leaseFor: nat, last: int) {
    calls == [] ||
    (if Renews(calls[0], s, leaseFor) then calls[0].now < last + leaseFor && Kept(calls[1..], s, leaseFor, calls[0].now)
     else Outside(calls[0], s, last + leaseFor) && Kept(calls[1..], s, leaseFor, last))
  }

  /**
   However long an operation takes, renewals less than a lease apart keep its session the owner: whatever
   others call meanwhile, nothing about the bucket changes but the end of the lease.
   */
  lemma {:induction false} RenewalsKeepSession(e: Entry, s: Session, calls: seq<Call>, leaseFor: nat, last: int)
    requires Leased(e, s) && e.ownerExpiresAt == Some(last + leaseFor) && Kept(calls, s, leaseFor, last)
    ensures PerformAll(e, calls) == e.(ownerExpiresAt := Some(LastRenewal(calls, s, leaseFor, last) + leaseFor))
    decreases |calls|
  {
    if calls != [] {
      if Renews(calls[0], s, leaseFor) {
        RenewalsKeepSession(Perform(e, calls[0]).entry, s, calls[1..], leaseFor, calls[0].now);
      } else {
        OutsiderIsRefused(e, s, calls[0]);
        RenewalsKeepSession(e, s, calls[1..], leaseFor, last);
      }
    }
  }

  /**
   A claim hands the bucket to its session exactly until the lease expires: before that the session is
   accepted and no claim is possible, from then on the session is refused and a claim is.
   */
  lemma ClaimHoldsUntilExpiry(e: Entry, call: Call, b: BucketId, t: int)
    requires call.ClaimArchiveCall? || call.ClaimCleanupCall?
    requires Perform(e, call).outcome.Ok? && Perform(e, call).outcome.value.Claimed?
    ensures var e' := Perform(e, call).entry;
            && Leased(e', Session(b, call.token, e'.generation))
            && (Accepts(e', Session(b, call.token, e'.generation), t) <==> t < call.expiresAt)
            && (CutoverClaimable(e', t) || CleanupClaimable(e', t) <==> t >= call.expiresAt)
  {
  }

  /** A deferral gives the bucket up until the retry time: nothing can claim it earlier, anyone can from then on. */
  lemma DeferHoldsUntilRetry(e: Entry, call: Call, t: int)
    requires (call.DeferArchiveCall? || call.DeferCleanupCall?) && Perform(e, call).outcome.Ok?
    ensures var e' := Perform(e, call).entry;
            && (CutoverClaimable(e', t) || CleanupClaimable(e', t) <==> t >= call.retryAt)
            && (call.DeferArchiveCall? ==> e'.state.Hot? && forall s :: !Accepts(e', s, t))
  {
  }

  // ----- the store -----

  datatype Read = HotRows(records: seq<Record>) | Archive(objectKey: string)

  /** The filters of a routed read. */
  predicate Selected(range: TimeRange, after: Option<Cursor>, r: Record) {
    InRange(range, r.eventTime) && (after.None? || Precedes(after.value, CursorOf(r)))
  }

  function Take<T>(s: seq<T>, n: nat): (t: seq<T>)
    ensures t <= s && |t| == if |s| < n then |s| else n
  {
    if |s| <= n then s else s[..n]
  }

  /** The selected rows of `rows`, at most `limit` of them. */
  function Page(rows: seq<Record>, range: TimeRange, after: Option<Cursor>, limit: nat): seq<Record> {
    Take(Filter(rows, r => Selected(range, after, r)), limit)
  }

  function RouteRead(c: Bucket, range: TimeRange, after: Option<Cursor>, limit: nat): Read {
    match c.state
    case Archived(key, _) => Archive(key)
    case _ => HotRows(Page(c.records, range, after, limit))
  }

  class InMemoryDurableBucketStore {
    var buckets: map<BucketId, Entry>

    ghost predicate Valid()
      reads this
    {
      forall b :: b in buckets ==> Sorted(buckets[b].records)
    }

    function EntryAt(b: BucketId): Entry
      reads this
    {
      if b in buckets then buckets[b] else DEFAULT_ENTRY
    }

    constructor ()
      ensures Valid() && buckets == map[]
    {
      buckets := map[];
    }

    /** The new map is the old one with this entry's reply stored, and every row list still sorted. */
    twostate predicate Performed(b: BucketId, call: Call, new outcome: Result<Answer, StoreError>)
      reads this
    {
      && Valid()
      && buckets == old(buckets)[b := Perform(old(EntryAt(b)), call).entry]
      && outcome == Perform(old(EntryAt(b)), call).outcome
    }

    /** A missing entry means a stale session, and none is created. */
    twostate predicate PerformedExisting(b: BucketId, call: Call, new outcome: Result<Answer, StoreError>)
      reads this
    {
      if b in old(buckets) then Performed(b, call, outcome)
      else buckets == old(buckets) && outcome == Err(StaleArchiveSession)
    }

    method Append(b: BucketId, r: Record) returns (outcome: Result<Answer, StoreError>)
      requires Valid()
      modifies this
      ensures Performed(b, AppendCall(r), outcome)
      ensures outcome.Ok? ==> EntryAt(b).records == Insert(old(EntryAt(b)).records, r)
    {
      var entry := if b in buckets then buckets[b] else DEFAULT_ENTRY;
      CallRefines(entry, AppendCall(r));
      if !entry.state.Hot? {
        buckets := buckets[b := entry];
        return Err(BucketReadOnly(entry.state));
      }
      SortAfterPush(entry.records, r);
      buckets := buckets[b := entry.(records := StableSort(entry.records + [r]))];
      outcome := Ok(Done);
    }

    method ClaimArchive(b: BucketId, token: string, now: int, leaseNow: int, leaseFor: nat)
      returns (outcome: Result<Answer, StoreError>)
      requires Valid()
      modifies this
      ensures LeaseDeadline(leaseNow, leaseFor).Err? ==> buckets == old(buckets) && outcome == Err(OperationFailed)
      ensures LeaseDeadline(leaseNow, leaseFor).Ok? ==>
                Performed(b, ClaimArchiveCall(token, now, LeaseDeadline(leaseNow, leaseFor).value), outcome)
    {
      var deadline := LeaseDeadline(leaseNow, leaseFor);
      if deadline.Err? {
        return Err(OperationFailed);
      }
      var entry := if b in buckets then buckets[b] else DEFAULT_ENTRY;
      if !CutoverClaimable(entry, now) {
        outcome := Ok(NotClaimed);
      } else if entry.generation >= U64_MAX {
        outcome := Err(OperationFailed);
      } else {
        entry := entry.(generation := entry.generation + 1, state := Archiving);
        entry := entry.(owner := Some(token), ownerExpiresAt := Some(deadline.value), nextAttemptAt := None);
        outcome := Ok(Claimed(entry.generation));
      }
      buckets := buckets[b := entry];
    }

    method ClaimCleanup(b: BucketId, token: string, now: int, leaseNow: int, leaseFor: nat)
      returns (outcome: Result<Answer, StoreError>)
      requires Valid()
      modifies this
      ensures LeaseDeadline(leaseNow, leaseFor).Err? ==> buckets == old(buckets) && outcome == Err(OperationFailed)
      ensures LeaseDeadline(leaseNow, leaseFor).Ok? && b !in old(buckets) ==> buckets == old(buckets) && outcome == Ok(NotClaimed)
      ensures LeaseDeadline(leaseNow, leaseFor).Ok? && b in old(buckets) ==>
                Performed(b, ClaimCleanupCall(token, now, LeaseDeadline(leaseNow, leaseFor).value), outcome)
    {
      var deadline := LeaseDeadline(leaseNow, leaseFor);
      if deadline.Err? {
        return Err(OperationFailed);
      }
      if b !in buckets {
        return Ok(NotClaimed);
      }
      var entry := buckets[b];
      if !CleanupClaimable(entry, now) {
        outcome := Ok(NotClaimed);
      } else if entry.generation >= U64_MAX {
        outcome := Err(OperationFailed);
      } else {
        entry := entry.(generation := entry.generation + 1);
        entry := entry.(owner := Some(token), ownerExpiresAt := Some(deadline.value), nextAttemptAt := None);
        outcome := Ok(Claimed(entry.generation));
      }
      buckets := buckets[b := entry];
    }

    method BeginArchive(b: BucketId, token: string, now: int) returns (outcome: Result<Answer, StoreError>)
      requires Valid()
      modifies this
      ensures Performed(b, BeginArchiveCall(token, LeaseDeadline(now, DIRECT_LEASE)), outcome)
    {
      var entry := if b in buckets then buckets[b] else DEFAULT_ENTRY;
      if !entry.state.Hot? {
        outcome := Err(ArchiveNotAllowed(entry.state));
      } else if entry.generation >= U64_MAX {
        outcome := Err(OperationFailed);
      } else {
        entry := entry.(generation := entry.generation + 1, state := Archiving, owner := Some(token));
        var deadline := LeaseDeadline(now, DIRECT_LEASE);
        if deadline.Err? {
          outcome := Err(deadline.error);
        } else {
          entry := entry.(ownerExpiresAt := Some(deadline.value), nextAttemptAt := None);
          outcome := Ok(Claimed(entry.generation));
        }
      }
      buckets := buckets[b := entry];
    }

    method RenewArchiveLease(s: Session, now: int, leaseNow: int, leaseFor: nat) returns (outcome: Result<Answer, StoreError>)
      requires Valid()
      modifies this
      ensures LeaseDeadline(leaseNow, leaseFor).Err? ==> buckets == old(buckets) && outcome == Err(OperationFailed)
      ensures LeaseDeadline(leaseNow, leaseFor).Ok? ==>
                PerformedExisting(s.bucket, RenewCall(s, now, LeaseDeadline(leaseNow, leaseFor).value), outcome)
    {
      var expiresAt := LeaseDeadline(leaseNow, leaseFor);
      if expiresAt.Err? {
        return Err(expiresAt.error);
      }
      if s.bucket !in buckets || !Accepts(buckets[s.bucket], s, now) {
        return Err(StaleArchiveSession);
      }
      buckets := buckets[s.bucket := buckets[s.bucket].(ownerExpiresAt := Some(expiresAt.value))];
      outcome := Ok(Done);
    }

    method DeferArchive(s: Session, now: int, retryNow: int, retryAfter: nat) returns (outcome: Result<Answer, StoreError>)
      requires Valid()
      modifies this
      ensures LeaseDeadline(retryNow, retryAfter).Err? ==> buckets == old(buckets) && outcome == Err(OperationFailed)
      ensures LeaseDeadline(retryNow, retryAfter).Ok? ==>
                PerformedExisting(s.bucket, DeferArchiveCall(s, now, LeaseDeadline(retryNow, retryAfter).value), outcome)
    {
      var retryAt := LeaseDeadline(retryNow, retryAfter);
      if retryAt.Err? {
        return Err(retryAt.error);
      }
      if s.bucket !in buckets || !buckets[s.bucket].state.Archiving? || !Accepts(buckets[s.bucket], s, now) {
        return Err(StaleArchiveSession);
      }
      var entry := buckets[s.bucket].(state := Hot, owner := None, ownerExpiresAt := None);
      buckets := buckets[s.bucket := entry.(nextAttemptAt := Some(retryAt.value))];
      outcome := Ok(Done);
    }

    method DeferCleanup(s: Session, now: int, retryNow: int, retryAfter: nat) returns (outcome: Result<Answer, StoreError>)
      requires Valid()
      modifies this
      ensures LeaseDeadline(retryNow, retryAfter).Err? ==> buckets == old(buckets) && outcome == Err(OperationFailed)
      ensures LeaseDeadline(retryNow, retryAfter).Ok? ==>
                PerformedExisting(s.bucket, DeferCleanupCall(s, now, LeaseDeadline(retryNow, retryAfter).value), outcome)
    {
      var retryAt := LeaseDeadline(retryNow, retryAfter);
      if retryAt.Err? {
        return Err(retryAt.error);
      }
      if s.bucket !in buckets || !Accepts(buckets[s.bucket], s, now) {
        return Err(StaleArchiveSession);
      }
      var entry := buckets[s.bucket];
      if !(entry.state.Archived? && !entry.state.hotDeleted) {
        return Err(StaleArchiveSession);
      }
      buckets := buckets[s.bucket := entry.(ownerExpiresAt := Some(retryAt.value), nextAttemptAt := Some(retryAt.value))];
      outcome := Ok(Done);
    }

    method Snapshot(s: Session, now: int) returns (outcome: Result<Answer, StoreError>)
      ensures s.bucket in buckets ==> outcome == Perform(buckets[s.bucket], SnapshotCall(s, now)).outcome
      ensures s.bucket !in buckets ==> outcome == Err(StaleArchiveSession)
    {
      if s.bucket !in buckets || !buckets[s.bucket].state.Archiving? || !Accepts(buckets[s.bucket], s, now) {
        return Err(StaleArchiveSession);
      }
      outcome := Ok(Rows(buckets[s.bucket].records));
    }

    method PublishArchive(s: Session, key: string, now: int) returns (outcome: Result<Answer, StoreError>)
      requires Valid()
      modifies this
      ensures PerformedExisting(s.bucket, PublishCall(s, key, now), outcome)
    {
      if s.bucket !in buckets || !buckets[s.bucket].state.Archiving? || !Accepts(buckets[s.bucket], s, now) {
        return Err(StaleArchiveSession);
      }
      buckets := buckets[s.bucket := buckets[s.bucket].(state := Archived(key, false))];
      outcome := Ok(Done);
    }

    method DeleteHotBucket(s: Session, now: int) returns (outcome: Result<Answer, StoreError>)
      requires Valid()
      modifies this
      ensures PerformedExisting(s.bucket, DeleteHotCall(s, now), outcome)
    {
      if s.bucket !in buckets {
        return Err(StaleArchiveSession);
      }
      var entry := buckets[s.bucket];
      if !(entry.state.Archived? && !entry.state.hotDeleted) || !Accepts(entry, s, now) {
        return Err(StaleArchiveSession);
      }
      entry := entry.(records := []);
      entry := entry.(state := Archived(entry.state.objectKey, true));
      buckets := buckets[s.bucket := entry];
      outcome := Ok(Done);
    }

    method AbortArchive(s: Session, now: int) returns (outcome: Result<Answer, StoreError>)
      requires Valid()
      modifies this
      ensures PerformedExisting(s.bucket, AbortCall(s, now), outcome)
    {
      if s.bucket !in buckets || !buckets[s.bucket].state.Archiving? || !Accepts(buckets[s.bucket], s, now) {
        return Err(StaleArchiveSession);
      }
      var entry := buckets[s.bucket].(state := Hot, owner := None, ownerExpiresAt := None);
      buckets := buckets[s.bucket := entry.(nextAttemptAt := None)];
      outcome := Ok(Done);
    }

    method State(b: BucketId) returns (state: BucketState)
      ensures state == EntryAt(b).state
    {
      state := if b in buckets then buckets[b].state else Hot;
    }

    method ReadRange(b: BucketId, range: TimeRange, after: Option<Cursor>, limit: nat) returns (read: Read)
      ensures read == RouteRead(CoreOf(EntryAt(b)), range, after, limit)
    {
      if b in buckets {
        match buckets[b].state
        case Archived(key, _) => return Archive(key);
        case _ => return HotRows(Page(buckets[b].records, range, after, limit));
      }
      return HotRows([]);
    }
  }
}
