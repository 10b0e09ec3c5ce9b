/**
 The transaction retry loop of src/adapters/cockroach_durable.rs. Replies of the database, timeouts
 and cancellation of the calling future are scripted per attempt; the theorem ranges over all scripts.
 */
module Transactions {
  import opened Common
  import opened Pool

  const MAX_TRANSACTION_ATTEMPTS := 5

  const SERIALIZATION_FAILURE := "40001"

  // ----- what the outside world does -----

  /** A driver error either carries the server's SQLSTATE or arose on the client side of the wire. */
  datatype SqlError = ServerError(code: string) | ClientError

  datatype StoreError = Unavailable | OperationFailed | CommitOutcomeUnknown | Rejected

  datatype Reply = Success | Failure(error: SqlError) | TimedOut | Cancelled

  datatype OperationReply<T> =
    | Value(value: T) | DatabaseFailure(error: SqlError) | StoreFailure(reason: StoreError)
    | OperationTimedOut | OperationCancelled

  /**
   One attempt as the outside world plays it. The `open` flags say whether the server still holds a
   transaction after a reply that does not settle it; `applied` says whether a COMMIT without a
   definite reply took effect.
   */
  datatype Attempt<T> = Attempt(
    acquire: Reply, begin: Reply, openAfterBegin: bool, operation: OperationReply<T>,
    commit: Reply, applied: bool, openAfterCommit: bool, rollback: Reply, openAfterRollback: bool)

  predicate IsRetryable(e: SqlError) {
    e == ServerError(SERIALIZATION_FAILURE)
  }

  /** A success reply means the commit took effect, a server error that it did not; anything else is open. */
  function Applies(reply: Reply, applied: bool): bool {
    match reply
    case Success => true
    case Failure(ServerError(_)) => false
    case _ => applied
  }

  // ----- the borrowed connection -----

  /** How a checkout stood when its guard was dropped. */
  datatype Checkout = Checkout(reusable: bool, transactionOpen: bool, committed: bool)

  class PooledConnection {
    var reusable: bool
    var transactionOpen: bool        // on the server
    var committed: bool              // the work of this checkout took effect

    constructor ()
      ensures Final() == Checkout(true, false, false)
    {
      reusable, transactionOpen, committed := true, false, false;
    }

    function Final(): Checkout
      reads this
    {
      Checkout(reusable, transactionOpen, committed)
    }

    method MarkUncertain()
      modifies this
      ensures Final() == old(Final()).(reusable := false)
    {
      reusable := false;
    }

    method MarkReusable()
      modifies this
      ensures Final() == old(Final()).(reusable := true)
    {
      reusable := true;
    }

    method Begin(reply: Reply, open: bool)
      modifies this
      ensures Final() == old(Final()).(transactionOpen := reply.Success? || open)
    {
      transactionOpen := reply.Success? || open;
    }

    method Commit(reply: Reply, applied: bool, open: bool)
      modifies this
      ensures Final() == old(Final()).(transactionOpen := !reply.Success? && open, committed := Applies(reply, applied))
    {
      transactionOpen := !reply.Success? && open;
      committed := Applies(reply, applied);
    }

    method Rollback(reply: Reply, open: bool) returns (settled: bool)
      modifies this
      ensures Final() == old(Final()).(transactionOpen := !reply.Success? && open)
      ensures settled == reply.Success?
    {
      transactionOpen := !reply.Success? && open;
      settled := reply.Success?;
    }
  }

  // ----- the loop -----

  datatype Outcome<T> = Returned(result: Result<T, StoreError>) | Abandoned

  predicate RetryableReply(reply: Reply) {
    reply.Failure? && IsRetryable(reply.error)
  }

  /** The attempt ended in a serialization failure from which a fresh attempt may start. */
  predicate Restarts<T>(a: Attempt<T>) {
    && a.acquire.Success?
    && (|| RetryableReply(a.begin)
        || (&& a.begin.Success?
            && (|| (a.operation.Value? && RetryableReply(a.commit) && !a.rollback.Cancelled?)
                || (a.operation.DatabaseFailure? && IsRetryable(a.operation.error) && a.rollback.Success?))))
  }

  predicate ReachesCommit<T>(a: Attempt<T>) {
    a.acquire.Success? && a.begin.Success? && a.operation.Value?
  }

  /** The caller must be told that the outcome is unknown: no definite reply to COMMIT, or the work itself says so. */
  predicate Ambiguous<T>(a: Attempt<T>) {
    || (ReachesCommit(a) && (a.commit.TimedOut? || (a.commit == Failure(ClientError) && !a.rollback.Cancelled?)))
    || (Refuses(a) && a.operation.reason.CommitOutcomeUnknown?)
  }

  /** The work itself refused, and the caller is still there to be told. */
  predicate Refuses<T>(a: Attempt<T>) {
    a.acquire.Success? && a.begin.Success? && a.operation.StoreFailure? && !a.rollback.Cancelled?
  }

  ghost predicate SaysUnknown<T>(outcome: Outcome<T>) {
    outcome.Returned? && outcome.result.Err? && outcome.result.error.CommitOutcomeUnknown?
  }

  function Commits(log: seq<Checkout>): nat {
    if log == [] then 0 else Commits(log[..|log| - 1]) + if log[|log| - 1].committed then 1 else 0
  }

  predicate Clean(log: seq<Checkout>) {
    forall i :: 0 <= i < |log| ==> CleanUse(log[i].reusable, log[i].transactionOpen)
  }

  lemma CommitsPush(log: seq<Checkout>, k: Checkout)
    ensures Commits(log + [k]) == Commits(log) + if k.committed then 1 else 0
  {
    assert (log + [k])[..|log|] == log;
  }

  /** What one attempt, the `last` allowed one or not, may tell its caller about the work. */
  ghost predicate Honest<T>(a: Attempt<T>, outcome: Outcome<T>, k: Checkout) {
    && CleanUse(k.reusable, k.transactionOpen)
    && (k.committed ==> ReachesCommit(a) && Applies(a.commit, a.applied))
    && (outcome.Returned? && outcome.result.Ok? ==>
          k.committed && ReachesCommit(a) && a.operation.value == outcome.result.value)
    && (outcome.Returned? && outcome.result.Err? && k.committed ==> SaysUnknown(outcome))
    && (SaysUnknown(outcome) <==> Ambiguous(a))
    && (Refuses(a) ==> outcome == Returned(Err(a.operation.reason)))
  }

  /** The body of the loop for one acquired connection; `None` asks for another attempt. */
  method TryOnce<T>(a: Attempt<T>, last: bool) returns (outcome: Option<Outcome<T>>, k: Checkout)
    requires a.acquire.Success?
    ensures outcome.None? <==> Restarts(a) && !last
    ensures outcome.None? ==> !k.committed && CleanUse(k.reusable, k.transactionOpen)
    ensures outcome.Some? ==> Honest(a, outcome.value, k)
    ensures ReachesCommit(a) && a.commit.Success? ==> outcome == Some(Returned(Ok(a.operation.value)))
  {
    var connection := new PooledConnection();
    connection.MarkUncertain();
    connection.Begin(a.begin, a.openAfterBegin);
    match a.begin {
      case Success =>
      case Failure(error) =>
        var retry := IsRetryable(error) && !last;
        return if retry then None else Some(Returned(Err(OperationFailed))), connection.Final();
      case TimedOut => return Some(Returned(Err(OperationFailed))), connection.Final();
      case Cancelled => return Some(Abandoned), connection.Final();
    }
    match a.operation {
      case Value(value) =>
        connection.Commit(a.commit, a.applied, a.openAfterCommit);
        match a.commit {
          case Success =>
            connection.MarkReusable();
            return Some(Returned(Ok(value))), connection.Final();
          case Failure(error) =>
            var retry := IsRetryable(error) && !last;
            var settled := connection.Rollback(a.rollback, a.openAfterRollback);
            if a.rollback.Cancelled? {
              return Some(Abandoned), connection.Final();
            }
            if settled {
              connection.MarkReusable();
            }
            if retry {
              return None, connection.Final();
            }
            return Some(Returned(Err(if error.ServerError? then OperationFailed else CommitOutcomeUnknown))), connection.Final();
          case TimedOut => return Some(Returned(Err(CommitOutcomeUnknown))), connection.Final();
          case Cancelled => return Some(Abandoned), connection.Final();
        }
      case DatabaseFailure(error) =>
        var settled := connection.Rollback(a.rollback, a.openAfterRollback);
        if a.rollback.Cancelled? {
          return Some(Abandoned), connection.Final();
        }
        if settled {
          connection.MarkReusable();
        }
        var retry := IsRetryable(error) && !last && settled;
        return if retry then None else Some(Returned(Err(OperationFailed))), connection.Final();
      case StoreFailure(reason) =>
        var settled := connection.Rollback(a.rollback, a.openAfterRollback);
        if a.rollback.Cancelled? {
          return Some(Abandoned), connection.Final();
        }
        if settled {
          connection.MarkReusable();
        }
        return Some(Returned(Err(reason))), connection.Final();
      case OperationTimedOut => return Some(Returned(Err(OperationFailed))), connection.Final();
      case OperationCancelled => return Some(Abandoned), connection.Final();
    }
  }

  /**
   Over every script of replies, timeouts and cancellations the work takes effect at most once:
   exactly once when the value is returned, never when an error other than an unknown commit outcome
   is returned. Every dropped checkout obeys the pool's rule, and only attempts that ended in a
   serialization failure are repeated.
   */
  method Transaction<T>(world: nat -> Attempt<T>) returns (outcome: Outcome<T>, log: seq<Checkout>, attempts: nat)
    ensures 1 <= attempts <= MAX_TRANSACTION_ATTEMPTS
    ensures Commits(log) <= 1 && Clean(log)
    ensures |log| <= attempts && forall i :: 0 <= i < |log| && log[i].committed ==> i == attempts - 1 && ReachesCommit(world(i))
    ensures outcome.Returned? && outcome.result.Ok? ==>
              && Commits(log) == 1
              && world(attempts - 1).operation == Value(outcome.result.value)
              && |log| == attempts && log[attempts - 1].committed
    ensures outcome.Returned? && outcome.result.Err? && !SaysUnknown(outcome) ==>
              Commits(log) == 0 && forall i :: 0 <= i < |log| ==> !log[i].committed
    ensures SaysUnknown(outcome) <==> Ambiguous(world(attempts - 1))
    ensures world(attempts - 1).acquire.Failure? || world(attempts - 1).acquire.TimedOut? ==> outcome == Returned(Err(Unavailable))
    ensures Refuses(world(attempts - 1)) ==> outcome == Returned(Err(world(attempts - 1).operation.reason))
    ensures forall i: nat :: i < attempts - 1 ==> Restarts(world(i))
    ensures attempts < MAX_TRANSACTION_ATTEMPTS ==> !Restarts(world(attempts - 1))
  {
    log := [];
    var attempt := 0;
    while attempt < MAX_TRANSACTION_ATTEMPTS
      invariant 0 <= attempt <= MAX_TRANSACTION_ATTEMPTS
      invariant Commits(log) == 0 && Clean(log) && |log| == attempt && forall i :: 0 <= i < |log| ==> !log[i].committed
      invariant forall i: nat :: i < attempt ==> Restarts(world(i))
      invariant attempt < MAX_TRANSACTION_ATTEMPTS
      decreases MAX_TRANSACTION_ATTEMPTS - attempt
    {
      var a := world(attempt);
      if a.acquire.Cancelled? {
        return Abandoned, log, attempt + 1;
      }
      if !a.acquire.Success? {
        return Returned(Err(Unavailable)), log, attempt + 1;
      }
      var answer, k := TryOnce(a, attempt + 1 == MAX_TRANSACTION_ATTEMPTS);
      CommitsPush(log, k);
      log := log + [k];
      if answer.Some? {
        return answer.value, log, attempt + 1;
      }
      attempt := attempt + 1;
    }
    assert false;
  }
}
