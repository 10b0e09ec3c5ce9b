/**
 A row transaction submitted through the retry loop (src/adapters/cockroach_durable.rs): what the database
 holds after every script of replies, while others change it between the attempts.
 */
module Submission {
  import opened Common
  import opened Tiling
  import opened Transactions
  import opened Deployment
  import BucketStore
  import CockroachRows

  /** How the network and the session treat an attempt; `interrupted` replaces the reply of the statements themselves. */
  datatype Weather = Weather(attempt: Attempt<BucketStore.Answer>, interrupted: bool)

  /** The attempt as it goes against the rows it finds: unless interrupted, the statements answer as the row transaction does. */
  function Played(w: Weather, slot: CockroachRows.Slot, tx: CockroachRows.Tx): Attempt<BucketStore.Answer> {
    if w.interrupted && !w.attempt.operation.Value? then w.attempt
    else
      w.attempt.(operation :=
        match CockroachRows.Transact(slot, tx)
        case Ok(commit) => Value(commit.answer)
        case Err(_) => StoreFailure(Rejected))
  }

  /** The store an attempt leaves: with the deed done, or as it found it. */
  function After(found: HotStore, b: BucketId, tx: CockroachRows.Tx, committed: bool): HotStore {
    if committed then StoreAfter(found, RowTransaction(b, tx)) else found
  }

  function Script(script: nat -> Weather, found: nat -> HotStore, b: BucketId, tx: CockroachRows.Tx): nat -> Attempt<BucketStore.Answer>
    requires forall i: nat :: found(i).Database?
  {
    (i: nat) => Played(script(i), SlotIn(found(i), b), tx)
  }

  /**
   Submits the transaction. `found(i)` is the database as attempt `i` finds it. An answer means that exactly
   the last attempt did the deed and the answer is the deed's; a definite error means that none did; an unknown
   or abandoned outcome means that the last attempt did it or none did.
   */
  method Submit(script: nat -> Weather, found: nat -> HotStore, b: BucketId, tx: CockroachRows.Tx)
    returns (outcome: Outcome<BucketStore.Answer>, left: seq<HotStore>, attempts: nat)
    requires forall i: nat :: found(i).Database?
    ensures 1 <= attempts <= MAX_TRANSACTION_ATTEMPTS && |left| == attempts
    ensures forall i: nat :: i < attempts - 1 ==> left[i] == found(i)
    ensures left[attempts - 1] in {found(attempts - 1), StoreAfter(found(attempts - 1), RowTransaction(b, tx))}
    ensures outcome.Returned? && outcome.result.Ok? ==>
              && left[attempts - 1] == StoreAfter(found(attempts - 1), RowTransaction(b, tx))
              && CockroachRows.Transact(SlotIn(found(attempts - 1), b), tx).Ok?
              && outcome.result.value == CockroachRows.Transact(SlotIn(found(attempts - 1), b), tx).value.answer
    ensures outcome.Returned? && outcome.result.Err? && !SaysUnknown(outcome) ==> left[attempts - 1] == found(attempts - 1)
    ensures left[attempts - 1] != found(attempts - 1) ==> CockroachRows.Transact(SlotIn(found(attempts - 1), b), tx).Ok?
  {
    var world := Script(script, found, b, tx);
    var log;
    outcome, log, attempts := Transaction(world);
    left := seq(attempts, i requires 0 <= i < attempts => After(found(i), b, tx, i < |log| && log[i].committed));
  }
}
