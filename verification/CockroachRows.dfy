/**
 The CockroachDB bucket store (src/adapters/cockroach_durable.rs): one metadata row and the record
 rows of a bucket, changed by serializable transactions, each taken as one atomic step. The record
 rows are listed in primary-key order.
 */
module CockroachRows {
  import opened Common
  import opened Records
  import opened Cutover
  import opened BucketStore

  datatype Row = Row(
    state: string, generation: int, ownerToken: Option<string>, ownerExpiresAt: Option<int>,
    objectKey: Option<string>, hotDeleted: bool, attempts: int, nextAttemptAt: Option<int>)

  const INSERTED := Row("hot", 0, None, None, None, false, 0, None)

  const I64_MAX := 0x7FFF_FFFF_FFFF_FFFF

  datatype RowError =
    | DatabaseError
    | StrategyMismatch
    | ReadOnly(state: BucketState)
    | NotAllowed(state: BucketState)
    | StaleSession

  // ----- the schema's constraints -----

  /** The CHECK constraints on state, generation and their dependent columns. */
  predicate Check(row: Row) {
    && row.state in {"hot", "archiving", "archived"}
    && row.generation >= 0
    && (|| (row.state == "hot" && row.ownerToken.None? && row.ownerExpiresAt.None? && row.objectKey.None? && !row.hotDeleted)
        || (row.state == "archiving" && row.ownerToken.Some? && row.ownerExpiresAt.Some? && row.objectKey.None? && !row.hotDeleted)
        || (row.state == "archived" && row.ownerToken.Some? && row.objectKey.Some?))
  }

  function MetadataState(row: Row): Result<BucketState, RowError> {
    if row.state == "hot" && row.ownerToken.None? && row.ownerExpiresAt.None? && row.objectKey.None? && !row.hotDeleted then
      Ok(Hot)
    else if row.state == "archiving" && row.ownerToken.Some? && row.ownerExpiresAt.Some? && row.objectKey.None? && !row.hotDeleted then
      Ok(Archiving)
    else if row.state == "archived" && row.ownerToken.Some? then
      (if row.objectKey.Some? then Ok(Archived(row.objectKey.value, row.hotDeleted)) else Err(DatabaseError))
    else Err(DatabaseError)
  }

  /** Decoding a row fails exactly when the row breaks the constraints. */
  lemma DecodesIffChecked(row: Row)
    ensures Check(row) <==> row.generation >= 0 && MetadataState(row).Ok?
  {
  }

  /** One bucket in the database; a bucket never written to has no row. */
  datatype Slot = Slot(row: Option<Row>, records: seq<Record>)

  ghost predicate SlotOk(slot: Slot) {
    && (slot.row.Some? ==> Check(slot.row.value) && slot.row.value.generation <= I64_MAX)
    && (slot.row.None? ==> slot.records == [])
    && StrictlySorted(slot.records)
  }

  // ----- the transactions -----

  datatype Tx =
    | AppendTx(record: Record, strategyConflict: bool)
    | ClaimArchiveTx(token: string, expiresAt: int, now: int)
    | ClaimCleanupTx(token: string, expiresAt: int, now: int)
    | RenewTx(session: Session, expiresAt: int, now: int)
    | DeferArchiveTx(session: Session, retryAt: int, now: int)
    | DeferCleanupTx(session: Session, retryAt: int, now: int)
    | BeginArchiveTx(token: string, now: int)
    | SnapshotTx(session: Session, now: int)
    | PublishTx(session: Session, key: string, now: int)
    | DeleteHotTx(session: Session, now: int)
    | AbortTx(session: Session, now: int)

  /** A committed transaction's new slot and answer; an error rolls back and changes nothing. */
  datatype Commit = Commit(slot: Slot, answer: Answer)

  predicate DueRow(row: Row, now: int) {
    row.nextAttemptAt.None? || row.nextAttemptAt.value <= now
  }

  /** A comparison with NULL selects nothing. */
  predicate ExpiredRow(row: Row, now: int) {
    row.ownerExpiresAt.Some? && row.ownerExpiresAt.value <= now
  }

  predicate OwnedRow(row: Row, s: Session, now: int) {
    && row.generation == s.generation && row.ownerToken == Some(s.owner)
    && row.ownerExpiresAt.Some? && row.ownerExpiresAt.value > now
  }

  predicate HasKey(records: seq<Record>, c: Cursor) {
    exists i :: 0 <= i < |records| && CursorOf(records[i]) == c
  }

  /** The cast of a signed column to `u64`. */
  function AsU64(i: int): nat {
    i % (U64_MAX + 1)
  }

  /** `UPDATE … RETURNING generation` for a claim; the increment can overflow INT8. */
  function ClaimRow(slot: Slot, row: Row, claimed: Row): Result<Commit, RowError> {
    if row.generation >= I64_MAX then Err(DatabaseError)
    else Ok(Commit(slot.(row := Some(claimed.(generation := row.generation + 1))), Claimed(AsU64(row.generation + 1))))
  }

  function Transact(slot: Slot, tx: Tx): Result<Commit, RowError> {
    match tx
    case AppendTx(r, conflict) =>
      if conflict then Err(StrategyMismatch) else
        var row := if slot.row.Some? then slot.row.value else INSERTED;
        (match MetadataState(row)
         case Err(e) => Err(e)
         case Ok(state) =>
           if !state.Hot? then Err(ReadOnly(state))
           else if HasKey(slot.records, CursorOf(r)) then Err(DatabaseError)
           else Ok(Commit(Slot(Some(row), Insert(slot.records, r)), Done)))
    case ClaimArchiveTx(token, expiresAt, now) =>
      if slot.row.Some? && DueRow(slot.row.value, now) &&
         (slot.row.value.state == "hot" || (slot.row.value.state == "archiving" && ExpiredRow(slot.row.value, now))) then
        var row := slot.row.value;
        ClaimRow(slot, row, row.(state := "archiving", ownerToken := Some(token), ownerExpiresAt := Some(expiresAt),
                                 nextAttemptAt := None, objectKey := None, hotDeleted := false))
      else Ok(Commit(slot, NotClaimed))
    case ClaimCleanupTx(token, expiresAt, now) =>
      if slot.row.Some? && slot.row.value.state == "archived" && !slot.row.value.hotDeleted && DueRow(slot.row.value, now) &&
         (slot.row.value.ownerExpiresAt.None? || slot.row.value.ownerExpiresAt.value <= now) then
        var row := slot.row.value;
        ClaimRow(slot, row, row.(ownerToken := Some(token), ownerExpiresAt := Some(expiresAt), nextAttemptAt := None))
      else Ok(Commit(slot, NotClaimed))
    case RenewTx(s, expiresAt, now) =>
      if slot.row.Some? && OwnedRow(slot.row.value, s, now) &&
         (slot.row.value.state == "archiving" || (slot.row.value.state == "archived" && !slot.row.value.hotDeleted)) then
        Ok(Commit(slot.(row := Some(slot.row.value.(ownerExpiresAt := Some(expiresAt)))), Done))
      else Err(StaleSession)
    case DeferArchiveTx(s, retryAt, now) =>
      if slot.row.Some? && slot.row.value.state == "archiving" && OwnedRow(slot.row.value, s, now) then
        var row := slot.row.value;
        Ok(Commit(slot.(row := Some(row.(state := "hot", ownerToken := None, ownerExpiresAt := None, objectKey := None,
                                         hotDeleted := false, attempts := row.attempts + 1, nextAttemptAt := Some(retryAt)))), Done))
      else Err(StaleSession)
    case DeferCleanupTx(s, retryAt, now) =>
      if slot.row.Some? && slot.row.value.state == "archived" && !slot.row.value.hotDeleted && OwnedRow(slot.row.value, s, now) then
        var row := slot.row.value;
        Ok(Commit(slot.(row := Some(row.(ownerExpiresAt := Some(retryAt), attempts := row.attempts + 1,
                                         nextAttemptAt := Some(retryAt)))), Done))
      else Err(StaleSession)
    case BeginArchiveTx(token, now) =>
      // Unlike the in-memory store, an expired cutover may be taken over here too.
      var row := if slot.row.Some? then slot.row.value else INSERTED;
      if row.state == "hot" || (row.state == "archiving" && ExpiredRow(row, now)) then
        ClaimRow(slot, row, row.(state := "archiving", ownerToken := Some(token), ownerExpiresAt := Some(now + DIRECT_LEASE),
                                 objectKey := None, hotDeleted := false))
      else
        (match MetadataState(row)
         case Err(e) => Err(e)
         case Ok(state) => Err(NotAllowed(state)))
    case SnapshotTx(s, now) =>
      if slot.row.Some? && slot.row.value.state == "archiving" && OwnedRow(slot.row.value, s, now) then
        Ok(Commit(slot, Rows(slot.records)))
      else Err(StaleSession)
    case PublishTx(s, key, now) =>
      if slot.row.Some? && slot.row.value.state == "archiving" && OwnedRow(slot.row.value, s, now) then
        Ok(Commit(slot.(row := Some(slot.row.value.(state := "archived", objectKey := Some(key), hotDeleted := false))), Done))
      else Err(StaleSession)
    case DeleteHotTx(s, now) =>
      if slot.row.Some? && slot.row.value.state == "archived" && !slot.row.value.hotDeleted && OwnedRow(slot.row.value, s, now) then
        Ok(Commit(Slot(Some(slot.row.value.(hotDeleted := true)), []), Done))
      else Err(StaleSession)
    case AbortTx(s, now) =>
      if slot.row.Some? && slot.row.value.state == "archiving" && OwnedRow(slot.row.value, s, now) then
        Ok(Commit(slot.(row := Some(slot.row.value.(state := "hot", ownerToken := None, ownerExpiresAt := None,
                                                    objectKey := None, hotDeleted := false))), Done))
      else Err(StaleSession)
  }

  /** The slot after a transaction, whether it committed or rolled back. */
  function After(slot: Slot, tx: Tx): Slot {
    match Transact(slot, tx)
    case Ok(c) => c.slot
    case Err(_) => slot
  }

  function TransactAll(slot: Slot, txs: seq<Tx>): Slot
    decreases |txs|
  {
    if txs == [] then slot else TransactAll(After(slot, txs[0]), txs[1..])
  }

  // ----- leases -----

  /** The session owns a cutover or a cleanup in progress, under a lease. */
  predicate LeasedRow(slot: Slot, s: Session) {
    && slot.row.Some?
    && var row := slot.row.value;
    && row.generation == s.generation && row.ownerToken == Some(s.owner) && row.ownerExpiresAt.Some?
    && (row.state == "archiving" || (row.state == "archived" && !row.hotDeleted))
  }

  function SessionOf(tx: Tx): Option<Session> {
    match tx
    case RenewTx(s, _, _) => Some(s)
    case DeferArchiveTx(s, _, _) => Some(s)
    case DeferCleanupTx(s, _, _) => Some(s)
    case SnapshotTx(s, _) => Some(s)
    case PublishTx(s, _, _) => Some(s)
    case DeleteHotTx(s, _) => Some(s)
    case AbortTx(s, _) => Some(s)
    case _ => None
  }

  /** A transaction that is not made with the session, by a clock that has not reached `until`. */
  predicate OutsideTx(tx: Tx, s: Session, until: int) {
    && (SessionOf(tx).Some? ==> SessionOf(tx).value != s && SessionOf(tx).value.bucket == s.bucket)
    && (tx.ClaimArchiveTx? || tx.ClaimCleanupTx? || tx.BeginArchiveTx? ==> tx.now < until)
  }

  /** Until its lease runs out no transaction but the owner's changes the row or the records. */
  lemma {:induction false} LeaseProtectsRow(slot: Slot, s: Session, txs: seq<Tx>)
    requires SlotOk(slot) && LeasedRow(slot, s)
    requires forall i :: 0 <= i < |txs| ==> OutsideTx(txs[i], s, slot.row.value.ownerExpiresAt.value)
    ensures TransactAll(slot, txs) == slot
    decreases |txs|
  {
    if txs != [] {
      OutsideTxIsRefused(slot, s, txs[0]);
      LeaseProtectsRow(slot, s, txs[1..]);
    }
  }

  lemma OutsideTxIsRefused(slot: Slot, s: Session, tx: Tx)
    requires SlotOk(slot) && LeasedRow(slot, s) && OutsideTx(tx, s, slot.row.value.ownerExpiresAt.value)
    ensures After(slot, tx) == slot
  {
  }

  // ----- refinement -----

  ghost function CoreOfSlot(slot: Slot): Bucket
    requires SlotOk(slot)
  {
    if slot.row.None? then UNTOUCHED else
      var row := slot.row.value;
      DecodesIffChecked(row);
      Bucket(MetadataState(row).value, row.generation, row.ownerToken, slot.records)
  }

  /** The protocol action a committed transaction performs, if any. */
  function ActionOfTx(slot: Slot, tx: Tx): Option<Action> {
    if Transact(slot, tx).Err? then None else
      match tx
      case AppendTx(r, _) => Some(Append(r))
      case ClaimArchiveTx(token, _, _) => if After(slot, tx) != slot then Some(Claim(token)) else None
      case BeginArchiveTx(token, _) => Some(Claim(token))
      case ClaimCleanupTx(token, _, _) => if After(slot, tx) != slot then Some(ClaimCleanup(token)) else None
      case DeferArchiveTx(s, _, _) => Some(Reopen(s))
      case AbortTx(s, _) => Some(Reopen(s))
      case PublishTx(s, key, _) => Some(Publish(s, key))
      case DeleteHotTx(s, _) => Some(Delete(s))
      case _ => None
  }

  lemma {:induction false} InsertStrict(s: seq<Record>, r: Record)
    requires StrictlySorted(s) && !HasKey(s, CursorOf(r))
    ensures StrictlySorted(Insert(s, r))
  {
    if s != [] {
      var init, last := s[..|s| - 1], s[|s| - 1];
      Trichotomy(CursorOf(r), CursorOf(last));
      if Precedes(CursorOf(r), CursorOf(last)) {
        InsertStrict(init, r);
        var t := Insert(init, r);
        forall i | 0 <= i < |t| ensures Precedes(CursorOf(t[i]), CursorOf(last)) {
          assert t[i] in multiset(t);
          if t[i] != r { assert t[i] in init; }
        }
      } else {
        forall i | 0 <= i < |s| - 1 ensures Precedes(CursorOf(s[i]), CursorOf(r)) {
          Transitive(CursorOf(s[i]), CursorOf(last), CursorOf(r));
        }
      }
    }
  }

  /** Every transaction keeps the constraints and the unique keys, so no row it leaves behind fails to decode. */
  lemma TransactKeepsChecks(slot: Slot, tx: Tx)
    requires SlotOk(slot)
    ensures SlotOk(After(slot, tx))
  {
    if tx.AppendTx? && !HasKey(slot.records, CursorOf(tx.record)) { InsertStrict(slot.records, tx.record); }
  }

  /** Every transaction is a step of the protocol or invisible to it. */
  lemma TransactRefines(slot: Slot, tx: Tx)
    requires SlotOk(slot)
    ensures SlotOk(After(slot, tx))
    ensures var c, c', a := CoreOfSlot(slot), CoreOfSlot(After(slot, tx)), ActionOfTx(slot, tx);
            && (a.None? ==> c' == c)
            && (a.Some? ==> Enabled(c, a.value) && c' == Act(c, a.value))
  {
    TransactKeepsChecks(slot, tx);
  }

  /** The owner token a claim would install. */
  function TokenOfTx(tx: Tx): Option<string> {
    match tx
    case ClaimArchiveTx(token, _, _) => Some(token)
    case ClaimCleanupTx(token, _, _) => Some(token)
    case BeginArchiveTx(token, _) => Some(token)
    case _ => None
  }

  /** What a worker is told is true: the row is its own under the new generation, its rows are the fenced bucket's rows. */
  lemma AnswersAreTrue(slot: Slot, tx: Tx)
    requires SlotOk(slot) && Transact(slot, tx).Ok?
    ensures SlotOk(After(slot, tx))
    ensures var answer := Transact(slot, tx).value.answer;
            && (answer.Claimed? ==> answer.generation == CoreOfSlot(After(slot, tx)).generation &&
                                    CoreOfSlot(After(slot, tx)).owner == TokenOfTx(tx) != None &&
                                    CoreOfSlot(slot).generation < answer.generation)
            && (answer.Rows? ==> tx.SnapshotTx? && Holding(CoreOfSlot(slot), tx.session) &&
                                 answer.records == CoreOfSlot(slot).records)
  {
    TransactKeepsChecks(slot, tx);
  }

  // ----- routed reads -----

  function RoutedReadFromSnapshot(state: string, objectKey: Option<string>, records: seq<Record>): Result<Read, RowError> {
    if (state == "hot" || state == "archiving") && objectKey.None? then Ok(HotRows(records))
    else if state == "archived" && records == [] then
      (if objectKey.Some? then Ok(Archive(objectKey.value)) else Err(DatabaseError))
    else Err(DatabaseError)
  }

  function StatementLimit(limit: nat): nat {
    if limit > I64_MAX then I64_MAX else limit
  }

  /** The single statement: the route, and the hot rows unless the route is archived. */
  function UncachedRead(slot: Slot, range: TimeRange, after: Option<Cursor>, limit: nat): Result<Read, RowError> {
    var state := if slot.row.Some? then slot.row.value.state else "hot";
    var key := if slot.row.Some? then slot.row.value.objectKey else None;
    RoutedReadFromSnapshot(state, key, if state == "archived" then [] else Page(slot.records, range, after, StatementLimit(limit)))
  }

  /** The statement snapshot yields exactly the protocol's route, and always succeeds on a constrained row. */
  lemma UncachedReadRoutes(slot: Slot, range: TimeRange, after: Option<Cursor>, limit: nat)
    requires SlotOk(slot)
    ensures UncachedRead(slot, range, after, limit) == Ok(RouteRead(CoreOfSlot(slot), range, after, StatementLimit(limit)))
  {
    if slot.row.None? {
      assert Filter(slot.records, r => Selected(range, after, r)) == [];
    }
  }
}
