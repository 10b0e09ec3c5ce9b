/** Turning pushed-down SQL filters into one partition and one half-open time range (src/integrations/datafusion.rs). */
module Predicates {
  import opened Common

  // ----- filter expressions -----

  datatype Scalar =
    | Utf8(text: Option<string>) | Utf8View(text: Option<string>) | LargeUtf8(text: Option<string>)
    | TimestampNanosecond(ticks: Option<int>) | TimestampMicrosecond(ticks: Option<int>)
    | TimestampMillisecond(ticks: Option<int>) | TimestampSecond(ticks: Option<int>)
    | OtherScalar

  datatype Operator = And | Eq | GtEq | Lt | OtherOperator

  datatype Expr =
    | Column(name: string) | Literal(value: Scalar) | Cast(expr: Expr) | TryCast(expr: Expr)
    | Binary(left: Expr, op: Operator, right: Expr)
    | OtherExpr

  const TIMESTAMP := "timestamp"

  predicate IsColumn(e: Expr, name: string) {
    e.Column? && e.name == name
  }

  function LiteralOf(e: Expr): Option<Scalar> {
    match e
    case Literal(value) => Some(value)
    case Cast(inner) => LiteralOf(inner)
    case TryCast(inner) => LiteralOf(inner)
    case _ => None
  }

  function StringLiteral(s: Option<Scalar>): Option<string> {
    match s
    case Some(Utf8(text)) => text
    case Some(Utf8View(text)) => text
    case Some(LargeUtf8(text)) => text
    case _ => None
  }

  const I64_MIN := -0x8000_0000_0000_0000
  const I64_MAX := 0x7FFF_FFFF_FFFF_FFFF

  function CheckedMul(ticks: Option<int>, unit: int): Option<int> {
    if ticks.Some? && I64_MIN <= ticks.value * unit <= I64_MAX then Some(ticks.value * unit) else None
  }

  /** Nanoseconds since the epoch, if they fit 64 bits. */
  function TimestampLiteral(s: Option<Scalar>): Option<int> {
    match s
    case Some(TimestampNanosecond(t)) => t
    case Some(TimestampMicrosecond(t)) => CheckedMul(t, 1_000)
    case Some(TimestampMillisecond(t)) => CheckedMul(t, 1_000_000)
    case Some(TimestampSecond(t)) => CheckedMul(t, 1_000_000_000)
    case _ => None
  }

  // ----- what a filter means -----

  datatype Row = Row(partition: string, timestamp: int)

  datatype Value = Text(text: string) | Time(nanos: int) | Unknown

  function ScalarMeaning(s: Scalar): Value {
    match s
    case Utf8(Some(t)) => Text(t)
    case Utf8View(Some(t)) => Text(t)
    case LargeUtf8(Some(t)) => Text(t)
    case TimestampNanosecond(Some(t)) => Time(t)
    case TimestampMicrosecond(Some(t)) => Time(t * 1_000)
    case TimestampMillisecond(Some(t)) => Time(t * 1_000_000)
    case TimestampSecond(Some(t)) => Time(t * 1_000_000_000)
    case _ => Unknown
  }

  /** The value of an operand; casts and foreign expressions are left uninterpreted. */
  function Operand(e: Expr, column: string, row: Row): Value {
    match e
    case Column(name) => if name == column then Text(row.partition) else if name == TIMESTAMP then Time(row.timestamp) else Unknown
    case Literal(s) => ScalarMeaning(s)
    case _ => Unknown
  }

  predicate Compares(op: Operator, a: Value, b: Value) {
    match op
    case Eq => a == b && !a.Unknown?
    case GtEq => a.Time? && b.Time? && a.nanos >= b.nanos
    case Lt => a.Time? && b.Time? && a.nanos < b.nanos
    case _ => false
  }

  /** The filter evaluates to true on the row. */
  predicate Truth(e: Expr, column: string, row: Row) {
    match e
    case Binary(left, And, right) => Truth(left, column, row) && Truth(right, column, row)
    case Binary(left, op, right) => Compares(op, Operand(left, column, row), Operand(right, column, row))
    case _ => false
  }

  predicate TruthOfAll(filters: seq<Expr>, column: string, row: Row) {
    forall i :: 0 <= i < |filters| ==> Truth(filters[i], column, row)
  }

  predicate Uncast(e: Expr) {
    match e
    case Binary(left, _, right) => Uncast(left) && Uncast(right)
    case Cast(_) => false
    case TryCast(_) => false
    case _ => true
  }

  /** Some timestamp comparison has its column on the right. */
  predicate Flipped(e: Expr) {
    match e
    case Binary(left, And, right) => Flipped(left) || Flipped(right)
    case Binary(left, op, right) => (op.Lt? || op.GtEq?) && IsColumn(right, TIMESTAMP) && !IsColumn(left, TIMESTAMP)
    case _ => false
  }

  // ----- extraction -----

  datatype PlanError =
    | MissingShardEquality | MissingTimestampStart | MissingTimestampEnd | InvalidTimestampRange
    | UnsupportedPredicate | ConflictingShardEquality | ConflictingTimestampBounds

  /** A bound and whether it came from a comparison with the column on the right. */
  datatype Bound = Bound(at: int, flipped: bool)

  datatype Routed = Routed(partition: Option<string>, start: Option<Bound>, end: Option<Bound>)

  const UNROUTED := Routed(None, None, None)

  /** Which bound a comparison gives: the bound, and whether it is the start. */
  function BoundOf(left: Expr, op: Operator, right: Expr): Option<(Option<Bound>, bool)> {
    var (ofRight, ofLeft) := (TimestampLiteral(LiteralOf(right)), TimestampLiteral(LiteralOf(left)));
    if op.GtEq? && IsColumn(left, TIMESTAMP) then Some((Mark(ofRight, false), true))
    else if op.Lt? && IsColumn(left, TIMESTAMP) then Some((Mark(ofRight, false), false))
    else if op.Lt? && IsColumn(right, TIMESTAMP) then Some((Mark(ofLeft, true), true))
    else if op.GtEq? && IsColumn(right, TIMESTAMP) then Some((Mark(ofLeft, true), false))
    else None
  }

  function Mark(at: Option<int>, flipped: bool): Option<Bound> {
    if at.Some? then Some(Bound(at.value, flipped)) else None
  }

  function CollectBound(left: Expr, op: Operator, right: Expr, q: Routed): Result<Routed, PlanError> {
    match BoundOf(left, op, right)
    case Some((Some(bound), isStart)) =>
      if (if isStart then q.start else q.end).Some? then Err(ConflictingTimestampBounds)
      else Ok(if isStart then q.(start := Some(bound)) else q.(end := Some(bound)))
    case _ => Err(UnsupportedPredicate)
  }

  function PartitionOf(left: Expr, right: Expr, column: string): Option<string> {
    if IsColumn(left, column) then StringLiteral(LiteralOf(right))
    else if IsColumn(right, column) then StringLiteral(LiteralOf(left))
    else None
  }

  function CollectEquality(left: Expr, right: Expr, column: string, q: Routed): Result<Routed, PlanError> {
    match PartitionOf(left, right, column)
    case None => Err(UnsupportedPredicate)
    case Some(p) =>
      if q.partition.Some? && q.partition.value != p then Err(ConflictingShardEquality)
      else Ok(q.(partition := Some(p)))
  }

  function Collect(e: Expr, column: string, q: Routed): Result<Routed, PlanError> {
    match e
    case Binary(left, And, right) =>
      (match Collect(left, column, q)
       case Err(error) => Err(error)
       case Ok(q') => Collect(right, column, q'))
    case Binary(left, Eq, right) => CollectEquality(left, right, column, q)
    case Binary(left, op, right) => CollectBound(left, op, right, q)
    case _ => Err(UnsupportedPredicate)
  }

  function CollectAll(filters: seq<Expr>, column: string): Result<Routed, PlanError> {
    if filters == [] then Ok(UNROUTED)
    else match CollectAll(filters[..|filters| - 1], column)
      case Err(error) => Err(error)
      case Ok(q) => Collect(filters[|filters| - 1], column, q)
  }

  predicate Complete(q: Routed) {
    q.start.Some? && q.end.Some? && q.start.value.at < q.end.value.at && q.partition.Some?
  }

  function Finish(q: Routed): (r: Result<Routed, PlanError>)
    ensures r.Ok? <==> Complete(q)
    ensures r.Ok? ==> r.value == q
    ensures r.Err? ==> r.error in {MissingTimestampStart, MissingTimestampEnd, InvalidTimestampRange, MissingShardEquality}
    ensures r == Err(MissingTimestampStart) <==> q.start.None?
    ensures r == Err(MissingTimestampEnd) ==> q.start.Some? && q.end.None?
    ensures r == Err(InvalidTimestampRange) ==> q.start.Some? && q.end.Some? && q.start.value.at >= q.end.value.at
    ensures r == Err(MissingShardEquality) <==> q.partition.None? && Complete(q.(partition := Some([])))
  {
    if q.start.None? then Err(MissingTimestampStart)
    else if q.end.None? then Err(MissingTimestampEnd)
    else if q.start.value.at >= q.end.value.at then Err(InvalidTimestampRange)
    else if q.partition.None? then Err(MissingShardEquality)
    else Ok(q)
  }

  function Extract(filters: seq<Expr>, column: string): Result<Routed, PlanError> {
    match CollectAll(filters, column)
    case Err(error) => Err(error)
    case Ok(q) => Finish(q)
  }

  // ----- meaning -----

  /** The rows the scan reads: one partition and [start, end). */
  predicate Covers(q: Routed, row: Row)
    requires Complete(q)
  {
    row.partition == q.partition.value && q.start.value.at <= row.timestamp < q.end.value.at
  }

  /** The rows the collected filters really ask for: a flipped start excludes its instant, a flipped end includes it. */
  predicate Asks(q: Routed, row: Row) {
    && (q.partition.Some? ==> row.partition == q.partition.value)
    && (q.start.Some? ==> if q.start.value.flipped then q.start.value.at < row.timestamp else q.start.value.at <= row.timestamp)
    && (q.end.Some? ==> if q.end.value.flipped then row.timestamp <= q.end.value.at else row.timestamp < q.end.value.at)
  }

  lemma BoundMeans(left: Expr, op: Operator, right: Expr, column: string, q: Routed, row: Row)
    requires column != TIMESTAMP && Uncast(left) && Uncast(right) && !op.And? && !op.Eq?
    requires CollectBound(left, op, right, q).Ok?
    ensures Truth(Binary(left, op, right), column, row) && Asks(q, row) <==> Asks(CollectBound(left, op, right, q).value, row)
  {
  }

  lemma EqualityMeans(left: Expr, right: Expr, column: string, q: Routed, row: Row)
    requires Uncast(left) && Uncast(right)
    requires CollectEquality(left, right, column, q).Ok?
    ensures Truth(Binary(left, Eq, right), column, row) && Asks(q, row) <==> Asks(CollectEquality(left, right, column, q).value, row)
  {
  }

  lemma {:induction false} CollectMeans(e: Expr, column: string, q: Routed, row: Row)
    requires column != TIMESTAMP && Uncast(e) && Collect(e, column, q).Ok?
    ensures Truth(e, column, row) && Asks(q, row) <==> Asks(Collect(e, column, q).value, row)
  {
    match e
    case Binary(left, And, right) =>
      CollectMeans(left, column, q, row);
      CollectMeans(right, column, Collect(left, column, q).value, row);
    case Binary(left, Eq, right) => EqualityMeans(left, right, column, q, row);
    case Binary(left, op, right) => BoundMeans(left, op, right, column, q, row);
  }

  predicate AllUncast(filters: seq<Expr>) {
    forall i :: 0 <= i < |filters| ==> Uncast(filters[i])
  }

  /** A row satisfies the accepted filters exactly when the collected query asks for it. */
  lemma {:induction false} CollectAllMeans(filters: seq<Expr>, column: string, row: Row)
    requires column != TIMESTAMP && AllUncast(filters) && CollectAll(filters, column).Ok?
    ensures TruthOfAll(filters, column, row) <==> Asks(CollectAll(filters, column).value, row)
  {
    if filters != [] {
      var init, last := filters[..|filters| - 1], filters[|filters| - 1];
      CollectAllMeans(init, column, row);
      CollectMeans(last, column, CollectAll(init, column).value, row);
      assert TruthOfAll(filters, column, row) <==> TruthOfAll(init, column, row) && Truth(last, column, row);
    }
  }

  predicate HasFlip(q: Routed) {
    (q.start.Some? && q.start.value.flipped) || (q.end.Some? && q.end.value.flipped)
  }

  lemma {:induction false} FlipsAreCollected(e: Expr, column: string, q: Routed)
    requires column != TIMESTAMP && Collect(e, column, q).Ok?
    ensures HasFlip(Collect(e, column, q).value) <==> HasFlip(q) || Flipped(e)
  {
    match e
    case Binary(left, And, right) =>
      FlipsAreCollected(left, column, q);
      FlipsAreCollected(right, column, Collect(left, column, q).value);
    case _ =>
  }

  predicate AnyFlipped(filters: seq<Expr>) {
    exists i :: 0 <= i < |filters| && Flipped(filters[i])
  }

  lemma {:induction false} AllFlipsAreCollected(filters: seq<Expr>, column: string)
    requires column != TIMESTAMP && CollectAll(filters, column).Ok?
    ensures HasFlip(CollectAll(filters, column).value) <==> AnyFlipped(filters)
  {
    if filters != [] {
      var init, last := filters[..|filters| - 1], filters[|filters| - 1];
      AllFlipsAreCollected(init, column);
      FlipsAreCollected(last, column, CollectAll(init, column).value);
      assert AnyFlipped(filters) <==> AnyFlipped(init) || Flipped(last);
    }
  }

  ghost predicate RoutesExactly(filters: seq<Expr>, column: string, q: Routed)
    requires Complete(q)
  {
    forall row :: TruthOfAll(filters, column, row) <==> Covers(q, row)
  }

  /**
   For accepted filters with uncast literals, the scan reads exactly the rows that satisfy them if and
   only if no timestamp comparison has its column on the right: the instant of a flipped start is read
   though the filter excludes it, the instant of a flipped end is not read though the filter admits it.
   */
  lemma ExactIffUnflipped(filters: seq<Expr>, column: string)
    requires column != TIMESTAMP && AllUncast(filters) && Extract(filters, column).Ok?
    ensures RoutesExactly(filters, column, Extract(filters, column).value) <==> !AnyFlipped(filters)
  {
    var q := Extract(filters, column).value;
    AllFlipsAreCollected(filters, column);
    forall row ensures TruthOfAll(filters, column, row) <==> Asks(q, row) { CollectAllMeans(filters, column, row); }
    if HasFlip(q) {
      var row := Row(q.partition.value, if q.start.value.flipped then q.start.value.at else q.end.value.at);
      assert Asks(q, row) != Covers(q, row);
    }
  }

  /** A concrete query whose filter excludes an instant that the scan reads. */
  lemma FlippedStartReadsTooMuch(at: int, row: Row)
    requires row == Row("p", at)
    ensures var filters := [Binary(Column("shard"), Eq, Literal(Utf8(Some("p")))),
                            Binary(Literal(TimestampNanosecond(Some(at))), Lt, Column(TIMESTAMP)),
                            Binary(Column(TIMESTAMP), Lt, Literal(TimestampNanosecond(Some(at + 1))))];
            && Extract(filters, "shard").Ok? && Covers(Extract(filters, "shard").value, row)
            && !TruthOfAll(filters, "shard", row)
  {
    var filters := [Binary(Column("shard"), Eq, Literal(Utf8(Some("p")))),
                    Binary(Literal(TimestampNanosecond(Some(at))), Lt, Column(TIMESTAMP)),
                    Binary(Column(TIMESTAMP), Lt, Literal(TimestampNanosecond(Some(at + 1))))];
    assert filters[..2][..1][..0] == [] && filters[..2][..1] == filters[..1] && filters[..2][1] == filters[1];
    assert CollectAll(filters[..1], "shard") == Ok(Routed(Some("p"), None, None));
    assert CollectAll(filters[..2], "shard") == Ok(Routed(Some("p"), Some(Bound(at, true)), None));
    assert !Truth(filters[1], "shard", row);
  }

  // ----- what may be pushed down -----

  predicate ShapeAccepted(e: Expr, column: string) {
    match e
    case Binary(left, And, right) => ShapeAccepted(left, column) && ShapeAccepted(right, column)
    case Binary(left, Eq, right) =>
      || (IsColumn(left, column) && StringLiteral(LiteralOf(right)).Some?)
      || (IsColumn(right, column) && StringLiteral(LiteralOf(left)).Some?)
    case Binary(left, op, right) =>
      (op.GtEq? || op.Lt?) &&
      (|| (IsColumn(left, TIMESTAMP) && TimestampLiteral(LiteralOf(right)).Some?)
       || (IsColumn(right, TIMESTAMP) && TimestampLiteral(LiteralOf(left)).Some?))
    case _ => false
  }

  /** A filter that was promised to be handled exactly is never refused as unsupported, and only such filters are collected. */
  lemma {:induction false} ShapeDecidesSupport(e: Expr, column: string, q: Routed)
    ensures Collect(e, column, q).Ok? ==> ShapeAccepted(e, column)
    ensures ShapeAccepted(e, column) ==> Collect(e, column, q) != Err(UnsupportedPredicate)
  {
    match e
    case Binary(left, And, right) =>
      ShapeDecidesSupport(left, column, q);
      if Collect(left, column, q).Ok? { ShapeDecidesSupport(right, column, Collect(left, column, q).value); }
    case _ =>
  }

  // ----- the query object -----

  class RoutedQuery {
    var partitionKey: Option<string>
    var start: Option<int>
    var end: Option<int>

    constructor ()
      ensures Holds(UNROUTED)
    {
      partitionKey, start, end := None, None, None;
    }

    /** The fields are the collected query without its flip marks. */
    predicate Holds(q: Routed)
      reads this
    {
      && partitionKey == q.partition
      && start == (if q.start.Some? then Some(q.start.value.at) else None)
      && end == (if q.end.Some? then Some(q.end.value.at) else None)
    }

    method CollectPredicate(e: Expr, column: string, ghost q: Routed) returns (error: Option<PlanError>)
      requires Holds(q)
      modifies this
      ensures error.None? ==> Collect(e, column, q).Ok? && Holds(Collect(e, column, q).value)
      ensures error.Some? ==> Collect(e, column, q) == Err(error.value)
      decreases e
    {
      match e {
        case Binary(left, And, right) =>
          error := CollectPredicate(left, column, q);
          if error.None? {
            error := CollectPredicate(right, column, Collect(left, column, q).value);
          }
        case Binary(left, Eq, right) =>
          var partition := PartitionOf(left, right, column);
          if partition.None? {
            return Some(UnsupportedPredicate);
          }
          if partitionKey.Some? && partitionKey != partition {
            return Some(ConflictingShardEquality);
          }
          partitionKey := partition;
          error := None;
        case Binary(left, op, right) =>
          error := CollectTimestampBound(left, op, right, q);
        case _ =>
          error := Some(UnsupportedPredicate);
      }
    }

    method CollectTimestampBound(left: Expr, op: Operator, right: Expr, ghost q: Routed) returns (error: Option<PlanError>)
      requires Holds(q)
      modifies this
      ensures error.None? ==> CollectBound(left, op, right, q).Ok? && Holds(CollectBound(left, op, right, q).value)
      ensures error.Some? ==> CollectBound(left, op, right, q) == Err(error.value)
    {
      var leftTimestamp, rightTimestamp := TimestampLiteral(LiteralOf(left)), TimestampLiteral(LiteralOf(right));
      var bound, isStart;
      if op.GtEq? && IsColumn(left, TIMESTAMP) {
        bound, isStart := rightTimestamp, true;
      } else if op.Lt? && IsColumn(left, TIMESTAMP) {
        bound, isStart := rightTimestamp, false;
      } else if op.Lt? && IsColumn(right, TIMESTAMP) {
        bound, isStart := leftTimestamp, true;
      } else if op.GtEq? && IsColumn(right, TIMESTAMP) {
        bound, isStart := leftTimestamp, false;
      } else {
        return Some(UnsupportedPredicate);
      }
      if bound.None? {
        return Some(UnsupportedPredicate);
      }
      var taken;
      if isStart {
        taken := start.Some?;
        start := bound;
      } else {
        taken := end.Some?;
        end := bound;
      }
      error := if taken then Some(ConflictingTimestampBounds) else None;
    }
  }

  method ExtractQuery(filters: seq<Expr>, column: string) returns (query: RoutedQuery, error: Option<PlanError>)
    ensures error.Some? ==> Extract(filters, column) == Err(error.value)
    ensures error.None? ==> Extract(filters, column).Ok? && query.Holds(Extract(filters, column).value)
  {
    query := new RoutedQuery();
    var i := 0;
    ghost var q := UNROUTED;
    while i < |filters|
      invariant 0 <= i <= |filters| && fresh(query)
      invariant CollectAll(filters[..i], column) == Ok(q) && query.Holds(q)
    {
      assert filters[..i + 1][..i] == filters[..i];
      error := query.CollectPredicate(filters[i], column, q);
      if error.Some? {
        RefusedEarly(filters, column, i + 1);
        return;
      }
      q := Collect(filters[i], column, q).value;
      i := i + 1;
    }
    assert filters[..i] == filters;
    error :=
      if query.start.None? then Some(MissingTimestampStart)
      else if query.end.None? then Some(MissingTimestampEnd)
      else if query.start.value >= query.end.value then Some(InvalidTimestampRange)
      else if query.partitionKey.None? then Some(MissingShardEquality)
      else None;
  }

  lemma {:induction false} RefusedEarly(filters: seq<Expr>, column: string, n: nat)
    requires n <= |filters| && CollectAll(filters[..n], column).Err?
    ensures CollectAll(filters, column) == CollectAll(filters[..n], column)
  {
    if n == |filters| {
      assert filters[..n] == filters;
    } else {
      assert filters[..|filters| - 1][..n] == filters[..n];
      RefusedEarly(filters[..|filters| - 1], column, n);
    }
  }
}
