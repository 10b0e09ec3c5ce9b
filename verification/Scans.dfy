/**
 A routed SQL scan: filters become one partition and one time range, and the query on them returns exactly
 the rows that satisfy the filters (src/integrations/datafusion.rs over src/application/durable_table.rs).
 */
module Scans {
  import opened Common
  import opened Records
  import opened Tiling
  import opened Tables
  import opened BucketStore
  import opened Merge
  import opened MemoryArchive
  import opened TableRead
  import opened Queries
  import Predicates

  /** How partition keys are written as text: `text` reads back what `utf8` wrote. */
  datatype Encoding = Encoding(utf8: string -> Bytes, text: Bytes -> string)

  ghost predicate ReadsBack(enc: Encoding) {
    forall s :: enc.text(enc.utf8(s)) == s
  }

  /** A record as the SQL adapter shows it. */
  function RowOf(enc: Encoding, r: Record): Predicates.Row {
    Predicates.Row(enc.text(r.partitionKey), r.eventTime)
  }

  function PartitionOf(enc: Encoding, q: Predicates.Routed): Bytes
    requires Predicates.Complete(q)
  {
    enc.utf8(q.partition.value)
  }

  function RangeOf(q: Predicates.Routed): TimeRange
    requires Predicates.Complete(q)
  {
    TimeRange(q.start.value.at, q.end.value.at)
  }

  predicate Satisfies(filters: seq<Predicates.Expr>, column: string, enc: Encoding, r: Record) {
    Predicates.TruthOfAll(filters, column, RowOf(enc, r))
  }

  lemma {:induction false} FilterAgrees(s: seq<Record>, p: Record -> bool, q: Record -> bool)
    requires forall r :: r in s ==> p(r) == q(r)
    ensures Filter(s, p) == Filter(s, q)
  {
    if s != [] { FilterAgrees(s[..|s| - 1], p, q); }
  }

  /** The accepted filters have uncast literals and no timestamp comparison with its column on the right. */
  ghost predicate Exact(filters: seq<Predicates.Expr>, column: string) {
    && column != Predicates.TIMESTAMP && Predicates.AllUncast(filters) && !Predicates.AnyFlipped(filters)
    && Predicates.Extract(filters, column).Ok?
  }

  /** A record satisfies the filters exactly when it is in the extracted partition and range. */
  lemma SatisfiesIffRouted(filters: seq<Predicates.Expr>, column: string, enc: Encoding, r: Record)
    requires Exact(filters, column) && ReadsBack(enc)
    ensures var q := Predicates.Extract(filters, column).value;
            && (r.partitionKey == PartitionOf(enc, q) ==> (Satisfies(filters, column, enc, r) <==> InRange(RangeOf(q), r.eventTime)))
            && (enc.utf8(enc.text(r.partitionKey)) == r.partitionKey && Satisfies(filters, column, enc, r) ==>
                  r.partitionKey == PartitionOf(enc, q))
  {
    var q := Predicates.Extract(filters, column).value;
    Predicates.ExactIffUnflipped(filters, column);
    assert Predicates.TruthOfAll(filters, column, RowOf(enc, r)) <==> Predicates.Covers(q, RowOf(enc, r));
  }

  /** The rows of a whole partition that satisfy the filters, in clustering order. */
  ghost function SatisfyingRows(
    filters: seq<Predicates.Expr>, column: string, enc: Encoding, stored: seq<BucketId>, content: BucketId -> seq<Record>)
    : seq<Record>
  {
    StableSort(Filter(Flatten(RowsOf(stored, content)), r => Satisfies(filters, column, enc, r)))
  }

  /** What the query selects in the extracted partition is what the filters select. */
  lemma QuerySelectsSatisfying(
    filters: seq<Predicates.Expr>, column: string, enc: Encoding, table: Table, stored: seq<BucketId>, content: BucketId -> seq<Record>)
    requires Exact(filters, column) && ReadsBack(enc)
    requires WholePartition(Bucketing(table, PartitionOf(enc, Predicates.Extract(filters, column).value)), stored, content)
    ensures ReferenceRows(Flatten(RowsOf(stored, content)), RangeOf(Predicates.Extract(filters, column).value), None) ==
            SatisfyingRows(filters, column, enc, stored, content)
  {
    var q := Predicates.Extract(filters, column).value;
    var rows, range := Flatten(RowsOf(stored, content)), RangeOf(q);
    forall r | r in rows ensures Selected(range, None, r) == Satisfies(filters, column, enc, r) {
      InPartition(Bucketing(table, PartitionOf(enc, q)), PartitionOf(enc, q), stored, content, r);
      SatisfiesIffRouted(filters, column, enc, r);
    }
    FilterAgrees(rows, r => Selected(range, None, r), r => Satisfies(filters, column, enc, r));
  }

  lemma InPartition(f: int -> BucketId, partition: Bytes, stored: seq<BucketId>, content: BucketId -> seq<Record>, r: Record)
    requires WholePartition(f, stored, content) && r in Flatten(RowsOf(stored, content))
    requires forall t :: f(t).partitionKey == partition
    ensures r.partitionKey == partition
  {
    var i :| 0 <= i < |stored| && r in RowsOf(stored, content)[i];
    var b := stored[i];
    assert b == f(b.start) && WellFiled(b, content(b));
    assert BelongsTo(b, r);
  }

  /**
   Runs a scan with an optional limit. When the reads return what the extracted partition holds and no
   timestamp comparison is flipped, the scan returns the first rows of the partition that satisfy the filters.
   */
  method Scan(
    filters: seq<Predicates.Expr>, column: string, enc: Encoding, table: Table, limit: Option<nat>,
    read: (BucketId, nat) -> Reading, ghost stored: seq<BucketId>, ghost content: BucketId -> seq<Record>)
    returns (r: Result<seq<Record>, TableError>, refused: Option<Predicates.PlanError>)
    requires limit.Some? ==> limit.value <= USIZE_MAX
    ensures refused.Some? <==> Predicates.Extract(filters, column).Err?
    ensures refused.Some? ==> Predicates.Extract(filters, column) == Err(refused.value)
    ensures Exact(filters, column) && ReadsBack(enc) &&
            ScanReads(filters, column, enc, table, limit, read, stored, content) ==>
              r == Ok(Take(SatisfyingRows(filters, column, enc, stored, content), if limit.Some? then limit.value else USIZE_MAX))
  {
    var query, error := Predicates.ExtractQuery(filters, column);
    if error.Some? {
      return Ok([]), error;
    }
    refused := None;
    var bound := if limit.Some? then limit.value else USIZE_MAX;
    var partition, range := enc.utf8(query.partitionKey.value), TimeRange(query.start.value, query.end.value);
    var page := QueryTable(table, partition, range, None, bound, read, stored, content);
    r := if page.Ok? then Ok(page.value.records) else Err(page.error);
    if Exact(filters, column) && ReadsBack(enc) && ScanReads(filters, column, enc, table, limit, read, stored, content) {
      QuerySelectsSatisfying(filters, column, enc, table, stored, content);
    }
  }

  /** The reads of the extracted partition's buckets return what the partition holds. */
  ghost predicate ScanReads(
    filters: seq<Predicates.Expr>, column: string, enc: Encoding, table: Table, limit: Option<nat>,
    read: (BucketId, nat) -> Reading, stored: seq<BucketId>, content: BucketId -> seq<Record>)
    requires Predicates.Extract(filters, column).Ok?
  {
    var q := Predicates.Extract(filters, column).value;
    && WholePartition(Bucketing(table, PartitionOf(enc, q)), stored, content)
    && Reads(table, PartitionOf(enc, q), read, stored, content, RangeOf(q), None, if limit.Some? then limit.value else USIZE_MAX)
  }
}
