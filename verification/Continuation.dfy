/** apps/api/internal/pagination/state.go: the stored state of a paged query and its byte charge. */
module Continuation {
  import opened Prelude
  import QP = QueryPlan

  // Query arguments and cursor values, as far as the byte charge looks into them.
  datatype Any =
    | Nil | Boolean(b: bool) | Text(s: string) | Bytes(raw: seq<bv8>) | Numeric(n: int) | Timestamp(t: int)
    | Slice(items: seq<Any>) | Dict(keys: seq<Any>, values: seq<Any>) | Opaque

  datatype State = State(userID: string, workspaceID: string, connectionID: string, poolGeneration: int,
    schemaGeneration: string, tableSchema: string, tableName: string, policyVersion: int, statementHash: string,
    sortPlan: Option<QP.VerifiedSortPlan>, sql: string, args: seq<Any>, lastSortValues: seq<Any>,
    cumulativeCount: int, pageSize: int, maxRows: int, timeoutMs: int, expiresAt: int)

  function RetainedBytes(v: Any): nat
  {
    match v
    case Nil => 0
    case Boolean(_) => 1
    case Text(s) => |s|
    case Bytes(raw) => |raw|
    case Numeric(_) => 8
    case Timestamp(_) => 32
    case Slice(items) => 16 + RetainedAll(items)
    case Dict(keys, values) => 32 + 8 * |keys| + RetainedAll(keys) + RetainedAll(values)
    case Opaque => 64
  }

  function RetainedAll(items: seq<Any>): nat
  {
    if items == [] then 0 else RetainedBytes(items[0]) + RetainedAll(items[1..])
  }

  function SpecBytes(specs: seq<QP.SortSpec>): nat
  {
    if specs == [] then 0 else |specs[0].column| + |specs[0].baseColumn| + 2 + SpecBytes(specs[1..])
  }

  function StateBytes(s: State): nat
  {
    |s.sql| + |s.userID| + |s.workspaceID| + |s.connectionID| + |s.schemaGeneration| + |s.tableSchema| + |s.tableName|
    + |s.statementHash| + RetainedAll(s.args) + RetainedAll(s.lastSortValues)
    + (if s.sortPlan.Some? then SpecBytes(s.sortPlan.value.specs) else 0)
  }

  // The characters and bytes somewhere in a value.
  function TextIn(v: Any): nat
  {
    match v
    case Text(s) => |s|
    case Bytes(raw) => |raw|
    case Slice(items) => TextInAll(items)
    case Dict(keys, values) => TextInAll(keys) + TextInAll(values)
    case _ => 0
  }

  function TextInAll(items: seq<Any>): nat
  {
    if items == [] then 0 else TextIn(items[0]) + TextInAll(items[1..])
  }

  // However deep a text is nested, its whole length is charged.
  lemma {:induction false} TextIsCharged(v: Any)
    ensures TextIn(v) <= RetainedBytes(v)
  {
    match v
    case Slice(items) => TextsAreCharged(items);
    case Dict(keys, values) => TextsAreCharged(keys); TextsAreCharged(values);
    case _ =>
  }

  lemma {:induction false} TextsAreCharged(items: seq<Any>)
    ensures TextInAll(items) <= RetainedAll(items)
  {
    if items != [] {
      TextIsCharged(items[0]);
      TextsAreCharged(items[1..]);
    }
  }

  lemma StateIsCharged(s: State)
    ensures StateBytes(s) >= |s.sql| + TextInAll(s.args) + TextInAll(s.lastSortValues)
      + |s.userID| + |s.workspaceID| + |s.connectionID| + |s.schemaGeneration| + |s.tableSchema| + |s.tableName| + |s.statementHash|
  {
    TextsAreCharged(s.args);
    TextsAreCharged(s.lastSortValues);
  }

  predicate ValidState(s: State)
  {
    && s.userID != "" && s.workspaceID != "" && s.connectionID != "" && s.schemaGeneration != ""
    && s.tableSchema != "" && s.tableName != "" && s.policyVersion > 0 && s.statementHash != ""
    && s.sortPlan.Some? && s.sql != "" && s.pageSize > 0 && s.maxRows > 0
  }
}
