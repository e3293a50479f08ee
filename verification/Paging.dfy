/** apps/api/internal/adapter/manager.go: page queries, the row-reading loop, and what a run of pages returns. */
module Paging {
  import opened Prelude
  import opened Sql
  import opened Keyset

  datatype Failure =
    | UnsupportedQuery | InvalidPageToken | StaleConfig | ResultTooLarge | DatabaseError | ConnectionFailed

  datatype Handle = Handle(engine: Engine, connectionID: string, generation: int)

  // A verified sort plan as the adapter sees it; an absent, nil or outdated plan is None.
  datatype Plan = Plan(specs: seq<SortSpec>, connectionID: string, generation: int)

  datatype FirstPageRequest = FirstPageRequest(args: seq<Arg>, plan: Option<Plan>, pageSize: int, maxRows: int)

  // QueryResult with its private read-ahead signal.
  datatype Page = Page(rows: seq<Row>, total: int, readAhead: bool, hasMore: bool)

  // ---- Preparing a query ----

  predicate UsableSpecs(specs: seq<SortSpec>)
  {
    specs != [] && forall i :: 0 <= i < |specs| ==> ValidIdent(specs[i].column)
  }

  method SortSpecsFromSpecs(specs: seq<SortSpec>) returns (r: Result<seq<SortSpec>, Failure>)
    ensures r == if UsableSpecs(specs) then Ok(specs) else Err(UnsupportedQuery)
  {
    if |specs| == 0 {
      return Err(UnsupportedQuery);
    }
    var out := [];
    for i := 0 to |specs|
      invariant out == specs[..i]
      invariant forall j :: 0 <= j < i ==> ValidIdent(specs[j].column)
    {
      if !ValidIdent(specs[i].column) {
        return Err(UnsupportedQuery);
      }
      out := out + [specs[i]];
    }
    assert specs[..|specs|] == specs;
    return Ok(out);
  }

  // One SQL call: the query, its arguments, and how many rows of the answer make up the page.
  datatype Call = Call(query: PageQuery, args: seq<Arg>, effPage: int, singlePage: bool)

  function ClampPageSize(n: int): int { if n <= 0 then 100 else if n > 500 then 500 else n }

  function ClampMaxRows(n: int): int { if n <= 0 then 500 else n }

  // PoolHandle.Query up to the database call.
  function FirstCall(h: Handle, req: FirstPageRequest): Result<Call, Failure>
  {
    var (pageSize, maxRows) := (ClampPageSize(req.pageSize), ClampMaxRows(req.maxRows));
    var limit := Min(pageSize, maxRows) + 1;
    match req.plan
    case None =>
      if maxRows > pageSize then Err(UnsupportedQuery)
      else Ok(Call(WrappedQuery(h.engine, [], false, |req.args|), req.args + [Limit(limit)], limit - 1, true))
    case Some(p) =>
      if p.connectionID != h.connectionID then Err(InvalidPageToken)
      else if p.generation != h.generation then Err(StaleConfig)
      else if !UsableSpecs(p.specs) then Err(UnsupportedQuery)
      else Ok(Call(WrappedQuery(h.engine, p.specs, false, |req.args|), req.args + [Limit(limit)], limit - 1, false))
  }

  // PoolHandle.NextPage up to the database call, for a plan that passed NewVerifiedNextPagePlan.
  function NextCall(h: Handle, specs: seq<SortSpec>, vals: seq<Arg>, args: seq<Arg>,
      pageSize: int, maxRows: int, cumulative: int): Result<Call, Failure>
    requires |vals| == 2 * |specs|
  {
    if !UsableSpecs(specs) then Err(UnsupportedQuery)
    else
      var effPage := Min(pageSize, maxRows - cumulative);
      Ok(Call(WrappedQuery(h.engine, specs, true, |args|),
              args + AfterArgs(vals, |specs|, 0) + [Limit(effPage + 1)], effPage, false))
  }

  // ---- Reading the answer ----

  // finalizeResult: what the caller gets of an answer of which one row beyond the page was read ahead.
  function PageOf(answer: seq<Row>, effPage: int, cumulative: int, maxRows: int): Page
    requires effPage >= 0
  {
    var rows := if |answer| > effPage then answer[..effPage] else answer;
    var total := cumulative + |rows|;
    Page(rows, total, |answer| > effPage, |answer| > effPage && total < maxRows)
  }

  // The end of PoolHandle.Query: a single page beyond which a row was read ahead is refused as a whole.
  function QueryOutcome(c: Call, page: Page): Result<Page, Failure>
  {
    if c.singlePage && page.readAhead then Err(ResultTooLarge) else Ok(page)
  }

  // The bytes of the rows, or the error of the first that has a cell over the limit.
  function Measured(sizes: seq<Option<nat>>): Option<nat>
  {
    if sizes == [] then Some(0)
    else match Measured(sizes[..|sizes| - 1])
      case None => None
      case Some(n) => if sizes[|sizes| - 1].None? then None else Some(n + sizes[|sizes| - 1].value)
  }

  lemma {:induction false} MeasuredPrefix(sizes: seq<Option<nat>>, i: nat)
    requires i <= |sizes|
    ensures Measured(sizes[..i]).None? ==> Measured(sizes).None?
    ensures Measured(sizes[..i]).Some? && Measured(sizes).Some? ==> Measured(sizes[..i]).value <= Measured(sizes).value
    decreases |sizes|
  {
    if i == |sizes| {
      assert sizes[..i] == sizes;
    } else {
      var shorter := sizes[..|sizes| - 1];
      MeasuredPrefix(shorter, i);
      assert shorter[..i] == sizes[..i];
    }
  }

  // The loop shared by execPG and execMySQL. sizes[i] is what copyAndMeasure makes of row i (None: a cell over
  // the limit); the driver fails on reading row fault, where |answer| stands for the end of the result.
  // The page is returned in full or not at all.
  method ReadRows(answer: seq<Row>, sizes: seq<Option<nat>>, fault: Option<nat>, effPage: int, cumulative: int,
      maxPage: nat, maxRows: int, rolledBack: bool) returns (r: Result<Page, Failure>)
    requires effPage >= 0 && |sizes| == |answer|
    ensures var kept := Min(effPage, |answer|);
      r.Ok? <==> (rolledBack && !(fault.Some? && fault.value <= kept)
                  && Measured(sizes[..kept]).Some? && Measured(sizes[..kept]).value <= maxPage)
    ensures r.Ok? ==> r.value == PageOf(answer, effPage, cumulative, maxRows)
    ensures r.Err? && !(fault.Some? && fault.value <= effPage) && rolledBack ==> r.error == ResultTooLarge
  {
    var data: seq<Row> := [];
    var rc := 0;
    var bytes := 0;
    ghost var kept := Min(effPage, |answer|);
    var i := 0;
    while i < |answer|
      invariant 0 <= i <= |answer| && i <= effPage && rc == i
      invariant data == answer[..i]
      invariant fault.Some? ==> fault.value >= i
      invariant Measured(sizes[..i]) == Some(bytes) && bytes <= maxPage
    {
      if fault == Some(i) {
        return Err(DatabaseError);
      }
      if rc >= effPage {
        rc := rc + 1;
        break;
      }
      assert sizes[..i + 1][..i] == sizes[..i];
      assert sizes[..kept][..i + 1] == sizes[..i + 1];
      MeasuredPrefix(sizes[..kept], i + 1);
      if sizes[i].None? {
        return Err(ResultTooLarge);
      }
      bytes := bytes + sizes[i].value;
      if bytes > maxPage {
        return Err(ResultTooLarge);
      }
      data := data + [answer[i]];
      rc := rc + 1;
      i := i + 1;
    }
    if rc == |data| && fault == Some(|answer|) {
      return Err(DatabaseError);
    }
    assert i == kept;
    if !rolledBack {
      return Err(ConnectionFailed);
    }
    var hasMore := rc > effPage;
    if hasMore {
      data := data[..effPage];
      rc := effPage;
    }
    var total := cumulative + rc;
    return Ok(Page(data, total, hasMore, hasMore && total < maxRows));
  }

  // ExtractLastValues compares names letter by letter, whatever the engine.
  function Exactly(names: seq<string>): Header { Header(PostgreSQL, names) }

  // The cursor of a page can be extracted: no two columns of the result have the same name, and every sort column
  // occurs among them as it is spelled.
  predicate Extractable(names: seq<string>, specs: seq<SortSpec>)
  {
    && (forall i, j :: 0 <= i < j < |names| ==> names[i] != names[j])
    && (forall i :: 0 <= i < |specs| ==> specs[i].column in names)
  }

  // ExtractLastValues: the cursor of a page, unless the result has duplicate columns or lacks a sort column.
  method ExtractLastValues(names: seq<string>, rows: seq<Row>, specs: seq<SortSpec>) returns (r: Result<seq<Arg>, Failure>)
    requires rows != [] ==> |rows[|rows| - 1]| == |names|
    ensures rows == [] ==> r == Ok([])
    ensures rows != [] ==> (r.Ok? <==> Extractable(names, specs))
    ensures rows != [] && r.Ok? ==> CursorOf(r.value, specs, Exactly(names), rows[|rows| - 1])
    ensures r.Err? ==> r.error == DatabaseError
  {
    if |rows| == 0 {
      return Ok([]);
    }
    var colIdx: map<string, nat> := map[];
    for i := 0 to |names|
      invariant forall c :: c in colIdx ==> colIdx[c] < i && names[colIdx[c]] == c
      invariant forall j :: 0 <= j < i ==> names[j] in colIdx && colIdx[names[j]] == j
    {
      if names[i] in colIdx {
        return Err(DatabaseError);
      }
      colIdx := colIdx[names[i] := i];
    }
    var last := rows[|rows| - 1];
    var vals: seq<Arg> := [];
    for i := 0 to |specs|
      invariant CursorOf(vals, specs[..i], Exactly(names), last)
      invariant forall j :: 0 <= j < i ==> specs[j].column in names
    {
      if specs[i].column !in colIdx {
        return Err(DatabaseError);
      }
      var pos := colIdx[specs[i].column];
      FieldAt(PostgreSQL, names, last, pos, specs[i].column);
      vals := vals + [Flag(last[pos].Null?), Cell(last[pos])];
    }
    assert specs[..|specs|] == specs;
    return Ok(vals);
  }

  // A name that resolves to one column only denotes the cell there.
  lemma {:induction false} FieldAt(engine: Engine, names: seq<string>, row: Row, k: nat, name: string)
    requires k < |names| == |row| && SameIdent(engine, names[k], name)
    requires forall j :: 0 <= j < k ==> !SameIdent(engine, names[j], name)
    ensures FieldIn(engine, names, row, name) == row[k]
  {
    hide SameIdent;
    if k > 0 { FieldAt(engine, names[1..], row[1..], k - 1, name); }
  }

  // ---- What the database answers ----

  ghost predicate SortedBy(items: seq<OrderItem>, cols: Header, s: seq<Row>)
  {
    forall i, j :: 0 <= i < j < |s| ==> CompareByItems(items, cols, s[i], s[j]) <= 0
  }

  // full lists, in the requested order, exactly the rows of the table that the WHERE clause accepts.
  ghost predicate FullAnswer(h: Handle, c: Call, inner: nat, cols: Header, table: multiset<Row>, full: seq<Row>)
  {
    && (forall r :: multiset(full)[r] == if Selects(h.engine, c.query, c.args, inner, cols, r) then table[r] else 0)
    && SortedBy(c.query.order, cols, full)
  }

  function Truncated(s: seq<Row>, limit: Option<int>): seq<Row>
  {
    if limit.Some? && 0 <= limit.value < |s| then s[..limit.value] else s
  }

  // Ties, and the order when none is asked for, are up to the database.
  ghost predicate Answers(h: Handle, c: Call, inner: nat, cols: Header, table: multiset<Row>, answer: seq<Row>)
  {
    exists full :: FullAnswer(h, c, inner, cols, table, full)
      && answer == Truncated(full, LimitOf(h.engine, c.query, c.args, inner))
  }
}
