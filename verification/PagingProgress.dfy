/** When a run of pages can be finished: a page with more rows has a next page exactly if its cursor can be extracted. */
module PagingProgress {
  import opened Prelude
  import opened Sql
  import opened Keyset
  import opened Paging
  import opened PagingRuns

  // ---- Every keyed table has a sorted listing ----

  lemma CompareStrictly(specs: seq<SortSpec>, cols: Header, a: Row, b: Row, c: Row)
    requires CompareRows(specs, cols, a, b) < 0 && CompareRows(specs, cols, b, c) <= 0
    ensures CompareRows(specs, cols, a, c) < 0
  {
    CompareTransitive(specs, 0, cols, a, b, c);
  }

  lemma Prepended(specs: seq<SortSpec>, cols: Header, r: Row, s: seq<Row>)
    requires StrictlySorted(specs, cols, s) && (s != [] ==> CompareRows(specs, cols, r, s[0]) < 0)
    ensures StrictlySorted(specs, cols, [r] + s)
  {
    hide CompareRows;
    forall j | 0 <= j < |s| ensures CompareRows(specs, cols, r, s[j]) < 0 {
      if j > 0 { CompareStrictly(specs, cols, r, s[0], s[j]); }
    }
  }

  lemma {:induction false} Inserted(specs: seq<SortSpec>, cols: Header, s: seq<Row>, r: Row) returns (t: seq<Row>)
    requires StrictlySorted(specs, cols, s) && forall i :: 0 <= i < |s| ==> CompareRows(specs, cols, s[i], r) != 0
    ensures StrictlySorted(specs, cols, t) && multiset(t) == multiset(s) + multiset{r}
    ensures t != [] && (t[0] == r || (s != [] && t[0] == s[0]))
    decreases |s|
  {
    hide CompareRows;
    if s != [] && CompareRows(specs, cols, s[0], r) < 0 {
      var rest := Inserted(specs, cols, s[1..], r);
      assert |s| > 1 ==> CompareRows(specs, cols, s[0], s[1]) < 0;
      Prepended(specs, cols, s[0], rest);
      t := [s[0]] + rest;
      MultisetTail(s);
      assert s[0] in multiset(s);
    } else {
      if s != [] { Reversed(specs, cols, s[0], r); }
      Prepended(specs, cols, r, s);
      t := [r] + s;
    }
  }

  lemma Reversed(specs: seq<SortSpec>, cols: Header, a: Row, b: Row)
    ensures CompareRows(specs, cols, a, b) == -CompareRows(specs, cols, b, a)
  {
    CompareAntisymmetric(specs, 0, cols, a, b);
  }

  lemma {:induction false} SortedListing(specs: seq<SortSpec>, cols: Header, table: multiset<Row>) returns (listing: seq<Row>)
    requires IsKey(specs, cols, table)
    ensures multiset(listing) == table && StrictlySorted(specs, cols, listing)
    decreases |table|
  {
    hide CompareRows;
    if table == multiset{} {
      listing := [];
    } else {
      var r :| r in table;
      var rest := table - multiset{r};
      var s := SortedListing(specs, cols, rest);
      forall i | 0 <= i < |s| ensures CompareRows(specs, cols, s[i], r) != 0 {
        assert s[i] in multiset(s) && s[i] in table;
      }
      listing := Inserted(specs, cols, s, r);
    }
  }

  // ---- The database has an answer to every page query ----

  lemma TailIsAnswer(h: Handle, c: Call, inner: nat, specs: seq<SortSpec>, cols: Header, listing: seq<Row>, k: nat)
    requires k <= |listing| && StrictlySorted(specs, cols, listing) && c.query.order == OrderBy(h.engine, specs)
    requires forall r ::
      Selects(h.engine, c.query, c.args, inner, cols, r) <==> (k == 0 || CompareRows(specs, cols, r, listing[k - 1]) > 0)
    ensures FullAnswer(h, c, inner, cols, multiset(listing), listing[k..])
  {
    hide CompareRows, Selects;
    forall r ensures multiset(listing[k..])[r] == if Selects(h.engine, c.query, c.args, inner, cols, r) then multiset(listing)[r] else 0 {
      TailCount(specs, cols, listing, k, r);
    }
    forall i, j | 0 <= i < j < |listing[k..]| ensures CompareByItems(c.query.order, cols, listing[k..][i], listing[k..][j]) <= 0 {
      InOrder(h, c, specs, cols, listing[k..][i], listing[k..][j]);
    }
  }

  lemma InOrder(h: Handle, c: Call, specs: seq<SortSpec>, cols: Header, a: Row, b: Row)
    requires c.query.order == OrderBy(h.engine, specs)
    ensures CompareByItems(c.query.order, cols, a, b) == CompareRows(specs, cols, a, b)
  {
    assert specs[0..] == specs;
    OrderByIsKeysetOrder(h.engine, specs, 0, cols, a, b);
  }

  lemma FirstPageExists(h: Handle, req: FirstPageRequest, cols: Header, listing: seq<Row>) returns (page: Page)
    requires req.plan.Some? && FirstCall(h, req).Ok? && StrictlySorted(req.plan.value.specs, cols, listing)
    ensures FirstPage(h, req, cols, multiset(listing), page)
  {
    hide CompareRows, FullAnswer, StrictlySorted, OrderBy;
    var (c, inner) := (FirstCall(h, req).value, |req.args|);
    forall r ensures Selects(h.engine, c.query, c.args, inner, cols, r) { FirstCallSelects(h, req, cols, r); }
    TailIsAnswer(h, c, inner, req.plan.value.specs, cols, listing, 0);
    var answer := Truncated(listing[0..], LimitOf(h.engine, c.query, c.args, inner));
    assert Answers(h, c, inner, cols, multiset(listing), answer);
    page := PageOf(answer, c.effPage, 0, ClampMaxRows(req.maxRows));
  }

  // The cursor that extraction yields.
  function Cursor(specs: seq<SortSpec>, cols: Header, last: Row): (vals: seq<Arg>)
    ensures |vals| == 2 * |specs|
  {
    if specs == [] then []
    else
      var n := |specs| - 1;
      var v := Field(cols, last, specs[n].column);
      Cursor(specs[..n], cols, last) + [Flag(v.Null?), Cell(v)]
  }

  lemma {:induction false} CursorIsCursor(specs: seq<SortSpec>, cols: Header, last: Row)
    ensures CursorOf(Cursor(specs, cols, last), specs, cols, last)
  {
    hide Field;
    if specs != [] {
      CursorIsCursor(specs[..|specs| - 1], cols, last);
    }
  }

  ghost predicate Continuable(h: Handle, req: FirstPageRequest, cols: Header, table: multiset<Row>, prev: Page)
    requires req.plan.Some?
  {
    exists page :: NextPage(h, req, cols, table, prev, page)
  }

  // A page with more rows, read over the sorted listing, is followed by a next page if and only if its cursor can be
  // extracted.
  lemma NextPageIffExtractable(h: Handle, req: FirstPageRequest, cols: Header, listing: seq<Row>, prev: Page)
    requires req.plan.Some? && UsableSpecs(req.plan.value.specs)
    requires StrictlySorted(req.plan.value.specs, cols, listing)
    requires Shaped(cols, multiset(listing)) && Resolves(cols, req.plan.value.specs)
    requires prev.hasMore && prev.rows != [] && 0 < prev.total <= |listing| && prev.total < ClampMaxRows(req.maxRows)
    requires prev.rows[|prev.rows| - 1] == listing[prev.total - 1]
    ensures Continuable(h, req, cols, multiset(listing), prev) <==> Extractable(cols.names, req.plan.value.specs)
  {
    hide StrictlySorted, Resolves, Extractable, OrderBy;
    if Extractable(cols.names, req.plan.value.specs) {
      var page := NextPageExists(h, req, cols, listing, prev);
    }
  }

  lemma NextPageExists(h: Handle, req: FirstPageRequest, cols: Header, listing: seq<Row>, prev: Page) returns (page: Page)
    requires req.plan.Some? && UsableSpecs(req.plan.value.specs)
    requires StrictlySorted(req.plan.value.specs, cols, listing)
    requires Shaped(cols, multiset(listing)) && Resolves(cols, req.plan.value.specs)
    requires prev.hasMore && prev.rows != [] && 0 < prev.total <= |listing| && prev.total < ClampMaxRows(req.maxRows)
    requires prev.rows[|prev.rows| - 1] == listing[prev.total - 1] && Extractable(cols.names, req.plan.value.specs)
    ensures NextPage(h, req, cols, multiset(listing), prev, page)
  {
    hide CompareRows, FullAnswer, StrictlySorted, Resolves, Extractable, AfterArgs, After, OrderBy, LimitOf, Selects, CursorOf, Cursor;
    var (specs, inner, last) := (req.plan.value.specs, |req.args|, listing[prev.total - 1]);
    var vals := Cursor(specs, Exactly(cols.names), last);
    CursorIsCursor(specs, Exactly(cols.names), last);
    assert last in multiset(listing);
    CursorResolves(cols, specs, vals, last);
    var (pageSize, maxRows) := (ClampPageSize(req.pageSize), ClampMaxRows(req.maxRows));
    var c := NextCall(h, specs, vals, req.args, pageSize, maxRows, prev.total).value;
    forall r ensures Selects(h.engine, c.query, c.args, inner, cols, r) <==> CompareRows(specs, cols, r, last) > 0 {
      NextCallSelects(h, specs, vals, req.args, pageSize, maxRows, prev.total, cols, last, r);
    }
    NextCallSelects(h, specs, vals, req.args, pageSize, maxRows, prev.total, cols, last, last);
    hide Selects, WrappedQuery;
    TailIsAnswer(h, c, inner, specs, cols, listing, prev.total);
    var answer := Truncated(listing[prev.total..], LimitOf(h.engine, c.query, c.args, inner));
    assert Answers(h, c, inner, cols, multiset(listing), answer);
    page := PageOf(answer, c.effPage, prev.total, ClampMaxRows(req.maxRows));
    assert NextPageFrom(h, req, cols, multiset(listing), prev, page, vals, answer);
  }

  lemma RunIsProper(h: Handle, req: FirstPageRequest, cols: Header, table: multiset<Row>, pages: seq<Page>)
    requires req.plan.Some? && Run(h, req, cols, table, pages)
    ensures pages != [] && UsableSpecs(req.plan.value.specs) && Shaped(cols, table) && Resolves(cols, req.plan.value.specs)
  {
    hide NextPage, Shaped, Resolves, Answers;
  }

  // What a page that reports more has read.
  lemma LastPage(pages: seq<Page>, listing: seq<Row>, pageSize: int, maxRows: int)
    requires Progress(pages, listing, pageSize, maxRows) && pages[|pages| - 1].hasMore && pageSize > 0
    ensures var last := pages[|pages| - 1];
      && 0 < last.total < Min(|listing|, maxRows) && last.rows != []
      && last.rows[|last.rows| - 1] == listing[last.total - 1]
  {
  }

  // After every page of a run that reports more, the next call is for at least one row, and it has an answer if and only
  // if the cursor can be extracted.
  lemma RunHasNextIffExtractable(h: Handle, req: FirstPageRequest, cols: Header, listing: seq<Row>, pages: seq<Page>, last: Page)
    requires req.plan.Some? && Run(h, req, cols, multiset(listing), pages + [last]) && last.hasMore
    requires StrictlySorted(req.plan.value.specs, cols, listing) && IsKey(req.plan.value.specs, cols, multiset(listing))
    ensures Min(ClampPageSize(req.pageSize), ClampMaxRows(req.maxRows) - last.total) > 0
    ensures Continuable(h, req, cols, multiset(listing), last) <==> Extractable(cols.names, req.plan.value.specs)
  {
    var all := pages + [last];
    RunIsProper(h, req, cols, multiset(listing), all);
    hide StrictlySorted, IsKey, Run, Shaped, Resolves, Extractable, UsableSpecs, Continuable, Progress;
    RunProgress(h, req, cols, listing, all);
    LastPage(all, listing, ClampPageSize(req.pageSize), ClampMaxRows(req.maxRows));
    NextPageIffExtractable(h, req, cols, listing, last);
  }

  // ---- Finishing a run ----

  lemma RunContinues(h: Handle, req: FirstPageRequest, cols: Header, table: multiset<Row>, pages: seq<Page>, page: Page)
    requires req.plan.Some? && Run(h, req, cols, table, pages) && NextPage(h, req, cols, table, pages[|pages| - 1], page)
    ensures Run(h, req, cols, table, pages + [page])
  {
    hide NextPage, FirstPage, Shaped, Resolves;
    var all := pages + [page];
    forall i | 0 < i < |all| ensures NextPage(h, req, cols, table, all[i - 1], all[i]) {
      assert all[i - 1] == pages[i - 1];
    }
  }

  // Where cursors can be extracted every run can be continued to a finished one.
  lemma {:induction false} RunFinishes(h: Handle, req: FirstPageRequest, cols: Header, listing: seq<Row>, pages: seq<Page>)
    returns (all: seq<Page>)
    requires req.plan.Some? && Run(h, req, cols, multiset(listing), pages) && UsableSpecs(req.plan.value.specs)
    requires StrictlySorted(req.plan.value.specs, cols, listing) && IsKey(req.plan.value.specs, cols, multiset(listing))
    requires Extractable(cols.names, req.plan.value.specs)
    ensures Run(h, req, cols, multiset(listing), all) && pages <= all && !all[|all| - 1].hasMore
    decreases |listing| - |AllRows(pages)|
  {
    hide StrictlySorted, IsKey, NextPage, FirstPage, Shaped, Resolves, Extractable, UsableSpecs;
    RunProgress(h, req, cols, listing, pages);
    all := pages;
    var last := pages[|pages| - 1];
    if last.hasMore {
      var page := NextPageExists(h, req, cols, listing, last);
      RunContinues(h, req, cols, multiset(listing), pages, page);
      RunProgress(h, req, cols, listing, pages + [page]);
      all := RunFinishes(h, req, cols, listing, pages + [page]);
    }
  }

  ghost predicate Finished(h: Handle, req: FirstPageRequest, cols: Header, table: multiset<Row>, pages: seq<Page>)
    requires req.plan.Some?
  {
    Run(h, req, cols, table, pages) && !pages[|pages| - 1].hasMore
  }

  // A run over a keyed table can be finished if and only if one page suffices or cursors can be extracted.
  lemma FinishedRunExists(h: Handle, req: FirstPageRequest, cols: Header, table: multiset<Row>)
    requires req.plan.Some? && FirstCall(h, req).Ok? && IsKey(req.plan.value.specs, cols, table)
    requires Shaped(cols, table) && Resolves(cols, req.plan.value.specs)
    ensures var cap := if req.maxRows > 0 then req.maxRows else 500;
      var pageSize := if req.pageSize <= 0 then 100 else if req.pageSize <= 500 then req.pageSize else 500;
      (exists pages :: Finished(h, req, cols, table, pages))
      <==> |table| <= pageSize || cap <= pageSize || Extractable(cols.names, req.plan.value.specs)
  {
    assert UsableSpecs(req.plan.value.specs);
    var listing := SortedListing(req.plan.value.specs, cols, table);
    var page := FirstPageExists(h, req, cols, listing);
    assert |multiset(listing)| == |listing|;
    hide StrictlySorted, IsKey, NextPage, FirstPage, Shaped, Resolves, Extractable, UsableSpecs, PageCount, FirstCall;
    var (wanted, pageSize) := (Min(|table|, ClampMaxRows(req.maxRows)), ClampPageSize(req.pageSize));
    assert Run(h, req, cols, table, [page]);
    if wanted <= pageSize {
      PagingIsExact(h, req, cols, listing, [page]);
      assert Finished(h, req, cols, table, [page]);
    } else if Extractable(cols.names, req.plan.value.specs) {
      var all := RunFinishes(h, req, cols, listing, [page]);
      assert Finished(h, req, cols, table, all);
    } else {
      forall pages | Finished(h, req, cols, table, pages) ensures false {
        FinishedNeedsCursor(h, req, cols, listing, pages);
      }
    }
  }

  lemma FinishedNeedsCursor(h: Handle, req: FirstPageRequest, cols: Header, listing: seq<Row>, pages: seq<Page>)
    requires req.plan.Some? && Finished(h, req, cols, multiset(listing), pages)
    requires StrictlySorted(req.plan.value.specs, cols, listing) && IsKey(req.plan.value.specs, cols, multiset(listing))
    requires Min(|listing|, ClampMaxRows(req.maxRows)) > ClampPageSize(req.pageSize)
    ensures Extractable(cols.names, req.plan.value.specs)
  {
    hide StrictlySorted, IsKey, FirstPage, Shaped, Resolves, Extractable;
    PagingIsExact(h, req, cols, listing, pages);
    assert |pages| > 1 && NextPage(h, req, cols, multiset(listing), pages[0], pages[1]);
  }
}
