/** What the pages of a run add up to: exact, duplicate-free paging when the sort tuple is a key. */
module PagingRuns {
  import opened Prelude
  import opened Sql
  import opened Keyset
  import opened Paging

  // The table does not change during a run, and no two of its rows tie on the sort tuple.
  ghost predicate IsKey(specs: seq<SortSpec>, cols: Header, table: multiset<Row>)
  {
    && (forall r :: table[r] <= 1)
    && forall a, b :: a in table && b in table && CompareRows(specs, cols, a, b) == 0 ==> a == b
  }

  ghost predicate StrictlySorted(specs: seq<SortSpec>, cols: Header, s: seq<Row>)
  {
    forall i, j :: 0 <= i < j < |s| ==> CompareRows(specs, cols, s[i], s[j]) < 0
  }

  // The database resolves a name to the only column that it fits; any other name makes the query an error.
  predicate ResolvesTo(cols: Header, name: string, k: nat)
  {
    && k < |cols.names| && SameIdent(cols.engine, cols.names[k], name)
    && forall j :: 0 <= j < |cols.names| && j != k ==> !SameIdent(cols.engine, cols.names[j], name)
  }

  ghost predicate Resolves(cols: Header, specs: seq<SortSpec>)
  {
    forall i :: 0 <= i < |specs| ==> exists k: nat :: ResolvesTo(cols, specs[i].column, k)
  }

  ghost predicate Shaped(cols: Header, table: multiset<Row>)
  {
    forall r :: r in table ==> |r| == |cols.names|
  }

  // One page of a run.
  ghost predicate FirstPage(h: Handle, req: FirstPageRequest, cols: Header, table: multiset<Row>, page: Page)
  {
    && FirstCall(h, req).Ok?
    && var c := FirstCall(h, req).value;
       exists answer :: Answers(h, c, |req.args|, cols, table, answer)
         && c.effPage >= 0 && page == PageOf(answer, c.effPage, 0, ClampMaxRows(req.maxRows))
  }

  ghost predicate NextPage(h: Handle, req: FirstPageRequest, cols: Header, table: multiset<Row>, prev: Page,
      page: Page)
    requires req.plan.Some?
  {
    && prev.hasMore && prev.rows != []
    && exists vals, answer :: NextPageFrom(h, req, cols, table, prev, page, vals, answer)
  }

  ghost predicate NextPageFrom(h: Handle, req: FirstPageRequest, cols: Header, table: multiset<Row>,
      prev: Page, page: Page, vals: seq<Arg>, answer: seq<Row>)
    requires req.plan.Some? && prev.rows != []
  {
    var specs := req.plan.value.specs;
    && Extractable(cols.names, specs) && CursorOf(vals, specs, Exactly(cols.names), prev.rows[|prev.rows| - 1])
    && var c := NextCall(h, specs, vals, req.args, ClampPageSize(req.pageSize), ClampMaxRows(req.maxRows), prev.total);
       c.Ok? && Answers(h, c.value, |req.args|, cols, table, answer)
       && c.value.effPage >= 0 && page == PageOf(answer, c.value.effPage, prev.total, ClampMaxRows(req.maxRows))
  }

  // A first page followed by next pages, each asked for because the one before reported more.
  ghost predicate Run(h: Handle, req: FirstPageRequest, cols: Header, table: multiset<Row>, pages: seq<Page>)
    requires req.plan.Some?
  {
    && Shaped(cols, table) && Resolves(cols, req.plan.value.specs)
    && pages != [] && FirstPage(h, req, cols, table, pages[0])
    && forall i :: 0 < i < |pages| ==> NextPage(h, req, cols, table, pages[i - 1], pages[i])
  }

  function AllRows(pages: seq<Page>): seq<Row>
  {
    if pages == [] then [] else AllRows(pages[..|pages| - 1]) + pages[|pages| - 1].rows
  }

  // ---- A sorted listing of a keyed table is unique, and a continuation query returns its tail ----

  ghost predicate Ascending<T(!new)>(before: (T, T) -> bool, s: seq<T>)
  {
    forall i, j :: 0 <= i < j < |s| ==> before(s[i], s[j])
  }

  ghost predicate Asymmetric<T(!new)>(before: (T, T) -> bool)
  {
    forall x, y :: before(x, y) ==> !before(y, x)
  }

  lemma HeadsAgree<T(!new)>(before: (T, T) -> bool, s: seq<T>, t: seq<T>)
    requires s != [] && t != [] && multiset(s) == multiset(t)
    requires Ascending(before, s) && Ascending(before, t) && Asymmetric(before)
    ensures s[0] == t[0]
  {
    assert s[0] in multiset(t) && t[0] in multiset(s);
  }

  lemma {:induction false} AscendingUnique<T(!new)>(before: (T, T) -> bool, s: seq<T>, t: seq<T>)
    requires multiset(s) == multiset(t) && Ascending(before, s) && Ascending(before, t) && Asymmetric(before)
    ensures s == t
    decreases |s|
  {
    assert |multiset(s)| == |s| && |multiset(t)| == |t|;
    if s != [] {
      HeadsAgree(before, s, t);
      hide Ascending, Asymmetric;
      MultisetTail(s);
      MultisetTail(t);
      AscendingTail(before, s);
      AscendingTail(before, t);
      AscendingUnique(before, s[1..], t[1..]);
    }
  }

  lemma AscendingTail<T(!new)>(before: (T, T) -> bool, s: seq<T>)
    requires s != [] && Ascending(before, s)
    ensures Ascending(before, s[1..])
  {
  }

  lemma SortedListingUnique(specs: seq<SortSpec>, cols: Header, s: seq<Row>, t: seq<Row>)
    requires multiset(s) == multiset(t) && StrictlySorted(specs, cols, s) && StrictlySorted(specs, cols, t)
    ensures s == t
  {
    hide CompareFrom;
    var before := (a: Row, b: Row) => CompareRows(specs, cols, a, b) < 0;
    forall a, b | before(a, b) ensures !before(b, a) {
      CompareAntisymmetric(specs, 0, cols, a, b);
    }
    AscendingUnique(before, s, t);
  }

  lemma SortedAnswerIsStrict(h: Handle, c: Call, inner: nat, specs: seq<SortSpec>, cols: Header,
      table: multiset<Row>, full: seq<Row>)
    requires FullAnswer(h, c, inner, cols, table, full) && c.query.order == OrderBy(h.engine, specs)
    requires IsKey(specs, cols, table)
    ensures StrictlySorted(specs, cols, full)
  {
    forall i, j | 0 <= i < j < |full| ensures CompareRows(specs, cols, full[i], full[j]) < 0 {
      assert specs[0..] == specs;
      OrderByIsKeysetOrder(h.engine, specs, 0, cols, full[i], full[j]);
      assert full[i] in multiset(full) && full[j] in multiset(full);
      if full[i] == full[j] {
        CountTwice(full, i, j);
      }
    }
  }

  lemma CountTwice(s: seq<Row>, i: nat, j: nat)
    requires i < j < |s| && s[i] == s[j]
    ensures multiset(s)[s[i]] >= 2
  {
    assert s == s[..j] + s[j..];
    assert s[i] == s[..j][i] && s[j] == s[j..][0];
    assert s[i] in multiset(s[..j]) && s[i] in multiset(s[j..]);
    assert multiset(s) == multiset(s[..j]) + multiset(s[j..]);
  }

  lemma FullAnswerCount(h: Handle, c: Call, inner: nat, cols: Header, table: multiset<Row>, full: seq<Row>, r: Row)
    requires FullAnswer(h, c, inner, cols, table, full)
    ensures multiset(full)[r] == if Selects(h.engine, c.query, c.args, inner, cols, r) then table[r] else 0
  {
  }

  // The rows of a listing from position k on are those after the one before.
  lemma TailCount(specs: seq<SortSpec>, cols: Header, listing: seq<Row>, k: nat, r: Row)
    requires k <= |listing| && StrictlySorted(specs, cols, listing)
    ensures multiset(listing[k..])[r]
         == if k == 0 || CompareRows(specs, cols, r, listing[k - 1]) > 0 then multiset(listing)[r] else 0
  {
    hide CompareFrom;
    assert listing == listing[..k] + listing[k..];
    assert multiset(listing) == multiset(listing[..k]) + multiset(listing[k..]);
    if k > 0 {
      var last := listing[k - 1];
      CompareAntisymmetric(specs, 0, cols, r, last);
      CompareAntisymmetric(specs, 0, cols, last, last);
      if r in multiset(listing[..k]) {
        var j :| 0 <= j < k && listing[j] == r;
        assert CompareRows(specs, cols, r, last) <= 0;
      }
      if r in multiset(listing[k..]) {
        var j :| 0 <= j < |listing[k..]| && listing[k..][j] == r;
        assert listing[k + j] == r && CompareRows(specs, cols, last, r) < 0;
      }
    }
  }

  // If the query selects exactly the rows after listing[k-1], its full answer is listing[k..].
  lemma AnswerIsTail(h: Handle, c: Call, inner: nat, specs: seq<SortSpec>, cols: Header, listing: seq<Row>,
      k: nat, full: seq<Row>)
    requires k <= |listing| && StrictlySorted(specs, cols, listing)
    requires IsKey(specs, cols, multiset(listing))
    requires FullAnswer(h, c, inner, cols, multiset(listing), full) && c.query.order == OrderBy(h.engine, specs)
    requires forall r ::
      Selects(h.engine, c.query, c.args, inner, cols, r) <==> (k == 0 || CompareRows(specs, cols, r, listing[k - 1]) > 0)
    ensures full == listing[k..]
  {
    hide CompareRows, FullAnswer, Selects;
    SortedAnswerIsStrict(h, c, inner, specs, cols, multiset(listing), full);
    forall r ensures multiset(full)[r] == multiset(listing[k..])[r] {
      TailCount(specs, cols, listing, k, r);
      assert multiset(full)[r] == if Selects(h.engine, c.query, c.args, inner, cols, r) then multiset(listing)[r] else 0 by {
        FullAnswerCount(h, c, inner, cols, multiset(listing), full, r);
      }
    }
    assert multiset(full) == multiset(listing[k..]);
    SortedListingUnique(specs, cols, full, listing[k..]);
  }

  // ---- Whole runs ----

  // What holds after every page of a run over the sorted listing of the table.
  ghost predicate Progress(pages: seq<Page>, listing: seq<Row>, pageSize: int, maxRows: int)
  {
    && pages != []
    && var last := pages[|pages| - 1];
    && 0 <= last.total <= Min(|listing|, maxRows)
    && AllRows(pages) == listing[..last.total]
    && (last.rows == [] ==> listing == [])
    && (last.rows != [] ==> last.rows[|last.rows| - 1] == listing[last.total - 1])
    && (last.hasMore <==> last.total < Min(|listing|, maxRows))
    && last.total == (|pages| - 1) * pageSize + |last.rows|
    && (if last.hasMore then |last.rows| == pageSize else |last.rows| <= pageSize)
    && (|pages| > 1 ==> last.rows != [])
  }

  lemma FirstCallReadsAll(h: Handle, req: FirstPageRequest)
    requires FirstCall(h, req).Ok?
    ensures var c := FirstCall(h, req).value;
      LimitOf(h.engine, c.query, c.args, |req.args|) == Some(c.effPage + 1)
      && c.effPage == Min(ClampPageSize(req.pageSize), ClampMaxRows(req.maxRows))
  {
    hide OrderBy;
  }

  lemma FirstCallSelects(h: Handle, req: FirstPageRequest, cols: Header, r: Row)
    requires FirstCall(h, req).Ok?
    ensures var c := FirstCall(h, req).value; Selects(h.engine, c.query, c.args, |req.args|, cols, r)
  {
    hide OrderBy;
  }

  lemma FirstPageAnswer(h: Handle, req: FirstPageRequest, cols: Header, listing: seq<Row>, page: Page)
    requires req.plan.Some? && FirstPage(h, req, cols, multiset(listing), page)
    requires StrictlySorted(req.plan.value.specs, cols, listing)
    requires IsKey(req.plan.value.specs, cols, multiset(listing))
    ensures var effPage := Min(ClampPageSize(req.pageSize), ClampMaxRows(req.maxRows));
      page == PageOf(Truncated(listing, Some(effPage + 1)), effPage, 0, ClampMaxRows(req.maxRows))
  {
    hide CompareFrom, FullAnswer, StrictlySorted, IsKey, OrderBy, PageOf;
    var c := FirstCall(h, req).value;
    var inner := |req.args|;
    var answer :| Answers(h, c, inner, cols, multiset(listing), answer)
      && page == PageOf(answer, c.effPage, 0, ClampMaxRows(req.maxRows));
    var full :| FullAnswer(h, c, inner, cols, multiset(listing), full)
      && answer == Truncated(full, LimitOf(h.engine, c.query, c.args, inner));
    AnswerIsTail(h, c, inner, req.plan.value.specs, cols, listing, 0, full);
    FirstCallReadsAll(h, req);
    assert full == listing;
  }

  lemma FirstPageProgress(h: Handle, req: FirstPageRequest, cols: Header, listing: seq<Row>, page: Page)
    requires req.plan.Some? && FirstPage(h, req, cols, multiset(listing), page)
    requires StrictlySorted(req.plan.value.specs, cols, listing)
    requires IsKey(req.plan.value.specs, cols, multiset(listing))
    ensures Progress([page], listing, ClampPageSize(req.pageSize), ClampMaxRows(req.maxRows))
  {
    hide StrictlySorted, IsKey, FirstPage;
    FirstPageAnswer(h, req, cols, listing, page);
    assert AllRows([page]) == [] + page.rows by { assert [page][..0] == []; }
    assert page.rows == listing[..page.total];
  }

  // The cursor holds the cells that the database compares with.
  lemma CursorResolves(cols: Header, specs: seq<SortSpec>, vals: seq<Arg>, last: Row)
    requires Resolves(cols, specs) && Extractable(cols.names, specs) && |last| == |cols.names|
    requires CursorOf(vals, specs, Exactly(cols.names), last)
    ensures CursorOf(vals, specs, cols, last)
  {
    hide Fold;
    forall i | 0 <= i < |specs| ensures Field(Exactly(cols.names), last, specs[i].column) == Field(cols, last, specs[i].column) {
      var name := specs[i].column;
      var k: nat :| ResolvesTo(cols, name, k);
      var j: nat :| j < |cols.names| && cols.names[j] == name;
      assert SameIdent(cols.engine, cols.names[j], name) && j == k;
      FieldAt(cols.engine, cols.names, last, k, name);
      FieldAt(PostgreSQL, cols.names, last, k, name);
    }
  }

  // A next call selects exactly the rows after the last one, up to one more than the page.
  lemma NextCallSelects(h: Handle, specs: seq<SortSpec>, vals: seq<Arg>, args: seq<Arg>, pageSize: int, maxRows: int,
      total: int, cols: Header, last: Row, r: Row)
    requires CursorOf(vals, specs, cols, last) && UsableSpecs(specs)
    ensures var c := NextCall(h, specs, vals, args, pageSize, maxRows, total).value;
      && (Selects(h.engine, c.query, c.args, |args|, cols, r) <==> CompareRows(specs, cols, r, last) > 0)
      && LimitOf(h.engine, c.query, c.args, |args|) == Some(c.effPage + 1) && c.query.order == OrderBy(h.engine, specs)
  {
    hide CompareRows, EvalCond, BoundWhere, AfterArgs, After, OrderBy, LimitOf;
    WrappedQueryIsExact(h.engine, specs, cols, last, vals, args, Min(pageSize, maxRows - total) + 1, r);
  }

  lemma NextPageAnswer(h: Handle, req: FirstPageRequest, cols: Header, listing: seq<Row>, prev: Page, page: Page,
      vals: seq<Arg>, answer: seq<Row>)
    requires req.plan.Some? && prev.rows != []
    requires NextPageFrom(h, req, cols, multiset(listing), prev, page, vals, answer)
    requires StrictlySorted(req.plan.value.specs, cols, listing)
    requires IsKey(req.plan.value.specs, cols, multiset(listing))
    requires Shaped(cols, multiset(listing)) && Resolves(cols, req.plan.value.specs)
    requires 0 < prev.total <= |listing| && prev.rows[|prev.rows| - 1] == listing[prev.total - 1]
    ensures var effPage := Min(ClampPageSize(req.pageSize), ClampMaxRows(req.maxRows) - prev.total);
      effPage >= 0 && page == PageOf(answer, effPage, prev.total, ClampMaxRows(req.maxRows))
      && answer == Truncated(listing[prev.total..], Some(effPage + 1))
  {
    hide CompareRows, FullAnswer, StrictlySorted, IsKey, Resolves, Extractable, EvalCond, BoundWhere, AfterArgs, After, OrderBy;
    var specs := req.plan.value.specs;
    var inner := |req.args|;
    var last := listing[prev.total - 1];
    var c := NextCall(h, specs, vals, req.args, ClampPageSize(req.pageSize), ClampMaxRows(req.maxRows), prev.total).value;
    var full :| FullAnswer(h, c, inner, cols, multiset(listing), full)
      && answer == Truncated(full, LimitOf(h.engine, c.query, c.args, inner));
    assert last in multiset(listing);
    CursorResolves(cols, specs, vals, last);
    var (pageSize, maxRows) := (ClampPageSize(req.pageSize), ClampMaxRows(req.maxRows));
    forall r ensures Selects(h.engine, c.query, c.args, inner, cols, r) <==> CompareRows(specs, cols, r, last) > 0 {
      NextCallSelects(h, specs, vals, req.args, pageSize, maxRows, prev.total, cols, last, r);
    }
    NextCallSelects(h, specs, vals, req.args, pageSize, maxRows, prev.total, cols, last, last);
    AnswerIsTail(h, c, inner, specs, cols, listing, prev.total, full);
  }

  lemma NextPageProgress(h: Handle, req: FirstPageRequest, cols: Header, listing: seq<Row>, pages: seq<Page>,
      page: Page)
    requires req.plan.Some?
    requires Progress(pages, listing, ClampPageSize(req.pageSize), ClampMaxRows(req.maxRows))
    requires NextPage(h, req, cols, multiset(listing), pages[|pages| - 1], page)
    requires StrictlySorted(req.plan.value.specs, cols, listing)
    requires IsKey(req.plan.value.specs, cols, multiset(listing))
    requires Shaped(cols, multiset(listing)) && Resolves(cols, req.plan.value.specs)
    ensures Progress(pages + [page], listing, ClampPageSize(req.pageSize), ClampMaxRows(req.maxRows))
  {
    hide StrictlySorted, IsKey, NextPageFrom, Shaped, Resolves, AllRows, PageOf, Truncated;
    var prev := pages[|pages| - 1];
    var vals, answer :| NextPageFrom(h, req, cols, multiset(listing), prev, page, vals, answer);
    NextPageAnswer(h, req, cols, listing, prev, page, vals, answer);
    hide Progress;
    ProgressGrows(pages, listing, ClampPageSize(req.pageSize), ClampMaxRows(req.maxRows), page);
  }

  // A page read of the rest of the listing.
  lemma ProgressGrows(pages: seq<Page>, listing: seq<Row>, pageSize: int, maxRows: int, page: Page)
    requires Progress(pages, listing, pageSize, maxRows) && pageSize > 0
    requires var prev := pages[|pages| - 1];
      var effPage := Min(pageSize, maxRows - prev.total);
      prev.hasMore && page == PageOf(Truncated(listing[prev.total..], Some(effPage + 1)), effPage, prev.total, maxRows)
    ensures Progress(pages + [page], listing, pageSize, maxRows)
  {
    var prev := pages[|pages| - 1];
    var tail := listing[prev.total..];
    assert page.rows == tail[..|page.rows|];
    assert page.rows == listing[prev.total..page.total];
    assert (pages + [page])[..|pages|] == pages;
    assert listing[..prev.total] + listing[prev.total..page.total] == listing[..page.total];
  }

  lemma {:induction false} RunProgress(h: Handle, req: FirstPageRequest, cols: Header, listing: seq<Row>,
      pages: seq<Page>)
    requires req.plan.Some? && Run(h, req, cols, multiset(listing), pages)
    requires StrictlySorted(req.plan.value.specs, cols, listing)
    requires IsKey(req.plan.value.specs, cols, multiset(listing))
    ensures Progress(pages, listing, ClampPageSize(req.pageSize), ClampMaxRows(req.maxRows))
    decreases |pages|
  {
    hide StrictlySorted, IsKey, FirstPage, NextPage, Progress, Shaped, Resolves;
    var n := |pages| - 1;
    if n == 0 {
      FirstPageProgress(h, req, cols, listing, pages[0]);
      assert pages == [pages[0]];
    } else {
      var before := pages[..n];
      RunProgress(h, req, cols, listing, before);
      NextPageProgress(h, req, cols, listing, before, pages[n]);
      assert pages == before + [pages[n]];
    }
  }

  // How many pages it takes to read so many rows: one, and one more for every further page size begun.
  function PageCount(rows: int, pageSize: int): nat
    requires pageSize > 0
  {
    if rows <= pageSize then 1 else 1 + PageCount(rows - pageSize, pageSize)
  }

  lemma {:induction false} FullPagesAndRest(n: nat, pageSize: int, rest: int)
    requires pageSize > 0 && n >= 1 && 0 < rest <= pageSize
    ensures PageCount((n - 1) * pageSize + rest, pageSize) == n
    decreases n
  {
    var rows := (n - 1) * pageSize + rest;
    if n > 1 {
      assert (n - 2) * pageSize + pageSize == (n - 1) * pageSize && (n - 2) * pageSize >= 0;
      FullPagesAndRest(n - 1, pageSize, rest);
      assert rows - pageSize == (n - 2) * pageSize + rest;
    }
  }

  // A finished run returns exactly the first min(|result|, maxRows) rows of the sorted result, each once and in order,
  // on exactly as many pages as they take; an unfinished one has read whole pages of them, and not yet all.
  lemma PagingIsExact(h: Handle, req: FirstPageRequest, cols: Header, listing: seq<Row>, pages: seq<Page>)
    requires req.plan.Some? && Run(h, req, cols, multiset(listing), pages)
    requires StrictlySorted(req.plan.value.specs, cols, listing)
    requires IsKey(req.plan.value.specs, cols, multiset(listing))
    ensures var cap := if req.maxRows > 0 then req.maxRows else 500;
      var pageSize := if req.pageSize <= 0 then 100 else if req.pageSize <= 500 then req.pageSize else 500;
      var wanted := if |listing| <= cap then |listing| else cap;
      if pages[|pages| - 1].hasMore then
        |AllRows(pages)| == |pages| * pageSize < wanted && AllRows(pages) < listing
      else
        |pages| == PageCount(wanted, pageSize) && AllRows(pages) == listing[..wanted]
  {
    hide StrictlySorted, IsKey, Run;
    RunProgress(h, req, cols, listing, pages);
    hide AllRows;
    var (last, wanted, pageSize) := (pages[|pages| - 1], Min(|listing|, ClampMaxRows(req.maxRows)), ClampPageSize(req.pageSize));
    if last.hasMore {
      assert last.total == |pages| * pageSize;
    } else if last.rows != [] {
      FullPagesAndRest(|pages|, pageSize, |last.rows|);
    }
  }

  // When the adapter asks the database at all: a plan only on the connection and in the pool generation it was proved for,
  // and without a plan only if one page is to hold everything.
  lemma FirstCallIsMadeIff(h: Handle, req: FirstPageRequest)
    ensures var cap := if req.maxRows > 0 then req.maxRows else 500;
      var pageSize := if req.pageSize <= 0 then 100 else if req.pageSize <= 500 then req.pageSize else 500;
      match FirstCall(h, req)
      case Ok(_) =>
        if req.plan.None? then cap <= pageSize
        else
          && req.plan.value.connectionID == h.connectionID && req.plan.value.generation == h.generation
          && req.plan.value.specs != [] && forall i :: 0 <= i < |req.plan.value.specs| ==> ValidIdent(req.plan.value.specs[i].column)
      case Err(InvalidPageToken) => req.plan.Some? && req.plan.value.connectionID != h.connectionID
      case Err(StaleConfig) => req.plan.Some? && req.plan.value.generation != h.generation
      case Err(UnsupportedQuery) =>
        if req.plan.None? then cap > pageSize
        else req.plan.value.specs == [] || exists i :: 0 <= i < |req.plan.value.specs| && !ValidIdent(req.plan.value.specs[i].column)
      case _ => false
  {
    hide ValidIdent, OrderBy;
  }

  // No page is longer than the page size asked for, 100 when none is, nor than 500, and all pages together are no longer
  // than the row cap, 500 when none is asked for.
  lemma PagesAreBounded(h: Handle, req: FirstPageRequest, cols: Header, listing: seq<Row>, pages: seq<Page>, i: nat)
    requires req.plan.Some? && Run(h, req, cols, multiset(listing), pages) && i < |pages|
    requires StrictlySorted(req.plan.value.specs, cols, listing)
    requires IsKey(req.plan.value.specs, cols, multiset(listing))
    ensures |pages[i].rows| <= 500 && |pages[i].rows| <= (if req.pageSize > 0 then req.pageSize else 100)
    ensures |AllRows(pages)| <= (if req.maxRows > 0 then req.maxRows else 500)
  {
    hide StrictlySorted, IsKey, FirstPage, NextPage, Shaped, Resolves, AllRows;
    RunProgress(h, req, cols, listing, pages);
    var before := pages[..i + 1];
    forall j | 0 < j < |before| ensures NextPage(h, req, cols, multiset(listing), before[j - 1], before[j]) {
      assert before[j] == pages[j] && before[j - 1] == pages[j - 1];
    }
    RunProgress(h, req, cols, listing, before);
  }

  // The sorted listing that PagingIsExact speaks of exists for every table that a first page can be read from.
  lemma ListingExists(h: Handle, req: FirstPageRequest, cols: Header, table: multiset<Row>, page: Page)
    returns (listing: seq<Row>)
    requires req.plan.Some? && FirstPage(h, req, cols, table, page) && IsKey(req.plan.value.specs, cols, table)
    ensures multiset(listing) == table && StrictlySorted(req.plan.value.specs, cols, listing)
  {
    var c := FirstCall(h, req).value;
    var answer :| Answers(h, c, |req.args|, cols, table, answer);
    listing :| FullAnswer(h, c, |req.args|, cols, table, listing);
    SortedAnswerIsStrict(h, c, |req.args|, req.plan.value.specs, cols, table, listing);
    assert multiset(listing) == table;
  }

  // Without a plan there is one page: Query returns every row of the result, or result_too_large.
  lemma SinglePageIsWhole(h: Handle, req: FirstPageRequest, cols: Header, table: multiset<Row>, page: Page)
    requires req.plan.None? && FirstPage(h, req, cols, table, page)
    ensures var (outcome, cap) := (QueryOutcome(FirstCall(h, req).value, page), if req.maxRows > 0 then req.maxRows else 500);
      if |table| > cap then outcome == Err(ResultTooLarge)
      else outcome == Ok(page) && multiset(page.rows) == table && !page.hasMore
  {
    var c := FirstCall(h, req).value;
    var full := SinglePageAnswer(h, req, cols, table, page);
    assert |full| == |table|;
  }

  lemma SinglePageAnswer(h: Handle, req: FirstPageRequest, cols: Header, table: multiset<Row>, page: Page)
    returns (full: seq<Row>)
    requires req.plan.None? && FirstPage(h, req, cols, table, page)
    ensures multiset(full) == table
    ensures var cap := ClampMaxRows(req.maxRows); page == PageOf(Truncated(full, Some(cap + 1)), cap, 0, cap)
  {
    hide FullAnswer, PageOf, LimitOf, Selects;
    FirstCallReadsAll(h, req);
    var (c, inner) := (FirstCall(h, req).value, |req.args|);
    var answer :| Answers(h, c, inner, cols, table, answer) && page == PageOf(answer, c.effPage, 0, ClampMaxRows(req.maxRows));
    full :| FullAnswer(h, c, inner, cols, table, full) && answer == Truncated(full, LimitOf(h.engine, c.query, c.args, inner));
    forall r ensures multiset(full)[r] == table[r] {
      FullAnswerCount(h, c, inner, cols, table, full, r);
      assert Selects(h.engine, c.query, c.args, inner, cols, r) by { FirstCallSelects(h, req, cols, r); }
    }
  }
}
