/** What the rows of a lineage add up to when its queries are answered from one table
    (apps/api/internal/execution/pipeline.go with apps/api/internal/adapter/manager.go). */
module ServedRows {
  import opened Prelude
  import opened Sql
  import opened Keyset
  import opened Paging
  import opened PagingRuns
  import opened Continuation
  import opened Lineages
  import TokenQuotas
  import PagingProgress
  import PlanSoundness
  import QP = QueryPlan

  // The arguments as the driver binds them.
  function Bound(bind: Any -> Arg, vals: seq<Any>): seq<Arg>
  {
    seq(|vals|, i requires 0 <= i < |vals| => bind(vals[i]))
  }

  // What the adapter is asked for a page: the stored query with its plan, under the limits of the page.
  function Asked(bind: Any -> Arg, p: Served): FirstPageRequest
  {
    FirstPageRequest(Bound(bind, p.query.args), PlanFor(p.query), p.query.pageSize, p.maxRows)
  }

  function PlanFor(query: State): Option<Plan>
  {
    if query.sortPlan.None? then None
    else
      var b := query.sortPlan.value.binding;
      Some(Plan(SpecsOf(query), b.connectionID, b.poolGeneration))
  }

  function SpecsOf(query: State): seq<SortSpec>
  {
    if query.sortPlan.None? then [] else PlanSoundness.ForAdapter(query.sortPlan.value.specs)
  }

  ghost predicate FirstAnswered(h: Handle, bind: Any -> Arg, cols: Header, table: multiset<Row>, p: Served)
  {
    exists page :: FirstPage(h, Asked(bind, p), cols, table, page) && page.rows == p.rows
  }

  // The cursor of the page before is the one stored in its state.
  ghost predicate NextAnswered(h: Handle, bind: Any -> Arg, cols: Header, table: multiset<Row>, prev: Served, s: State,
      p: Served)
  {
    && prev.rows != [] && p.query.sortPlan.Some?
    && exists page, answer ::
         NextPageFrom(h, Asked(bind, p), cols, table, Page(prev.rows, prev.Total(), true, true), page,
                      Bound(bind, s.lastSortValues), answer)
         && page.rows == p.rows
  }

  // Every query of the lineage is answered from the same table.
  ghost predicate AnsweredFrom(h: Handle, bind: Any -> Arg, cols: Header, table: multiset<Row>, t: Trail)
  {
    && Linked(t) && t.pages[0].query.sortPlan.Some?
    && Shaped(cols, table) && Resolves(cols, SpecsOf(t.pages[0].query))
    && FirstAnswered(h, bind, cols, table, t.pages[0])
    && forall i :: 0 < i < |t.pages| ==> AnsweredAt(h, bind, cols, table, t, i)
  }

  ghost predicate AnsweredAt(h: Handle, bind: Any -> Arg, cols: Header, table: multiset<Row>, t: Trail, i: int)
    requires 0 < i < |t.pages| <= |t.states| + 1
  {
    NextAnswered(h, bind, cols, table, t.pages[i - 1], t.states[i - 1], t.pages[i])
  }

  function RowsOf(pages: seq<Served>): seq<Row>
  {
    if pages == [] then [] else RowsOf(pages[..|pages| - 1]) + pages[|pages| - 1].rows
  }

  // The page ends where the listing ends, or a page size further, or at its cap, whichever comes first.
  predicate Fills(p: Served, listing: seq<Row>)
  {
    var cap := if p.maxRows > 0 then p.maxRows else 500;
    var pageSize := if p.query.pageSize <= 0 then 100 else if p.query.pageSize <= 500 then p.query.pageSize else 500;
    var end := if p.before + pageSize <= cap then p.before + pageSize else cap;
    && 0 <= p.before <= p.Total() && p.Total() == (if |listing| <= end then |listing| else end)
    && p.rows == listing[p.before..p.Total()]
  }

  lemma FirstFills(h: Handle, bind: Any -> Arg, cols: Header, listing: seq<Row>, p: Served)
    requires FirstAnswered(h, bind, cols, multiset(listing), p) && p.query.sortPlan.Some? && p.before == 0
    requires StrictlySorted(SpecsOf(p.query), cols, listing)
    requires IsKey(SpecsOf(p.query), cols, multiset(listing))
    ensures Fills(p, listing)
  {
    hide StrictlySorted, IsKey, FirstPage, FirstCall, Bound;
    var page :| FirstPage(h, Asked(bind, p), cols, multiset(listing), page) && page.rows == p.rows;
    FirstPageAnswer(h, Asked(bind, p), cols, listing, page);
  }

  lemma NextFills(h: Handle, bind: Any -> Arg, cols: Header, listing: seq<Row>, prev: Served, s: State, p: Served)
    requires NextAnswered(h, bind, cols, multiset(listing), prev, s, p) && Fills(prev, listing) && p.before == prev.Total()
    requires StrictlySorted(SpecsOf(p.query), cols, listing)
    requires IsKey(SpecsOf(p.query), cols, multiset(listing))
    requires Shaped(cols, multiset(listing)) && Resolves(cols, SpecsOf(p.query))
    ensures Fills(p, listing)
  {
    hide StrictlySorted, IsKey, Shaped, Resolves, NextPageFrom, Bound;
    var (before, vals) := (Page(prev.rows, prev.Total(), true, true), Bound(bind, s.lastSortValues));
    var page, answer :| NextPageFrom(h, Asked(bind, p), cols, multiset(listing), before, page, vals, answer)
      && page.rows == p.rows;
    assert prev.rows[|prev.rows| - 1] == listing[prev.Total() - 1];
    NextPageAnswer(h, Asked(bind, p), cols, listing, before, page, vals, answer);
    hide IsKey, CompareRows;
    TailFills(p, listing, Min(ClampPageSize(p.query.pageSize), ClampMaxRows(p.maxRows) - p.before), page);
  }

  lemma TailFills(p: Served, listing: seq<Row>, effPage: int, page: Page)
    requires effPage == Min(ClampPageSize(p.query.pageSize), ClampMaxRows(p.maxRows) - p.before) >= 0
    requires 0 <= p.before <= |listing| && p.rows == page.rows
    requires page == PageOf(Truncated(listing[p.before..], Some(effPage + 1)), effPage, p.before, ClampMaxRows(p.maxRows))
    ensures Fills(p, listing)
  {
    var tail := listing[p.before..];
    assert p.rows == tail[..Min(effPage, |tail|)];
    assert |p.rows| == Min(effPage, |listing| - p.before);
  }

  lemma FirstRowsFill(p: Served, listing: seq<Row>)
    requires Fills(p, listing) && p.before == 0
    ensures 0 <= p.Total() <= |listing| && p.rows == listing[..p.Total()]
  {
  }

  lemma NextRowsFill(prev: Served, p: Served, listing: seq<Row>)
    requires Fills(p, listing) && p.before == prev.Total()
    ensures 0 <= prev.Total() <= p.Total() <= |listing|
    ensures listing[..prev.Total()] + p.rows == listing[..p.Total()]
  {
  }

  lemma ShorterIsAnswered(h: Handle, bind: Any -> Arg, cols: Header, table: multiset<Row>, t: Trail)
    requires AnsweredFrom(h, bind, cols, table, t) && |t.pages| > 1
    ensures AnsweredFrom(h, bind, cols, table, Shorter(t))
    ensures var n := |t.pages| - 1; AnsweredAt(h, bind, cols, table, t, n)
  {
    ShorterIsLinked(t);
    hide Shaped, Resolves, FirstAnswered, NextAnswered, Linked, SpecsOf;
    var (u, n) := (Shorter(t), |t.pages| - 1);
    assert |t.pages| <= |t.states| + 1 by { LinkedLengths(t); }
    forall i | 0 < i < n ensures AnsweredAt(h, bind, cols, table, u, i) {
      assert AnsweredAt(h, bind, cols, table, t, i);
      assert u.pages[i - 1] == t.pages[i - 1] && u.states[i - 1] == t.states[i - 1] && u.pages[i] == t.pages[i];
    }
  }

  lemma LinkedLengths(t: Trail)
    requires Linked(t)
    ensures t.pages != [] && |t.pages| <= |t.states| + 1 && t.pages[0].before == 0
  {
  }

  lemma QueryIsFixed(t: Trail)
    requires Linked(t)
    ensures t.pages != [] && t.pages[|t.pages| - 1].query == t.pages[0].query
  {
    LineageIsFixed(t);
  }

  lemma RowsOfLast(pages: seq<Served>)
    requires pages != []
    ensures var n := |pages| - 1; RowsOf(pages) == RowsOf(pages[..n]) + pages[n].rows && (n == 0 ==> RowsOf(pages) == pages[0].rows)
  {
    assert RowsOf(pages[..0]) == [];
  }

  // The pages list the first rows of the listing, as many as the count after the last page, each page filled.
  ghost predicate Lists(pages: seq<Served>, listing: seq<Row>)
  {
    && pages != [] && 0 <= pages[|pages| - 1].Total() <= |listing| && RowsOf(pages) == listing[..pages[|pages| - 1].Total()]
    && forall i :: 0 <= i < |pages| ==> Fills(pages[i], listing)
  }

  lemma FirstLists(pages: seq<Served>, listing: seq<Row>)
    requires |pages| == 1 && Fills(pages[0], listing) && pages[0].before == 0
    ensures Lists(pages, listing)
  {
    RowsOfLast(pages);
    FirstRowsFill(pages[0], listing);
    hide RowsOf, Fills;
  }

  lemma NextLists(pages: seq<Served>, listing: seq<Row>)
    requires |pages| > 1 && Lists(pages[..|pages| - 1], listing) && Fills(pages[|pages| - 1], listing)
    requires pages[|pages| - 1].before == pages[|pages| - 2].Total()
    ensures Lists(pages, listing)
  {
    hide Fills, RowsOf;
    var n := |pages| - 1;
    RowsOfLast(pages);
    NextRowsFill(pages[n - 1], pages[n], listing);
    forall i | 0 <= i < n ensures Fills(pages[i], listing) {
      assert pages[..n][i] == pages[i];
    }
  }

  // The rows of a lineage whose queries are answered from one table keyed by its plan are the first of the sorted
  // listing, each once and in order, and every page is as full as listing, page size and cap allow.
  lemma {:induction false} LineageListsRows(h: Handle, bind: Any -> Arg, cols: Header, listing: seq<Row>, t: Trail)
    requires AnsweredFrom(h, bind, cols, multiset(listing), t)
    requires StrictlySorted(SpecsOf(t.pages[0].query), cols, listing)
    requires IsKey(SpecsOf(t.pages[0].query), cols, multiset(listing))
    ensures Lists(t.pages, listing)
    decreases |t.pages|
  {
    hide StrictlySorted, IsKey, Shaped, Resolves, FirstAnswered, NextAnswered, Fills, Linked, SpecsOf, Lists;
    LinkedLengths(t);
    var n := |t.pages| - 1;
    if n == 0 {
      FirstFills(h, bind, cols, listing, t.pages[0]);
      FirstLists(t.pages, listing);
    } else {
      ShorterIsLinked(t);
      QueryIsFixed(t);
      ShorterIsAnswered(h, bind, cols, multiset(listing), t);
      LineageListsRows(h, bind, cols, listing, Shorter(t));
      LastFills(t.pages[..n], listing);
      NextFills(h, bind, cols, listing, t.pages[n - 1], t.states[n - 1], t.pages[n]);
      NextLists(t.pages, listing);
    }
  }

  lemma LastFills(pages: seq<Served>, listing: seq<Row>)
    requires Lists(pages, listing)
    ensures pages != [] && Fills(pages[|pages| - 1], listing)
  {
    hide Fills;
  }

  // In every interleaving on the token store, and for every plan that VerifySortPlan accepted: the rows served under a
  // token and its successors, the query being answered from one result that shows rows of a table obeying its metadata,
  // are the first rows of that result in the order the sort keys ask for, each once.
  lemma ServedLineageIsExact(cfg: TokenQuotas.Config, hs: seq<History>, sts: seq<Step>, i: nat, k: nat, h: Handle,
      bind: Any -> Arg, s: QP.Snapshot, shape: QP.QueryShape, keys: seq<QP.SortKey>, p: QP.VerifiedSortPlan,
      base: seq<Row>, cols: Header, results: seq<Row>, source: seq<nat>) returns (listing: seq<Row>)
    requires Lineages.Run(cfg, hs, sts) && i < |hs| && k in hs[i].trails
    requires AnsweredFrom(h, bind, cols, multiset(results), hs[i].trails[k])
    requires hs[i].trails[k].pages[0].query.sortPlan == Some(p) && QP.ProvedPlan(s, shape, keys, p)
    requires PlanSoundness.CaseDistinct(s.dialect, s.meta.columns) && PlanSoundness.Obeys(s.meta, base)
    requires PlanSoundness.Shows(s.dialect, s.meta, p.specs, base, cols, results, source)
    ensures multiset(listing) == multiset(results) && PlanSoundness.AsAsked(keys, cols, listing)
    ensures var pages := hs[i].trails[k].pages;
      Lists(pages, listing) && RowsServed(pages) <= |listing| && RowsOf(pages) == listing[..RowsServed(pages)]
  {
    hide QP.ProvedPlan, PlanSoundness.Obeys, PlanSoundness.CaseDistinct, PlanSoundness.Shows, Lineages.Run, StrictlySorted, IsKey;
    hide RowsOf, RowsServed;
    PlanSoundness.ShownResultIsKeyed(s, shape, keys, p, base, cols, results, source);
    hide PlanSoundness.AsAsked;
    listing := PagingProgress.SortedListing(PlanSoundness.ForAdapter(p.specs), cols, multiset(results));
    PlanSoundness.ListingIsAsAsked(s, shape, keys, p, cols, listing);
    PagesFormLineages(cfg, hs, sts, i);
    LineageListsRows(h, bind, cols, listing, hs[i].trails[k]);
    RowsAreCounted(hs[i].trails[k].pages);
  }

  lemma {:induction false} RowsAreCounted(pages: seq<Served>)
    ensures |RowsOf(pages)| == RowsServed(pages)
  {
    if pages != [] { RowsAreCounted(pages[..|pages| - 1]); }
  }
}
