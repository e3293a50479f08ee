/** What a token lineage fixes: the pages served under one token and all that it was rotated into, in every run of the
    token store (apps/api/internal/execution/pipeline.go, apps/api/internal/pagination/registry.go). */
module Lineages {
  import opened Prelude
  import opened Sql
  import opened Continuation
  import opened TokenQuotas
  import opened Pagination
  import T = TokenRuns

  // The part of a state that no rotation may change.
  function Identity(s: State): State
  {
    s.(lastSortValues := [], cumulativeCount := 0, maxRows := 0, timeoutMs := 0, expiresAt := 0)
  }

  // What it is: the owner, the connection with its pool and schema generations and policy version, and the query with
  // plan, arguments and page size.
  lemma IdentityIs(s: State, t: State)
    ensures Identity(s) == Identity(t) <==>
      && s.userID == t.userID && s.workspaceID == t.workspaceID && s.connectionID == t.connectionID
      && s.poolGeneration == t.poolGeneration && s.schemaGeneration == t.schemaGeneration && s.policyVersion == t.policyVersion
      && s.tableSchema == t.tableSchema && s.tableName == t.tableName && s.sortPlan == t.sortPlan
      && s.sql == t.sql && s.args == t.args && s.statementHash == t.statementHash && s.pageSize == t.pageSize
  {
  }

  // A page that the adapter served: for whom, from what, with which rows, and under which limits.
  datatype Served = Served(query: State, before: int, rows: seq<Row>, maxRows: int, timeoutMs: int)
  {
    function Total(): int { before + |rows| }
  }

  // The state stored after a page, which is not empty, continues it.
  predicate Continues(p: Served, s: State)
  {
    Identity(s) == p.query && p.rows != [] && s.cumulativeCount == p.Total() < s.maxRows == p.maxRows && s.timeoutMs == p.timeoutMs
  }

  // The page was served from a stored state, within its own cap.
  predicate ServedFrom(s: State, p: Served)
  {
    && p.query == Identity(s) && p.before == s.cumulativeCount && p.Total() <= p.maxRows
    && p.maxRows <= s.maxRows && p.timeoutMs <= s.timeoutMs
  }

  // The pages served under a lineage, in order, and the states stored behind them; the last page may have none.
  datatype Trail = Trail(pages: seq<Served>, states: seq<State>)

  predicate Linked(t: Trail)
  {
    && t.pages != [] && t.pages[0].before == 0 && t.pages[0].Total() <= t.pages[0].maxRows && |t.states| <= |t.pages| <= |t.states| + 1
    && (forall i :: 0 <= i < |t.states| ==> Continues(t.pages[i], t.states[i]))
    && (forall i :: 0 < i < |t.pages| ==> Follows(t, i))
  }

  predicate Follows(t: Trail, i: int)
    requires 0 < i < |t.pages| <= |t.states| + 1
  {
    ServedFrom(t.states[i - 1], t.pages[i])
  }

  function RowsServed(pages: seq<Served>): nat
  {
    if pages == [] then 0 else RowsServed(pages[..|pages| - 1]) + |pages[|pages| - 1].rows|
  }

  // The same query for the same principal under the same plan, generations and policy.
  ghost predicate SameQuery(pages: seq<Served>)
  {
    forall i :: 0 <= i < |pages| ==> pages[i].query == pages[0].query
  }

  // Each page starts behind the rows served before it, of which there are fewer than the cap, and ends within its cap.
  ghost predicate Consecutive(pages: seq<Served>)
  {
    forall i :: 0 <= i < |pages| ==> Begins(pages, i)
  }

  predicate Begins(pages: seq<Served>, i: nat)
    requires i < |pages|
  {
    && pages[i].before == RowsServed(pages[..i]) && pages[i].Total() <= pages[i].maxRows
    && (i > 0 ==> pages[i].before < pages[i - 1].maxRows)
  }

  // Cap and timeout never grow.
  ghost predicate Narrowing(pages: seq<Served>)
  {
    forall i, j :: 0 <= i <= j < |pages| ==> pages[j].maxRows <= pages[i].maxRows && pages[j].timeoutMs <= pages[i].timeoutMs
  }

  ghost predicate Fixed(pages: seq<Served>) { SameQuery(pages) && Consecutive(pages) && Narrowing(pages) }

  lemma ConsecutiveGrows(pages: seq<Served>, p: Served)
    requires Consecutive(pages) && pages != []
    requires p.before == pages[|pages| - 1].Total() < pages[|pages| - 1].maxRows && p.Total() <= p.maxRows
    ensures Consecutive(pages + [p])
  {
    var (n, all) := (|pages|, pages + [p]);
    assert Begins(pages, n - 1);
    assert all[..n] == pages;
    hide RowsServed;
    forall i | 0 <= i < n ensures Begins(all, i) {
      assert Begins(pages, i) && all[..i] == pages[..i];
    }
  }

  lemma NarrowingGrows(pages: seq<Served>, p: Served)
    requires Narrowing(pages) && pages != []
    requires p.maxRows <= pages[|pages| - 1].maxRows && p.timeoutMs <= pages[|pages| - 1].timeoutMs
    ensures Narrowing(pages + [p])
  {
  }

  // A lineage without its last page.
  function Shorter(t: Trail): Trail
    requires 0 < |t.pages| <= |t.states| + 1
  {
    Trail(t.pages[..|t.pages| - 1], t.states[..|t.pages| - 1])
  }

  lemma ShorterIsLinked(t: Trail)
    requires Linked(t) && |t.pages| > 1
    ensures var n := |t.pages| - 1;
      && n <= |t.states| && Linked(Shorter(t)) && Shorter(t).pages == t.pages[..n] && t.pages[0].before == 0
      && Continues(t.pages[n - 1], t.states[n - 1]) && ServedFrom(t.states[n - 1], t.pages[n])
  {
    hide Continues, ServedFrom;
    var (n, u) := (|t.pages| - 1, Shorter(t));
    assert Follows(t, n);
    forall i | 0 < i < n ensures Follows(u, i) {
      assert Follows(t, i);
    }
  }

  lemma {:induction false} LineageIsFixed(t: Trail)
    requires Linked(t)
    ensures Fixed(t.pages)
    decreases |t.pages|
  {
    hide Identity, Consecutive, Narrowing;
    var n := |t.pages| - 1;
    if n == 0 {
      OnePageIsFixed(t.pages);
    } else {
      ShorterIsLinked(t);
      hide Linked;
      LineageIsFixed(Shorter(t));
      ConsecutiveGrows(t.pages[..n], t.pages[n]);
      NarrowingGrows(t.pages[..n], t.pages[n]);
      assert t.pages == t.pages[..n] + [t.pages[n]];
    }
  }

  lemma OnePageIsFixed(pages: seq<Served>)
    requires |pages| == 1 && pages[0].before == 0 && pages[0].Total() <= pages[0].maxRows
    ensures Fixed(pages)
  {
    assert pages[..0] == [];
  }

  // However far a lineage goes, it serves no more rows than the cap of its first page allows.
  ghost predicate Capped(pages: seq<Served>) { pages != [] && RowsServed(pages) <= pages[0].maxRows }

  lemma LineageIsCapped(t: Trail)
    requires Linked(t)
    ensures Capped(t.pages)
  {
    LineageIsFixed(t);
    hide Linked, SameQuery;
    assert Begins(t.pages, |t.pages| - 1);
  }

  // ---- Runs ----

  // The token store with its history, the trail of every lineage, and the claims whose page is still to be served.
  datatype History = History(world: T.World, trails: map<nat, Trail>, open: set<Claim>)

  // A step of the store that serves no page, the first page of a lineage with the token that it issues, a further page
  // with its successor, or a last page, served once the claimed entry is gone.
  datatype Step =
    | Quiet(ev: T.Event)
    | First(page: Served, ev: T.Event)
    | Further(page: Served, ev: T.Event)
    | Last(page: Served, c: Claim)

  predicate Issues(ev: T.Event)
  {
    match ev
    case Created(_, _, _, r) => r.Ok?
    case Rotated(_, _, _, _, r) => r.Ok?
    case _ => false
  }

  predicate Claims(ev: T.Event) { ev.Claimed? && ev.claim.Ok? }

  function LineageOf(w: T.World, d: Digest): nat { if d in w.lineage then w.lineage[d].number else 0 }

  function TrailOf(h: History, k: nat): Trail { if k in h.trails then h.trails[k] else Trail([], []) }

  function Extended(t: Trail, page: Served, states: seq<State>): Trail { Trail(t.pages + [page], t.states + states) }

  ghost predicate Next(cfg: Config, h: History, st: Step, h': History)
  {
    match st
    case Quiet(ev) =>
      && T.Next(cfg, h.world, ev, h'.world) && !Issues(ev)
      && h' == h.(world := h'.world, open := if Claims(ev) then h.open + {ev.claim.value} else h.open)
    case First(p, ev) =>
      && T.Next(cfg, h.world, ev, h'.world) && ev.Created? && Issues(ev)
      && p.before == 0 && Continues(p, ev.s)
      && h' == h.(world := h'.world, trails := h.trails[h.world.next := Trail([p], [Stamped(ev.s, ev.at + cfg.ttl)])])
    case Further(p, ev) =>
      && T.Next(cfg, h.world, ev, h'.world) && ev.Rotated? && Issues(ev)
      && ev.c in h.open && ServedFrom(ev.c.state, p) && Continues(p, ev.s)
      && DigestOf(ev.result.value) in h'.world.store.entries
      && var k := LineageOf(h.world, ev.c.digest);
         var stored := h'.world.store.entries[DigestOf(ev.result.value)].state;
         h' == History(h'.world, h.trails[k := Extended(TrailOf(h, k), p, [stored])], h.open - {ev.c})
    case Last(p, c) =>
      && c in h.open && c.digest !in h.world.store.entries && ServedFrom(c.state, p)
      && var k := LineageOf(h.world, c.digest);
         h' == h.(trails := h.trails[k := Extended(TrailOf(h, k), p, [])], open := h.open - {c})
  }

  const Start := History(T.Start, map[], {})

  ghost predicate Run(cfg: Config, hs: seq<History>, sts: seq<Step>)
  {
    && |hs| == |sts| + 1 && hs[0] == Start
    && forall i :: 0 <= i < |sts| ==> Next(cfg, hs[i], sts[i], hs[i + 1])
  }

  lemma RunGrows(cfg: Config, hs: seq<History>, sts: seq<Step>, st: Step, h: History)
    requires Run(cfg, hs, sts) && Next(cfg, hs[|sts|], st, h)
    ensures Run(cfg, hs + [h], sts + [st])
  {
    hide Next;
  }

  // ---- The invariant of all runs ----

  // The last state stored in lineage k, with no page served from it yet.
  predicate Pending(h: History, k: nat, s: State)
  {
    k in h.trails && var t := h.trails[k]; |t.states| == |t.pages| > 0 && t.states[|t.states| - 1] == s
  }

  ghost predicate Trails(h: History)
  {
    forall k :: k in h.trails ==> k < h.world.next && Linked(h.trails[k])
  }

  ghost predicate LivePending(h: History)
  {
    forall d :: d in h.world.store.entries ==> Pending(h, LineageOf(h.world, d), h.world.store.entries[d].state)
  }

  ghost predicate OpenPending(h: History)
  {
    forall c :: c in h.open ==> c in h.world.claims && Pending(h, LineageOf(h.world, c.digest), c.state)
  }

  // A page still to be served is the only way for its lineage to go on.
  ghost predicate NoOtherLive(h: History)
  {
    forall c, d :: c in h.open && d in h.world.store.entries && LineageOf(h.world, d) == LineageOf(h.world, c.digest) ==>
      d == c.digest
  }

  ghost predicate NoOtherOpen(h: History)
  {
    forall b, c :: b in h.open && c in h.open && LineageOf(h.world, b.digest) == LineageOf(h.world, c.digest) ==> b == c
  }

  ghost predicate OpenAlone(h: History) { NoOtherLive(h) && NoOtherOpen(h) }

  ghost predicate Inv(cfg: Config, h: History)
  {
    T.Inv(cfg, h.world) && Trails(h) && LivePending(h) && OpenPending(h) && OpenAlone(h)
  }

  // What T.Inv says here.
  lemma LiveIsNumbered(cfg: Config, w: T.World)
    requires T.Inv(cfg, w)
    ensures forall d :: d in w.store.entries ==> d in w.lineage && (w.store.entries[d].inFlight <==> d in w.claimed)
    ensures forall d, e :: d in w.store.entries && e in w.store.entries && LineageOf(w, d) == LineageOf(w, e) ==> d == e
    ensures forall d :: d in w.lineage ==> LineageOf(w, d) < w.next
    ensures forall c :: c in w.claims ==> c.digest in w.claimed && c.digest in w.lineage
    ensures forall c :: c in w.claims && c.digest in w.store.entries ==> Owns(w.store, c)
  {
    hide T.ClaimedOnce;
  }

  lemma QuietKeepsEntries(cfg: Config, w: T.World, ev: T.Event, w': T.World)
    requires T.Next(cfg, w, ev, w') && !Issues(ev)
    ensures w'.lineage == w.lineage && w'.next == w.next
    ensures w'.claims == if Claims(ev) then w.claims + {ev.claim.value} else w.claims
    ensures forall d :: d in w'.store.entries ==> d in w.store.entries && w'.store.entries[d].state == w.store.entries[d].state
    ensures Claims(ev) ==> var c := ev.claim.value;
      c.digest in w.store.entries && !w.store.entries[c.digest].inFlight && w.store.entries[c.digest].state == c.state
  {
    hide Evicts, Fits, GoesFirst, MayGo, ValidState, StateBytes, FitsBytes;
    if ev.Created? && w'.store != w.store {
      var (a, b, cp) := (w.store, w'.store, Stamped(ev.s, ev.at + cfg.ttl));
      var victims, rest :| CreateAfterEviction(cfg, a, cp, ev.at, ev.drawn, victims, rest, b, ev.result);
      EvictionSparesInFlight(cfg, a.entries, cp, StateBytes(cp), victims, rest);
    }
  }

  lemma CreationAdds(cfg: Config, w: T.World, ev: T.Event, w': T.World)
    requires T.Next(cfg, w, ev, w') && ev.Created? && Issues(ev)
    ensures var d := DigestOf(ev.result.value);
      && d !in w.lineage && w' == T.Began(w, d, ev.at).(store := w'.store)
      && d in w'.store.entries && w'.store.entries[d].state == Stamped(ev.s, ev.at + cfg.ttl)
      && forall e :: e in w'.store.entries && e != d ==>
           e in w.store.entries && w'.store.entries[e].state == w.store.entries[e].state
  {
    hide Evicts, Fits, GoesFirst, MayGo, ValidState, StateBytes;
    var (a, b, cp) := (w.store, w'.store, Stamped(ev.s, ev.at + cfg.ttl));
    var victims, rest :| CreateAfterEviction(cfg, a, cp, ev.at, ev.drawn, victims, rest, b, ev.result);
    EvictionSparesInFlight(cfg, a.entries, cp, StateBytes(cp), victims, rest);
  }

  lemma RotationReplaces(cfg: Config, w: T.World, ev: T.Event, w': T.World)
    requires T.Next(cfg, w, ev, w') && ev.Rotated? && Issues(ev) && T.Inv(cfg, w)
    ensures var (d, n) := (ev.c.digest, DigestOf(ev.result.value));
      && Owns(w.store, ev.c) && d in w.lineage && n !in w.lineage
      && w' == w.(store := w'.store, lineage := w.lineage[n := w.lineage[d]])
      && n in w'.store.entries && Identity(w'.store.entries[n].state) == Identity(ev.s)
      && w'.store.entries[n].state == Stamped(ev.s, w'.store.entries[n].state.expiresAt)
      && w'.store.entries == (w.store.entries - {d})[n := w'.store.entries[n]]
  {
    hide FitsBytes, ValidState, StateBytes, T.OneLivePerLineage, T.ClaimedOnce, T.History, T.Claims;
  }

  lemma QuietKeepsInv(cfg: Config, h: History, st: Step, h': History)
    requires Inv(cfg, h) && Next(cfg, h, st, h') && st.Quiet?
    ensures Trails(h') && LivePending(h') && OpenPending(h')
  {
    hide T.Inv, T.Next, Linked, OpenAlone;
    QuietKeepsEntries(cfg, h.world, st.ev, h'.world);
  }

  lemma QuietKeepsNoOtherLive(cfg: Config, h: History, st: Step, h': History)
    requires Inv(cfg, h) && Next(cfg, h, st, h') && st.Quiet?
    ensures NoOtherLive(h')
  {
    hide T.Next, T.Inv, Trails, LivePending, OpenPending, NoOtherOpen;
    QuietKeepsEntries(cfg, h.world, st.ev, h'.world);
    LiveIsNumbered(cfg, h.world);
  }

  // A ready entry has no page still to be served.
  lemma ReadyIsAlone(cfg: Config, h: History, d: Digest, b: Claim)
    requires Inv(cfg, h) && d in h.world.store.entries && !h.world.store.entries[d].inFlight && b in h.open
    ensures LineageOf(h.world, b.digest) != LineageOf(h.world, d)
  {
    hide T.Inv, Trails, LivePending, Pending, NoOtherOpen;
    LiveIsNumbered(cfg, h.world);
    assert b in h.world.claims && b.digest in h.world.claimed;
  }

  lemma QuietKeepsNoOtherOpen(cfg: Config, h: History, st: Step, h': History)
    requires Inv(cfg, h) && Next(cfg, h, st, h') && st.Quiet?
    ensures NoOtherOpen(h')
  {
    hide T.Next, Inv;
    QuietKeepsEntries(cfg, h.world, st.ev, h'.world);
    OpenIsAlone(cfg, h);
    if Claims(st.ev) {
      forall b | b in h.open ensures LineageOf(h.world, b.digest) != LineageOf(h.world, st.ev.claim.value.digest) {
        ReadyIsAlone(cfg, h, st.ev.claim.value.digest, b);
      }
    }
  }

  lemma OpenIsAlone(cfg: Config, h: History)
    requires Inv(cfg, h)
    ensures OpenAlone(h)
  {
  }

  lemma TrailBegins(p: Served, s: State, expiresAt: int)
    requires p.before == 0 && Continues(p, s)
    ensures Linked(Trail([p], [Stamped(s, expiresAt)]))
  {
  }

  lemma FirstKeepsInv(cfg: Config, h: History, st: Step, h': History)
    requires Inv(cfg, h) && Next(cfg, h, st, h') && st.First?
    ensures Trails(h') && LivePending(h') && OpenPending(h')
  {
    hide T.Next, T.Inv, Linked, Continues, OpenAlone;
    CreationAdds(cfg, h.world, st.ev, h'.world);
    LiveIsNumbered(cfg, h.world);
    TrailBegins(st.page, st.ev.s, st.ev.at + cfg.ttl);
  }

  lemma FirstKeepsAlone(cfg: Config, h: History, st: Step, h': History)
    requires Inv(cfg, h) && Next(cfg, h, st, h') && st.First?
    ensures OpenAlone(h')
  {
    hide T.Next, T.Inv, Linked, Continues, Trails, LivePending;
    CreationAdds(cfg, h.world, st.ev, h'.world);
    LiveIsNumbered(cfg, h.world);
  }

  lemma TrailGoesOn(t: Trail, p: Served, s: State, states: seq<State>)
    requires Linked(t) && |t.states| == |t.pages| && t.states[|t.states| - 1] == s && ServedFrom(s, p)
    requires states == [] || (|states| == 1 && Continues(p, states[0]))
    ensures Linked(Extended(t, p, states))
  {
    hide Identity, Continues, ServedFrom;
    var (u, n) := (Extended(t, p, states), |t.pages|);
    forall i | 0 < i <= n ensures Follows(u, i) {
      if i < n { assert Follows(t, i); }
    }
  }

  lemma FurtherKeepsInv(cfg: Config, h: History, st: Step, h': History)
    requires Inv(cfg, h) && Next(cfg, h, st, h') && st.Further?
    ensures Trails(h') && LivePending(h')
  {
    hide T.Next, T.Inv, Identity, Linked, ServedFrom, Continues, OpenAlone;
    RotationReplaces(cfg, h.world, st.ev, h'.world);
    LiveIsNumbered(cfg, h.world);
    var (c, k) := (st.ev.c, LineageOf(h.world, st.ev.c.digest));
    var stored := h'.world.store.entries[DigestOf(st.ev.result.value)].state;
    StampedContinues(st.page, st.ev.s, stored.expiresAt);
    TrailGoesOn(h.trails[k], st.page, c.state, [stored]);
  }

  lemma FurtherKeepsOpen(cfg: Config, h: History, st: Step, h': History)
    requires Inv(cfg, h) && Next(cfg, h, st, h') && st.Further?
    ensures OpenPending(h')
  {
    hide T.Next, T.Inv, Identity, Linked, ServedFrom, Continues, Trails, LivePending, NoOtherLive;
    RotationReplaces(cfg, h.world, st.ev, h'.world);
    LiveIsNumbered(cfg, h.world);
  }

  lemma StampedContinues(p: Served, s: State, expiresAt: int)
    requires Continues(p, s)
    ensures Continues(p, Stamped(s, expiresAt))
  {
  }

  lemma FurtherKeepsAlone(cfg: Config, h: History, st: Step, h': History)
    requires Inv(cfg, h) && Next(cfg, h, st, h') && st.Further?
    ensures OpenAlone(h')
  {
    hide T.Next, T.Inv, Identity, Linked, ServedFrom, Continues, Trails, LivePending, Pending;
    RotationReplaces(cfg, h.world, st.ev, h'.world);
    LiveIsNumbered(cfg, h.world);
  }

  lemma LastKeepsInv(cfg: Config, h: History, st: Step, h': History)
    requires Inv(cfg, h) && Next(cfg, h, st, h') && st.Last?
    ensures Trails(h') && LivePending(h') && OpenPending(h') && OpenAlone(h')
  {
    hide T.Next, T.Inv, Identity, Linked;
    TrailGoesOn(h.trails[LineageOf(h.world, st.c.digest)], st.page, st.c.state, []);
  }

  lemma NextKeepsInv(cfg: Config, h: History, st: Step, h': History)
    requires Inv(cfg, h) && Next(cfg, h, st, h')
    ensures Inv(cfg, h')
  {
    assert T.Inv(cfg, h'.world) by {
      hide T.Inv, T.Next;
      if !st.Last? { T.NextKeepsInv(cfg, h.world, st.ev, h'.world); }
    }
    hide T.Inv, Next, Trails, LivePending, OpenPending, OpenAlone;
    match st
    case Quiet(_) => QuietKeepsInv(cfg, h, st, h'); QuietKeepsNoOtherLive(cfg, h, st, h'); QuietKeepsNoOtherOpen(cfg, h, st, h');
    case First(_, _) => FirstKeepsInv(cfg, h, st, h'); FirstKeepsAlone(cfg, h, st, h');
    case Further(_, _) => FurtherKeepsInv(cfg, h, st, h'); FurtherKeepsOpen(cfg, h, st, h'); FurtherKeepsAlone(cfg, h, st, h');
    case Last(_, _) => LastKeepsInv(cfg, h, st, h');
  }

  lemma {:induction false} RunsKeepInv(cfg: Config, hs: seq<History>, sts: seq<Step>, i: nat)
    requires Run(cfg, hs, sts) && i < |hs|
    ensures Inv(cfg, hs[i])
  {
    if i > 0 {
      hide Next, Inv;
      RunsKeepInv(cfg, hs, sts, i - 1);
      NextKeepsInv(cfg, hs[i - 1], sts[i - 1], hs[i]);
    }
  }

  // ---- What holds of every run ----

  // In every interleaving, the pages served under a token and its successors form one lineage: linked page to state to
  // page, and therefore fixed in all that a token fixes. What a live token stands for is the last state of that lineage.
  lemma PagesFormLineages(cfg: Config, hs: seq<History>, sts: seq<Step>, i: nat)
    requires Run(cfg, hs, sts) && i < |hs|
    ensures forall k :: k in hs[i].trails ==> Linked(hs[i].trails[k]) && Fixed(hs[i].trails[k].pages)
    ensures forall k :: k in hs[i].trails ==> Capped(hs[i].trails[k].pages)
    ensures forall d :: d in hs[i].world.store.entries ==>
      Pending(hs[i], LineageOf(hs[i].world, d), hs[i].world.store.entries[d].state)
  {
    hide Next, Run, T.Inv, Linked, Fixed, Capped;
    RunsKeepInv(cfg, hs, sts, i);
    forall k | k in hs[i].trails ensures Fixed(hs[i].trails[k].pages) && Capped(hs[i].trails[k].pages) {
      LineageIsFixed(hs[i].trails[k]);
      LineageIsCapped(hs[i].trails[k]);
    }
  }

  predicate Prefix(t: Trail, t': Trail)
  {
    && |t.pages| <= |t'.pages| && t'.pages[..|t.pages|] == t.pages
    && |t.states| <= |t'.states| && t'.states[..|t.states|] == t.states
  }

  // Pages once served stay in their lineage, which only grows at its end.
  lemma {:induction false} TrailsOnlyGrow(cfg: Config, hs: seq<History>, sts: seq<Step>, i: nat, j: nat, k: nat)
    requires Run(cfg, hs, sts) && i <= j < |hs| && k in hs[i].trails
    ensures k in hs[j].trails && Prefix(hs[i].trails[k], hs[j].trails[k])
    decreases j
  {
    hide Next, Inv;
    if i < j {
      TrailsOnlyGrow(cfg, hs, sts, i, j - 1, k);
      RunsKeepInv(cfg, hs, sts, j - 1);
      NextOnlyGrows(cfg, hs[j - 1], sts[j - 1], hs[j], k);
      var (t, u, v) := (hs[i].trails[k], hs[j - 1].trails[k], hs[j].trails[k]);
      assert v.pages[..|t.pages|] == u.pages[..|t.pages|] && v.states[..|t.states|] == u.states[..|t.states|];
    }
  }

  lemma NextOnlyGrows(cfg: Config, h: History, st: Step, h': History, k: nat)
    requires Inv(cfg, h) && Next(cfg, h, st, h') && k in h.trails
    ensures k in h'.trails && Prefix(h.trails[k], h'.trails[k])
  {
    hide T.Next, T.Inv, LivePending, OpenPending, OpenAlone, Linked, Continues, ServedFrom;
  }
}
