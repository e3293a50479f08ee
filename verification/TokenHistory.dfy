/** The token store as the pipeline uses it (apps/api/internal/execution/pipeline.go), its history kept beside it: every
    call is a step of Lineages.Next, and the history is a run. */
module TokenHistory {
  import opened Prelude
  import opened Continuation
  import opened TokenQuotas
  import opened Pagination
  import opened Lineages
  import T = TokenRuns

  // Every entry of b is an unchanged entry of a.
  predicate Kept(a: map<Digest, Entry>, b: map<Digest, Entry>)
  {
    forall d :: d in b ==> d in a && b[d] == a[d]
  }

  // The token names a ready entry that continues the page; every other entry was there before.
  predicate Issued(a: map<Digest, Entry>, b: map<Digest, Entry>, token: string, p: Served)
  {
    var d := DigestOf(token);
    d in b && !b[d].inFlight && Continues(p, b[d].state) && Kept(a, b - {d})
  }

  lemma CreationIssues(cfg: Config, a: Store, s: State, now: int, handle: Option<string>, b: Store,
      r: Result<string, Failure>)
    requires CreateStep(cfg, a, s, now, handle, b, r)
    ensures r.Ok? ==> var d := DigestOf(r.value);
      handle == Some(r.value) && d in b.entries && !b.entries[d].inFlight && b.entries[d].state == Stamped(s, now + cfg.ttl)
      && Kept(a.entries, b.entries - {d}) && !b.closed
    ensures r.Err? ==> Kept(a.entries, b.entries)
  {
    hide StateBytes, ValidState, Fits, GoesFirst, MayGo, Evicts;
    var cp := Stamped(s, now + cfg.ttl);
    if !a.closed && ValidState(s) && StateBytes(cp) <= cfg.maxStateBytes {
      var victims, rest :| CreateAfterEviction(cfg, a, cp, now, handle, victims, rest, b, r);
      EvictionSparesInFlight(cfg, a.entries, cp, StateBytes(cp), victims, rest);
    }
  }

  // Once the claimed entry is gone, nothing tells the store from what it was before the claim.
  lemma ClaimedIsGone(a: map<Digest, Entry>, d: Digest, e: Entry, b: map<Digest, Entry>)
    requires Kept(a[d := e], b) && d !in b
    ensures Kept(a, b)
  {
  }

  lemma IssuedBeforeClaim(a: map<Digest, Entry>, d: Digest, e: Entry, b: map<Digest, Entry>, token: string, p: Served)
    requires Issued(a[d := e], b, token, p) && d !in b
    ensures Issued(a, b, token, p)
  {
    hide Continues;
    ClaimedIsGone(a, d, e, b - {DigestOf(token)});
  }

  // The pages of the lineage that a token belongs to.
  function PagesOf(h: History, d: Digest): seq<Served> { TrailOf(h, LineageOf(h.world, d)).pages }

  // Handles are drawn from a source of randomness that fails or gives one never drawn before.
  class HandleSource {
    var drawn: set<Digest>

    constructor ()
      ensures drawn == {}
    {
      drawn := {};
    }

    method Draw() returns (h: Option<string>)
      modifies this
      ensures h.Some? ==> DigestOf(h.value) !in old(drawn) && drawn == old(drawn) + {DigestOf(h.value)}
      ensures h.None? ==> drawn == old(drawn)
    {
      h := *;
      if h.Some? {
        if DigestOf(h.value) in drawn {
          return None;
        }
        drawn := drawn + {DigestOf(h.value)};
      }
    }
  }

  class Tokens {
    const registry: Registry
    const handles: HandleSource
    ghost var pasts: seq<History>
    ghost var steps: seq<Step>

    ghost function Past(): History
      reads this
    {
      if pasts == [] then Start else pasts[|pasts| - 1]
    }

    ghost predicate Valid()
      reads this, registry, handles
    {
      && registry.Valid() && Run(registry.cfg, pasts, steps) && Past().world.store == registry.Snapshot()
      && Past().world.lineage.Keys <= handles.drawn
    }

    constructor (registry: Registry, handles: HandleSource)
      requires registry.Valid() && registry.Snapshot() == Store(map[], 0, false)
      ensures Valid() && this.registry == registry && this.handles == handles && fresh(this)
      ensures Past() == Start
    {
      this.registry, this.handles := registry, handles;
      pasts, steps := [Start], [];
    }

    lemma PastIsSound()
      requires Valid()
      ensures Inv(registry.cfg, Past()) && |pasts| == |steps| + 1
    {
      RunsKeepInv(registry.cfg, pasts, steps, |pasts| - 1);
    }

    // Adds a step to the history.
    ghost method Note(st: Step, h: History)
      requires Run(registry.cfg, pasts, steps) && Next(registry.cfg, Past(), st, h)
      modifies this
      ensures pasts == old(pasts) + [h] && steps == old(steps) + [st]
      ensures Run(registry.cfg, pasts, steps) && Past() == h && old(pasts) <= pasts
    {
      RunGrows(registry.cfg, pasts, steps, st, h);
      pasts, steps := pasts + [h], steps + [st];
    }

    // A call on the registry that serves no page.
    ghost method NoteQuiet(ev: T.Event)
      requires Run(registry.cfg, pasts, steps) && !Issues(ev)
      requires T.Legal(Past().world, ev) && T.StoreStep(registry.cfg, Past().world.store, ev, registry.Snapshot())
      requires Past().world.lineage.Keys <= handles.drawn && registry.Valid()
      modifies this
      ensures Valid() && old(pasts) <= pasts && Past().trails == old(Past()).trails
      ensures Past().world == T.Recorded(old(Past()).world, ev).(store := registry.Snapshot())
      ensures Past().open == if Claims(ev) then old(Past()).open + {ev.claim.value} else old(Past()).open
    {
      hide T.Legal, T.StoreStep, Run, Registry.Valid;
      var w := T.Recorded(Past().world, ev).(store := registry.Snapshot());
      QuietIsRecorded(Past().world, ev);
      Note(Quiet(ev), Past().(world := w, open := if Claims(ev) then Past().open + {ev.claim.value} else Past().open));
    }

    lemma QuietIsRecorded(w: T.World, ev: T.Event)
      requires !Issues(ev)
      ensures T.Recorded(w, ev).lineage == w.lineage && T.Recorded(w, ev).next == w.next
    {
    }

    lemma HandlesAreFresh()
      requires Valid()
      ensures registry.entries.Keys <= Past().world.lineage.Keys
    {
      hide Run, Inv;
      PastIsSound();
      assert Inv(registry.cfg, Past()) ==> T.Inv(registry.cfg, Past().world);
      LiveIsNumbered(registry.cfg, Past().world);
    }

    // Whatever calls were made, and in whatever order: the pages served under each lineage are linked and fixed, and
    // the count after its last page is the number of rows served.
    lemma LineagesAreFixed()
      requires Valid()
      ensures forall k :: k in Past().trails ==> Linked(Past().trails[k]) && Fixed(Past().trails[k].pages)
      ensures forall k :: k in Past().trails ==> Past().trails[k].pages != []
    {
      hide Run, Fixed;
      PastIsSound();
      PagesFormLineages(registry.cfg, pasts, steps, |pasts| - 1);
    }

    // A live token stands for a complete query: nobody's in particular, without a plan, or of no size, is never stored.
    lemma LiveStatesAreComplete(d: Digest)
      requires Valid() && d in registry.entries
      ensures var s := registry.entries[d].state;
        && s.userID != "" && s.workspaceID != "" && s.connectionID != "" && s.tableSchema != "" && s.tableName != ""
        && s.sql != "" && s.statementHash != "" && s.schemaGeneration != "" && s.policyVersion > 0
        && s.sortPlan.Some? && s.pageSize > 0 && s.maxRows > 0 && StateBytes(s) <= registry.cfg.maxStateBytes
    {
      hide Run, WithinLimits, Counters.Account;
    }

    lemma CountIsRowsServed(d: Digest, p: Served)
      requires Valid() && PagesOf(Past(), d) != [] && PagesOf(Past(), d)[|PagesOf(Past(), d)| - 1] == p
      ensures p.Total() == RowsServed(PagesOf(Past(), d))
    {
      hide Valid, Linked;
      LineagesAreFixed();
      var pages := PagesOf(Past(), d);
      assert Fixed(pages) && Begins(pages, |pages| - 1);
    }

    // Create, for a first page that the state continues.
    method Begin(s: State, now: int, ghost p: Served) returns (r: Result<string, Failure>)
      requires Valid() && p.before == 0 && Continues(p, s)
      modifies this, registry, handles
      ensures Valid() && old(pasts) <= pasts
      ensures r.Ok? ==> Issued(old(registry.entries), registry.entries, r.value, p) && !registry.closed
      ensures r.Ok? ==> PagesOf(Past(), DigestOf(r.value)) == [p]
      ensures r.Err? ==> Kept(old(registry.entries), registry.entries) && Past().trails == old(Past()).trails
    {
      hide Run, CreateStep, ValidState, StateBytes, Identity, Registry.Valid;
      HandlesAreFresh();
      var handle := handles.Draw();
      ghost var (was, h) := (registry.Snapshot(), Past());
      r := registry.Create(s, now, handle);
      CreationIssues(registry.cfg, was, s, now, handle, registry.Snapshot(), r);
      ghost var ev := T.Created(s, now, handle, r);
      if r.Ok? {
        StampedContinues(p, s, now + registry.cfg.ttl);
        ghost var w := T.Recorded(h.world, ev).(store := registry.Snapshot());
        Note(First(p, ev), h.(world := w, trails := h.trails[h.world.next := Trail([p], [Stamped(s, now + registry.cfg.ttl)])]));
      } else {
        NoteQuiet(ev);
      }
    }

    method Claim(handle: string, now: int) returns (r: Result<Claim, Failure>)
      requires Valid()
      modifies this, registry
      ensures Valid() && old(pasts) <= pasts && Past().trails == old(Past()).trails
      ensures (registry.Snapshot(), r) == ClaimStep(old(registry.Snapshot()), handle, now)
      ensures Past().world.lineage == old(Past()).world.lineage
      ensures r.Ok? ==> r.value in Past().open && r.value in Past().world.claims
    {
      hide Run, Registry.Valid;
      r := registry.ClaimToken(handle, now);
      NoteQuiet(T.Claimed(handle, now, r));
    }

    // Rotate, for a page served from the claimed state that the new one continues.
    method Continue(c: Claim, s: State, now: int, ghost p: Served) returns (r: Result<string, Failure>)
      requires Valid() && c in Past().open && c in Past().world.claims && ServedFrom(c.state, p) && Continues(p, s)
      requires Owns(registry.Snapshot(), c)
      modifies this, registry, handles
      ensures Valid() && old(pasts) <= pasts && c in Past().world.claims && c.digest !in registry.entries
      ensures r.Ok? ==> Issued(old(registry.entries), registry.entries, r.value, p)
      ensures r.Ok? ==> registry.entries[DigestOf(r.value)].expiresAt == old(registry.entries)[c.digest].expiresAt
      ensures r.Ok? ==> PagesOf(Past(), c.digest) == PagesOf(old(Past()), c.digest) + [p]
      ensures r.Ok? ==> LineageOf(Past().world, DigestOf(r.value)) == LineageOf(Past().world, c.digest)
      ensures r.Err? ==> Kept(old(registry.entries), registry.entries) && Past().trails == old(Past()).trails
      ensures r.Err? ==> Past().world.lineage == old(Past()).world.lineage && c in Past().open
    {
      hide Run, ValidState, StateBytes, FitsBytes, Identity, Registry.Valid;
      HandlesAreFresh();
      var handle := handles.Draw();
      ghost var h := Past();
      r := registry.Rotate(c, s, now, handle);
      ghost var ev := T.Rotated(c, s, now, handle, r);
      if r.Ok? {
        ghost var (n, k) := (DigestOf(r.value), LineageOf(h.world, c.digest));
        StampedContinues(p, s, registry.entries[n].expiresAt);
        ghost var w := T.Recorded(h.world, ev).(store := registry.Snapshot());
        Note(Further(p, ev), History(w, h.trails[k := Extended(TrailOf(h, k), p, [registry.entries[n].state])], h.open - {c}));
      } else {
        NoteQuiet(ev);
      }
    }

    method Finish(c: Claim)
      requires Valid() && c in Past().world.claims
      modifies this, registry
      ensures Valid() && old(pasts) <= pasts && registry.Snapshot() == FinishStep(old(registry.Snapshot()), c)
      ensures Past() == old(Past()).(world := Past().world) && Past().world.lineage == old(Past()).world.lineage
    {
      hide Run, Registry.Valid;
      registry.Finish(c);
      NoteQuiet(T.Finished(c));
    }

    // The last page of a lineage, once its entry is gone.
    ghost method ServeLast(c: Claim, p: Served)
      requires Valid() && c in Past().open && c.digest !in registry.entries && ServedFrom(c.state, p)
      modifies this
      ensures Valid() && old(pasts) <= pasts && Past().world == old(Past()).world
      ensures PagesOf(Past(), c.digest) == PagesOf(old(Past()), c.digest) + [p]
    {
      hide Run, Identity, Registry.Valid;
      var (h, k) := (Past(), LineageOf(Past().world, c.digest));
      Note(Last(p, c), h.(trails := h.trails[k := Extended(TrailOf(h, k), p, [])], open := h.open - {c}));
    }

    method Revoke(handle: string)
      requires Valid()
      modifies this, registry
      ensures Valid() && old(pasts) <= pasts && registry.Snapshot() == RevokeStep(old(registry.Snapshot()), handle)
    {
      hide Run, Registry.Valid;
      registry.Revoke(handle);
      NoteQuiet(T.Revoked(handle));
    }

    method Sweep(now: int)
      requires Valid()
      modifies this, registry
      ensures Valid() && old(pasts) <= pasts && registry.Snapshot() == CleanupStep(old(registry.Snapshot()), now)
    {
      hide Run, Registry.Valid;
      registry.CleanupExpired(now);
      NoteQuiet(T.Cleaned(now));
    }

    method Close()
      requires Valid()
      modifies this, registry
      ensures Valid() && old(pasts) <= pasts && registry.Snapshot() == Store(map[], old(registry.seqNo), true)
    {
      hide Run, Registry.Valid;
      registry.Close();
      NoteQuiet(T.Closed);
    }
  }
}
