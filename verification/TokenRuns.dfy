/** Every run of the token store: any interleaving of its operations, under any clock. */
module TokenRuns {
  import opened Prelude
  import opened Continuation
  import opened TokenQuotas
  import opened Pagination

  datatype Event =
    | Created(s: State, at: int, drawn: Option<string>, result: Result<string, Failure>)
    | Claimed(handle: string, at: int, claim: Result<Claim, Failure>)
    | Rotated(c: Claim, s: State, at: int, drawn: Option<string>, result: Result<string, Failure>)
    | Finished(c: Claim)
    | Revoked(handle: string)
    | Cleaned(at: int)
    | Closed

  // A lineage is a token with all that it was rotated into.
  datatype Lineage = Lineage(number: nat, born: int)

  // The store together with its history: the lineage of every handle ever issued, the number of the next lineage,
  // the handles that were claimed, in order, and the claims handed out.
  datatype World = World(store: Store, lineage: map<Digest, Lineage>, next: nat, claimed: seq<Digest>, claims: set<Claim>)

  const Start := World(Store(map[], 0, false), map[], 0, [], {})

  ghost predicate StoreStep(cfg: Config, a: Store, ev: Event, b: Store)
  {
    match ev
    case Created(s, at, drawn, r) => CreateStep(cfg, a, s, at, drawn, b, r)
    case Claimed(h, at, r) => (b, r) == ClaimStep(a, h, at)
    case Rotated(c, s, at, drawn, r) => (b, r) == RotateStep(cfg, a, c, s, at, drawn)
    case Finished(c) => b == FinishStep(a, c)
    case Revoked(h) => b == RevokeStep(a, h)
    case Cleaned(at) => b == CleanupStep(a, at)
    case Closed => b == Store(map[], a.seqNo, true)
  }

  // Handles are drawn fresh, and finalizers are called on claims that were handed out.
  predicate Legal(w: World, ev: Event)
  {
    match ev
    case Created(_, _, drawn, _) => drawn.Some? ==> DigestOf(drawn.value) !in w.lineage
    case Rotated(c, _, _, drawn, _) => c in w.claims && (drawn.Some? ==> DigestOf(drawn.value) !in w.lineage)
    case Finished(c) => c in w.claims
    case _ => true
  }

  function Began(w: World, d: Digest, at: int): World
  {
    w.(lineage := w.lineage[d := Lineage(w.next, at)], next := w.next + 1)
  }

  function Succeeded(w: World, d: Digest, n: Digest): World
  {
    if d in w.lineage then w.(lineage := w.lineage[n := w.lineage[d]]) else w
  }

  function Recorded(w: World, ev: Event): World
  {
    match ev
    case Created(_, at, _, Ok(h)) => Began(w, DigestOf(h), at)
    case Claimed(h, _, Ok(c)) => w.(claimed := w.claimed + [DigestOf(h)], claims := w.claims + {c})
    case Rotated(c, _, _, _, Ok(h)) => Succeeded(w, c.digest, DigestOf(h))
    case _ => w
  }

  ghost predicate Next(cfg: Config, w: World, ev: Event, w': World)
  {
    Legal(w, ev) && StoreStep(cfg, w.store, ev, w'.store) && w' == Recorded(w, ev).(store := w'.store)
  }

  ghost predicate Run(cfg: Config, ws: seq<World>, evs: seq<Event>)
  {
    && |ws| == |evs| + 1 && ws[0] == Start
    && forall i :: 0 <= i < |evs| ==> Next(cfg, ws[i], evs[i], ws[i + 1])
  }

  // ---- The invariant of all runs ----

  // A live entry belongs to a recorded lineage, expires when the lineage does, and is in flight exactly when claimed.
  ghost predicate Entries(cfg: Config, w: World)
  {
    forall d :: d in w.store.entries ==>
      && d in w.lineage
      && w.store.entries[d].expiresAt == w.lineage[d].born + cfg.ttl
      && (w.store.entries[d].inFlight <==> d in w.claimed)
  }

  ghost predicate OneLivePerLineage(w: World)
  {
    forall d, e | d in w.store.entries && e in w.store.entries && d in w.lineage && e in w.lineage ::
      w.lineage[d].number == w.lineage[e].number ==> d == e
  }

  ghost predicate ClaimedOnce(claimed: seq<Digest>)
  {
    forall i, j :: 0 <= i < j < |claimed| ==> claimed[i] != claimed[j]
  }

  ghost predicate History(w: World)
  {
    && (forall d :: d in w.lineage ==> w.lineage[d].number < w.next)
    && (forall d :: d in w.claimed ==> d in w.lineage)
  }

  ghost predicate Claims(w: World)
  {
    forall c :: c in w.claims ==>
      c.digest in w.claimed
      && (c.digest in w.store.entries ==> w.store.entries[c.digest].version == c.version)
  }

  ghost predicate Inv(cfg: Config, w: World)
  {
    Entries(cfg, w) && OneLivePerLineage(w) && ClaimedOnce(w.claimed) && History(w) && Claims(w)
  }

  // Dropping entries keeps the invariant.
  lemma DroppingKeepsInv(cfg: Config, w: World, b: Store)
    requires Inv(cfg, w)
    requires forall d :: d in b.entries ==> d in w.store.entries && b.entries[d] == w.store.entries[d]
    ensures Inv(cfg, w.(store := b))
  {
    hide ClaimedOnce;
  }

  // A new entry for a handle never issued before.
  lemma BeginningKeepsInv(cfg: Config, w: World, b: Store, d: Digest, e: Entry, at: int)
    requires Inv(cfg, w) && d !in w.lineage && e.expiresAt == at + cfg.ttl && !e.inFlight
    requires b.entries == w.store.entries[d := e]
    ensures Inv(cfg, Began(w, d, at).(store := b))
  {
    hide ClaimedOnce;
  }

  lemma SucceedingKeepsInv(cfg: Config, w: World, b: Store, d: Digest, n: Digest, e: Entry)
    requires Inv(cfg, w) && d in w.store.entries && n !in w.lineage
    requires e.expiresAt == w.store.entries[d].expiresAt && !e.inFlight
    requires b.entries == (w.store.entries - {d})[n := e]
    ensures Inv(cfg, Succeeded(w, d, n).(store := b))
  {
    hide ClaimedOnce;
  }

  lemma FlyingKeepsInv(cfg: Config, w: World, b: Store, d: Digest)
    requires Inv(cfg, w) && d in w.store.entries && !w.store.entries[d].inFlight
    requires b.entries == w.store.entries[d := w.store.entries[d].(inFlight := true)]
    ensures var e := w.store.entries[d];
      Inv(cfg, w.(store := b, claimed := w.claimed + [d], claims := w.claims + {Claim(d, e.version, e.state)}))
  {
  }

  lemma CreatingKeepsInv(cfg: Config, w: World, ev: Event, w': World)
    requires Inv(cfg, w) && Next(cfg, w, ev, w') && ev.Created?
    ensures Inv(cfg, w')
  {
    hide Evicts, Fits, GoesFirst, MayGo, ValidState, StateBytes, Inv;
    var (a, b, cp) := (w.store, w'.store, Stamped(ev.s, ev.at + cfg.ttl));
    if b != a || ev.result.Ok? {
      var victims, rest :| CreateAfterEviction(cfg, a, cp, ev.at, ev.drawn, victims, rest, b, ev.result);
      EvictionSparesInFlight(cfg, a.entries, cp, StateBytes(cp), victims, rest);
      var dropped := w.(store := a.(entries := rest));
      DroppingKeepsInv(cfg, w, dropped.store);
      if ev.result.Ok? {
        var d := DigestOf(ev.drawn.value);
        BeginningKeepsInv(cfg, dropped, b, d, b.entries[d], ev.at);
      }
    }
  }

  lemma RotatingKeepsInv(cfg: Config, w: World, ev: Event, w': World)
    requires Inv(cfg, w) && Next(cfg, w, ev, w') && ev.Rotated?
    ensures Inv(cfg, w')
  {
    hide FitsBytes, ValidState, StateBytes, Inv;
    var (a, d) := (w.store, ev.c.digest);
    if Owns(a, ev.c) {
      DroppingKeepsInv(cfg, w, a.(entries := a.entries - {d}));
      if ev.result.Ok? {
        var n := DigestOf(ev.drawn.value);
        SucceedingKeepsInv(cfg, w, w'.store, d, n, w'.store.entries[n]);
      }
    }
  }

  lemma NextKeepsInv(cfg: Config, w: World, ev: Event, w': World)
    requires Inv(cfg, w) && Next(cfg, w, ev, w')
    ensures Inv(cfg, w')
  {
    hide Inv, CreateStep, RotateStep;
    match ev
    case Created(_, _, _, _) => CreatingKeepsInv(cfg, w, ev, w');
    case Claimed(h, _, r) =>
      if r.Ok? { FlyingKeepsInv(cfg, w, w'.store, DigestOf(h)); } else { DroppingKeepsInv(cfg, w, w'.store); }
    case Rotated(_, _, _, _, _) => RotatingKeepsInv(cfg, w, ev, w');
    case _ => DroppingKeepsInv(cfg, w, w'.store);
  }

  lemma {:induction false} RunsKeepInv(cfg: Config, ws: seq<World>, evs: seq<Event>, i: nat)
    requires Run(cfg, ws, evs) && i < |ws|
    ensures Inv(cfg, ws[i])
  {
    if i > 0 {
      hide Next, Inv;
      RunsKeepInv(cfg, ws, evs, i - 1);
      NextKeepsInv(cfg, ws[i - 1], evs[i - 1], ws[i]);
    }
  }

  // ---- What every run keeps ----

  // In every reachable store no handle has been claimed twice and no lineage has two live entries.
  lemma SingleUse(cfg: Config, ws: seq<World>, evs: seq<Event>, i: nat)
    requires Run(cfg, ws, evs) && i < |ws|
    ensures ClaimedOnce(ws[i].claimed)
    ensures forall d, e :: d in ws[i].store.entries && e in ws[i].store.entries && d != e ==>
      d in ws[i].lineage && e in ws[i].lineage && ws[i].lineage[d].number != ws[i].lineage[e].number
  {
    hide Next, Run;
    RunsKeepInv(cfg, ws, evs, i);
  }

  // No claim or rotation succeeds at or after the creation of the lineage plus the TTL, however often it was rotated.
  lemma LineageExpires(cfg: Config, ws: seq<World>, evs: seq<Event>, i: nat)
    requires Run(cfg, ws, evs) && i < |evs|
    ensures evs[i].Claimed? && evs[i].claim.Ok? ==>
      var d := evs[i].claim.value.digest; d in ws[i].lineage && evs[i].at < ws[i].lineage[d].born + cfg.ttl
    ensures evs[i].Rotated? && evs[i].result.Ok? ==>
      var (d, n) := (evs[i].c.digest, DigestOf(evs[i].result.value));
      d in ws[i].lineage && n in ws[i + 1].lineage
      && ws[i + 1].lineage[n] == ws[i].lineage[d] && evs[i].at < ws[i].lineage[d].born + cfg.ttl
  {
    hide FitsBytes, ValidState, StateBytes, CreateStep;
    RunsKeepInv(cfg, ws, evs, i);
    assert Next(cfg, ws[i], evs[i], ws[i + 1]);
  }

  // An entry that is issued but not ready (claimed, dropped or expired) never becomes ready again.
  ghost predicate Spent(w: World, d: Digest)
  {
    d in w.lineage && (d in w.store.entries ==> w.store.entries[d].inFlight)
  }

  lemma SpentStays(cfg: Config, w: World, ev: Event, w': World, d: Digest)
    requires Next(cfg, w, ev, w') && Spent(w, d)
    ensures Spent(w', d) && (d !in w.store.entries ==> d !in w'.store.entries)
  {
    hide Evicts, Fits, GoesFirst, MayGo, ValidState, StateBytes, FitsBytes;
    if ev.Created? && w'.store != w.store {
      var (a, b, cp) := (w.store, w'.store, Stamped(ev.s, ev.at + cfg.ttl));
      var victims, rest :| CreateAfterEviction(cfg, a, cp, ev.at, ev.drawn, victims, rest, b, ev.result);
      EvictionSparesInFlight(cfg, a.entries, cp, StateBytes(cp), victims, rest);
    }
  }

  lemma {:induction false} SpentForever(cfg: Config, ws: seq<World>, evs: seq<Event>, i: nat, j: nat, d: Digest)
    requires Run(cfg, ws, evs) && i <= j < |ws| && Spent(ws[i], d)
    ensures Spent(ws[j], d) && (d !in ws[i].store.entries ==> d !in ws[j].store.entries)
    decreases j
  {
    hide Next, Spent;
    if i < j {
      SpentForever(cfg, ws, evs, i, j - 1, d);
      SpentStays(cfg, ws[j - 1], evs[j - 1], ws[j], d);
    }
  }

  // Once a claim has lost its entry, its finalizers change nothing, at any later time.
  lemma OutdatedClaimIsInert(cfg: Config, ws: seq<World>, evs: seq<Event>, i: nat, j: nat, c: Claim)
    requires Run(cfg, ws, evs) && i <= j < |ws| && c in ws[i].claims && !Owns(ws[i].store, c)
    ensures FinishStep(ws[j].store, c) == ws[j].store
    ensures forall s, at, drawn :: RotateStep(cfg, ws[j].store, c, s, at, drawn) == (ws[j].store, Err(InvalidPageToken))
  {
    RunsKeepInv(cfg, ws, evs, i);
    hide Next, Run, ClaimedOnce, OneLivePerLineage;
    assert c.digest in ws[i].claimed && c.digest !in ws[i].store.entries;
    SpentForever(cfg, ws, evs, i, j, c.digest);
  }

  // An entry in flight disappears only through a finalizer of its own claim, expiry, or closing the store.
  lemma InFlightLeavesOnlyBy(cfg: Config, w: World, ev: Event, w': World, d: Digest)
    requires Next(cfg, w, ev, w') && d in w.store.entries && w.store.entries[d].inFlight && d !in w'.store.entries
    ensures ev.Closed? || (ev.Cleaned? && ev.at >= w.store.entries[d].expiresAt)
      || ((ev.Finished? || ev.Rotated?) && ev.c.digest == d && ev.c.version == w.store.entries[d].version)
  {
    hide Evicts, Fits, GoesFirst, MayGo, ValidState, StateBytes, FitsBytes;
    if ev.Created? && w'.store != w.store {
      var (a, b, cp) := (w.store, w'.store, Stamped(ev.s, ev.at + cfg.ttl));
      var victims, rest :| CreateAfterEviction(cfg, a, cp, ev.at, ev.drawn, victims, rest, b, ev.result);
      EvictionSparesInFlight(cfg, a.entries, cp, StateBytes(cp), victims, rest);
    }
  }

  lemma EntryKept(cfg: Config, w: World, ev: Event, w': World, d: Digest)
    requires Next(cfg, w, ev, w') && d in w.store.entries && d in w.lineage
    ensures d in w'.lineage
    ensures d in w'.store.entries ==> w'.store.entries[d].(inFlight := w.store.entries[d].inFlight) == w.store.entries[d]
  {
    hide Evicts, Fits, GoesFirst, MayGo, ValidState, StateBytes, FitsBytes;
    if ev.Created? && w'.store != w.store {
      var (a, b, cp) := (w.store, w'.store, Stamped(ev.s, ev.at + cfg.ttl));
      var victims, rest :| CreateAfterEviction(cfg, a, cp, ev.at, ev.drawn, victims, rest, b, ev.result);
      EvictionSparesInFlight(cfg, a.entries, cp, StateBytes(cp), victims, rest);
    }
  }

  // What a token stands for is fixed when it is issued: as long as its entry lives, state, version, size and expiry are
  // those it was stored with.
  lemma {:induction false} StateIsFixed(cfg: Config, ws: seq<World>, evs: seq<Event>, i: nat, j: nat, d: Digest)
    requires Run(cfg, ws, evs) && i <= j < |ws| && d in ws[i].store.entries && d in ws[j].store.entries
    ensures ws[j].store.entries[d].(inFlight := ws[i].store.entries[d].inFlight) == ws[i].store.entries[d]
    decreases j - i
  {
    hide Next;
    if i < j {
      RunsKeepInv(cfg, ws, evs, i);
      hide OneLivePerLineage, ClaimedOnce, History, Claims;
      EntryKept(cfg, ws[i], evs[i], ws[i + 1], d);
      if d in ws[i + 1].store.entries {
        StateIsFixed(cfg, ws, evs, i + 1, j, d);
      } else {
        SpentForever(cfg, ws, evs, i + 1, j, d);
      }
    }
  }
}
