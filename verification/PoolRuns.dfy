/** Runs of the pool manager: any number of callers of Get in any interleaving, creations that fail, cancelled waits,
    a Close, and pools closing in the background. */
module PoolRuns {
  import opened Prelude
  import opened PoolManager

  // Where a caller is; own is the channel that it stored.
  datatype Stage =
    | Waiting(cfg: Config, channel: nat)
    | Creating(cfg: Config, own: Option<nat>)
    | Holding(cfg: Config, own: Option<nat>, made: Pool)
    | Done(cfg: Config, result: Result<Pool, Failure>)

  datatype Place = Held(maker: nat) | Installed | Draining | Shut

  datatype Fate = Fate(pool: Pool, place: Place)

  // owner: the caller that stored a channel. made: what became of every pool, by generation. closings: the channels
  // closed, in order.
  datatype World = World(m: Snapshot, callers: map<nat, Stage>, channels: nat, owner: map<nat, nat>, closings: seq<nat>,
    generations: nat, made: map<nat, Fate>)

  datatype Event =
    | Called(t: nat, cfg: Config)
    | Woken(t: nat)
    | Cancel(t: nat)
    | Made(t: nat)
    | NotMade(t: nat)
    | Finished(t: nat)
    | Closed
    | Disposed(generation: nat)

  function After(t: nat, cfg: Config, move: Move): Stage
  {
    match move
    case Return(r) => Done(cfg, r)
    case Wait(ch) => Waiting(cfg, ch)
    case Create(own) => Creating(cfg, own)
  }

  function Rung(closings: seq<nat>, channel: Option<nat>): seq<nat>
  {
    if channel.Some? then closings + [channel.value] else closings
  }

  // The pool of t goes to its place; one that it replaced drains.
  function Placed(made: map<nat, Fate>, p: Pool, place: Place, replaced: Option<Pool>): map<nat, Fate>
  {
    var rest := if replaced.Some? then made[replaced.value.generation := Fate(replaced.value, Draining)] else made;
    rest[p.generation := Fate(p, place)]
  }

  // Closing the manager schedules every installed pool for closing.
  function Scheduled(made: map<nat, Fate>): map<nat, Fate>
  {
    map g | g in made :: if made[g].place.Installed? then made[g].(place := Draining) else made[g]
  }

  predicate Enabled(w: World, ev: Event)
  {
    match ev
    case Called(t, _) => t !in w.callers
    case Woken(t) => t in w.callers && w.callers[t].Waiting? && w.callers[t].channel in w.closings
    case Cancel(t) => t in w.callers && w.callers[t].Waiting?
    case Made(t) => t in w.callers && w.callers[t].Creating?
    case NotMade(t) => t in w.callers && w.callers[t].Creating?
    case Finished(t) => t in w.callers && w.callers[t].Holding?
    case Closed => true
    case Disposed(g) => g in w.made && w.made[g].place.Draining?
  }

  function Step(w: World, ev: Event): World
    requires Enabled(w, ev)
  {
    match ev
    case Called(t, cfg) =>
      var c := Normal(cfg);
      var (m, move) := BeginStep(w.m, c, w.channels);
      var owner := if move.Create? then w.owner[w.channels := t] else w.owner;
      w.(m := m, callers := w.callers[t := After(t, c, move)], channels := w.channels + 1, owner := owner)
    case Woken(t) =>
      var s := w.callers[t];
      w.(callers := w.callers[t := After(t, s.cfg, AwakenStep(w.m, s.cfg))])
    case Cancel(t) => w.(callers := w.callers[t := Done(w.callers[t].cfg, Err(Cancelled))])
    case Made(t) =>
      var s := w.callers[t];
      var p := Pool(w.generations, s.cfg);
      w.(callers := w.callers[t := Holding(s.cfg, s.own, p)], generations := w.generations + 1,
         made := w.made[w.generations := Fate(p, Held(t))])
    case NotMade(t) =>
      var s := w.callers[t];
      var (m, channel) := UnlatchStep(w.m, s.cfg.connectionID);
      w.(m := m, callers := w.callers[t := Done(s.cfg, Err(CreationFailed))], closings := Rung(w.closings, channel))
    case Finished(t) =>
      var s := w.callers[t];
      var (m, channel) := UnlatchStep(w.m, s.cfg.connectionID);
      var (m', r, keep) := InstallStep(m, s.cfg, s.made);
      var replaced := if keep then Live(m, s.cfg.connectionID) else None;
      w.(m := m', callers := w.callers[t := Done(s.cfg, r)], closings := Rung(w.closings, channel),
         made := Placed(w.made, s.made, if keep then Installed else Shut, replaced))
    case Closed =>
      w.(m := w.m.(closed := true), made := if w.m.closed then w.made else Scheduled(w.made))
    case Disposed(g) => w.(made := w.made[g := w.made[g].(place := Shut)])
  }

  const START := World(Snapshot(map[], map[], map[], map[], false), map[], 0, map[], [], 0, map[])

  ghost predicate Run(ws: seq<World>, evs: seq<Event>)
  {
    && |ws| == |evs| + 1 && ws[0] == START
    && (forall i :: 0 <= i < |evs| ==> Enabled(ws[i], evs[i]) && ws[i + 1] == Step(ws[i], evs[i]))
  }

  // ---- What every run keeps ----

  // The caller is at work and stored the channel.
  ghost predicate AtWork(w: World, t: nat, cid: string, channel: nat)
  {
    && t in w.callers && (w.callers[t].Creating? || w.callers[t].Holding?)
    && w.callers[t].cfg.connectionID == cid && w.callers[t].own == Some(channel)
  }

  // Every channel in creating was stored by a caller that is still at work on that connection.
  ghost predicate Latched(w: World)
  {
    forall cid :: cid in w.m.creating ==>
      w.m.creating[cid] in w.owner && AtWork(w, w.owner[w.m.creating[cid]], cid, w.m.creating[cid])
  }

  // A channel still stored is not closed, and is stored for one connection.
  ghost predicate Unrung(w: World)
  {
    && (forall cid :: cid in w.m.creating ==> w.m.creating[cid] < w.channels && w.m.creating[cid] !in w.closings)
    && (forall c, d :: c in w.m.creating && d in w.m.creating && c != d ==> w.m.creating[c] != w.m.creating[d])
    && (forall i :: 0 <= i < |w.closings| ==> w.closings[i] < w.channels)
    && (forall ch :: ch in w.owner ==> ch < w.channels)
  }

  ghost predicate Once(s: seq<nat>)
  {
    forall i, j :: 0 <= i < j < |s| ==> s[i] != s[j]
  }

  // A caller waits on a channel that is closed or that somebody at work will close.
  ghost predicate NobodyForgotten(w: World)
  {
    forall t :: t in w.callers && w.callers[t].Waiting? ==>
      var s := w.callers[t];
      s.channel in w.closings || (s.cfg.connectionID in w.m.creating && w.m.creating[s.cfg.connectionID] == s.channel)
  }

  // Only a connection with an installed pool has a revision.
  ghost predicate Revised(w: World) { w.m.revs.Keys == w.m.pools.Keys }

  // The installed pool of a connection has the current revision and configuration.
  ghost predicate Current(w: World)
  {
    forall cid :: cid in w.m.pools ==>
      var p := w.m.pools[cid];
      && cid in w.m.revs && cid in w.m.cfgs && p.cfg.connectionID == cid && p.cfg.revision == w.m.revs[cid]
      && w.m.cfgs[cid] == Sanitized(p.cfg)
  }

  ghost predicate Holdings(w: World)
  {
    forall t :: t in w.callers && w.callers[t].Holding? ==> w.callers[t].made.cfg == w.callers[t].cfg
  }

  ghost predicate FateIs(w: World, p: Pool, place: Place)
  {
    p.generation in w.made && w.made[p.generation] == Fate(p, place)
  }

  // Generations number the pools made.
  ghost predicate Numbered(w: World)
  {
    && (forall g: nat :: g in w.made <==> g < w.generations)
    && (forall g :: g in w.made ==> w.made[g].pool.generation == g)
  }

  // A pool not yet offered is in the hands of the caller that made it.
  ghost predicate Carried(w: World)
  {
    && (forall t :: t in w.callers && w.callers[t].Holding? ==> FateIs(w, w.callers[t].made, Held(t)))
    && (forall g :: g in w.made && w.made[g].place.Held? ==> Carries(w, w.made[g].place.maker, g))
  }

  ghost predicate Carries(w: World, t: nat, g: nat)
  {
    t in w.callers && w.callers[t].Holding? && w.callers[t].made.generation == g
  }

  // The pools in place are those that the open manager has installed.
  ghost predicate InPlace(w: World)
  {
    && (forall cid :: !w.m.closed && cid in w.m.pools ==> FateIs(w, w.m.pools[cid], Installed))
    && (forall g :: g in w.made && w.made[g].place.Installed? ==> !w.m.closed && IsInstalled(w.m, w.made[g].pool))
  }

  ghost predicate IsInstalled(m: Snapshot, p: Pool)
  {
    p.cfg.connectionID in m.pools && m.pools[p.cfg.connectionID] == p
  }

  ghost predicate Inv(w: World)
  {
    && Latched(w) && Unrung(w) && Once(w.closings) && NobodyForgotten(w)
    && Revised(w) && Current(w) && Holdings(w) && Numbered(w) && Carried(w) && InPlace(w)
  }

  lemma UnlatchKeepsLatched(w: World, ev: Event)
    requires Enabled(w, ev) && Latched(w) && Unrung(w) && (ev.NotMade? || ev.Finished?)
    ensures Latched(Step(w, ev))
  {
    hide Same, Live, CfgOf, RevOf, InstallStep, AwakenStep, BeginStep, Placed, Scheduled, Rung;
    LatchesOf(w, ev);
    var (w', cid) := (Step(w, ev), w.callers[ev.t].cfg.connectionID);
    forall c | c in w'.m.creating ensures w'.m.creating[c] in w'.owner && AtWork(w', w'.owner[w'.m.creating[c]], c, w'.m.creating[c]) {
      assert c in w.m.creating && c != cid && AtWork(w, w.owner[w.m.creating[c]], c, w.m.creating[c]);
    }
  }

  lemma CallKeepsLatched(w: World, ev: Event)
    requires Enabled(w, ev) && Latched(w) && Unrung(w) && ev.Called?
    ensures Latched(Step(w, ev))
  {
    hide Same, Live, CfgOf, RevOf;
  }

  lemma StepKeepsLatched(w: World, ev: Event)
    requires Enabled(w, ev) && Latched(w) && Unrung(w)
    ensures Latched(Step(w, ev))
  {
    hide Same, Live, CfgOf, RevOf, InstallStep, AwakenStep, BeginStep, UnlatchStep, Placed, Rung, Unrung;
    LatchesOf(w, ev);
    if ev.NotMade? || ev.Finished? {
      UnlatchKeepsLatched(w, ev);
    } else if ev.Called? {
      CallKeepsLatched(w, ev);
    } else {
      var w' := Step(w, ev);
      forall c | c in w'.m.creating ensures w'.m.creating[c] in w'.owner && AtWork(w', w'.owner[w'.m.creating[c]], c, w'.m.creating[c]) {
        assert AtWork(w, w.owner[w.m.creating[c]], c, w.m.creating[c]);
      }
    }
  }

  lemma UnlatchKeepsUnrung(w: World, ev: Event)
    requires Enabled(w, ev) && Unrung(w) && Once(w.closings) && (ev.NotMade? || ev.Finished?)
    ensures Unrung(Step(w, ev)) && Once(Step(w, ev).closings)
  {
    hide Same, Live, CfgOf, RevOf, InstallStep, AwakenStep, BeginStep, Placed, Scheduled;
    LatchesOf(w, ev);
  }

  lemma StepKeepsUnrung(w: World, ev: Event)
    requires Enabled(w, ev) && Unrung(w) && Once(w.closings)
    ensures Unrung(Step(w, ev)) && Once(Step(w, ev).closings)
  {
    hide Same, Live, CfgOf, RevOf, InstallStep, AwakenStep, UnlatchStep, Placed, Scheduled;
    if ev.NotMade? || ev.Finished? {
      UnlatchKeepsUnrung(w, ev);
    }
  }

  lemma StepKeepsWaiters(w: World, ev: Event)
    requires Enabled(w, ev) && NobodyForgotten(w)
    ensures NobodyForgotten(Step(w, ev))
  {
    hide Same, Live, CfgOf, RevOf, InstallStep, AwakenStep;
    LatchesOf(w, ev);
  }

  // Installing does not touch creating, and a woken caller never waits again nor stores a channel.
  lemma LatchesOf(w: World, ev: Event)
    requires Enabled(w, ev)
    ensures ev.Finished? ==> Step(w, ev).m.creating == UnlatchStep(w.m, w.callers[ev.t].cfg.connectionID).0.creating
    ensures ev.Woken? ==> var s := Step(w, ev).callers[ev.t]; s.Done? || s == Creating(w.callers[ev.t].cfg, None)
  {
    hide Same;
  }

  lemma StepKeepsRevised(w: World, ev: Event)
    requires Enabled(w, ev) && Revised(w)
    ensures Revised(Step(w, ev))
  {
    hide Same, Live, CfgOf, AwakenStep, Scheduled, Placed, Rung;
  }

  lemma StepKeepsCurrent(w: World, ev: Event)
    requires Enabled(w, ev) && Current(w) && Holdings(w)
    ensures Current(Step(w, ev)) && Holdings(Step(w, ev))
  {
    hide Same, Scheduled, Placed, Rung, Live, CfgOf;
    if ev.Finished? {
      FinishKeepsCurrent(w, ev);
    } else {
      hide InstallStep, AwakenStep;
    }
  }

  lemma FinishKeepsCurrent(w: World, ev: Event)
    requires Enabled(w, ev) && Current(w) && Holdings(w) && ev.Finished?
    ensures Current(Step(w, ev)) && Holdings(Step(w, ev))
  {
    hide Same, Scheduled, Placed, Rung, Live, CfgOf, AwakenStep, BeginStep;
  }

  // What the end of a call does to the pools: the one made is installed, for the one that was there, or closed.
  lemma FinishPlaces(w: World, t: nat)
    requires Enabled(w, Finished(t)) && Carried(w) && InPlace(w) && Holdings(w)
    ensures var (w', s) := (Step(w, Finished(t)), w.callers[t]);
      var cid := s.cfg.connectionID;
      && w'.callers == w.callers[t := w'.callers[t]] && w'.callers[t].Done? && w'.generations == w.generations
      && w'.m.closed == w.m.closed && FateIs(w, s.made, Held(t)) && s.made.cfg.connectionID == cid
      && ((w'.m.pools == w.m.pools && w'.made == w.made[s.made.generation := Fate(s.made, Shut)])
          || (!w.m.closed && w'.m.pools == w.m.pools[cid := s.made]
              && (cid in w.m.pools ==> FateIs(w, w.m.pools[cid], Installed))
              && w'.made == Placed(w.made, s.made, Installed, if cid in w.m.pools then Some(w.m.pools[cid]) else None)))
  {
    hide Same, Rung, CfgOf, AwakenStep, BeginStep, Current;
  }

  predicate Quiet(ev: Event) { ev.Called? || ev.Woken? || ev.Cancel? || ev.NotMade? }

  // These steps move one caller that holds no pool, before or after, and touch no pool.
  lemma QuietStep(w: World, ev: Event)
    requires Enabled(w, ev) && Quiet(ev)
    ensures var w' := Step(w, ev);
      && w'.m.closed == w.m.closed && w'.m.pools == w.m.pools && w'.m.revs == w.m.revs && w'.m.cfgs == w.m.cfgs
      && w'.made == w.made && w'.generations == w.generations
      && w'.callers == w.callers[ev.t := w'.callers[ev.t]] && !w'.callers[ev.t].Holding?
      && (ev.t in w.callers ==> !w.callers[ev.t].Holding?)
  {
    hide Same, CfgOf, RevOf, Live;
  }

  lemma QuietKeepsPools(w: World, ev: Event)
    requires Enabled(w, ev) && Quiet(ev) && Numbered(w) && Carried(w) && InPlace(w)
    ensures Numbered(Step(w, ev)) && Carried(Step(w, ev)) && InPlace(Step(w, ev))
  {
    QuietStep(w, ev);
    hide Step, Enabled;
  }

  lemma FinishKeepsPools(w: World, t: nat)
    requires Enabled(w, Finished(t)) && Holdings(w) && Numbered(w) && Carried(w) && InPlace(w)
    ensures Numbered(Step(w, Finished(t))) && Carried(Step(w, Finished(t)))
  {
    FinishPlaces(w, t);
    hide Step, Enabled;
  }

  // A pool offered and not wanted is shut, and nothing else changes.
  lemma ShuttingKeepsPlaces(w: World, w': World, p: Pool, t: nat)
    requires InPlace(w) && FateIs(w, p, Held(t)) && w'.m.pools == w.m.pools && w'.m.closed == w.m.closed
    requires w'.made == w.made[p.generation := Fate(p, Shut)]
    ensures InPlace(w')
  {
  }

  // A pool is installed, and the one it replaces drains.
  lemma InstallingKeepsPlaces(w: World, w': World, p: Pool, t: nat)
    requires InPlace(w) && Numbered(w) && FateIs(w, p, Held(t)) && !w.m.closed && !w'.m.closed
    requires var cid := p.cfg.connectionID;
      && w'.m.pools == w.m.pools[cid := p] && (cid in w.m.pools ==> FateIs(w, w.m.pools[cid], Installed))
      && w'.made == Placed(w.made, p, Installed, if cid in w.m.pools then Some(w.m.pools[cid]) else None)
    requires forall c :: c in w.m.pools ==> w.m.pools[c].cfg.connectionID == c
    ensures InPlace(w')
  {
  }

  lemma FinishKeepsPlaces(w: World, t: nat)
    requires Enabled(w, Finished(t)) && Current(w) && Holdings(w) && Numbered(w) && Carried(w) && InPlace(w)
    ensures InPlace(Step(w, Finished(t)))
  {
    FinishPlaces(w, t);
    hide Step, InPlace, Placed, Carried, Holdings;
    var (w', p) := (Step(w, Finished(t)), w.callers[t].made);
    if w'.m.pools == w.m.pools && w'.made == w.made[p.generation := Fate(p, Shut)] {
      ShuttingKeepsPlaces(w, w', p, t);
    } else {
      InstallingKeepsPlaces(w, w', p, t);
    }
  }

  lemma MadeKeepsPools(w: World, t: nat)
    requires Enabled(w, Made(t)) && Numbered(w) && Carried(w) && InPlace(w)
    ensures Numbered(Step(w, Made(t))) && Carried(Step(w, Made(t))) && InPlace(Step(w, Made(t)))
  {
  }

  lemma ClosingKeepsPools(w: World)
    requires Numbered(w) && Carried(w) && InPlace(w)
    ensures Numbered(Step(w, Closed)) && Carried(Step(w, Closed)) && InPlace(Step(w, Closed))
  {
  }

  lemma DisposalKeepsPools(w: World, g: nat)
    requires Enabled(w, Disposed(g)) && Numbered(w) && Carried(w) && InPlace(w)
    ensures Numbered(Step(w, Disposed(g))) && Carried(Step(w, Disposed(g))) && InPlace(Step(w, Disposed(g)))
  {
  }

  lemma StepKeepsInv(w: World, ev: Event)
    requires Enabled(w, ev) && Inv(w)
    ensures Inv(Step(w, ev))
  {
    StepKeepsLatched(w, ev);
    StepKeepsUnrung(w, ev);
    StepKeepsWaiters(w, ev);
    StepKeepsRevised(w, ev);
    StepKeepsCurrent(w, ev);
    hide Step, Latched, Unrung, Once, NobodyForgotten, Revised, Current, Holdings, Numbered, Carried, InPlace;
    match ev
    case Finished(t) => FinishKeepsPools(w, t); FinishKeepsPlaces(w, t);
    case Made(t) => MadeKeepsPools(w, t);
    case Closed => ClosingKeepsPools(w);
    case Disposed(g) => DisposalKeepsPools(w, g);
    case _ => QuietKeepsPools(w, ev);
  }

  lemma StartInv()
    ensures Inv(START)
  {
  }

  lemma {:induction false} RunsKeepInv(ws: seq<World>, evs: seq<Event>, i: nat)
    requires Run(ws, evs) && i < |ws|
    ensures Inv(ws[i])
  {
    hide Step, Inv, Enabled;
    if i == 0 {
      StartInv();
    } else {
      RunsKeepInv(ws, evs, i - 1);
      StepKeepsInv(ws[i - 1], evs[i - 1]);
    }
  }

  // ---- What holds of every run ----

  lemma StepKeepsRevisions(w: World, ev: Event, cid: string)
    requires Enabled(w, ev) && Current(w)
    ensures RevOf(w.m, cid) <= RevOf(Step(w, ev).m, cid)
  {
    hide Same;
  }

  lemma {:induction false} RevisionsNeverDecrease(ws: seq<World>, evs: seq<Event>, i: nat, j: nat, cid: string)
    requires Run(ws, evs) && i <= j < |ws|
    ensures RevOf(ws[i].m, cid) <= RevOf(ws[j].m, cid)
    decreases j
  {
    hide Step, RevOf;
    if i < j {
      RevisionsNeverDecrease(ws, evs, i, j - 1, cid);
      RunsKeepInv(ws, evs, j - 1);
      StepKeepsRevisions(ws[j - 1], evs[j - 1], cid);
    }
  }

  // The pool that a caller is given has the revision and the configuration it asked for and is the installed one.
  ghost predicate Fits(m: Snapshot, cfg: Config, p: Pool)
  {
    && !m.closed && IsInstalled(m, p) && p.cfg.connectionID == cfg.connectionID
    && p.cfg.revision == cfg.revision == RevOf(m, cfg.connectionID) && Same(cfg, p.cfg)
  }

  lemma LookUpsFit(w: World, cfg: Config, unused: nat)
    requires Current(w)
    ensures var move := BeginStep(w.m, cfg, unused).1;
      move.Return? && move.result.Ok? ==> Fits(w.m, cfg, move.result.value)
    ensures var move := AwakenStep(w.m, cfg); move.Return? && move.result.Ok? ==> Fits(w.m, cfg, move.result.value)
  {
  }

  lemma InstallsFit(w: World, t: nat)
    requires Current(w) && Holdings(w) && Enabled(w, Finished(t))
    ensures var s := w.callers[t];
      var (m, r, _) := InstallStep(UnlatchStep(w.m, s.cfg.connectionID).0, s.cfg, s.made);
      !w.m.closed == !m.closed && (r.Ok? ==> Fits(m, s.cfg, r.value))
  {
  }

  lemma GivenFits(w: World, ev: Event, t: nat)
    requires Enabled(w, ev) && Current(w) && Holdings(w)
    requires var w' := Step(w, ev); t in w'.callers && w'.callers[t].Done? && w'.callers[t].result.Ok?
    requires t in w.callers ==> w.callers[t] != Step(w, ev).callers[t]
    ensures !w.m.closed && Fits(Step(w, ev).m, Step(w, ev).callers[t].cfg, Step(w, ev).callers[t].result.value)
  {
    hide Current, Holdings, Rung, Placed, Scheduled, Same, Live, CfgOf, RevOf, InstallStep, AwakenStep;
    match ev
    case Called(c, cfg) => LookUpsFit(w, Normal(cfg), w.channels);
    case Woken(c) => LookUpsFit(w, w.callers[c].cfg, 0);
    case Finished(c) => InstallsFit(w, c);
    case _ =>
  }

  // The same connection to the same database as the same user, in every respect that a caller can ask for; an empty TLS
  // mode asks for "require". The revision is compared apart, and the password comes with the secret's version.
  predicate SameTarget(c: Config, o: Config)
  {
    && c.connectionID == o.connectionID && c.secretVersion == o.secretVersion && c.engine == o.engine
    && c.host == o.host && c.port == o.port && c.user == o.user && c.database == o.database && c.limits == o.limits
    && (c.tls == o.tls || {c.tls, o.tls} == {"", "require"})
  }

  lemma SameIsSameTarget(c: Config, o: Config)
    ensures Same(c, o) <==> SameTarget(c, o)
    ensures Same(c, Sanitized(o)) <==> SameTarget(c, o)
  {
    assert c.tls == "" ==> {c.tls, o.tls} == {"", o.tls};
    assert "require" in {c.tls, o.tls} ==> c.tls == "require" || o.tls == "require";
    assert {c.tls, o.tls} == {"", "require"} ==> "" in {c.tls, o.tls} && "require" in {c.tls, o.tls};
  }

  // A caller obtains a pool only while the manager is open; at that moment the pool is the installed one of its
  // connection, in use, and has the revision and, field by field, the configuration that the caller asked for.
  lemma HandleMatches(ws: seq<World>, evs: seq<Event>, i: nat, t: nat)
    requires Run(ws, evs) && i < |evs|
    requires t in ws[i + 1].callers && ws[i + 1].callers[t].Done? && ws[i + 1].callers[t].result.Ok?
    requires t in ws[i].callers ==> ws[i].callers[t] != ws[i + 1].callers[t]
    ensures !ws[i].m.closed && IsInstalled(ws[i + 1].m, ws[i + 1].callers[t].result.value)
    ensures var (cfg, p) := (ws[i + 1].callers[t].cfg, ws[i + 1].callers[t].result.value);
      p.cfg.revision == cfg.revision == RevOf(ws[i + 1].m, cfg.connectionID) && SameTarget(cfg, p.cfg)
    ensures FateIs(ws[i + 1], ws[i + 1].callers[t].result.value, Installed)
  {
    RunsKeepInv(ws, evs, i);
    RunsKeepInv(ws, evs, i + 1);
    hide Step, Latched, Unrung, Once, NobodyForgotten, Revised, Numbered, Carried, Current, Holdings, Same, SameTarget;
    GivenFits(ws[i], evs[i], t);
    SameIsSameTarget(ws[i + 1].callers[t].cfg, ws[i + 1].callers[t].result.value.cfg);
  }

  // A caller that comes, wakes up or has made a pool of its own while one is installed under the revision it asks for:
  // it is given the installed pool if and only if it differs from it in nothing it can ask for, and is told of a conflict
  // otherwise.
  lemma InstalledDecides(ws: seq<World>, evs: seq<Event>, i: nat, t: nat)
    requires Run(ws, evs) && i < |evs| && t in ws[i + 1].callers && !ws[i].m.closed
    requires (evs[i].Called? && evs[i].t == t) || evs[i] == Woken(t) || evs[i] == Finished(t)
    requires var cfg := ws[i + 1].callers[t].cfg;
      cfg.connectionID in ws[i].m.pools && ws[i].m.pools[cfg.connectionID].cfg.revision == cfg.revision
    ensures var cfg := ws[i + 1].callers[t].cfg;
      var p := ws[i].m.pools[cfg.connectionID];
      ws[i + 1].callers[t] == Done(cfg, if SameTarget(cfg, p.cfg) then Ok(p) else Err(ConfigConflict))
  {
    RunsKeepInv(ws, evs, i);
    hide Same, SameTarget, Latched, Unrung, Once, NobodyForgotten, Revised, Holdings, Numbered, Carried, InPlace;
    hide Rung, Placed, Scheduled;
    var cfg := ws[i + 1].callers[t].cfg;
    SameIsSameTarget(cfg, ws[i].m.pools[cfg.connectionID].cfg);
  }

  // Nobody is given anything by a closed manager, nor under a revision older than the installed one.
  lemma ClosedOrOutdatedIsRefused(ws: seq<World>, evs: seq<Event>, i: nat, t: nat)
    requires Run(ws, evs) && i < |evs| && t in ws[i + 1].callers
    requires (evs[i].Called? && evs[i].t == t) || evs[i] == Woken(t) || evs[i] == Finished(t)
    ensures var (w, cfg) := (ws[i], ws[i + 1].callers[t].cfg);
      && (w.m.closed ==> ws[i + 1].callers[t] == Done(cfg, Err(PoolClosed)))
      && (!w.m.closed && cfg.connectionID in w.m.pools && cfg.revision < w.m.pools[cfg.connectionID].cfg.revision ==>
            ws[i + 1].callers[t] == Done(cfg, Err(StaleConfig)))
  {
    RunsKeepInv(ws, evs, i);
    hide Same, Latched, Unrung, Once, NobodyForgotten, Revised, Holdings, Numbered, Carried, InPlace;
    hide Rung, Placed, Scheduled;
  }

  // Newer than the installed revision, or the first and not negative.
  predicate Newer(m: Snapshot, cfg: Config)
  {
    if cfg.connectionID in m.pools then cfg.revision > m.pools[cfg.connectionID].cfg.revision else cfg.revision >= 0
  }

  // Whoever comes with such a revision creates, or waits for the one who does.
  lemma NewerIsCreated(ws: seq<World>, evs: seq<Event>, i: nat)
    requires Run(ws, evs) && i < |evs| && !ws[i].m.closed && evs[i].Called? && Newer(ws[i].m, Normal(evs[i].cfg))
    ensures var (w, t, cid) := (ws[i + 1], evs[i].t, evs[i].cfg.connectionID);
      && t in w.callers
      && if cid in ws[i].m.creating then w.callers[t] == Waiting(Normal(evs[i].cfg), ws[i].m.creating[cid])
         else w.callers[t].Creating? && w.callers[t].own.Some?
  {
    RunsKeepInv(ws, evs, i);
    hide Same, Latched, Unrung, Once, NobodyForgotten, Numbered, Carried, InPlace, Holdings;
  }

  // And whoever has made the pool has it installed.
  lemma NewerIsInstalled(ws: seq<World>, evs: seq<Event>, i: nat, t: nat)
    requires Run(ws, evs) && i < |evs| && !ws[i].m.closed && evs[i] == Finished(t)
    requires t in ws[i].callers && Newer(ws[i].m, ws[i].callers[t].cfg)
    ensures ws[i].callers[t].Holding? && t in ws[i + 1].callers && IsInstalled(ws[i + 1].m, ws[i].callers[t].made)
    ensures ws[i + 1].callers[t] == Done(ws[i].callers[t].cfg, Ok(ws[i].callers[t].made))
  {
    RunsKeepInv(ws, evs, i);
    hide Same, Latched, Unrung, Once, NobodyForgotten, Numbered, Carried, InPlace, Rung, Placed;
  }

  // What a caller asked for is what it is served by, up to the name of the default TLS mode.
  lemma RequestIsKept(w: World, ev: Event)
    requires Enabled(w, ev) && ev.Called?
    ensures var w' := Step(w, ev); ev.t in w'.callers
    ensures var cfg := Step(w, ev).callers[ev.t].cfg;
      SameTarget(cfg, ev.cfg) && cfg.revision == ev.cfg.revision && cfg.password == ev.cfg.password
  {
    hide Same, BeginStep;
  }

  lemma ConfigIsKept(w: World, ev: Event, t: nat)
    requires Enabled(w, ev) && t in w.callers
    ensures t in Step(w, ev).callers && Step(w, ev).callers[t].cfg == w.callers[t].cfg
  {
    hide Same, BeginStep, AwakenStep, InstallStep, UnlatchStep;
  }

  // The configurations that the manager keeps for comparison hold no password.
  lemma PasswordsAreNotKept(ws: seq<World>, evs: seq<Event>, i: nat, cid: string)
    requires Run(ws, evs) && i < |ws| && cid in ws[i].m.pools
    ensures cid in ws[i].m.cfgs && ws[i].m.cfgs[cid].password == ""
  {
    RunsKeepInv(ws, evs, i);
    hide Run, Latched, Unrung, Once, NobodyForgotten, Revised, Holdings, Numbered, Carried, InPlace;
  }

  // Every pool ever made is in the hands of a caller still inside Get, installed, or draining or closed.
  lemma PoolsAccountedFor(ws: seq<World>, evs: seq<Event>, i: nat, g: nat)
    requires Run(ws, evs) && i < |ws| && g < ws[i].generations
    ensures g in ws[i].made && ws[i].made[g].pool.generation == g
    ensures match ws[i].made[g].place
      case Held(t) => Carries(ws[i], t, g)
      case Installed => !ws[i].m.closed && IsInstalled(ws[i].m, ws[i].made[g].pool)
      case _ => ws[i].m.closed || !IsInstalled(ws[i].m, ws[i].made[g].pool)
  {
    RunsKeepInv(ws, evs, i);
    hide Run, Latched, Unrung, Once, NobodyForgotten, Revised, Step;
  }

  lemma ChannelsClosedOnce(ws: seq<World>, evs: seq<Event>, i: nat, j: nat, k: nat)
    requires Run(ws, evs) && i < |ws| && j < k < |ws[i].closings|
    ensures ws[i].closings[j] != ws[i].closings[k]
  {
    RunsKeepInv(ws, evs, i);
    hide Run, Step;
  }

  // No lost wake-up: whoever waits on a channel not yet closed has somebody else at work on the same connection who
  // stored it, and whose last step, whatever its outcome, closes it.
  lemma WakeUpIsOwed(ws: seq<World>, evs: seq<Event>, i: nat, t: nat)
    requires Run(ws, evs) && i < |ws| && t in ws[i].callers && ws[i].callers[t].Waiting?
    requires ws[i].callers[t].channel !in ws[i].closings
    ensures var (w, ch) := (ws[i], ws[i].callers[t].channel);
      && ch in w.owner && w.owner[ch] != t && AtWork(w, w.owner[ch], w.callers[t].cfg.connectionID, ch)
      && forall ev :: (ev == NotMade(w.owner[ch]) || ev == Finished(w.owner[ch])) && Enabled(w, ev) ==> ch in Step(w, ev).closings
  {
    RunsKeepInv(ws, evs, i);
    hide Run, Revised, Current, Holdings, Numbered, Carried, InPlace, InstallStep;
  }

  // ---- When a configuration conflict is reported ----

  // Under the revision that was asked for, a pool is installed that differs in something else that was asked for.
  predicate Conflicting(m: Snapshot, cfg: Config)
  {
    && cfg.connectionID in m.pools && cfg.revision == m.pools[cfg.connectionID].cfg.revision
    && !SameTarget(cfg, m.pools[cfg.connectionID].cfg)
  }

  // As the manager finds out.
  predicate FoundConflicting(m: Snapshot, cfg: Config)
  {
    Live(m, cfg.connectionID).Some? && cfg.revision == RevOf(m, cfg.connectionID) && !Same(cfg, CfgOf(m, cfg.connectionID))
  }

  lemma ConflictIsFound(w: World, cfg: Config)
    requires Current(w)
    ensures FoundConflicting(w.m, cfg) <==> Conflicting(w.m, cfg)
  {
    hide Same, SameTarget;
    if cfg.connectionID in w.m.pools { SameIsSameTarget(cfg, w.m.pools[cfg.connectionID].cfg); }
  }

  // Caller t ends with the conflict in the step from w.
  ghost predicate Refused(w: World, ev: Event, t: nat)
  {
    && Enabled(w, ev) && (t in w.callers ==> !w.callers[t].Done?)
    && var w' := Step(w, ev); t in w'.callers && w'.callers[t].Done? && w'.callers[t].result == Err(ConfigConflict)
  }

  lemma UnlatchTouchesNoPool(m: Snapshot, cid: string)
    ensures var m' := UnlatchStep(m, cid).0;
      Live(m', cid) == Live(m, cid) && RevOf(m', cid) == RevOf(m, cid) && CfgOf(m', cid) == CfgOf(m, cid)
  {
  }

  lemma InstallRefuses(m: Snapshot, cfg: Config, made: Pool)
    requires InstallStep(m, cfg, made).1 == Err(ConfigConflict)
    ensures FoundConflicting(m, cfg)
  {
    hide Same, Live, RevOf, CfgOf;
  }

  lemma RefusalIsConflict(w: World, ev: Event, t: nat)
    requires Refused(w, ev, t)
    ensures var cfg := Step(w, ev).callers[t].cfg;
      FoundConflicting(w.m, cfg) || (ev == Woken(t) && Live(w.m, cfg.connectionID).None? && cfg.revision == RevOf(w.m, cfg.connectionID))
  {
    hide Same, Rung, Placed, Scheduled, CfgOf, RevOf, Live, InstallStep, UnlatchStep;
    if ev.Finished? {
      var s := w.callers[ev.t];
      UnlatchTouchesNoPool(w.m, s.cfg.connectionID);
      if ev.t == t { InstallRefuses(UnlatchStep(w.m, s.cfg.connectionID).0, s.cfg, s.made); }
    }
  }

  // A conflict is reported for a conflict, if and only if the caller is not one that waited for a creation that failed,
  // which leaves no pool of the connection; and of those that wake up to no pool while the manager is open, exactly the
  // ones that asked for revision 0 are refused so.
  lemma ConflictIsRealIff(ws: seq<World>, evs: seq<Event>, i: nat, t: nat)
    requires Run(ws, evs) && i < |evs| && t in ws[i + 1].callers
    ensures var (w, cfg) := (ws[i], ws[i + 1].callers[t].cfg);
      && (Refused(w, evs[i], t) ==> (Conflicting(w.m, cfg) <==> cfg.connectionID in w.m.pools))
      && (evs[i] == Woken(t) && !w.m.closed && cfg.connectionID !in w.m.pools ==>
            (Refused(w, evs[i], t) <==> cfg.revision == 0))
  {
    RunsKeepInv(ws, evs, i);
    ConflictIsFound(ws[i], ws[i + 1].callers[t].cfg);
    hide Same, SameTarget, Latched, Unrung, Once, NobodyForgotten, Current, Holdings, Numbered, Carried, InPlace;
    hide Rung, Placed, Scheduled;
    if Refused(ws[i], evs[i], t) {
      RefusalIsConflict(ws[i], evs[i], t);
    }
  }

  // Two callers ask for revision 0 of a connection nobody asked for before; the first one's creation fails, and the
  // second is told of a conflict with nothing.
  lemma ConflictWithNothing() returns (ws: seq<World>, evs: seq<Event>)
    ensures Run(ws, evs) && |evs| == 4 && Refused(ws[3], evs[3], 1) && ws[3].m == START.m
  {
    var cfg := NO_CONFIG.(connectionID := "c", tls := "require");
    evs := [Called(0, cfg), Called(1, cfg), NotMade(0), Woken(1)];
    var w1 := Step(START, evs[0]);
    assert w1.m == START.m.(creating := map["c" := 0]) && w1.callers == map[0 := Creating(cfg, Some(0))];
    var w2 := Step(w1, evs[1]);
    assert w2.m == w1.m && w2.callers == map[0 := Creating(cfg, Some(0)), 1 := Waiting(cfg, 0)];
    var w3 := Step(w2, evs[2]);
    assert w3.m == START.m && w3.closings == [0];
    ws := [START, w1, w2, w3, Step(w3, evs[3])];
  }

  lemma RunGrows(ws: seq<World>, evs: seq<Event>, ev: Event)
    requires Run(ws, evs) && Enabled(ws[|evs|], ev)
    ensures Run(ws + [Step(ws[|evs|], ev)], evs + [ev])
  {
    hide Step, Enabled;
  }

  // A first creation that fails while a caller with a newer revision waits for it and a third one begins to create.
  lemma ThreeCallers(cfg: Config, newer: Config) returns (ws: seq<World>, evs: seq<Event>)
    requires cfg == NO_CONFIG.(connectionID := "c", tls := "require", revision := 1) && newer == cfg.(revision := 2)
    ensures Run(ws, evs) && |evs| == 4 && ws[4].m == START.m.(creating := map["c" := 2]) && ws[4].closings == [0]
    ensures ws[4].callers == map[0 := Done(cfg, Err(CreationFailed)), 1 := Waiting(newer, 0), 2 := Creating(cfg, Some(2))]
  {
    evs := [Called(0, cfg), Called(1, newer), NotMade(0), Called(2, cfg)];
    var w1 := Step(START, evs[0]);
    assert w1.m == START.m.(creating := map["c" := 0]) && w1.callers == map[0 := Creating(cfg, Some(0))];
    var w2 := Step(w1, evs[1]);
    assert w2.m == w1.m && w2.callers == map[0 := Creating(cfg, Some(0)), 1 := Waiting(newer, 0)];
    var w3 := Step(w2, evs[2]);
    assert w3.m == START.m && w3.closings == [0] && w3.channels == 2;
    ws := [START, w1, w2, w3, Step(w3, evs[3])];
  }

  // A caller woken to create under a newer revision stores no channel; failing, it closes the one of a third caller,
  // which is still creating.
  lemma ForeignChannelClosed() returns (ws: seq<World>, evs: seq<Event>)
    ensures Run(ws, evs) && |evs| == 6 && evs[5] == NotMade(1)
    ensures 1 in ws[5].callers && ws[5].callers[1].Creating? && ws[5].callers[1].own == None && 2 !in ws[5].closings
    ensures 2 in ws[6].callers && ws[6].callers[2].Creating? && ws[6].callers[2].own == Some(2) && 2 in ws[6].closings
  {
    var cfg := NO_CONFIG.(connectionID := "c", tls := "require", revision := 1);
    var newer := cfg.(revision := 2);
    ws, evs := ThreeCallers(cfg, newer);
    var w5 := Step(ws[4], Woken(1));
    assert w5.m == ws[4].m && w5.closings == [0];
    assert w5.callers[1] == Creating(newer, None) && w5.callers[2] == Creating(cfg, Some(2));
    RunGrows(ws, evs, Woken(1));
    ws, evs := ws + [w5], evs + [Woken(1)];
    RunGrows(ws, evs, NotMade(1));
    ws, evs := ws + [Step(w5, NotMade(1))], evs + [NotMade(1)];
  }
}
