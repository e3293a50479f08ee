/** apps/api/internal/pagination/registry.go: the in-memory store of single-use continuation tokens. */
module Pagination {
  import opened Prelude
  import opened Continuation
  import opened TokenQuotas

  // The part of the store that its callers can observe through tokens.
  datatype Store = Store(entries: map<Digest, Entry>, seqNo: nat, closed: bool)

  // ---- The operations as transitions of the store ----

  function Stamped(s: State, expiresAt: int): State { s.(expiresAt := expiresAt) }

  ghost predicate CreateStep(cfg: Config, a: Store, s: State, now: int, handle: Option<string>, b: Store,
      r: Result<string, Failure>)
  {
    var cp := Stamped(s, now + cfg.ttl);
    if a.closed then b == a && r == Err(RegistryClosed)
    else if !ValidState(s) then b == a && r == Err(InvalidPageToken)
    else if StateBytes(cp) > cfg.maxStateBytes then b == a && r == Err(CapacityExhausted)
    else exists victims, rest :: CreateAfterEviction(cfg, a, cp, now, handle, victims, rest, b, r)
  }

  ghost predicate CreateAfterEviction(cfg: Config, a: Store, cp: State, now: int, handle: Option<string>,
      victims: seq<Digest>, rest: map<Digest, Entry>, b: Store, r: Result<string, Failure>)
  {
    var n := StateBytes(cp);
    && Evicts(cfg, a.entries, cp, n, victims, rest)
    && if !Fits(cfg, rest, cp, n) then
         // nothing is left that may go
         && (forall d :: !MayGo(cfg, rest, cp, n, d))
         && b == a.(entries := rest) && r == Err(CapacityExhausted)
       else if handle.None? then b == a.(entries := rest) && r == Err(NoRandomness)
       else
         && b == Store(rest[DigestOf(handle.value) := Entry(cp, false, a.seqNo + 1, n, cp.expiresAt, now)], a.seqNo + 1, false)
         && r == Ok(handle.value)
  }

  function ClaimStep(a: Store, handle: string, now: int): (Store, Result<Claim, Failure>)
  {
    var d := DigestOf(handle);
    if a.closed then (a, Err(RegistryClosed))
    else if d !in a.entries || a.entries[d].inFlight then (a, Err(InvalidPageToken))
    else if now >= a.entries[d].expiresAt then (a.(entries := a.entries - {d}), Err(InvalidPageToken))
    else
      var e := a.entries[d];
      (a.(entries := a.entries[d := e.(inFlight := true)]), Ok(Claim(d, e.version, e.state)))
  }

  // Whether a claim still owns its entry.
  predicate Owns(a: Store, c: Claim)
  {
    c.digest in a.entries && a.entries[c.digest].version == c.version && a.entries[c.digest].inFlight
  }

  // Complete and Abort.
  function FinishStep(a: Store, c: Claim): Store
  {
    if Owns(a, c) then a.(entries := a.entries - {c.digest}) else a
  }

  function RevokeStep(a: Store, handle: string): Store
  {
    var d := DigestOf(handle);
    if !a.closed && d in a.entries && !a.entries[d].inFlight then a.(entries := a.entries - {d}) else a
  }

  function CleanupStep(a: Store, now: int): Store
  {
    a.(entries := map d | d in a.entries && now < a.entries[d].expiresAt :: a.entries[d])
  }

  predicate SameOwner(s: State, t: State)
  {
    s.userID == t.userID && s.workspaceID == t.workspaceID && s.connectionID == t.connectionID
  }

  // The byte budgets after replacing an entry of old bytes by one of n bytes.
  ghost predicate FitsBytes(cfg: Config, entries: map<Digest, Entry>, s: State, net: int)
  {
    && Tally(entries, Size, Everyone) + net <= cfg.maxGlobalBytes
    && Tally(entries, Size, Of(PerUser, s.userID)) + net <= cfg.maxUserBytes
    && Tally(entries, Size, Of(PerWorkspace, s.workspaceID)) + net <= cfg.maxWorkspaceBytes
    && Tally(entries, Size, Of(PerConnection, s.connectionID)) + net <= cfg.maxConnectionBytes
  }

  ghost function RotateStep(cfg: Config, a: Store, c: Claim, s: State, now: int, handle: Option<string>): (Store,
      Result<string, Failure>)
  {
    if !Owns(a, c) then (a, Err(InvalidPageToken))
    else
      var e := a.entries[c.digest];
      var rest := a.(entries := a.entries - {c.digest});
      var cp := Stamped(s, e.expiresAt);
      if now >= e.expiresAt || !ValidState(s) || !SameOwner(s, e.state) then (rest, Err(InvalidPageToken))
      else if StateBytes(cp) > cfg.maxStateBytes || !FitsBytes(cfg, a.entries, cp, StateBytes(cp) - e.bytes) then
        (rest, Err(CapacityExhausted))
      else if handle.None? then (rest, Err(NoRandomness))
      else (Store(rest.entries[DigestOf(handle.value) := Entry(cp, false, a.seqNo + 1, StateBytes(cp), cp.expiresAt, now)],
                  a.seqNo + 1, a.closed),
            Ok(handle.value))
  }

  // ---- The store itself ----

  class Registry {
    const cfg: Config
    var entries: map<Digest, Entry>
    var counters: Counters
    var seqNo: nat
    var closed: bool

    function Snapshot(): Store
      reads this
    {
      Store(entries, seqNo, closed)
    }

    ghost predicate Valid()
      reads this
    {
      && cfg.Normal() && Charged(cfg, entries)
      && if closed then entries == map[] else counters.Account(entries) && WithinLimits(cfg, entries)
    }

    constructor (c: Config)
      ensures Valid() && cfg == NormalizedConfig(c)
      ensures Snapshot() == Store(map[], 0, false)
    {
      cfg := NormalizedConfig(c);
      entries := map[];
      counters := Counters(map[], map[], map[], 0, map[], map[], map[], 0);
      seqNo, closed := 0, false;
    }

    method Close()
      requires Valid()
      modifies this
      ensures Valid() && Snapshot() == Store(map[], old(seqNo), true)
    {
      closed := true;
      entries := map[];
    }

    method DeleteEntry(d: Digest)
      requires Valid() && !closed
      modifies this
      ensures Valid() && Snapshot() == old(Snapshot()).(entries := old(entries) - {d})
    {
      hide WithinLimits, Tally, Tracks, ValidState, StateBytes;
      if d in entries {
        var e := entries[d];
        StatesAreCharged(e.state);
        RemovalKeepsLimits(cfg, entries, d);
        RemovingAccounts(counters, entries, d);
        entries := entries - {d};
        counters := counters.Removed(e.state, e.bytes);
      }
      assert d !in old(entries) ==> old(entries) - {d} == old(entries);
    }

    // The entry to go next; Go's map order decides between equals.
    method PickEvictable(s: State, n: nat) returns (best: Option<Digest>)
      requires Valid() && !closed
      ensures best.Some? ==> best.value in entries && GoesFirst(cfg, entries, s, n, best.value)
      ensures best.None? ==> forall d :: !MayGo(cfg, entries, s, n, d)
    {
      hide WithinLimits, Tally, Tracks, ValidState, StateBytes;
      CountersSay(counters, entries, s);
      var overUser := Get(counters.userCount, s.userID) >= cfg.maxUser || Get(counters.userBytes, s.userID) + n > cfg.maxUserBytes;
      var overWs := Get(counters.wsCount, s.workspaceID) >= cfg.maxWorkspace
        || Get(counters.wsBytes, s.workspaceID) + n > cfg.maxWorkspaceBytes;
      var overConn := Get(counters.connCount, s.connectionID) >= cfg.maxConnection
        || Get(counters.connBytes, s.connectionID) + n > cfg.maxConnectionBytes;
      assert overUser == !Room(cfg, entries, Of(PerUser, s.userID), n);
      assert overWs == !Room(cfg, entries, Of(PerWorkspace, s.workspaceID), n);
      assert overConn == !Room(cfg, entries, Of(PerConnection, s.connectionID), n);
      hide Room;
      best := None;
      var todo := entries.Keys;
      while todo != {}
        invariant todo <= entries.Keys
        invariant best.Some? ==> MayGo(cfg, entries, s, n, best.value)
        invariant best.Some? ==>
          forall c :: MayGo(cfg, entries, s, n, c) && c !in todo ==> entries[best.value].expiresAt <= entries[c].expiresAt
        invariant best.None? ==> forall c :: MayGo(cfg, entries, s, n, c) ==> c in todo
        decreases |todo|
      {
        var d :| d in todo;
        todo := todo - {d};
        var e := entries[d];
        var candidate := if overUser then e.state.userID == s.userID
          else if overWs then e.state.workspaceID == s.workspaceID
          else if overConn then e.state.connectionID == s.connectionID
          else true;
        if candidate && !e.inFlight {
          if best.None? || e.expiresAt < entries[best.value].expiresAt {
            best := Some(d);
          }
        }
      }
    }

    // Evicts ready entries until the new entry fits; fails only when the dimension without room has none left.
    method EvictForQuota(s: State, n: nat) returns (ok: bool, ghost victims: seq<Digest>)
      requires Valid() && !closed
      modifies this
      ensures Valid() && Snapshot() == old(Snapshot()).(entries := entries)
      ensures Evicts(cfg, old(entries), s, n, victims, entries)
      ensures ok == Fits(cfg, entries, s, n)
      ensures !ok ==> forall d :: !MayGo(cfg, entries, s, n, d)
    {
      hide WithinLimits, Tally, Tracks, ValidState, StateBytes, GoesFirst, MayGo;
      victims := [];
      while true
        invariant Valid() && Snapshot() == old(Snapshot()).(entries := entries)
        invariant Evicts(cfg, old(entries), s, n, victims, entries)
        decreases |entries|
      {
        CountersSay(counters, entries, s);
        if counters.globalCount < cfg.maxGlobal
          && Get(counters.userCount, s.userID) < cfg.maxUser
          && Get(counters.wsCount, s.workspaceID) < cfg.maxWorkspace
          && Get(counters.connCount, s.connectionID) < cfg.maxConnection
          && counters.globalBytes + n <= cfg.maxGlobalBytes
          && Get(counters.userBytes, s.userID) + n <= cfg.maxUserBytes
          && Get(counters.wsBytes, s.workspaceID) + n <= cfg.maxWorkspaceBytes
          && Get(counters.connBytes, s.connectionID) + n <= cfg.maxConnectionBytes
        {
          return true, victims;
        }
        var d := PickEvictable(s, n);
        if d.None? {
          return false, victims;
        }
        EvictsSnoc(cfg, old(entries), s, n, victims, entries, d.value);
        victims := victims + [d.value];
        DeleteEntry(d.value);
      }
    }

    method Insert(s: State, n: nat, handle: string, now: int)
      requires Valid() && !closed && ValidState(s) && n == StateBytes(s) <= cfg.maxStateBytes
      requires DigestOf(handle) !in entries && Fits(cfg, entries, s, n)
      modifies this
      ensures Valid()
      ensures Snapshot() == Store(old(entries)[DigestOf(handle) := Entry(s, false, old(seqNo) + 1, n, s.expiresAt, now)],
                                  old(seqNo) + 1, false)
    {
      hide WithinLimits, Tally, Tracks, ValidState, StateBytes;
      seqNo := seqNo + 1;
      var (d, e) := (DigestOf(handle), Entry(s, false, seqNo, n, s.expiresAt, now));
      StatesAreCharged(s);
      AddingAccounts(counters, entries, d, e);
      FitsKeepsLimits(cfg, entries, d, e);
      entries := entries[d := e];
      counters := counters.Added(s, n);
    }

    // handle is what genHandle drew, or None when the random source failed; a drawn handle is new.
    method Create(s: State, now: int, handle: Option<string>) returns (r: Result<string, Failure>)
      requires Valid() && (handle.Some? ==> DigestOf(handle.value) !in entries)
      modifies this
      ensures Valid() && CreateStep(cfg, old(Snapshot()), s, now, handle, Snapshot(), r)
    {
      hide WithinLimits, Tally, Tracks, StateBytes, ValidState, Evicts, Fits, GoesFirst, MayGo;
      if closed {
        return Err(RegistryClosed);
      }
      if !ValidState(s) {
        return Err(InvalidPageToken);
      }
      var cp := Stamped(s, now + cfg.ttl);
      StampingKeeps(s, now + cfg.ttl);
      var n := StateBytes(cp);
      if n > cfg.maxStateBytes {
        return Err(CapacityExhausted);
      }
      ghost var a := Snapshot();
      var ok, victims := EvictForQuota(cp, n);
      ghost var rest := entries;
      if !ok {
        r := Err(CapacityExhausted);
      } else if handle.None? {
        r := Err(NoRandomness);
      } else {
        EvictionSparesInFlight(cfg, a.entries, cp, n, victims, entries);
        Insert(cp, n, handle.value, now);
        r := Ok(handle.value);
      }
      assert CreateAfterEviction(cfg, a, cp, now, handle, victims, rest, Snapshot(), r);
    }

    method ClaimToken(handle: string, now: int) returns (r: Result<Claim, Failure>)
      requires Valid()
      modifies this
      ensures Valid() && (Snapshot(), r) == ClaimStep(old(Snapshot()), handle, now)
      ensures r.Ok? <==> var d := DigestOf(handle);
        !closed && d in old(entries) && !old(entries)[d].inFlight && now < old(entries)[d].expiresAt
      ensures r.Ok? ==> var d := DigestOf(handle);
        r.value.state == old(entries)[d].state && entries == old(entries)[d := old(entries)[d].(inFlight := true)]
      ensures r.Err? ==> r.error == if closed then RegistryClosed else InvalidPageToken
      ensures r.Err? ==> var d := DigestOf(handle);
        entries == if !closed && d in old(entries) && !old(entries)[d].inFlight then old(entries) - {d} else old(entries)
    {
      hide WithinLimits, Tally, Tracks, ValidState, StateBytes;
      if closed {
        return Err(RegistryClosed);
      }
      var d := DigestOf(handle);
      if d !in entries {
        return Err(InvalidPageToken);
      }
      var e := entries[d];
      if e.inFlight {
        return Err(InvalidPageToken);
      }
      if now >= e.expiresAt {
        DeleteEntry(d);
        return Err(InvalidPageToken);
      }
      FlightKeepsTallies(cfg, counters, entries, d);
      entries := entries[d := e.(inFlight := true)];
      return Ok(Claim(d, e.version, e.state));
    }

    method Revoke(handle: string)
      requires Valid()
      modifies this
      ensures Valid() && Snapshot() == RevokeStep(old(Snapshot()), handle)
      ensures forall d :: d in entries <==> d in old(entries) && (d != DigestOf(handle) || old(entries)[d].inFlight)
      ensures forall d :: d in entries ==> entries[d] == old(entries)[d]
    {
      if closed {
        return;
      }
      var d := DigestOf(handle);
      if d !in entries || entries[d].inFlight {
        return;
      }
      DeleteEntry(d);
    }

    // Complete and Abort: the same deletion at the end of a page, after success or failure.
    method Finish(c: Claim)
      requires Valid()
      modifies this
      ensures Valid() && Snapshot() == FinishStep(old(Snapshot()), c)
      ensures forall d :: d in entries <==>
        d in old(entries) && (d != c.digest || old(entries)[d].version != c.version || !old(entries)[d].inFlight)
      ensures forall d :: d in entries ==> entries[d] == old(entries)[d]
    {
      if c.digest !in entries || entries[c.digest].version != c.version {
        return;
      }
      if !entries[c.digest].inFlight {
        return;
      }
      DeleteEntry(c.digest);
    }

    method CleanupExpired(now: int)
      requires Valid()
      modifies this
      ensures Valid() && Snapshot() == CleanupStep(old(Snapshot()), now)
      ensures forall d :: d in entries <==> d in old(entries) && now < old(entries)[d].expiresAt
      ensures forall d :: d in entries ==> entries[d] == old(entries)[d]
    {
      hide WithinLimits, Tally, Tracks, ValidState, StateBytes;
      var todo := entries.Keys;
      while todo != {}
        invariant Valid() && Snapshot() == old(Snapshot()).(entries := entries)
        invariant todo <= entries.Keys <= old(entries).Keys
        invariant forall d :: d in entries ==> entries[d] == old(entries)[d] && (d in todo || now < entries[d].expiresAt)
        invariant forall d :: d in old(entries) && d !in entries ==> now >= old(entries)[d].expiresAt
        decreases |todo|
      {
        var d :| d in todo;
        todo := todo - {d};
        if now >= entries[d].expiresAt {
          DeleteEntry(d);
        }
      }
      assert entries == CleanupStep(old(Snapshot()), now).entries;
    }

    // Replaces the claimed entry by one for the next page, in the same slot and with the same expiry.
    method Rotate(c: Claim, s: State, now: int, handle: Option<string>) returns (r: Result<string, Failure>)
      requires Valid() && (handle.Some? ==> DigestOf(handle.value) !in entries)
      modifies this
      ensures Valid() && (Snapshot(), r) == RotateStep(cfg, old(Snapshot()), c, s, now, handle)
    {
      hide WithinLimits, Tally, Tracks, ValidState, StateBytes, Fits;
      if c.digest !in entries || !entries[c.digest].inFlight || entries[c.digest].version != c.version {
        return Err(InvalidPageToken);
      }
      var e := entries[c.digest];
      if now >= e.expiresAt || !ValidState(s) || !SameOwner(s, e.state) {
        DeleteEntry(c.digest);
        return Err(InvalidPageToken);
      }
      var cp := Stamped(s, e.expiresAt);
      StampingKeeps(s, e.expiresAt);
      var n := StateBytes(cp);
      if n > cfg.maxStateBytes {
        DeleteEntry(c.digest);
        return Err(CapacityExhausted);
      }
      var net := n - e.bytes;
      CountersSay(counters, entries, cp);
      var fits := counters.globalBytes + net <= cfg.maxGlobalBytes
        && Get(counters.userBytes, cp.userID) + net <= cfg.maxUserBytes
        && Get(counters.wsBytes, cp.workspaceID) + net <= cfg.maxWorkspaceBytes
        && Get(counters.connBytes, cp.connectionID) + net <= cfg.maxConnectionBytes;
      if !fits {
        DeleteEntry(c.digest);
        return Err(CapacityExhausted);
      }
      if handle.None? {
        DeleteEntry(c.digest);
        return Err(NoRandomness);
      }
      SlotFits(cfg, entries, c.digest, cp, n);
      DeleteEntry(c.digest);
      Insert(cp, n, handle.value, now);
      return Ok(handle.value);
    }
  }

  // What a creation does to the entries of others, and when it is refused for want of capacity: an entry goes only for a
  // dimension it counts in and that has no room; and it is refused exactly if the state is too large, or the claimed
  // entries, which cannot go, leave no room for it.
  lemma CreationIsFair(cfg: Config, a: Store, s: State, now: int, handle: Option<string>, b: Store, r: Result<string, Failure>)
    requires CreateStep(cfg, a, s, now, handle, b, r) && !a.closed && ValidState(s)
    ensures forall d :: d in a.entries && d !in b.entries ==>
      exists dim :: dim in DimsOf(s) && !Room(cfg, a.entries, dim, StateBytes(s)) && Within(dim, a.entries[d].state)
    ensures r == Err(CapacityExhausted) <==>
      StateBytes(s) > cfg.maxStateBytes
      || exists dim :: dim in DimsOf(s) && !Room(cfg, Claimed(a.entries), dim, StateBytes(s))
  {
    var cp := Stamped(s, now + cfg.ttl);
    assert StateBytes(cp) == StateBytes(s) && DimsOf(cp) == DimsOf(s);
    hide StateBytes, ValidState, Fits, GoesFirst, MayGo, Evicts, Room, Claimed;
    if StateBytes(cp) <= cfg.maxStateBytes {
      var victims, rest :| CreateAfterEviction(cfg, a, cp, now, handle, victims, rest, b, r);
      EvictionSucceedsIff(cfg, a.entries, cp, StateBytes(cp), victims, rest);
      forall d | d in a.entries && d !in b.entries
        ensures exists dim :: dim in DimsOf(s) && !Room(cfg, a.entries, dim, StateBytes(s)) && Within(dim, a.entries[d].state)
      {
        EvictionStaysInside(cfg, a.entries, cp, StateBytes(cp), victims, rest, d);
      }
    } else {
      assert b == a;
    }
  }

  // In particular nobody else loses a token as long as only the creator's own quota is exhausted.
  lemma OthersKeepTheirTokens(cfg: Config, a: Store, s: State, now: int, handle: Option<string>, b: Store,
      r: Result<string, Failure>, d: Digest)
    requires CreateStep(cfg, a, s, now, handle, b, r) && !a.closed && ValidState(s)
    requires d in a.entries && a.entries[d].state.userID != s.userID
    requires forall dim :: dim in {Everyone, Of(PerWorkspace, s.workspaceID), Of(PerConnection, s.connectionID)} ==>
      Room(cfg, a.entries, dim, StateBytes(s))
    ensures d in b.entries
  {
    CreationIsFair(cfg, a, s, now, handle, b, r);
    hide Room, CreateStep, StateBytes;
  }

  lemma StampingKeeps(s: State, t: int)
    ensures ValidState(Stamped(s, t)) == ValidState(s)
  {
  }

  // Marking an entry as in flight changes no tally.
  lemma FlightKeepsTallies(cfg: Config, c: Counters, entries: map<Digest, Entry>, d: Digest)
    requires d in entries && c.Account(entries) && WithinLimits(cfg, entries)
    ensures c.Account(entries[d := entries[d].(inFlight := true)]) && WithinLimits(cfg, entries[d := entries[d].(inFlight := true)])
  {
    var e := entries[d].(inFlight := true);
    forall k, dim ensures Tally(entries[d := e], k, dim) == Tally(entries, k, dim) {
      TallyRemove(entries, d, k, dim);
      TallyRemove(entries[d := e], d, k, dim);
      assert entries[d := e] - {d} == entries - {d};
    }
  }

  // The slot that a claimed entry frees has room for its successor.
  lemma SlotFits(cfg: Config, entries: map<Digest, Entry>, d: Digest, cp: State, n: nat)
    requires d in entries && WithinLimits(cfg, entries) && SameOwner(cp, entries[d].state)
    requires FitsBytes(cfg, entries, cp, n - entries[d].bytes)
    ensures Fits(cfg, entries - {d}, cp, n)
  {
    hide Tally;
    forall k, dim ensures Tally(entries, k, dim) == Weight(k, dim, entries[d]) + Tally(entries - {d}, k, dim) {
      TallyRemove(entries, d, k, dim);
    }
  }

  ghost predicate Charged(cfg: Config, entries: map<Digest, Entry>)
  {
    forall d :: d in entries ==> ValidState(entries[d].state) && entries[d].bytes == StateBytes(entries[d].state) <= cfg.maxStateBytes
  }

  lemma StatesAreCharged(s: State)
    requires ValidState(s)
    ensures StateBytes(s) > 0
  {
  }
}
