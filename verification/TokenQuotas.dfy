/** apps/api/internal/pagination/registry.go: what the token store counts, limits and evicts. */
module TokenQuotas {
  import opened Prelude
  import opened Continuation

  const FIVE_MINUTES := 300_000

  datatype Config = Config(ttl: int, maxGlobal: int, maxUser: int, maxWorkspace: int, maxConnection: int,
    maxStateBytes: int, maxUserBytes: int, maxWorkspaceBytes: int, maxConnectionBytes: int, maxGlobalBytes: int)
  {
    predicate Normal()
    {
      && 0 < ttl <= FIVE_MINUTES && maxGlobal > 0 && maxUser > 0 && maxWorkspace > 0 && maxConnection > 0
      && maxStateBytes > 0 && maxUserBytes > 0 && maxWorkspaceBytes > 0 && maxConnectionBytes > 0 && maxGlobalBytes > 0
    }
  }

  function OrDefault(v: int, default: int): int { if v <= 0 then default else v }

  function NormalizedConfig(c: Config): (r: Config)
    ensures r.Normal() && (c.Normal() ==> r == c)
  {
    Config(if c.ttl <= 0 || c.ttl > FIVE_MINUTES then FIVE_MINUTES else c.ttl,
      OrDefault(c.maxGlobal, 10000), OrDefault(c.maxUser, 100), OrDefault(c.maxWorkspace, 500), OrDefault(c.maxConnection, 200),
      OrDefault(c.maxStateBytes, 0x80000), OrDefault(c.maxUserBytes, 0x1000000), OrDefault(c.maxWorkspaceBytes, 0x4000000),
      OrDefault(c.maxConnectionBytes, 0x1000000), OrDefault(c.maxGlobalBytes, 0x20000000))
  }

  // What is not configured: five minutes, 10000 tokens in all, 100 for a user, 500 for a workspace, 200 for a connection,
  // states of half a mebibyte, and 16, 64, 16 and 512 mebibytes for a user, a workspace, a connection and all.
  lemma Defaults()
    ensures NormalizedConfig(Config(0, 0, 0, 0, 0, 0, 0, 0, 0, 0)) ==
      Config(5 * 60 * 1000, 10000, 100, 500, 200, 512 * 1024, 16 * 1024 * 1024, 64 * 1024 * 1024, 16 * 1024 * 1024, 512 * 1024 * 1024)
  {
  }

  // No configuration lets a token live longer than five minutes.
  lemma LifetimeIsBounded(c: Config)
    ensures 0 < NormalizedConfig(c).ttl <= 5 * 60 * 1000
    ensures 0 < c.ttl <= 5 * 60 * 1000 ==> NormalizedConfig(c).ttl == c.ttl
  {
  }

  // The registry keeps the digest of a handle; digests of different handles are taken to differ.
  datatype Digest = DigestOf(handle: string)

  datatype Entry = Entry(state: State, inFlight: bool, version: nat, bytes: nat, expiresAt: int, createdAt: int)

  datatype Claim = Claim(digest: Digest, version: nat, state: State)

  datatype Failure = RegistryClosed | InvalidPageToken | CapacityExhausted | NoRandomness

  // ---- What the counters count ----

  datatype Scope = PerUser | PerWorkspace | PerConnection

  // All entries, or those of one user, workspace or connection.
  datatype Dim = Everyone | Of(scope: Scope, id: string)

  datatype Measure = Tokens | Size

  function IdIn(scope: Scope, s: State): string
  {
    match scope case PerUser => s.userID case PerWorkspace => s.workspaceID case PerConnection => s.connectionID
  }

  predicate Within(dim: Dim, s: State)
  {
    dim.Everyone? || IdIn(dim.scope, s) == dim.id
  }

  function Amount(k: Measure, bytes: nat): nat { if k.Tokens? then 1 else bytes }

  function Weight(k: Measure, dim: Dim, e: Entry): nat
  {
    if Within(dim, e.state) then Amount(k, e.bytes) else 0
  }

  // The number of live entries in a dimension, or their total size.
  ghost function Tally(entries: map<Digest, Entry>, k: Measure, dim: Dim): nat
    decreases |entries|
  {
    if entries == map[] then 0
    else
      var d :| d in entries;
      Weight(k, dim, entries[d]) + Tally(entries - {d}, k, dim)
  }

  lemma {:induction false} TallyRemove(entries: map<Digest, Entry>, d: Digest, k: Measure, dim: Dim)
    requires d in entries
    ensures Tally(entries, k, dim) == Weight(k, dim, entries[d]) + Tally(entries - {d}, k, dim)
    decreases |entries|
  {
    var c :| c in entries && Tally(entries, k, dim) == Weight(k, dim, entries[c]) + Tally(entries - {c}, k, dim);
    if c != d {
      TallyRemove(entries - {c}, d, k, dim);
      TallyRemove(entries - {d}, c, k, dim);
      assert entries - {c} - {d} == entries - {d} - {c};
    }
  }

  lemma TallyAdd(entries: map<Digest, Entry>, d: Digest, e: Entry, k: Measure, dim: Dim)
    requires d !in entries
    ensures Tally(entries[d := e], k, dim) == Weight(k, dim, e) + Tally(entries, k, dim)
  {
    TallyRemove(entries[d := e], d, k, dim);
    assert entries[d := e] - {d} == entries;
  }

  // A counter map holds exactly the positive tallies of its scope.
  ghost predicate Tracks(m: map<string, int>, entries: map<Digest, Entry>, k: Measure, scope: Scope)
  {
    forall id :: (id in m <==> Tally(entries, k, Of(scope, id)) > 0) && (id in m ==> m[id] == Tally(entries, k, Of(scope, id)))
  }

  function Get(m: map<string, int>, id: string): int { if id in m then m[id] else 0 }

  function Increased(m: map<string, int>, id: string, n: int): map<string, int> { m[id := Get(m, id) + n] }

  // Counters that would drop to zero lose their key.
  function Decreased(m: map<string, int>, id: string, n: int): map<string, int>
  {
    if Get(m, id) > n then m[id := Get(m, id) - n] else m - {id}
  }

  lemma TracksAdd(m: map<string, int>, entries: map<Digest, Entry>, d: Digest, e: Entry, k: Measure, scope: Scope)
    requires Tracks(m, entries, k, scope) && d !in entries && e.bytes > 0
    ensures Tracks(Increased(m, IdIn(scope, e.state), Amount(k, e.bytes)), entries[d := e], k, scope)
  {
    forall id ensures Tally(entries[d := e], k, Of(scope, id)) == Weight(k, Of(scope, id), e) + Tally(entries, k, Of(scope, id)) {
      TallyAdd(entries, d, e, k, Of(scope, id));
    }
  }

  lemma TracksRemove(m: map<string, int>, entries: map<Digest, Entry>, d: Digest, k: Measure, scope: Scope)
    requires Tracks(m, entries, k, scope) && d in entries && entries[d].bytes > 0
    ensures Tracks(Decreased(m, IdIn(scope, entries[d].state), Amount(k, entries[d].bytes)), entries - {d}, k, scope)
  {
    forall id ensures Tally(entries, k, Of(scope, id)) == Weight(k, Of(scope, id), entries[d]) + Tally(entries - {d}, k, Of(scope, id)) {
      TallyRemove(entries, d, k, Of(scope, id));
    }
  }

  // The registry's counters: per user, workspace and connection, and overall.
  datatype Counters = Counters(
    userCount: map<string, int>, wsCount: map<string, int>, connCount: map<string, int>, globalCount: int,
    userBytes: map<string, int>, wsBytes: map<string, int>, connBytes: map<string, int>, globalBytes: int)
  {
    // addQuota
    function Added(s: State, n: nat): Counters
    {
      Counters(Increased(userCount, s.userID, 1), Increased(wsCount, s.workspaceID, 1), Increased(connCount, s.connectionID, 1),
               globalCount + 1,
               Increased(userBytes, s.userID, n), Increased(wsBytes, s.workspaceID, n), Increased(connBytes, s.connectionID, n),
               globalBytes + n)
    }

    // removeQuota
    function Removed(s: State, n: nat): Counters
    {
      Counters(Decreased(userCount, s.userID, 1), Decreased(wsCount, s.workspaceID, 1), Decreased(connCount, s.connectionID, 1),
               if globalCount > 0 then globalCount - 1 else globalCount,
               Decreased(userBytes, s.userID, n), Decreased(wsBytes, s.workspaceID, n), Decreased(connBytes, s.connectionID, n),
               if globalBytes >= n then globalBytes - n else globalBytes)
    }

    // Every counter is the exact tally of the live entries.
    ghost predicate Account(entries: map<Digest, Entry>)
    {
      && Tracks(userCount, entries, Tokens, PerUser) && Tracks(userBytes, entries, Size, PerUser)
      && Tracks(wsCount, entries, Tokens, PerWorkspace) && Tracks(wsBytes, entries, Size, PerWorkspace)
      && Tracks(connCount, entries, Tokens, PerConnection) && Tracks(connBytes, entries, Size, PerConnection)
      && globalCount == Tally(entries, Tokens, Everyone) && globalBytes == Tally(entries, Size, Everyone)
    }
  }

  lemma AddingAccounts(c: Counters, entries: map<Digest, Entry>, d: Digest, e: Entry)
    requires c.Account(entries) && d !in entries && e.bytes > 0
    ensures c.Added(e.state, e.bytes).Account(entries[d := e])
  {
    hide Tracks, Tally, Increased;
    TracksAdd(c.userCount, entries, d, e, Tokens, PerUser);
    TracksAdd(c.wsCount, entries, d, e, Tokens, PerWorkspace);
    TracksAdd(c.connCount, entries, d, e, Tokens, PerConnection);
    TracksAdd(c.userBytes, entries, d, e, Size, PerUser);
    TracksAdd(c.wsBytes, entries, d, e, Size, PerWorkspace);
    TracksAdd(c.connBytes, entries, d, e, Size, PerConnection);
    TallyAdd(entries, d, e, Tokens, Everyone);
    TallyAdd(entries, d, e, Size, Everyone);
  }

  lemma RemovingAccounts(c: Counters, entries: map<Digest, Entry>, d: Digest)
    requires c.Account(entries) && d in entries && entries[d].bytes > 0
    ensures c.Removed(entries[d].state, entries[d].bytes).Account(entries - {d})
  {
    hide Tracks, Tally, Decreased;
    var e := entries[d];
    TracksRemove(c.userCount, entries, d, Tokens, PerUser);
    TracksRemove(c.wsCount, entries, d, Tokens, PerWorkspace);
    TracksRemove(c.connCount, entries, d, Tokens, PerConnection);
    TracksRemove(c.userBytes, entries, d, Size, PerUser);
    TracksRemove(c.wsBytes, entries, d, Size, PerWorkspace);
    TracksRemove(c.connBytes, entries, d, Size, PerConnection);
    TallyRemove(entries, d, Tokens, Everyone);
    TallyRemove(entries, d, Size, Everyone);
  }

  // ---- Limits ----

  function Limit(cfg: Config, k: Measure, dim: Dim): int
  {
    match (k, dim)
    case (Tokens, Everyone) => cfg.maxGlobal
    case (Size, Everyone) => cfg.maxGlobalBytes
    case (Tokens, Of(PerUser, _)) => cfg.maxUser
    case (Size, Of(PerUser, _)) => cfg.maxUserBytes
    case (Tokens, Of(PerWorkspace, _)) => cfg.maxWorkspace
    case (Size, Of(PerWorkspace, _)) => cfg.maxWorkspaceBytes
    case (Tokens, Of(PerConnection, _)) => cfg.maxConnection
    case (Size, Of(PerConnection, _)) => cfg.maxConnectionBytes
  }

  ghost predicate WithinLimits(cfg: Config, entries: map<Digest, Entry>)
  {
    forall k, dim :: Tally(entries, k, dim) <= Limit(cfg, k, dim)
  }

  // Room in a dimension for one more entry of n bytes.
  ghost predicate Room(cfg: Config, entries: map<Digest, Entry>, dim: Dim, n: nat)
  {
    && Tally(entries, Tokens, dim) + 1 <= Limit(cfg, Tokens, dim)
    && Tally(entries, Size, dim) + n <= Limit(cfg, Size, dim)
  }

  ghost predicate Fits(cfg: Config, entries: map<Digest, Entry>, s: State, n: nat)
  {
    && Room(cfg, entries, Everyone, n) && Room(cfg, entries, Of(PerUser, s.userID), n)
    && Room(cfg, entries, Of(PerWorkspace, s.workspaceID), n) && Room(cfg, entries, Of(PerConnection, s.connectionID), n)
  }

  // The tokens of a dimension, counted one by one.
  lemma {:induction false} TallyIsCount(entries: map<Digest, Entry>, dim: Dim)
    ensures Tally(entries, Tokens, dim) == |set d | d in entries && Within(dim, entries[d].state)|
    decreases |entries|
  {
    var inside := set d | d in entries && Within(dim, entries[d].state);
    if entries == map[] {
      assert inside == {};
    } else {
      var d :| d in entries;
      TallyRemove(entries, d, Tokens, dim);
      TallyIsCount(entries - {d}, dim);
      assert (set c | c in entries - {d} && Within(dim, (entries - {d})[c].state)) == inside - {d};
    }
  }

  ghost function OfUser(entries: map<Digest, Entry>, id: string): set<Digest>
  {
    set d | d in entries && entries[d].state.userID == id
  }

  ghost function OfWorkspace(entries: map<Digest, Entry>, id: string): set<Digest>
  {
    set d | d in entries && entries[d].state.workspaceID == id
  }

  ghost function OfConnection(entries: map<Digest, Entry>, id: string): set<Digest>
  {
    set d | d in entries && entries[d].state.connectionID == id
  }

  lemma CountsPerScope(entries: map<Digest, Entry>, id: string)
    ensures Tally(entries, Tokens, Of(PerUser, id)) == |OfUser(entries, id)|
    ensures Tally(entries, Tokens, Of(PerWorkspace, id)) == |OfWorkspace(entries, id)|
    ensures Tally(entries, Tokens, Of(PerConnection, id)) == |OfConnection(entries, id)|
    ensures Tally(entries, Tokens, Everyone) == |entries|
  {
    hide Tally;
    TallyIsCount(entries, Of(PerUser, id));
    TallyIsCount(entries, Of(PerWorkspace, id));
    TallyIsCount(entries, Of(PerConnection, id));
    TallyIsCount(entries, Everyone);
    assert (set d | d in entries && Within(Of(PerUser, id), entries[d].state)) == OfUser(entries, id);
    assert (set d | d in entries && Within(Of(PerWorkspace, id), entries[d].state)) == OfWorkspace(entries, id);
    assert (set d | d in entries && Within(Of(PerConnection, id), entries[d].state)) == OfConnection(entries, id);
    assert (set d | d in entries && Within(Everyone, entries[d].state)) == entries.Keys;
  }

  // What the limits say of any one user, workspace and connection, and of all.
  lemma LimitsHold(cfg: Config, entries: map<Digest, Entry>, id: string)
    requires WithinLimits(cfg, entries)
    ensures |OfUser(entries, id)| <= cfg.maxUser && |OfWorkspace(entries, id)| <= cfg.maxWorkspace
    ensures |OfConnection(entries, id)| <= cfg.maxConnection && |entries| <= cfg.maxGlobal
    ensures Tally(entries, Size, Of(PerUser, id)) <= cfg.maxUserBytes
    ensures Tally(entries, Size, Of(PerWorkspace, id)) <= cfg.maxWorkspaceBytes
    ensures Tally(entries, Size, Of(PerConnection, id)) <= cfg.maxConnectionBytes
    ensures Tally(entries, Size, Everyone) <= cfg.maxGlobalBytes
  {
    CountsPerScope(entries, id);
    hide Tally, OfUser, OfWorkspace, OfConnection;
    forall k, scope ensures Tally(entries, k, Of(scope, id)) <= Limit(cfg, k, Of(scope, id)) {}
    forall k ensures Tally(entries, k, Everyone) <= Limit(cfg, k, Everyone) {}
  }

  lemma FitsKeepsLimits(cfg: Config, entries: map<Digest, Entry>, d: Digest, e: Entry)
    requires WithinLimits(cfg, entries) && d !in entries && Fits(cfg, entries, e.state, e.bytes)
    ensures WithinLimits(cfg, entries[d := e])
  {
    forall k, dim ensures Tally(entries[d := e], k, dim) <= Limit(cfg, k, dim) {
      TallyAdd(entries, d, e, k, dim);
      if Within(dim, e.state) {
        assert Room(cfg, entries, dim, e.bytes) by {
          if dim.Of? { match dim.scope case PerUser => case PerWorkspace => case PerConnection => }
        }
      }
    }
  }

  lemma RemovalKeepsLimits(cfg: Config, entries: map<Digest, Entry>, d: Digest)
    requires WithinLimits(cfg, entries) && d in entries
    ensures WithinLimits(cfg, entries - {d})
  {
    forall k, dim ensures Tally(entries - {d}, k, dim) <= Limit(cfg, k, dim) {
      TallyRemove(entries, d, k, dim);
    }
  }

  // What evictForQuota reads off the counters.
  lemma CountersSay(c: Counters, entries: map<Digest, Entry>, s: State)
    requires c.Account(entries)
    ensures Get(c.userCount, s.userID) == Tally(entries, Tokens, Of(PerUser, s.userID))
    ensures Get(c.userBytes, s.userID) == Tally(entries, Size, Of(PerUser, s.userID))
    ensures Get(c.wsCount, s.workspaceID) == Tally(entries, Tokens, Of(PerWorkspace, s.workspaceID))
    ensures Get(c.wsBytes, s.workspaceID) == Tally(entries, Size, Of(PerWorkspace, s.workspaceID))
    ensures Get(c.connCount, s.connectionID) == Tally(entries, Tokens, Of(PerConnection, s.connectionID))
    ensures Get(c.connBytes, s.connectionID) == Tally(entries, Size, Of(PerConnection, s.connectionID))
    ensures c.globalCount == Tally(entries, Tokens, Everyone) && c.globalBytes == Tally(entries, Size, Everyone)
  {
    hide Tally;
  }

  // ---- Eviction ----

  predicate Ready(entries: map<Digest, Entry>, d: Digest) { d in entries && !entries[d].inFlight }

  // What may go for a new entry: of the user's own tokens if the user has no room for it, else of the workspace's, else of
  // the connection's, and only then of all.
  ghost predicate MayGo(cfg: Config, entries: map<Digest, Entry>, s: State, n: nat, d: Digest)
  {
    && Ready(entries, d)
    && if !Room(cfg, entries, Of(PerUser, s.userID), n) then entries[d].state.userID == s.userID
       else if !Room(cfg, entries, Of(PerWorkspace, s.workspaceID), n) then entries[d].state.workspaceID == s.workspaceID
       else if !Room(cfg, entries, Of(PerConnection, s.connectionID), n) then entries[d].state.connectionID == s.connectionID
       else true
  }

  // Of these, one that expires no later than any other.
  ghost predicate GoesFirst(cfg: Config, entries: map<Digest, Entry>, s: State, n: nat, d: Digest)
  {
    && MayGo(cfg, entries, s, n, d)
    && forall c :: MayGo(cfg, entries, s, n, c) ==> entries[d].expiresAt <= entries[c].expiresAt
  }

  // Evicting the victims one after the other leads from entries to rest; each was then the one to go.
  ghost predicate Evicts(cfg: Config, entries: map<Digest, Entry>, s: State, n: nat, victims: seq<Digest>,
      rest: map<Digest, Entry>)
    decreases |victims|
  {
    if victims == [] then rest == entries
    else
      && !Fits(cfg, entries, s, n) && GoesFirst(cfg, entries, s, n, victims[0])
      && Evicts(cfg, entries - {victims[0]}, s, n, victims[1..], rest)
  }

  lemma {:induction false} EvictsSnoc(cfg: Config, entries: map<Digest, Entry>, s: State, n: nat, victims: seq<Digest>,
      rest: map<Digest, Entry>, d: Digest)
    requires Evicts(cfg, entries, s, n, victims, rest)
    requires !Fits(cfg, rest, s, n) && GoesFirst(cfg, rest, s, n, d)
    ensures Evicts(cfg, entries, s, n, victims + [d], rest - {d})
    decreases |victims|
  {
    var all := victims + [d];
    if victims == [] {
      assert all[1..] == [];
    } else {
      EvictsSnoc(cfg, entries - {victims[0]}, s, n, victims[1..], rest, d);
      assert all[1..] == victims[1..] + [d];
    }
  }

  // Eviction never touches an entry in flight and changes none of those it keeps.
  lemma {:induction false} EvictionSparesInFlight(cfg: Config, entries: map<Digest, Entry>, s: State, n: nat,
      victims: seq<Digest>,
      rest: map<Digest, Entry>)
    requires Evicts(cfg, entries, s, n, victims, rest)
    ensures forall d :: d in rest ==> d in entries && rest[d] == entries[d]
    ensures forall d :: d in entries && entries[d].inFlight ==> d in rest
    decreases |victims|
  {
    if victims != [] {
      hide Room, Fits;
      EvictionSparesInFlight(cfg, entries - {victims[0]}, s, n, victims[1..], rest);
      assert MayGo(cfg, entries, s, n, victims[0]);
    }
  }

  // ---- Whose entries go ----

  // The four dimensions that a new entry counts in.
  function DimsOf(s: State): set<Dim>
  {
    {Everyone, Of(PerUser, s.userID), Of(PerWorkspace, s.workspaceID), Of(PerConnection, s.connectionID)}
  }

  // Fewer entries, smaller tallies.
  lemma {:induction false} TallyShrinks(entries: map<Digest, Entry>, rest: map<Digest, Entry>, k: Measure, dim: Dim)
    requires forall d :: d in rest ==> d in entries && rest[d] == entries[d]
    ensures Tally(rest, k, dim) <= Tally(entries, k, dim)
    decreases |entries|
  {
    if entries == map[] {
      assert rest == map[];
    } else {
      var d :| d in entries;
      TallyRemove(entries, d, k, dim);
      if d in rest {
        TallyRemove(rest, d, k, dim);
        TallyShrinks(entries - {d}, rest - {d}, k, dim);
      } else {
        TallyShrinks(entries - {d}, rest, k, dim);
      }
    }
  }

  // What is outside a dimension does not count in it.
  lemma {:induction false} TallyInside(entries: map<Digest, Entry>, rest: map<Digest, Entry>, k: Measure, dim: Dim)
    requires forall d :: d in rest ==> d in entries && rest[d] == entries[d]
    requires forall d :: d in entries && Within(dim, entries[d].state) ==> d in rest
    ensures Tally(rest, k, dim) == Tally(entries, k, dim)
    decreases |entries|
  {
    if entries == map[] {
      assert rest == map[];
    } else {
      var d :| d in entries;
      TallyRemove(entries, d, k, dim);
      if d in rest {
        TallyRemove(rest, d, k, dim);
        TallyInside(entries - {d}, rest - {d}, k, dim);
      } else {
        TallyInside(entries - {d}, rest, k, dim);
      }
    }
  }

  lemma RoomStays(cfg: Config, entries: map<Digest, Entry>, rest: map<Digest, Entry>, dim: Dim, n: nat)
    requires (forall d :: d in rest ==> d in entries && rest[d] == entries[d]) && Room(cfg, entries, dim, n)
    ensures Room(cfg, rest, dim, n)
  {
    TallyShrinks(entries, rest, Tokens, dim);
    TallyShrinks(entries, rest, Size, dim);
  }

  // An entry is evicted only for a dimension that it counts in itself and that has no room for the new one: as long as
  // only the creator's own quota is exhausted, nobody else loses a token.
  lemma {:induction false} EvictionStaysInside(cfg: Config, entries: map<Digest, Entry>, s: State, n: nat,
      victims: seq<Digest>, rest: map<Digest, Entry>, d: Digest)
    requires Evicts(cfg, entries, s, n, victims, rest) && d in entries && d !in rest
    ensures exists dim :: dim in DimsOf(s) && !Room(cfg, entries, dim, n) && Within(dim, entries[d].state)
    decreases |victims|
  {
    hide Room, Limit, Tally;
    if victims != [] {
      var v := victims[0];
      var smaller := entries - {v};
      if d == v {
        VictimStaysInside(cfg, entries, s, n, d);
      } else {
        EvictionStaysInside(cfg, smaller, s, n, victims[1..], rest, d);
        var dim :| dim in DimsOf(s) && !Room(cfg, smaller, dim, n) && Within(dim, smaller[d].state);
        if Room(cfg, entries, dim, n) {
          RoomStays(cfg, entries, smaller, dim, n);
          assert false;
        }
      }
    }
  }

  // The dimension that a victim goes for.
  lemma VictimStaysInside(cfg: Config, entries: map<Digest, Entry>, s: State, n: nat, d: Digest)
    requires !Fits(cfg, entries, s, n) && MayGo(cfg, entries, s, n, d)
    ensures exists dim :: dim in DimsOf(s) && !Room(cfg, entries, dim, n) && Within(dim, entries[d].state)
  {
    hide Room;
    var dim := if !Room(cfg, entries, Of(PerUser, s.userID), n) then Of(PerUser, s.userID)
      else if !Room(cfg, entries, Of(PerWorkspace, s.workspaceID), n) then Of(PerWorkspace, s.workspaceID)
      else if !Room(cfg, entries, Of(PerConnection, s.connectionID), n) then Of(PerConnection, s.connectionID)
      else Everyone;
    assert dim in DimsOf(s) && !Room(cfg, entries, dim, n) && Within(dim, entries[d].state);
  }

  // Where nothing may go, some dimension has no room and nothing ready in it.
  lemma NothingToGo(cfg: Config, entries: map<Digest, Entry>, s: State, n: nat) returns (dim: Dim)
    requires !Fits(cfg, entries, s, n) && forall d :: !MayGo(cfg, entries, s, n, d)
    ensures dim in DimsOf(s) && !Room(cfg, entries, dim, n)
    ensures forall d :: Ready(entries, d) ==> !Within(dim, entries[d].state)
  {
    hide Room;
    dim := if !Room(cfg, entries, Of(PerUser, s.userID), n) then Of(PerUser, s.userID)
      else if !Room(cfg, entries, Of(PerWorkspace, s.workspaceID), n) then Of(PerWorkspace, s.workspaceID)
      else if !Room(cfg, entries, Of(PerConnection, s.connectionID), n) then Of(PerConnection, s.connectionID)
      else Everyone;
    forall d | Ready(entries, d) ensures !Within(dim, entries[d].state) {
      assert !MayGo(cfg, entries, s, n, d);
    }
  }

  // Only what is claimed cannot be evicted.
  function Claimed(entries: map<Digest, Entry>): map<Digest, Entry>
  {
    map d | d in entries && entries[d].inFlight :: entries[d]
  }

  lemma EvictionKeepsClaimed(cfg: Config, entries: map<Digest, Entry>, s: State, n: nat, victims: seq<Digest>,
      rest: map<Digest, Entry>)
    requires Evicts(cfg, entries, s, n, victims, rest)
    ensures forall d :: d in Claimed(entries) ==> d in rest && rest[d] == entries[d]
    ensures Claimed(rest) == Claimed(entries)
  {
    hide Fits, MayGo;
    EvictionSparesInFlight(cfg, entries, s, n, victims, rest);
  }

  // Eviction makes room if and only if the claimed entries alone leave room in every dimension of the new one.
  lemma EvictionSucceedsIff(cfg: Config, entries: map<Digest, Entry>, s: State, n: nat, victims: seq<Digest>,
      rest: map<Digest, Entry>)
    requires Evicts(cfg, entries, s, n, victims, rest)
    requires !Fits(cfg, rest, s, n) ==> forall d :: !MayGo(cfg, rest, s, n, d)
    ensures Fits(cfg, rest, s, n) <==> forall dim :: dim in DimsOf(s) ==> Room(cfg, Claimed(entries), dim, n)
  {
    EvictionKeepsClaimed(cfg, entries, s, n, victims, rest);
    hide Evicts, Limit, Tally;
    if Fits(cfg, rest, s, n) {
      forall dim | dim in DimsOf(s) ensures Room(cfg, Claimed(entries), dim, n) {
        hide Room;
        RoomStays(cfg, rest, Claimed(entries), dim, n);
      }
    } else {
      var dim := NothingToGo(cfg, rest, s, n);
      assert forall d :: d in rest && Within(dim, rest[d].state) ==> !Ready(rest, d);
      TallyInside(rest, Claimed(rest), Tokens, dim);
      TallyInside(rest, Claimed(rest), Size, dim);
    }
  }
}
