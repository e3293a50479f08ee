/** apps/api/internal/credentials/lifecycle.go and connections/service.go over the metadata database: concurrent
    transactions that create, rotate and retire credential envelopes and point connections at them. Each step is one
    SQL statement, or the acquisition of one row lock, of one transaction (READ COMMITTED). */
module Credentials {
  import opened Prelude

  datatype Ref = Ref(workspace: nat, secret: nat)

  // An envelope is identified by secret and version; the table has a unique constraint on it.
  datatype Key = Key(ref: Ref, version: int)

  type ConnID = nat

  datatype Event =
    | CredentialCreated(ref: Ref, version: int)
    | CredentialRotated(ref: Ref, oldVersion: int, newVersion: int)
    | CredentialRetired(key: Key)
    | RotationFailed(ref: Ref)
    | ConnectionCreated(id: ConnID)
    | ConnectionUpdated(id: ConnID)

  // Committed data: envelopes with their retired flag, the envelope of each connection, the append-only log.
  datatype Data = Data(envelopes: map<Key, bool>, connections: map<ConnID, Key>, log: seq<Event>)

  // ---- Transactions, by what they have done so far ----

  // LifecycleManager.Create: insert version 1 of a new secret.
  datatype Creation = Creation(ref: Ref, inserted: bool, audited: bool)

  // LifecycleManager.Rotate: lock the latest envelope, insert the next version, then row by row repoint the
  // connections that the UPDATE found when it started, or skip those that no longer refer to the secret.
  datatype Rotation = Rotation(ref: Ref, expected: int, picked: Option<int>, locked: bool, inserted: bool,
                               found: Option<set<ConnID>>, moved: set<ConnID>, skipped: set<ConnID>, repointed: bool, audited: bool)
  {
    function OldKey(): Key { Key(ref, expected) }
    function NewKey(): Key { Key(ref, expected + 1) }
  }

  // LifecycleManager.Retire: lock one version, check row by row that no connection is on it, mark it retired.
  datatype Retirement = Retirement(key: Key, locked: bool, already: bool, found: Option<set<ConnID>>,
                                   skipped: set<ConnID>, unused: bool, marked: bool, audited: bool)

  // connections.Service.Create and Update: share-lock an active envelope and write the connection row.
  datatype Connecting = Connecting(id: ConnID, key: Key, inserted: bool, audited: bool)

  datatype Updating = Updating(id: ConnID, key: Key, shared: bool, updated: bool, audited: bool)

  datatype Tx = Create(c: Creation) | Rotate(r: Rotation) | Retire(t: Retirement) | Connect(n: Connecting) | Update(u: Updating)
  {
    predicate Audited()
    {
      match this
      case Create(c) => c.audited
      case Rotate(r) => r.audited
      case Retire(t) => t.audited
      case Connect(n) => n.audited
      case Update(u) => u.audited
    }
  }

  type TxID = nat

  datatype Db = Db(data: Data, txs: map<TxID, Tx>)

  // ---- Locks ----

  // FOR UPDATE on an envelope.
  predicate HoldsExclusive(x: Tx, k: Key)
  {
    (x.Rotate? && x.r.locked && k == x.r.OldKey()) || (x.Retire? && x.t.locked && k == x.t.key)
  }

  // FOR KEY SHARE on an envelope.
  predicate HoldsShare(x: Tx, k: Key)
  {
    (x.Connect? && x.n.inserted && k == x.n.key) || (x.Update? && x.u.shared && k == x.u.key)
  }

  // A written connection row.
  predicate HoldsRow(x: Tx, c: ConnID)
  {
    (x.Rotate? && c in x.r.moved) || (x.Connect? && x.n.inserted && c == x.n.id) || (x.Update? && x.u.updated && c == x.u.id)
  }

  // An envelope row inserted but not committed: a second insert of the key waits for the first.
  predicate Inserts(x: Tx, k: Key)
  {
    (x.Create? && x.c.inserted && k == Key(x.c.ref, 1)) || (x.Rotate? && x.r.inserted && k == x.r.NewKey())
  }

  // What two transactions may hold at the same time. A statement that would break this waits.
  ghost predicate Compatible(x: Tx, y: Tx)
  {
    && (forall k :: HoldsExclusive(x, k) ==> !HoldsExclusive(y, k) && !HoldsShare(y, k))
    && (forall k :: HoldsExclusive(y, k) ==> !HoldsExclusive(x, k) && !HoldsShare(x, k))
    && (forall c :: HoldsRow(x, c) ==> !HoldsRow(y, c))
    && (forall k :: Inserts(x, k) ==> !Inserts(y, k))
  }

  // ---- Statements ----

  predicate Active(d: Data, k: Key) { k in d.envelopes && !d.envelopes[k] }

  predicate Latest(d: Data, ref: Ref, v: int)
  {
    Key(ref, v) in d.envelopes && forall k :: k in d.envelopes && k.ref == ref ==> k.version <= v
  }

  predicate Fresh(x: Tx)
  {
    match x
    case Create(c) => c == Creation(c.ref, false, false)
    case Rotate(r) => r == Rotation(r.ref, r.expected, None, false, false, None, {}, {}, false, false)
    case Retire(t) => t == Retirement(t.key, false, false, None, {}, false, false, false)
    case Connect(n) => n == Connecting(n.id, n.key, false, false)
    case Update(u) => u == Updating(u.id, u.key, false, false, false)
  }

  // Each predicate below is one successful statement on the committed data, or what it does with one row: a row found
  // by its snapshot is checked again when the scan gets to it, whatever has been committed in between, and may change
  // again before the scan ends. A statement that fails, or a check that does not pass, is an abort.

  predicate CreationStatement(d: Data, x: Creation, y: Creation)
  {
    || (!x.inserted && Key(x.ref, 1) !in d.envelopes && y == x.(inserted := true))
    || (x.inserted && !x.audited && y == x.(audited := true))
  }

  function Belonging(d: Data, ref: Ref): set<ConnID> { set c | c in d.connections && d.connections[c].ref == ref }

  ghost predicate RotationStatement(d: Data, x: Rotation, y: Rotation)
  {
    // the newest version in the statement's snapshot; waiting for its lock may make it outdated
    || (x.picked.None? && exists v :: Latest(d, x.ref, v) && y == x.(picked := Some(v)))
    || (x.picked == Some(x.expected) && !x.locked && Active(d, x.OldKey()) && y == x.(locked := true))
    || (x.locked && !x.inserted && x.NewKey() !in d.envelopes && y == x.(inserted := true))
    || (x.inserted && x.found.None? && y == x.(found := Some(Belonging(d, x.ref))))
    || (x.found.Some? && !x.repointed && exists c :: c in x.found.value - x.moved - x.skipped && RowScanned(d, x, c, y))
    || (x.found.Some? && !x.repointed && x.found.value == x.moved + x.skipped && y == x.(repointed := true))
    || (x.repointed && !x.audited && y == x.(audited := true))
  }

  predicate RowScanned(d: Data, x: Rotation, c: ConnID, y: Rotation)
  {
    y == if Refers(d, c, x.ref) then x.(moved := x.moved + {c}) else x.(skipped := x.skipped + {c})
  }

  predicate Refers(d: Data, c: ConnID, ref: Ref) { c in d.connections && d.connections[c].ref == ref }

  predicate IsOn(d: Data, c: ConnID, k: Key) { c in d.connections && d.connections[c] == k }

  function UsersOf(d: Data, k: Key): set<ConnID> { set c | c in d.connections && d.connections[c] == k }

  ghost predicate RetirementStatement(d: Data, x: Retirement, y: Retirement)
  {
    || (!x.locked && x.key in d.envelopes && y == x.(locked := true, already := d.envelopes[x.key]))
    || (x.locked && !x.already && x.found.None? && y == x.(found := Some(UsersOf(d, x.key))))
    || (x.found.Some? && !x.unused
        && exists c :: c in x.found.value - x.skipped && !IsOn(d, c, x.key) && y == x.(skipped := x.skipped + {c}))
    || (x.found.Some? && !x.unused && x.found.value <= x.skipped && y == x.(unused := true))
    || (x.unused && !x.marked && y == x.(marked := true))
    || ((x.marked || x.already) && !x.audited && y == x.(audited := true))
  }

  predicate ConnectingStatement(d: Data, x: Connecting, y: Connecting)
  {
    || (!x.inserted && Active(d, x.key) && x.id !in d.connections && y == x.(inserted := true))
    || (x.inserted && !x.audited && y == x.(audited := true))
  }

  predicate UpdatingStatement(d: Data, x: Updating, y: Updating)
  {
    || (!x.shared && Active(d, x.key) && x.id in d.connections && d.connections[x.id].ref.workspace == x.key.ref.workspace
        && y == x.(shared := true))
    || (x.shared && !x.updated && x.id in d.connections && y == x.(updated := true))
    || (x.updated && !x.audited && y == x.(audited := true))
  }

  ghost predicate Statement(d: Data, x: Tx, y: Tx)
  {
    match x
    case Create(c) => y.Create? && CreationStatement(d, c, y.c)
    case Rotate(r) => y.Rotate? && RotationStatement(d, r, y.r)
    case Retire(t) => y.Retire? && RetirementStatement(d, t, y.t)
    case Connect(n) => y.Connect? && ConnectingStatement(d, n, y.n)
    case Update(u) => y.Update? && UpdatingStatement(d, u, y.u)
  }

  // The commit: the writes of the transaction and its audit event become visible together.
  function Committed(d: Data, x: Tx): Data
  {
    match x
    case Create(c) =>
      d.(envelopes := d.envelopes[Key(c.ref, 1) := false], log := d.log + [CredentialCreated(c.ref, 1)])
    case Rotate(r) =>
      Data(d.envelopes[r.NewKey() := false],
           map c | c in d.connections :: if c in r.moved then r.NewKey() else d.connections[c],
           d.log + [CredentialRotated(r.ref, r.expected, r.expected + 1)])
    case Retire(t) =>
      d.(envelopes := if t.already then d.envelopes else d.envelopes[t.key := true], log := d.log + [CredentialRetired(t.key)])
    case Connect(n) =>
      d.(connections := d.connections[n.id := n.key], log := d.log + [ConnectionCreated(n.id)])
    case Update(u) =>
      d.(connections := d.connections[u.id := u.key], log := d.log + [ConnectionUpdated(u.id)])
  }

  datatype Action = Begin(x: Tx) | Advance | Commit | Abort | AuditFailure(ref: Ref)

  ghost predicate Step(a: Db, t: TxID, act: Action, b: Db)
  {
    match act
    case Begin(x) => t !in a.txs && Fresh(x) && b == a.(txs := a.txs[t := x])
    case Advance =>
      && t in a.txs && t in b.txs && b == a.(txs := a.txs[t := b.txs[t]])
      && Statement(a.data, a.txs[t], b.txs[t])
      && forall u :: u in a.txs && u != t ==> Compatible(b.txs[t], a.txs[u])
    case Commit => t in a.txs && a.txs[t].Audited() && b == Db(Committed(a.data, a.txs[t]), a.txs - {t})
    case Abort => t in a.txs && b == a.(txs := a.txs - {t})
    case AuditFailure(ref) => b == a.(data := a.data.(log := a.data.log + [RotationFailed(ref)]))
  }

  // ---- The invariant ----

  // Replaying the credential events of the log.
  function Replay(log: seq<Event>): map<Key, bool>
  {
    if log == [] then map[]
    else
      var before := Replay(log[..|log| - 1]);
      match log[|log| - 1]
      case CredentialCreated(ref, v) => before[Key(ref, v) := false]
      case CredentialRotated(ref, _, v) => before[Key(ref, v) := false]
      case CredentialRetired(k) => before[k := true]
      case _ => before
  }

  ghost predicate ConnectionsActive(d: Data)
  {
    forall c :: c in d.connections ==> Active(d, d.connections[c])
  }

  ghost predicate Contiguous(d: Data)
  {
    && (forall k :: k in d.envelopes ==> k.version >= 1)
    && (forall k, v | k in d.envelopes && 1 <= v <= k.version :: Key(k.ref, v) in d.envelopes)
  }

  // Each committed rotation is the only one from its version.
  ghost predicate RotatedOnce(d: Data)
  {
    && (forall i :: 0 <= i < |d.log| && d.log[i].CredentialRotated? ==>
          d.log[i].newVersion == d.log[i].oldVersion + 1 && Key(d.log[i].ref, d.log[i].newVersion) in d.envelopes)
    && (forall i, j :: 0 <= i < j < |d.log| && d.log[i].CredentialRotated? && d.log[j].CredentialRotated? ==>
          d.log[i].ref != d.log[j].ref || d.log[i].oldVersion != d.log[j].oldVersion)
  }

  ghost predicate Sound(d: Data)
  {
    ConnectionsActive(d) && Contiguous(d) && RotatedOnce(d) && Replay(d.log) == d.envelopes
  }

  // What a transaction's progress says about the committed data, whatever other transactions do meanwhile.
  ghost predicate Grounded(d: Data, x: Tx)
  {
    match x
    case Create(c) =>
      (c.inserted ==> Key(c.ref, 1) !in d.envelopes) && (c.audited ==> c.inserted)
    case Rotate(r) =>
      && (r.locked ==> Active(d, r.OldKey()))
      && (r.inserted ==> r.locked && r.NewKey() !in d.envelopes)
      && (forall c :: c in r.moved ==> Refers(d, c, r.ref))
      && (if r.found.None? then r.moved == r.skipped == {} else r.moved + r.skipped <= r.found.value) && r.moved !! r.skipped
      && (r.repointed ==> r.found == Some(r.moved + r.skipped))
      && (r.found.Some? ==> r.inserted) && (r.repointed ==> r.found.Some?) && (r.audited ==> r.repointed)
    case Retire(t) =>
      && (t.locked ==> t.key in d.envelopes && d.envelopes[t.key] == t.already)
      && (t.already ==> t.locked) && (t.found.Some? ==> t.locked && !t.already)
      && (t.found.Some? ==> forall c :: c in d.connections && d.connections[c] == t.key ==> c in t.found.value)
      && (t.found.None? ==> t.skipped == {}) && (forall c :: c in t.skipped ==> !IsOn(d, c, t.key))
      && (t.unused ==> t.found.Some? && forall c :: c in d.connections ==> d.connections[c] != t.key)
      && (t.marked ==> t.unused) && (t.audited ==> t.marked || t.already)
    case Connect(n) =>
      (n.inserted ==> Active(d, n.key) && n.id !in d.connections) && (n.audited ==> n.inserted)
    case Update(u) =>
      && (u.shared ==> Active(d, u.key) && u.id in d.connections && d.connections[u.id].ref.workspace == u.key.ref.workspace)
      && (u.updated ==> u.shared) && (u.audited ==> u.updated)
  }

  ghost predicate Inv(db: Db)
  {
    && Sound(db.data)
    && (forall t :: t in db.txs ==> Grounded(db.data, db.txs[t]))
    && (forall t, u :: t in db.txs && u in db.txs && t != u ==> Compatible(db.txs[t], db.txs[u]))
  }

  // ---- A statement keeps its transaction grounded ----

  lemma StatementKeepsGrounded(d: Data, x: Tx, y: Tx)
    requires Grounded(d, x) && Statement(d, x, y)
    ensures Grounded(d, y)
  {
    match x
    case Create(_) =>
    case Rotate(_) =>
    case Retire(_) =>
    case Connect(_) =>
    case Update(_) =>
  }

  // ---- A commit keeps the data sound and every compatible transaction grounded ----

  lemma CommitKeepsOthersGrounded(d: Data, x: Tx, y: Tx)
    requires Grounded(d, x) && x.Audited() && Grounded(d, y) && Compatible(x, y)
    ensures Grounded(Committed(d, x), y)
  {
    match x
    case Create(c) => assert Inserts(x, Key(c.ref, 1));
    case Rotate(r) =>
      assert Inserts(x, r.NewKey());
      assert forall c :: c in r.moved ==> HoldsRow(x, c);
    case Retire(t) => assert HoldsExclusive(x, t.key);
    case Connect(n) => assert HoldsShare(x, n.key) && HoldsRow(x, n.id);
    case Update(u) => assert HoldsShare(x, u.key) && HoldsRow(x, u.id);
  }

  lemma CommitKeepsSound(d: Data, x: Tx)
    requires Sound(d) && Grounded(d, x) && x.Audited()
    ensures Sound(Committed(d, x))
  {
    CommitKeepsActive(d, x);
    CommitKeepsContiguous(d, x);
    CommitKeepsRotatedOnce(d, x);
    CommitKeepsReplay(d, x);
    hide ConnectionsActive, Contiguous, RotatedOnce, Grounded, Replay, Committed;
  }

  lemma CommitKeepsReplay(d: Data, x: Tx)
    requires Replay(d.log) == d.envelopes && Grounded(d, x)
    ensures Replay(Committed(d, x).log) == Committed(d, x).envelopes
  {
    if x.Retire? && x.t.already { AlreadyRetired(d, x); }
    hide Grounded, Replay;
    match x
    case Create(c) => ReplayGoesOn(d.log, CredentialCreated(c.ref, 1));
    case Rotate(r) => ReplayGoesOn(d.log, CredentialRotated(r.ref, r.expected, r.expected + 1));
    case Retire(t) => ReplayGoesOn(d.log, CredentialRetired(t.key));
    case Connect(n) => ReplayGoesOn(d.log, ConnectionCreated(n.id));
    case Update(u) => ReplayGoesOn(d.log, ConnectionUpdated(u.id));
  }

  lemma ReplayGoesOn(log: seq<Event>, ev: Event)
    ensures Replay(log + [ev]) ==
      match ev
      case CredentialCreated(ref, v) => Replay(log)[Key(ref, v) := false]
      case CredentialRotated(ref, _, v) => Replay(log)[Key(ref, v) := false]
      case CredentialRetired(k) => Replay(log)[k := true]
      case _ => Replay(log)
  {
    assert (log + [ev])[..|log|] == log;
  }

  lemma AlreadyRetired(d: Data, x: Tx)
    requires Grounded(d, x) && x.Retire? && x.t.already
    ensures x.t.key in d.envelopes && d.envelopes[x.t.key] && d.envelopes[x.t.key := true] == d.envelopes
  {
  }

  lemma CommitKeepsActive(d: Data, x: Tx)
    requires ConnectionsActive(d) && Grounded(d, x) && x.Audited()
    ensures ConnectionsActive(Committed(d, x))
  {
  }

  lemma CommitKeepsContiguous(d: Data, x: Tx)
    requires Contiguous(d) && Grounded(d, x) && x.Audited()
    ensures Contiguous(Committed(d, x))
  {
    var b := Committed(d, x);
    if x.Rotate? {
      var (from, to) := (x.r.OldKey(), x.r.NewKey());
      assert from in d.envelopes;
      forall k, v | k in b.envelopes && 1 <= v <= k.version ensures Key(k.ref, v) in b.envelopes {
        if k == to && v < k.version { assert Key(from.ref, v) in d.envelopes; }
      }
    }
  }

  lemma CommitKeepsRotatedOnce(d: Data, x: Tx)
    requires RotatedOnce(d) && Grounded(d, x) && x.Audited()
    ensures RotatedOnce(Committed(d, x))
  {
    var b := Committed(d, x);
    var n := |d.log|;
    assert forall i :: 0 <= i < n ==> b.log[i] == d.log[i];
    assert forall k :: k in d.envelopes ==> k in b.envelopes;
  }

  lemma StepKeepsInv(a: Db, t: TxID, act: Action, b: Db)
    requires Inv(a) && Step(a, t, act, b)
    ensures Inv(b)
  {
    hide Sound, Grounded, Compatible, Statement, Committed;
    match act
    case Begin(x) =>
      FreshIsHarmless(a.data, x);
    case Advance =>
      StatementKeepsGrounded(a.data, a.txs[t], b.txs[t]);
      forall u | u in a.txs && u != t ensures Compatible(a.txs[u], b.txs[t]) {
        CompatibleSymmetric(b.txs[t], a.txs[u]);
      }
    case Commit =>
      CommitKeepsSound(a.data, a.txs[t]);
      forall u | u in b.txs ensures Grounded(b.data, b.txs[u]) {
        CommitKeepsOthersGrounded(a.data, a.txs[t], a.txs[u]);
      }
    case Abort =>
    case AuditFailure(ref) =>
      FailureAuditIsHarmless(a.data, ref);
      forall u | u in a.txs ensures Grounded(b.data, a.txs[u]) {
        LogDoesNotGround(a.data, b.data.log, a.txs[u]);
      }
  }

  lemma FreshIsHarmless(d: Data, x: Tx)
    requires Fresh(x)
    ensures Grounded(d, x) && forall y :: Compatible(x, y) && Compatible(y, x)
  {
  }

  lemma CompatibleSymmetric(x: Tx, y: Tx)
    requires Compatible(x, y)
    ensures Compatible(y, x)
  {
  }

  lemma LogDoesNotGround(d: Data, log: seq<Event>, x: Tx)
    requires Grounded(d, x)
    ensures Grounded(d.(log := log), x)
  {
  }

  lemma FailureAuditIsHarmless(d: Data, ref: Ref)
    requires Sound(d)
    ensures Sound(d.(log := d.log + [RotationFailed(ref)]))
  {
    var log := d.log + [RotationFailed(ref)];
    assert log[..|log| - 1] == d.log;
    FailureRotatesNothing(d, ref);
    hide RotatedOnce;
  }

  lemma FailureRotatesNothing(d: Data, ref: Ref)
    requires RotatedOnce(d)
    ensures RotatedOnce(d.(log := d.log + [RotationFailed(ref)]))
  {
    var b := d.(log := d.log + [RotationFailed(ref)]);
    assert forall i :: 0 <= i < |d.log| ==> b.log[i] == d.log[i];
  }

  // ---- Whole runs ----

  const Empty := Db(Data(map[], map[], []), map[])

  ghost predicate Run(states: seq<Db>, who: seq<TxID>, acts: seq<Action>)
  {
    && |states| == |acts| + 1 && |who| == |acts| && states[0] == Empty
    && forall i :: 0 <= i < |acts| ==> Step(states[i], who[i], acts[i], states[i + 1])
  }

  lemma {:induction false} RunsKeepInv(states: seq<Db>, who: seq<TxID>, acts: seq<Action>, i: nat)
    requires Run(states, who, acts) && i < |states|
    ensures Inv(states[i])
  {
    if i > 0 {
      hide Step, Inv;
      RunsKeepInv(states, who, acts, i - 1);
      StepKeepsInv(states[i - 1], who[i - 1], acts[i - 1], states[i]);
    }
  }

  // In every reachable state each connection points at an existing, non-retired version, the versions of each secret
  // are contiguous from 1, and the log replays to exactly the envelopes and their retired flags.
  lemma ConnectionsStayUsable(states: seq<Db>, who: seq<TxID>, acts: seq<Action>, i: nat)
    requires Run(states, who, acts) && i < |states|
    ensures var d := states[i].data;
      ConnectionsActive(d) && Contiguous(d) && Replay(d.log) == d.envelopes
  {
    hide Step, Run;
    RunsKeepInv(states, who, acts, i);
  }

  // The transaction that a step of a run advances or ends.
  ghost predicate CommitsRotation(db: Db, t: TxID, act: Action, r: Rotation)
  {
    act.Commit? && t in db.txs && db.txs[t] == Rotate(r)
  }

  // Of any rotations of a secret with the same expected version at most one commits.
  lemma RotationsExclude(states: seq<Db>, who: seq<TxID>, acts: seq<Action>, i: nat, j: nat, x: Rotation, y: Rotation)
    requires Run(states, who, acts) && i < j < |acts|
    requires CommitsRotation(states[i], who[i], acts[i], x) && CommitsRotation(states[j], who[j], acts[j], y)
    requires x.ref == y.ref
    ensures x.expected != y.expected
  {
    hide Sound, Compatible, Statement;
    RunsKeepInv(states, who, acts, j);
    assert Step(states[i], who[i], acts[i], states[i + 1]) && Step(states[j], who[j], acts[j], states[j + 1]);
    assert x.NewKey() in states[i + 1].data.envelopes;
    hide Run;
    EnvelopesPersist(states, who, acts, i + 1, j, x.NewKey());
    assert Grounded(states[j].data, states[j].txs[who[j]]);
  }

  // An envelope of a is still there in b, and still retired if it was.
  predicate Keeps(a: Data, b: Data, k: Key)
  {
    k in a.envelopes ==> k in b.envelopes && (a.envelopes[k] ==> b.envelopes[k])
  }

  // Envelopes are never deleted, and retirement is permanent.
  lemma {:induction false} EnvelopesPersist(states: seq<Db>, who: seq<TxID>, acts: seq<Action>, i: nat, j: nat, k: Key)
    requires Run(states, who, acts) && i <= j < |states|
    ensures Keeps(states[i].data, states[j].data, k)
    decreases j
  {
    hide Run, Keeps;
    RunLengths(states, who, acts);
    if i < j {
      EnvelopesPersist(states, who, acts, i, j - 1, k);
      StepPersists(states, who, acts, j - 1, k);
      KeepsOn(states[i].data, states[j - 1].data, states[j].data, k);
    } else {
      KeepsItself(states[i].data, k);
    }
  }

  lemma StepPersists(states: seq<Db>, who: seq<TxID>, acts: seq<Action>, i: nat, k: Key)
    requires Run(states, who, acts) && i < |acts|
    ensures |states| == |acts| + 1 && Keeps(states[i].data, states[i + 1].data, k)
  {
    RunStep(states, who, acts, i);
    RunsKeepInv(states, who, acts, i);
    hide Step, Inv, Run, Keeps;
    StepKeepsEnvelope(states[i], who[i], acts[i], states[i + 1], k);
  }

  lemma KeepsItself(a: Data, k: Key)
    ensures Keeps(a, a, k)
  {
  }

  lemma KeepsOn(a: Data, b: Data, c: Data, k: Key)
    requires Keeps(a, b, k) && Keeps(b, c, k)
    ensures Keeps(a, c, k)
  {
  }

  lemma RunStep(states: seq<Db>, who: seq<TxID>, acts: seq<Action>, i: nat)
    requires Run(states, who, acts) && i < |acts|
    ensures |states| == |acts| + 1 && |who| == |acts| && Step(states[i], who[i], acts[i], states[i + 1])
  {
  }

  lemma RunLengths(states: seq<Db>, who: seq<TxID>, acts: seq<Action>)
    requires Run(states, who, acts)
    ensures |states| == |acts| + 1 && |who| == |acts|
  {
  }

  lemma StepKeepsEnvelope(a: Db, t: TxID, act: Action, b: Db, k: Key)
    requires Inv(a) && Step(a, t, act, b)
    ensures Keeps(a.data, b.data, k)
  {
    hide Compatible, Statement, Sound;
    if act.Commit? { assert Grounded(a.data, a.txs[t]); }
  }

  // A connection never comes to refer to a secret of another workspace.
  lemma StepKeepsWorkspace(a: Db, t: TxID, act: Action, b: Db, c: ConnID)
    requires Inv(a) && Step(a, t, act, b) && c in a.data.connections
    ensures c in b.data.connections && b.data.connections[c].ref.workspace == a.data.connections[c].ref.workspace
  {
    hide Compatible, Statement, Sound;
    if act.Commit? { assert Grounded(a.data, a.txs[t]); }
  }

  lemma {:induction false} WorkspacesAreFixed(states: seq<Db>, who: seq<TxID>, acts: seq<Action>, i: nat, j: nat, c: ConnID)
    requires Run(states, who, acts) && i <= j < |states| && c in states[i].data.connections
    ensures c in states[j].data.connections
    ensures states[j].data.connections[c].ref.workspace == states[i].data.connections[c].ref.workspace
    decreases j
  {
    hide Run, Step, Inv;
    RunLengths(states, who, acts);
    if i < j {
      WorkspacesAreFixed(states, who, acts, i, j - 1, c);
      RunStep(states, who, acts, j - 1);
      RunsKeepInv(states, who, acts, j - 1);
      StepKeepsWorkspace(states[j - 1], who[j - 1], acts[j - 1], states[j], c);
    }
  }

  // ---- What a rotation repoints ----

  ghost predicate Rotates(db: Db, t: TxID) { t in db.txs && db.txs[t].Rotate? }

  // In step s the UPDATE of rotation t finds its rows.
  ghost predicate Snapshots(states: seq<Db>, who: seq<TxID>, s: nat, t: TxID)
    requires |states| == |who| + 1
  {
    && s < |who| && who[s] == t && Rotates(states[s], t) && Rotates(states[s + 1], t)
    && states[s].txs[t].r.found.None? && states[s + 1].txs[t].r.found.Some?
  }

  // Its scan has been at the row of connection c.
  predicate Scanned(db: Db, t: TxID, c: ConnID)
  {
    t in db.txs && db.txs[t].Rotate? && c in db.txs[t].r.moved + db.txs[t].r.skipped
  }

  // In step m it gets to the row of connection c.
  ghost predicate ScansRow(states: seq<Db>, who: seq<TxID>, m: nat, t: TxID, c: ConnID)
    requires |states| == |who| + 1
  {
    && m < |who| && who[m] == t && Rotates(states[m], t) && Rotates(states[m + 1], t)
    && !Scanned(states[m], t, c) && Scanned(states[m + 1], t, c)
  }

  // Rotation t is one of ref whose UPDATE has found these rows.
  ghost predicate HasFound(db: Db, t: TxID, ref: Ref, rows: set<ConnID>)
  {
    Rotates(db, t) && db.txs[t].r.ref == ref && db.txs[t].r.found == Some(rows)
  }

  // From the step s that finds its rows until state k the rotation is under way.
  ghost predicate UnderWay(states: seq<Db>, who: seq<TxID>, s: nat, k: nat, t: TxID)
    requires |states| == |who| + 1
  {
    && s < k < |states| && Snapshots(states, who, s, t)
    && var ref := states[s].txs[t].r.ref;
       forall i: nat :: s < i <= k ==> HasFound(states[i], t, ref, Belonging(states[s].data, ref))
  }

  // What a step leaves of a rotation, be it its own step or that of another transaction.
  lemma StepOfRotation(a: Db, t: TxID, act: Action, b: Db, u: TxID)
    requires Step(a, t, act, b) && Rotates(b, u)
    ensures !Rotates(a, u) ==> b.txs[u].r.found.None?
    ensures Rotates(a, u) ==> b.txs[u] == a.txs[u] || (t == u && RotationStatement(a.data, a.txs[u].r, b.txs[u].r))
  {
    hide Compatible, RotationStatement, Committed;
  }

  lemma StatementFinds(d: Data, x: Rotation, y: Rotation)
    requires RotationStatement(d, x, y)
    ensures y.ref == x.ref
    ensures x.found.None? && y.found.Some? ==> y.found == Some(Belonging(d, x.ref))
    ensures x.found.Some? ==> y.found == x.found
  {
  }

  // A rotation whose UPDATE has found its rows did so in some step before.
  lemma {:induction false} SnapshotExists(states: seq<Db>, who: seq<TxID>, acts: seq<Action>, k: nat, t: TxID)
    returns (s: nat)
    requires Run(states, who, acts) && k < |states| && Rotates(states[k], t) && states[k].txs[t].r.found.Some?
    ensures UnderWay(states, who, s, k, t)
  {
    if k > 0 {
      RunStep(states, who, acts, k - 1);
      var (a, b) := (states[k - 1], states[k]);
      StepOfRotation(a, who[k - 1], acts[k - 1], b, t);
      if b.txs[t] != a.txs[t] { StatementFinds(a.data, a.txs[t].r, b.txs[t].r); }
      hide Step, RotationStatement, Belonging;
      s := k - 1;
      if a.txs[t].r.found.Some? {
        s := SnapshotExists(states, who, acts, k - 1, t);
      }
    }
  }

  lemma StatementScans(d: Data, x: Rotation, y: Rotation, c: ConnID)
    requires RotationStatement(d, x, y) && x.moved !! x.skipped && c in y.moved + y.skipped
    ensures c in x.moved + x.skipped ==> (c in y.moved <==> c in x.moved)
    ensures c !in x.moved + x.skipped ==> (c in y.moved <==> Refers(d, c, x.ref))
  {
  }

  lemma StepScans(a: Db, t: TxID, act: Action, b: Db, u: TxID, c: ConnID)
    requires Step(a, t, act, b) && Inv(a) && Rotates(a, u) && Scanned(b, u, c)
    ensures b.txs[u].r.ref == a.txs[u].r.ref
    ensures Scanned(a, u, c) ==> (c in b.txs[u].r.moved <==> c in a.txs[u].r.moved)
    ensures !Scanned(a, u, c) ==> t == u && (c in b.txs[u].r.moved <==> Refers(a.data, c, a.txs[u].r.ref))
  {
    StepOfRotation(a, t, act, b, u);
    assert Grounded(a.data, a.txs[u]);
    if b.txs[u] != a.txs[u] {
      StatementScans(a.data, a.txs[u].r, b.txs[u].r, c);
      StatementFinds(a.data, a.txs[u].r, b.txs[u].r);
    }
    hide Step, Inv, Refers, RotationStatement, Grounded;
  }

  // A row scanned was moved if and only if it belonged to the secret when the scan got to it.
  lemma {:induction false} ScanDecides(states: seq<Db>, who: seq<TxID>, acts: seq<Action>, s: nat, k: nat, t: TxID, c: ConnID)
    returns (m: nat)
    requires Run(states, who, acts) && UnderWay(states, who, s, k, t) && Scanned(states[k], t, c)
    ensures s < m < k && ScansRow(states, who, m, t, c)
    ensures c in states[k].txs[t].r.moved <==> Refers(states[m].data, c, states[k].txs[t].r.ref)
    decreases k
  {
    hide Run, Step, Inv, Refers, UnderWay, Snapshots, Rotates;
    RunLengths(states, who, acts);
    UnderWayBefore(states, who, s, k, t);
    if k == s + 1 {
      NothingScanned(states, who, acts, s, t, c);
    } else {
      RunStep(states, who, acts, k - 1);
      RunsKeepInv(states, who, acts, k - 1);
      StepScans(states[k - 1], who[k - 1], acts[k - 1], states[k], t, c);
      m := k - 1;
      if Scanned(states[k - 1], t, c) {
        m := ScanDecides(states, who, acts, s, k - 1, t, c);
      }
    }
  }

  lemma UnderWayBefore(states: seq<Db>, who: seq<TxID>, s: nat, k: nat, t: TxID)
    requires |states| == |who| + 1 && UnderWay(states, who, s, k, t)
    ensures s < k < |states| && Snapshots(states, who, s, t) && Rotates(states[k], t)
    ensures s < k - 1 ==> UnderWay(states, who, s, k - 1, t) && Rotates(states[k - 1], t)
  {
    hide Belonging;
    var ref := states[s].txs[t].r.ref;
    assert HasFound(states[k], t, ref, Belonging(states[s].data, ref));
    if s < k - 1 { assert HasFound(states[k - 1], t, ref, Belonging(states[s].data, ref)); }
  }

  lemma NothingScanned(states: seq<Db>, who: seq<TxID>, acts: seq<Action>, s: nat, t: TxID, c: ConnID)
    requires Run(states, who, acts) && Snapshots(states, who, s, t)
    ensures !Scanned(states[s + 1], t, c)
  {
    RunStep(states, who, acts, s);
    RunsKeepInv(states, who, acts, s);
    assert Grounded(states[s].data, states[s].txs[t]);
    StepOfRotation(states[s], who[s], acts[s], states[s + 1], t);
  }

  // What a commit makes of a connection, by whether the rotation moved it.
  lemma CommitRepointsMoved(d: Data, r: Rotation, c: ConnID)
    requires Sound(d) && Grounded(d, Rotate(r)) && r.audited && c in d.connections
    ensures var b := Committed(d, Rotate(r));
      && c in b.connections && r.found == Some(r.moved + r.skipped)
      && (c in r.moved <==> b.connections[c] == r.NewKey()) && (c !in r.moved ==> b.connections[c] == d.connections[c])
  {
  }

  // Of every rotation that commits: a connection is repointed if and only if it belonged to the secret both when the
  // UPDATE found its rows and when its scan got to the row; any other keeps its version.
  lemma RotationRepointsIff(states: seq<Db>, who: seq<TxID>, acts: seq<Action>, j: nat, t: TxID, r: Rotation, c: ConnID)
    returns (s: nat, m: nat)
    requires Run(states, who, acts) && j < |acts| && CommitsRotation(states[j], who[j], acts[j], r) && t == who[j]
    requires c in states[j].data.connections
    ensures UnderWay(states, who, s, j, t) && c in states[j + 1].data.connections
    ensures Refers(states[s].data, c, r.ref) ==> s < m < j && ScansRow(states, who, m, t, c)
    ensures var b := states[j + 1].data;
      if Refers(states[s].data, c, r.ref) && Refers(states[m].data, c, r.ref) then b.connections[c] == r.NewKey()
      else b.connections[c] == states[j].data.connections[c] != r.NewKey()
  {
    RunStep(states, who, acts, j);
    RunsKeepInv(states, who, acts, j);
    CommitRepointsMoved(states[j].data, r, c);
    s := SnapshotExists(states, who, acts, j, t);
    assert HasFound(states[j], t, r.ref, Belonging(states[s].data, r.ref));
    m := s;
    hide Step, Inv, Run, Sound, Grounded;
    if Refers(states[s].data, c, r.ref) {
      m := ScanDecides(states, who, acts, s, j, t, c);
    }
  }

  // No connection is created or updated between states i and j: whatever else happens, rotations included, each keeps its
  // secret.
  ghost predicate Undisturbed(states: seq<Db>, who: seq<TxID>, acts: seq<Action>, i: nat, j: nat)
    requires i <= j < |states| == |acts| + 1 && |who| == |acts|
  {
    forall k :: i <= k < j && acts[k].Commit? && who[k] in states[k].txs ==>
      !states[k].txs[who[k]].Connect? && !states[k].txs[who[k]].Update?
  }

  lemma StepKeepsSecrets(a: Db, t: TxID, act: Action, b: Db, c: ConnID, ref: Ref)
    requires Inv(a) && Step(a, t, act, b)
    requires act.Commit? ==> t in a.txs && !a.txs[t].Connect? && !a.txs[t].Update?
    ensures Refers(b.data, c, ref) == Refers(a.data, c, ref) && b.data.connections.Keys == a.data.connections.Keys
  {
    hide Compatible, Statement, Sound;
    if act.Commit? { assert Grounded(a.data, a.txs[t]); }
  }

  lemma {:induction false} SecretsStay(states: seq<Db>, who: seq<TxID>, acts: seq<Action>, i: nat, j: nat, c: ConnID, ref: Ref)
    requires Run(states, who, acts) && i <= j < |states| && Undisturbed(states, who, acts, i, j)
    ensures Refers(states[j].data, c, ref) == Refers(states[i].data, c, ref)
    ensures states[j].data.connections.Keys == states[i].data.connections.Keys
    decreases j
  {
    if i < j {
      SecretsStay(states, who, acts, i, j - 1, c, ref);
      RunsKeepInv(states, who, acts, j - 1);
      RunStep(states, who, acts, j - 1);
      hide Run, Inv, Refers;
      assert acts[j - 1].Commit? ==> who[j - 1] in states[j - 1].txs;
      hide Step;
      StepKeepsSecrets(states[j - 1], who[j - 1], acts[j - 1], states[j], c, ref);
    }
  }

  // A rotation between whose UPDATE and commit no connection is created or updated repoints every connection of the
  // secret to its new version, and no other.
  lemma RotationRepointsAll(states: seq<Db>, who: seq<TxID>, acts: seq<Action>, s: nat, j: nat, t: TxID, r: Rotation)
    requires Run(states, who, acts) && j < |acts| && CommitsRotation(states[j], t, acts[j], r) && t == who[j]
    requires UnderWay(states, who, s, j, t) && Undisturbed(states, who, acts, s, j)
    ensures var (d, a, b) := (states[s].data, states[j].data, states[j + 1].data);
      && b.connections.Keys == a.connections.Keys == d.connections.Keys
      && forall c :: c in b.connections ==>
           b.connections[c] == if d.connections[c].ref == r.ref then r.NewKey() else a.connections[c]
  {
    var (d, a, b) := (states[s].data, states[j].data, states[j + 1].data);
    assert b.connections.Keys == a.connections.Keys by { RunStep(states, who, acts, j); }
    SecretsStay(states, who, acts, s, j, 0, r.ref);
    forall c | c in b.connections
      ensures b.connections[c] == if d.connections[c].ref == r.ref then r.NewKey() else a.connections[c]
    {
      MovedIffBelonging(states, who, acts, s, j, t, r, c);
    }
  }

  lemma MovedIffBelonging(states: seq<Db>, who: seq<TxID>, acts: seq<Action>, s: nat, j: nat, t: TxID, r: Rotation, c: ConnID)
    requires Run(states, who, acts) && j < |acts| && CommitsRotation(states[j], t, acts[j], r) && t == who[j]
    requires UnderWay(states, who, s, j, t) && Undisturbed(states, who, acts, s, j) && c in states[j].data.connections
    ensures c in states[s].data.connections && c in states[j + 1].data.connections
    ensures states[j + 1].data.connections[c] ==
      if states[s].data.connections[c].ref == r.ref then r.NewKey() else states[j].data.connections[c]
  {
    RunStep(states, who, acts, j);
    RunsKeepInv(states, who, acts, j);
    SecretsStay(states, who, acts, s, j, c, r.ref);
    CommitRepointsMoved(states[j].data, r, c);
    assert HasFound(states[j], t, r.ref, Belonging(states[s].data, r.ref));
    hide Step, Inv, Sound, Grounded;
    if Refers(states[s].data, c, r.ref) {
      var m := ScanDecides(states, who, acts, s, j, t, c);
      SecretsStay(states, who, acts, s, m, c, r.ref);
    }
  }

  // ---- A rotation that misses a connection ----

  ghost predicate RunTo(states: seq<Db>, who: seq<TxID>, acts: seq<Action>, db: Db)
  {
    Run(states, who, acts) && states[|acts|] == db
  }

  ghost predicate Reachable(db: Db) { exists states, who, acts :: RunTo(states, who, acts, db) }

  lemma StepReaches(a: Db, t: TxID, act: Action, b: Db)
    requires Reachable(a) && Step(a, t, act, b)
    ensures Reachable(b)
  {
    hide Step;
    var states, who, acts :| RunTo(states, who, acts, a);
    assert RunTo(states + [b], who + [t], acts + [act], b);
  }

  // A transaction that goes through xs beside the others txs.
  ghost predicate Goes(d: Data, txs: map<TxID, Tx>, t: TxID, xs: seq<Tx>)
  {
    && t !in txs && xs != [] && Fresh(xs[0])
    && (forall i :: 0 < i < |xs| ==> Statement(d, xs[i - 1], xs[i]))
    && (forall i, u :: 0 <= i < |xs| && u in txs ==> Compatible(xs[i], txs[u]))
  }

  lemma {:induction false} GoingReaches(d: Data, txs: map<TxID, Tx>, t: TxID, xs: seq<Tx>)
    requires Reachable(Db(d, txs)) && Goes(d, txs, t, xs)
    ensures Reachable(Db(d, txs[t := xs[|xs| - 1]]))
    decreases |xs|
  {
    hide Statement, Compatible, Reachable, Fresh;
    var (n, x) := (|xs| - 1, xs[|xs| - 1]);
    if n == 0 {
      StepReaches(Db(d, txs), t, Begin(x), Db(d, txs[t := x]));
    } else {
      GoingReaches(d, txs, t, xs[..n]);
      var a := Db(d, txs[t := xs[n - 1]]);
      assert a.txs[t := x] == txs[t := x];
      StepReaches(a, t, Advance, Db(d, txs[t := x]));
    }
  }

  lemma CommitReaches(d: Data, txs: map<TxID, Tx>, t: TxID, xs: seq<Tx>)
    requires Reachable(Db(d, txs)) && Goes(d, txs, t, xs) && xs[|xs| - 1].Audited()
    ensures Reachable(Db(Committed(d, xs[|xs| - 1]), txs))
  {
    GoingReaches(d, txs, t, xs);
    var x := xs[|xs| - 1];
    hide Goes, Reachable, Committed;
    assert txs[t := x] - {t} == txs;
    StepReaches(Db(d, txs[t := x]), t, Commit, Db(Committed(d, x), txs));
  }

  const SECRET := Ref(0, 0)

  const ONE_VERSION := Data(map[Key(SECRET, 1) := false], map[], [CredentialCreated(SECRET, 1)])

  const TWO_VERSIONS := Data(map[Key(SECRET, 1) := false, Key(SECRET, 2) := false], map[],
                             [CredentialCreated(SECRET, 1), CredentialRotated(SECRET, 1, 2)])

  // A rotation from version v that finds no connection, up to the end of its UPDATE.
  function Finding(v: int): seq<Tx>
  {
    var r := Rotation(SECRET, v, None, false, false, None, {}, {}, false, false);
    var picked := r.(picked := Some(v));
    [Rotate(r), Rotate(picked), Rotate(picked.(locked := true)), Rotate(picked.(locked := true, inserted := true)),
     Rotate(picked.(locked := true, inserted := true, found := Some({})))]
  }

  function Ending(v: int): seq<Tx>
  {
    var r := Finding(v)[4].r;
    [Rotate(r.(repointed := true)), Rotate(r.(repointed := true, audited := true))]
  }

  lemma OneVersionReached()
    ensures Reachable(Db(ONE_VERSION, map[]))
  {
    var (c, d) := (Creation(SECRET, false, false), Data(map[], map[], []));
    var xs := [Create(c), Create(c.(inserted := true)), Create(c.(inserted := true, audited := true))];
    assert RunTo([Empty], [], [], Db(d, map[]));
    CommitReaches(d, map[], 0, xs);
    assert d.log + [CredentialCreated(SECRET, 1)] == ONE_VERSION.log;
  }

  lemma FindingGoes(d: Data, v: int, t: TxID)
    requires d.connections == map[] && Latest(d, SECRET, v) && Active(d, Key(SECRET, v)) && Key(SECRET, v + 1) !in d.envelopes
    ensures Goes(d, map[], t, Finding(v)) && Goes(d, map[], t, Finding(v) + Ending(v))
  {
    assert Belonging(d, SECRET) == {};
    hide Latest, Active;
  }

  lemma TwoVersionsReached()
    ensures Reachable(Db(TWO_VERSIONS, map[]))
  {
    hide Reachable;
    OneVersionReached();
    FindingGoes(ONE_VERSION, 1, 0);
    hide Goes;
    CommitReaches(ONE_VERSION, map[], 0, Finding(1) + Ending(1));
    var b := Committed(ONE_VERSION, Ending(1)[1]);
    assert b.connections == map[] && b.log == TWO_VERSIONS.log && b.envelopes == TWO_VERSIONS.envelopes;
  }

  // Connection 0 is created on the older of two active versions while the newer is rotated: the rotation commits, and the
  // connection, of the same secret, stays where it was put.
  lemma RotationMissesConnection() returns (db: Db, t: TxID, r: Rotation)
    ensures Reachable(db) && CommitsRotation(db, t, Commit, r) && r.audited
    ensures Refers(db.data, 0, r.ref)
    ensures var b := Committed(db.data, Rotate(r)); 0 in b.connections && b.connections[0] == Key(r.ref, 1) != r.NewKey()
  {
    hide Reachable;
    TwoVersionsReached();
    FindingGoes(TWO_VERSIONS, 2, 0);
    hide Goes;
    GoingReaches(TWO_VERSIONS, map[], 0, Finding(2));
    var others := map[0 := Finding(2)[4]];
    var n := Connecting(0, Key(SECRET, 1), false, false);
    var xs := [Connect(n), Connect(n.(inserted := true)), Connect(n.(inserted := true, audited := true))];
    ConnectingGoes(xs);
    CommitReaches(TWO_VERSIONS, others, 1, xs);
    var d := Committed(TWO_VERSIONS, xs[2]);
    var (x, y, z) := (Finding(2)[4], Ending(2)[0], Ending(2)[1]);
    StepReaches(Db(d, map[0 := x]), 0, Advance, Db(d, map[0 := y]));
    StepReaches(Db(d, map[0 := y]), 0, Advance, Db(d, map[0 := z]));
    db, t, r := Db(d, map[0 := z]), 0, z.r;
  }

  lemma ConnectingGoes(xs: seq<Tx>)
    requires var n := Connecting(0, Key(SECRET, 1), false, false);
      xs == [Connect(n), Connect(n.(inserted := true)), Connect(n.(inserted := true, audited := true))]
    ensures Goes(TWO_VERSIONS, map[0 := Finding(2)[4]], 1, xs)
  {
  }

  // The other transactions commit as well: an unused version can be retired, and a connection moved to another version.
  lemma RetirementReached() returns (db: Db)
    ensures Reachable(db) && Key(SECRET, 1) in db.data.envelopes && db.data.envelopes[Key(SECRET, 1)]
  {
    hide Reachable;
    TwoVersionsReached();
    var t := Retirement(Key(SECRET, 1), false, false, None, {}, false, false, false);
    var found := t.(locked := true, found := Some({}));
    var xs := [Retire(t), Retire(t.(locked := true)), Retire(found), Retire(found.(unused := true)),
               Retire(found.(unused := true, marked := true)), Retire(found.(unused := true, marked := true, audited := true))];
    RetiringGoes(xs, t);
    CommitReaches(TWO_VERSIONS, map[], 0, xs);
    db := Db(Committed(TWO_VERSIONS, xs[5]), map[]);
  }

  lemma RetiringGoes(xs: seq<Tx>, t: Retirement)
    requires t == Retirement(Key(SECRET, 1), false, false, None, {}, false, false, false)
    requires var found := t.(locked := true, found := Some({}));
      xs == [Retire(t), Retire(t.(locked := true)), Retire(found), Retire(found.(unused := true)),
             Retire(found.(unused := true, marked := true)), Retire(found.(unused := true, marked := true, audited := true))]
    ensures Goes(TWO_VERSIONS, map[], 0, xs)
  {
    var (d, locked, found) := (TWO_VERSIONS, t.(locked := true), t.(locked := true, found := Some({})));
    assert UsersOf(d, t.key) == {};
    assert RetirementStatement(d, t, locked) && RetirementStatement(d, locked, found);
    assert RetirementStatement(d, found, found.(unused := true));
    assert RetirementStatement(d, found.(unused := true), found.(unused := true, marked := true));
    assert RetirementStatement(d, found.(unused := true, marked := true), found.(unused := true, marked := true, audited := true));
    hide RetirementStatement;
  }

  lemma UpdateReached() returns (db: Db)
    ensures Reachable(db) && 0 in db.data.connections && db.data.connections[0] == Key(SECRET, 2)
  {
    hide Reachable;
    TwoVersionsReached();
    var n := Connecting(0, Key(SECRET, 1), false, false);
    var xs := [Connect(n), Connect(n.(inserted := true)), Connect(n.(inserted := true, audited := true))];
    CommitReaches(TWO_VERSIONS, map[], 0, xs);
    var d := Committed(TWO_VERSIONS, xs[2]);
    var u := Updating(0, Key(SECRET, 2), false, false, false);
    var ys := [Update(u), Update(u.(shared := true)), Update(u.(shared := true, updated := true)),
               Update(u.(shared := true, updated := true, audited := true))];
    CommitReaches(d, map[], 0, ys);
    db := Db(Committed(d, ys[3]), map[]);
  }
}
