/** apps/api/internal/seeddemo: seeding the demo tenants, which may be cut short at any write and run again. */
module SeedDemo {
  import opened Prelude
  import opened Sql

  // E-mail addresses stand for their lower-case form.
  datatype User = User(email: string, hash: string, active: bool)

  datatype Role = Owner | OtherRole

  datatype Key = Key(ws: nat, ref: nat, version: nat)

  datatype Envelope = Envelope(user: string, password: string, retired: bool)

  datatype Target = Target(name: string, engine: Engine, host: string, port: int, database: string, environment: string)

  datatype Connection = Connection(ws: nat, target: Target, ref: nat, version: nat, createdBy: nat)

  datatype Policy = Policy(read: bool, write: bool, exports: bool, timeoutMs: int, maxRows: int)

  const SAFE := Policy(true, false, false, 5000, 500)

  datatype Spec = Spec(id: nat, target: Target, user: string, password: string)

  datatype Tenant = Tenant(ws: nat, name: string, user: nat, email: string)

  // The demo tenant with its connections, and the second tenant with one connection of its own.
  datatype Config = Config(demo: Tenant, specs: seq<Spec>, foreign: Tenant, foreignSpec: Spec, hash: string)

  // refs: secret references drawn so far.
  datatype Db = Db(workspaces: map<nat, string>, users: map<nat, User>, members: map<(nat, nat), Role>,
    envelopes: map<Key, Envelope>, connections: map<nat, Connection>, policies: map<(nat, nat), Policy>, refs: nat)

  const EMPTY := Db(map[], map[], map[], map[], map[], map[], 0)

  predicate Distinct(c: Config)
  {
    && c.demo.ws != c.foreign.ws && c.demo.user != c.foreign.user && c.demo.email != c.foreign.email
    && (forall i :: 0 <= i < |c.specs| ==> c.specs[i].id != c.foreignSpec.id)
    && (forall i, j :: 0 <= i < j < |c.specs| ==> c.specs[i].id != c.specs[j].id && c.specs[i].target.name != c.specs[j].target.name)
  }

  // ---- What the database enforces ----

  predicate EmailTaken(db: Db, email: string) { exists u :: u in db.users && db.users[u].email == email }

  predicate NameTaken(db: Db, ws: nat, name: string)
  {
    exists id :: id in db.connections && db.connections[id].ws == ws && db.connections[id].target.name == name
  }

  predicate Referenced(db: Db, ws: nat, ref: nat)
  {
    exists id :: id in db.connections && db.connections[id].ws == ws && db.connections[id].ref == ref
  }

  ghost predicate Orphan(db: Db, k: Key)
  {
    k in db.envelopes && !db.envelopes[k].retired && !Referenced(db, k.ws, k.ref)
  }

  // An active envelope of the workspace that no connection there refers to.
  ghost predicate Stranded(db: Db, ws: nat)
  {
    exists k :: Orphan(db, k) && k.ws == ws
  }

  ghost predicate Consistent(db: Db)
  {
    && (forall k :: k in db.envelopes ==> k.ref < db.refs)
    && (forall id :: id in db.connections ==> db.connections[id].ref < db.refs)
    && (forall p :: p in db.policies ==> p.1 in db.connections)
  }

  // Every row of a is in b as it was, and connections added since refer to secrets drawn since.
  ghost predicate Grown(a: Db, b: Db)
  {
    && a.refs <= b.refs
    && (forall w :: w in a.workspaces ==> w in b.workspaces && b.workspaces[w] == a.workspaces[w])
    && (forall u :: u in a.users ==> u in b.users && b.users[u] == a.users[u])
    && (forall m :: m in a.members ==> m in b.members && b.members[m] == a.members[m])
    && (forall k :: k in a.envelopes ==> k in b.envelopes && b.envelopes[k] == a.envelopes[k])
    && (forall id :: id in a.connections ==> id in b.connections && b.connections[id] == a.connections[id])
    && (forall id :: id in b.connections && id !in a.connections ==> b.connections[id].ref >= a.refs)
    && (forall p :: p in a.policies ==> p in b.policies && b.policies[p] == a.policies[p])
  }

  lemma GrownTransitive(a: Db, b: Db, c: Db)
    requires Grown(a, b) && Grown(b, c)
    ensures Grown(a, c)
  {
  }

  lemma StrandedStays(a: Db, b: Db, ws: nat)
    requires Consistent(a) && Grown(a, b) && Stranded(a, ws)
    ensures Stranded(b, ws)
  {
    var k :| Orphan(a, k) && k.ws == ws;
    assert Orphan(b, k);
  }

  // ---- The state seeding is after ----

  predicate UserOk(u: User, t: Tenant) { u.active && u.email == t.email }

  // The connection and its credential are those of the specification.
  ghost predicate Attached(db: Db, ws: nat, s: Spec)
  {
    && s.id in db.connections && db.connections[s.id].ws == ws && db.connections[s.id].target == s.target
    && var k := Key(ws, db.connections[s.id].ref, db.connections[s.id].version);
       k in db.envelopes && db.envelopes[k] == Envelope(s.user, s.password, false)
  }

  ghost predicate DemoOk(c: Config, db: Db, s: Spec)
  {
    Attached(db, c.demo.ws, s) && ((c.demo.ws, s.id) in db.policies ==> db.policies[(c.demo.ws, s.id)] == SAFE)
  }

  // ... and its policy is there.
  ghost predicate Ready(c: Config, db: Db, s: Spec)
  {
    DemoOk(c, db, s) && (c.demo.ws, s.id) in db.policies
  }

  ghost predicate ForeignOk(c: Config, db: Db)
  {
    Attached(db, c.foreign.ws, c.foreignSpec) && db.connections[c.foreignSpec.id].createdBy == c.foreign.user
  }

  ghost predicate IdentityOk(db: Db, t: Tenant)
  {
    && (t.ws in db.workspaces ==> db.workspaces[t.ws] == t.name)
    && (if t.user in db.users then UserOk(db.users[t.user], t) else !EmailTaken(db, t.email))
    && ((t.ws, t.user) in db.members ==> db.members[(t.ws, t.user)] == Owner)
  }

  ghost predicate IdentityThere(db: Db, t: Tenant)
  {
    && t.ws in db.workspaces && db.workspaces[t.ws] == t.name && t.user in db.users && UserOk(db.users[t.user], t)
    && (t.ws, t.user) in db.members && db.members[(t.ws, t.user)] == Owner
  }

  // Nothing stands in the way of seeding: what is there already is as seeding would write it.
  ghost predicate Seedable(c: Config, db: Db)
  {
    && IdentityOk(db, c.demo) && IdentityOk(db, c.foreign)
    && (c.foreign.user in db.users ==> db.users[c.foreign.user].hash == c.hash)
    && (forall i :: 0 <= i < |c.specs| ==>
         if c.specs[i].id in db.connections then DemoOk(c, db, c.specs[i]) else !NameTaken(db, c.demo.ws, c.specs[i].target.name))
    && (if c.foreignSpec.id in db.connections then ForeignOk(c, db) else !NameTaken(db, c.foreign.ws, c.foreignSpec.target.name))
    && !Stranded(db, c.demo.ws) && !Stranded(db, c.foreign.ws)
  }

  ghost predicate Seeded(c: Config, db: Db)
  {
    && IdentityThere(db, c.demo) && IdentityThere(db, c.foreign) && db.users[c.foreign.user].hash == c.hash
    && (forall i :: 0 <= i < |c.specs| ==> Ready(c, db, c.specs[i]))
    && ForeignOk(c, db)
    && !Stranded(db, c.demo.ws) && !Stranded(db, c.foreign.ws)
  }

  // A seeded connection may be read from, up to 500 rows in five seconds, and neither written to nor exported from.
  lemma SeededOnlyReads(c: Config, db: Db, i: nat)
    requires Seeded(c, db) && i < |c.specs|
    ensures (c.demo.ws, c.specs[i].id) in db.policies
    ensures var p := db.policies[(c.demo.ws, c.specs[i].id)];
      p.read && !p.write && !p.exports && p.timeoutMs == 5000 && p.maxRows == 500
  {
    assert Ready(c, db, c.specs[i]);
    hide Stranded, IdentityThere, ForeignOk, Attached;
  }

  lemma SeededIsSeedable(c: Config, db: Db)
    requires Seeded(c, db)
    ensures Seedable(c, db)
  {
  }

  lemma EmptyIsSeedable(c: Config)
    ensures Seedable(c, EMPTY) && Consistent(EMPTY)
  {
  }

  // ---- One step of a run ----

  // What a step does to any database, and to one that nothing stands in the way of seeding: it leaves it so, or leaves
  // an envelope without its connection (gap); and it cannot fail if no write does (sure).
  ghost predicate Step(c: Config, a: Db, b: Db, ok: bool, sure: bool, gap: bool)
  {
    && Consistent(b) && Grown(a, b) && (gap ==> !ok)
    && (Seedable(c, a) ==>
         && (if gap then Stranded(b, c.demo.ws) || Stranded(b, c.foreign.ws) else Seedable(c, b))
         && (sure ==> ok))
    && (Seeded(c, a) ==> b == a)
  }

  lemma Standstill(c: Config, a: Db, ok: bool, sure: bool)
    requires Consistent(a) && (Seedable(c, a) && sure ==> ok)
    ensures Step(c, a, a, ok, sure, false)
  {
    hide Seedable, Seeded;
  }

  lemma StepsCompose(c: Config, a: Db, b: Db, d: Db, ok: bool, sure: bool, gap: bool)
    requires Step(c, a, b, true, sure, false) && Step(c, b, d, ok, sure, gap)
    ensures Step(c, a, d, ok, sure, gap)
  {
    GrownTransitive(a, b, d);
    hide Seedable, Seeded, Grown, Consistent, Stranded;
  }

  lemma WorkspaceAdded(c: Config, a: Db, t: Tenant)
    requires Consistent(a) && Distinct(c) && t in {c.demo, c.foreign} && t.ws !in a.workspaces
    ensures Step(c, a, a.(workspaces := a.workspaces[t.ws := t.name]), true, true, false)
  {
    var b := a.(workspaces := a.workspaces[t.ws := t.name]);
    SameStrands(a, b, c.demo.ws);
    SameStrands(a, b, c.foreign.ws);
    hide Stranded;
  }

  lemma UserAdded(c: Config, a: Db, t: Tenant)
    requires Consistent(a) && Distinct(c) && t in {c.demo, c.foreign} && t.user !in a.users
    ensures Step(c, a, a.(users := a.users[t.user := User(t.email, c.hash, true)]), true, true, false)
  {
    var b := a.(users := a.users[t.user := User(t.email, c.hash, true)]);
    SameStrands(a, b, c.demo.ws);
    SameStrands(a, b, c.foreign.ws);
    hide Stranded;
  }

  lemma MemberAdded(c: Config, a: Db, t: Tenant)
    requires Consistent(a) && Distinct(c) && t in {c.demo, c.foreign} && (t.ws, t.user) !in a.members
    ensures Step(c, a, a.(members := a.members[(t.ws, t.user) := Owner]), true, true, false)
  {
    var b := a.(members := a.members[(t.ws, t.user) := Owner]);
    SameStrands(a, b, c.demo.ws);
    SameStrands(a, b, c.foreign.ws);
    hide Stranded;
  }

  lemma SameStrands(a: Db, b: Db, ws: nat)
    requires a.envelopes == b.envelopes && a.connections == b.connections
    ensures Stranded(a, ws) == Stranded(b, ws)
  {
    if Stranded(a, ws) {
      var k :| Orphan(a, k) && k.ws == ws;
      assert Orphan(b, k);
    }
    if Stranded(b, ws) {
      var k :| Orphan(b, k) && k.ws == ws;
      assert Orphan(a, k);
    }
  }

  // A new credential, and the connection that refers to it.
  function WithCredential(a: Db, ws: nat, s: Spec): Db
  {
    a.(envelopes := a.envelopes[Key(ws, a.refs, 1) := Envelope(s.user, s.password, false)], refs := a.refs + 1)
  }

  function WithConnection(a: Db, t: Tenant, s: Spec, ref: nat): Db
  {
    a.(connections := a.connections[s.id := Connection(t.ws, s.target, ref, 1, t.user)])
  }

  lemma CredentialStrands(a: Db, ws: nat, s: Spec)
    requires Consistent(a)
    ensures Consistent(WithCredential(a, ws, s)) && Grown(a, WithCredential(a, ws, s)) && Stranded(WithCredential(a, ws, s), ws)
  {
    assert Orphan(WithCredential(a, ws, s), Key(ws, a.refs, 1));
  }

  // The demo connections belong to the demo tenant, the other one to the second.
  predicate Owns(c: Config, t: Tenant, s: Spec)
  {
    (t == c.demo && s in c.specs) || (t == c.foreign && s == c.foreignSpec)
  }

  lemma ReferencedStays(a: Db, b: Db, ws: nat, ref: nat)
    requires Grown(a, b)
    ensures Referenced(a, ws, ref) ==> Referenced(b, ws, ref)
  {
    if Referenced(a, ws, ref) {
      var id :| id in a.connections && a.connections[id].ws == ws && a.connections[id].ref == ref;
      assert id in b.connections;
    }
  }

  lemma NoNewStrands(a: Db, t: Tenant, s: Spec, ws: nat)
    requires Consistent(a) && s.id !in a.connections && Stranded(WithConnection(WithCredential(a, t.ws, s), t, s, a.refs), ws)
    ensures Stranded(a, ws)
  {
    var b := WithConnection(WithCredential(a, t.ws, s), t, s, a.refs);
    assert Referenced(b, t.ws, a.refs) by { assert s.id in b.connections; }
    var k :| Orphan(b, k) && k.ws == ws;
    ReferencedStays(a, b, k.ws, k.ref);
    assert Orphan(a, k);
  }

  lemma ConnectionKeepsConsistent(a: Db, t: Tenant, s: Spec)
    requires Consistent(a) && s.id !in a.connections
    ensures var b := WithConnection(WithCredential(a, t.ws, s), t, s, a.refs);
      Consistent(b) && Grown(a, b) && Attached(b, t.ws, s) && b.connections[s.id].createdBy == t.user
      && (t.ws, s.id) !in b.policies
  {
  }

  // What a larger database keeps of a connection, and what it says of names.
  lemma AttachedStays(a: Db, b: Db, ws: nat, s: Spec)
    requires Grown(a, b) && Attached(a, ws, s)
    ensures Attached(b, ws, s)
  {
  }

  lemma NameStaysFree(a: Db, t: Tenant, s: Spec, ws: nat, name: string)
    requires !NameTaken(a, ws, name) && (ws != t.ws || name != s.target.name)
    ensures !NameTaken(WithConnection(WithCredential(a, t.ws, s), t, s, a.refs), ws, name)
  {
  }

  lemma ConnectionAdded(c: Config, a: Db, t: Tenant, s: Spec)
    requires Consistent(a) && Distinct(c) && Owns(c, t, s) && s.id !in a.connections
    ensures Step(c, a, WithConnection(WithCredential(a, t.ws, s), t, s, a.refs), true, true, false)
  {
    var b := WithConnection(WithCredential(a, t.ws, s), t, s, a.refs);
    ConnectionKeepsConsistent(a, t, s);
    assert !Seeded(c, a) by {
      if t == c.demo && s in c.specs { var i :| 0 <= i < |c.specs| && c.specs[i] == s; }
    }
    if Seedable(c, a) {
      ConnectionKeepsSeedable(c, a, t, s);
    }
    hide Seedable, Seeded, Grown, Consistent;
  }

  lemma ConnectionKeepsSeedable(c: Config, a: Db, t: Tenant, s: Spec)
    requires Consistent(a) && Distinct(c) && Owns(c, t, s) && s.id !in a.connections && Seedable(c, a)
    ensures Seedable(c, WithConnection(WithCredential(a, t.ws, s), t, s, a.refs))
  {
    var b := WithConnection(WithCredential(a, t.ws, s), t, s, a.refs);
    ConnectionKeepsConsistent(a, t, s);
    if Stranded(b, c.demo.ws) { NoNewStrands(a, t, s, c.demo.ws); }
    if Stranded(b, c.foreign.ws) { NoNewStrands(a, t, s, c.foreign.ws); }
    hide Stranded, Consistent;
    forall i | 0 <= i < |c.specs| ensures
      if c.specs[i].id in b.connections then DemoOk(c, b, c.specs[i]) else !NameTaken(b, c.demo.ws, c.specs[i].target.name)
    {
      var r := c.specs[i];
      if r.id in a.connections {
        AttachedStays(a, b, c.demo.ws, r);
      } else if r != s {
        NameStaysFree(a, t, s, c.demo.ws, r.target.name);
      }
    }
    if c.foreignSpec.id in a.connections {
      AttachedStays(a, b, c.foreign.ws, c.foreignSpec);
    } else if s != c.foreignSpec {
      NameStaysFree(a, t, s, c.foreign.ws, c.foreignSpec.target.name);
    }
  }

  lemma PolicyAdded(c: Config, a: Db, s: Spec)
    requires Consistent(a) && Distinct(c) && s in c.specs && Attached(a, c.demo.ws, s) && (c.demo.ws, s.id) !in a.policies
    ensures Step(c, a, a.(policies := a.policies[(c.demo.ws, s.id) := SAFE]), true, true, false)
  {
    var b := a.(policies := a.policies[(c.demo.ws, s.id) := SAFE]);
    SameStrands(a, b, c.demo.ws);
    SameStrands(a, b, c.foreign.ws);
    hide Stranded;
    assert !Seeded(c, a) by { var i :| 0 <= i < |c.specs| && c.specs[i] == s; }
  }

  lemma GapStrands(c: Config, a: Db, t: Tenant, s: Spec, sure: bool)
    requires Consistent(a) && t in {c.demo, c.foreign} && !Seeded(c, a) && (Seedable(c, a) ==> !sure)
    ensures Step(c, a, WithCredential(a, t.ws, s), false, sure, true)
  {
    CredentialStrands(a, t.ws, s);
    hide Seedable, Seeded, Grown, Consistent, Stranded;
  }

  // The connection of a specification is missing, so the database is not seeded; where its id or its name is taken by
  // another connection, it cannot be.
  lemma MissingConnection(c: Config, a: Db, t: Tenant, s: Spec)
    requires Distinct(c) && Owns(c, t, s) && (s.id in a.connections ==> a.connections[s.id].ws != t.ws)
    ensures !Seeded(c, a)
    ensures s.id in a.connections || NameTaken(a, t.ws, s.target.name) ==> !Seedable(c, a)
  {
    if t == c.demo && s in c.specs {
      var i :| 0 <= i < |c.specs| && c.specs[i] == s;
      assert !DemoOk(c, a, c.specs[i]);
    }
    hide Stranded, NameTaken, IdentityOk, IdentityThere;
  }

  // ---- A run ----

  class Seeder {
    const c: Config
    var db: Db
    // How many more writes succeed before the run is cut short; None: it is not.
    var fuel: Option<nat>

    constructor (c: Config, db: Db, fuel: Option<nat>)
      ensures this.c == c && this.db == db && this.fuel == fuel
    {
      this.c, this.db, this.fuel := c, db, fuel;
    }

    method Write() returns (ok: bool)
      modifies this`fuel
      ensures fuel.None? == old(fuel.None?) && (fuel.None? ==> ok)
    {
      match fuel {
        case None => ok := true;
        case Some(n) =>
          ok := n > 0;
          if ok { fuel := Some(n - 1); }
      }
    }

    // createWorkspaceWithID and its companions: INSERT … ON CONFLICT DO NOTHING.
    method AddWorkspace(t: Tenant) returns (ok: bool)
      requires Consistent(db) && Distinct(c) && t in {c.demo, c.foreign}
      modifies this
      ensures fuel.None? == old(fuel.None?) && Step(c, old(db), db, ok, fuel.None?, false)
      ensures db.connections == old(db.connections) && db.envelopes == old(db.envelopes)
      ensures ok ==> t.ws in db.workspaces && (t.ws !in old(db).workspaces ==> db.workspaces[t.ws] == t.name)
    {
      hide Step, Consistent;
      Standstill(c, db, false, false);
      Standstill(c, db, true, fuel.None?);
      ok := Write();
      if ok && t.ws !in db.workspaces {
        WorkspaceAdded(c, db, t);
        StepIsSure(c, db, db.(workspaces := db.workspaces[t.ws := t.name]), fuel.None?);
        db := db.(workspaces := db.workspaces[t.ws := t.name]);
      }
    }

    method AddUser(t: Tenant) returns (ok: bool)
      requires Consistent(db) && Distinct(c) && t in {c.demo, c.foreign}
      modifies this
      ensures fuel.None? == old(fuel.None?) && Step(c, old(db), db, ok, fuel.None?, false)
      ensures db.connections == old(db.connections) && db.envelopes == old(db.envelopes)
      ensures ok ==> t.user in db.users && (t.user !in old(db).users ==> db.users[t.user] == User(t.email, c.hash, true))
    {
      hide Step, Consistent;
      Standstill(c, db, false, false);
      Standstill(c, db, true, fuel.None?);
      ok := Write();
      if ok && t.user !in db.users {
        if EmailTaken(db, t.email) {
          // the index on lower-case addresses refuses the row
          IdentityInTheWay(c, db, t, fuel.None?);
          return false;
        }
        UserAdded(c, db, t);
        StepIsSure(c, db, db.(users := db.users[t.user := User(t.email, c.hash, true)]), fuel.None?);
        db := db.(users := db.users[t.user := User(t.email, c.hash, true)]);
      }
    }

    method AddMember(t: Tenant) returns (ok: bool)
      requires Consistent(db) && Distinct(c) && t in {c.demo, c.foreign}
      modifies this
      ensures fuel.None? == old(fuel.None?) && Step(c, old(db), db, ok, fuel.None?, false)
      ensures db.connections == old(db.connections) && db.envelopes == old(db.envelopes)
      ensures ok ==> (t.ws, t.user) in db.members && ((t.ws, t.user) !in old(db).members ==> db.members[(t.ws, t.user)] == Owner)
    {
      hide Step, Consistent;
      Standstill(c, db, false, false);
      Standstill(c, db, true, fuel.None?);
      ok := Write();
      if ok && (t.ws, t.user) !in db.members {
        MemberAdded(c, db, t);
        StepIsSure(c, db, db.(members := db.members[(t.ws, t.user) := Owner]), fuel.None?);
        db := db.(members := db.members[(t.ws, t.user) := Owner]);
      }
    }

    // ensureWorkspace, ensureUser and ensureMember: what is there must be right, what is not is inserted.
    method EnsureIdentity() returns (ok: bool)
      requires Consistent(db) && Distinct(c)
      modifies this
      ensures fuel.None? == old(fuel.None?) && Step(c, old(db), db, ok, fuel.None?, false)
      ensures ok ==> IdentityThere(db, c.demo)
    {
      hide Seedable, Seeded, Grown, Consistent, Stranded;
      var (t, a) := (c.demo, db);
      Standstill(c, a, true, fuel.None?);
      if t.ws !in db.workspaces {
        ok := AddWorkspace(t);
        if !ok { return; }
      } else if db.workspaces[t.ws] != t.name {
        IdentityInTheWay(c, db, t, fuel.None?);
        return false;
      }
      ghost var b := db;
      if t.user !in db.users {
        ok := AddUser(t);
        StepsCompose(c, a, b, db, ok, fuel.None?, false);
        if !ok { return; }
      } else if !UserOk(db.users[t.user], t) {
        IdentityInTheWay(c, db, t, fuel.None?);
        StepsCompose(c, a, b, db, false, fuel.None?, false);
        return false;
      }
      ghost var d := db;
      if (t.ws, t.user) !in db.members {
        ok := AddMember(t);
        StepsCompose(c, a, d, db, ok, fuel.None?, false);
        if !ok { return; }
      } else if db.members[(t.ws, t.user)] != Owner {
        IdentityInTheWay(c, db, t, fuel.None?);
        StepsCompose(c, a, d, db, false, fuel.None?, false);
        return false;
      }
      RowsStay(b, d, t);
      RowsStay(d, db, t);
      return true;
    }

    // findOrphanEnvelope
    method FindOrphan(ws: nat) returns (found: bool)
      ensures found <==> Stranded(db, ws)
    {
      var referenced := set id | id in db.connections && db.connections[id].ws == ws :: db.connections[id].ref;
      var todo := db.envelopes.Keys;
      while todo != {}
        invariant todo <= db.envelopes.Keys
        invariant forall k :: Orphan(db, k) && k.ws == ws ==> k in todo
        decreases |todo|
      {
        var k :| k in todo;
        todo := todo - {k};
        if k.ws == ws && !db.envelopes[k].retired && k.ref !in referenced {
          assert !Referenced(db, ws, k.ref) && Orphan(db, k);
          return true;
        }
        assert Orphan(db, k) ==> k.ws != ws by {
          if k.ws == ws && k.ref in referenced {
            var id :| id in db.connections && db.connections[id].ws == ws && db.connections[id].ref == k.ref;
            assert Referenced(db, ws, k.ref);
          }
        }
      }
      return false;
    }

    // The credential in its own transaction, then the connection. strict: a taken id is an error (connections.Create);
    // otherwise the insertion does nothing (createConnectionWithID).
    method Provide(t: Tenant, s: Spec, strict: bool) returns (ok: bool, gap: bool)
      requires Consistent(db) && Distinct(c) && Owns(c, t, s) && (s.id in db.connections ==> db.connections[s.id].ws != t.ws)
      modifies this
      ensures fuel.None? == old(fuel.None?) && Step(c, old(db), db, ok, fuel.None?, gap)
      ensures ok && s.id !in old(db).connections ==> db == WithConnection(WithCredential(old(db), t.ws, s), t, s, old(db.refs))
      ensures ok && s.id in old(db).connections ==> !strict && db.connections == old(db.connections)
    {
      hide Seedable, Seeded, Grown, Consistent, Stranded, NameTaken;
      ghost var a := db;
      Standstill(c, a, false, false);
      MissingConnection(c, a, t, s);
      gap := false;
      ok := Write();
      if !ok { return; }
      var ref := db.refs;
      db := WithCredential(db, t.ws, s);
      ok := Write();
      if !ok || NameTaken(db, t.ws, s.target.name) || (strict && s.id in db.connections) {
        NamesUntouched(a, t, s);
        GapStrands(c, a, t, s, fuel.None?);
        return false, true;
      }
      if s.id in db.connections {
        CredentialStrands(a, t.ws, s);
      } else {
        ConnectionAdded(c, a, t, s);
        StepIsSure(c, a, WithConnection(db, t, s, ref), fuel.None?);
        db := WithConnection(db, t, s, ref);
      }
    }

    // createDefaultPolicy
    method AddPolicy(s: Spec) returns (ok: bool)
      requires Consistent(db) && Distinct(c) && s in c.specs && Attached(db, c.demo.ws, s) && (c.demo.ws, s.id) !in db.policies
      modifies this
      ensures fuel.None? == old(fuel.None?) && Step(c, old(db), db, ok, fuel.None?, false)
      ensures ok ==> Ready(c, db, s)
      ensures db.connections == old(db.connections) && db.envelopes == old(db.envelopes)
    {
      hide Step, Consistent;
      Standstill(c, db, false, false);
      ok := Write();
      if ok {
        PolicyAdded(c, db, s);
        StepIsSure(c, db, db.(policies := db.policies[(c.demo.ws, s.id) := SAFE]), fuel.None?);
        db := db.(policies := db.policies[(c.demo.ws, s.id) := SAFE]);
      }
    }

    // verifyExistingConnection: the connection, then its credential, and only then its policy.
    method VerifyConnection(s: Spec) returns (ok: bool)
      requires Consistent(db) && Distinct(c) && s in c.specs && s.id in db.connections && db.connections[s.id].ws == c.demo.ws
      modifies this
      ensures fuel.None? == old(fuel.None?) && Step(c, old(db), db, ok, fuel.None?, false)
      ensures ok ==> Ready(c, db, s)
      ensures db.connections == old(db.connections) && db.envelopes == old(db.envelopes)
    {
      hide Step, Consistent;
      var conn := db.connections[s.id];
      var k := Key(c.demo.ws, conn.ref, conn.version);
      if conn.target != s.target || k !in db.envelopes || db.envelopes[k].retired
        || db.envelopes[k].user != s.user || db.envelopes[k].password != s.password {
        SpecInTheWay(c, db, s, fuel.None?);
        return false;
      }
      if (c.demo.ws, s.id) !in db.policies {
        ok := AddPolicy(s);
        return;
      }
      if db.policies[(c.demo.ws, s.id)] != SAFE {
        SpecInTheWay(c, db, s, fuel.None?);
        return false;
      }
      Standstill(c, db, true, fuel.None?);
      return true;
    }

    // ensureConnection with createConnection
    method EnsureConnection(s: Spec) returns (ok: bool, gap: bool)
      requires Consistent(db) && Distinct(c) && s in c.specs
      modifies this
      ensures fuel.None? == old(fuel.None?) && Step(c, old(db), db, ok, fuel.None?, gap)
      ensures ok ==> Ready(c, db, s) && Unstranded(old(db), db)
    {
      hide Seedable, Seeded, Grown, Stranded, NameTaken;
      ghost var a := db;
      gap := false;
      if s.id in db.connections && db.connections[s.id].ws == c.demo.ws {
        ok := VerifyConnection(s);
        SameRowsUnstranded(a, db);
        return;
      }
      ok, gap := Provide(c.demo, s, true);
      if !ok { return; }
      ghost var b := db;
      ProvidedUnstranded(a, c.demo, s);
      ok := AddPolicy(s);
      StepsCompose(c, a, b, db, ok, fuel.None?, false);
      SameRowsUnstranded(b, db);
    }

    // ensureForeignIsolationFixture: insert what is missing, then read everything back.
    method EnsureForeign() returns (ok: bool, gap: bool)
      requires Consistent(db) && Distinct(c)
      modifies this
      ensures fuel.None? == old(fuel.None?) && Step(c, old(db), db, ok, fuel.None?, gap)
      ensures ok ==> ForeignThere(c, db) && !Stranded(db, c.foreign.ws)
    {
      hide Seedable, Seeded, Grown, Stranded, NameTaken, Consistent, Attached;
      ghost var a := db;
      gap := false;
      var found := FindOrphan(c.foreign.ws);
      if found {
        StrandsInTheWay(c, db, c.foreign.ws, fuel.None?);
        return false, false;
      }
      ok := AddForeignIdentity();
      if !ok { return; }
      ghost var b := db;
      SameRowsUnstranded(a, b);
      var s := c.foreignSpec;
      if !(s.id in db.connections && db.connections[s.id].ws == c.foreign.ws) {
        ok, gap := Provide(c.foreign, s, false);
        StepsCompose(c, a, b, db, ok, fuel.None?, gap);
        if !ok { return; }
        if s.id !in b.connections { ProvidedUnstranded(b, c.foreign, s); }
        assert s.id in db.connections;
      }
      ghost var d := db;
      RowsStay(b, d, c.foreign);
      ok := ReadForeignBack();
      StepsCompose(c, a, d, db, ok, fuel.None?, false);
    }

    method AddForeignIdentity() returns (ok: bool)
      requires Consistent(db) && Distinct(c)
      modifies this
      ensures fuel.None? == old(fuel.None?) && Step(c, old(db), db, ok, fuel.None?, false)
      ensures db.connections == old(db.connections) && db.envelopes == old(db.envelopes)
      ensures ok ==> RowsThere(db, c.foreign)
    {
      hide Seedable, Seeded, Grown, Stranded, Consistent;
      ghost var a := db;
      ok := AddWorkspace(c.foreign);
      if !ok { return; }
      ghost var b := db;
      ok := AddUser(c.foreign);
      StepsCompose(c, a, b, db, ok, fuel.None?, false);
      if !ok { return; }
      ghost var d := db;
      ok := AddMember(c.foreign);
      StepsCompose(c, a, d, db, ok, fuel.None?, false);
      RowsStay(b, d, c.foreign);
      RowsStay(d, db, c.foreign);
    }

    // Any drift from the fixed values is refused.
    method ReadForeignBack() returns (ok: bool)
      requires Consistent(db) && Distinct(c) && RowsThere(db, c.foreign) && c.foreignSpec.id in db.connections
      modifies this
      ensures fuel.None? == old(fuel.None?) && db == old(db) && Step(c, db, db, ok, fuel.None?, false)
      ensures ok <==> ForeignThere(c, db)
      ensures ok ==> db.connections[c.foreignSpec.id].ws == c.foreign.ws
    {
      hide Step, Consistent;
      var (t, s) := (c.foreign, c.foreignSpec);
      ok := t.ws in db.workspaces && db.workspaces[t.ws] == t.name
        && t.user in db.users && db.users[t.user] == User(t.email, c.hash, true)
        && (t.ws, t.user) in db.members && db.members[(t.ws, t.user)] == Owner
        && s.id in db.connections && db.connections[s.id].ws == t.ws && db.connections[s.id].target == s.target
        && db.connections[s.id].createdBy == t.user;
      if ok {
        var k := Key(t.ws, db.connections[s.id].ref, db.connections[s.id].version);
        ok := k in db.envelopes && !db.envelopes[k].retired
          && db.envelopes[k].user == s.user && db.envelopes[k].password == s.password;
      }
      Standstill(c, db, true, fuel.None?);
      if !ok {
        hide Stranded, NameTaken;
        assert !Seedable(c, db);
        InTheWay(c, db, fuel.None?);
      }
    }

    // verifyConnections
    method VerifyConnections() returns (ok: bool)
      requires Consistent(db) && Distinct(c)
      modifies this
      ensures fuel.None? == old(fuel.None?)
      ensures (forall i :: 0 <= i < |c.specs| ==> Ready(c, old(db), c.specs[i])) ==> Step(c, old(db), db, ok, fuel.None?, false)
      ensures ok ==> forall i :: 0 <= i < |c.specs| ==> Ready(c, db, c.specs[i])
      ensures ok ==> Grown(old(db), db) && Consistent(db) && Unstranded(old(db), db)
    {
      hide Seedable, Seeded, Grown, Stranded, Consistent, Ready, Unstranded;
      ghost var a := db;
      Standstill(c, a, true, fuel.None?);
      SameRowsUnstranded(a, a);
      for i := 0 to |c.specs|
        invariant fuel.None? == old(fuel.None?) && Step(c, a, db, true, fuel.None?, false)
        invariant Unstranded(a, db)
        invariant forall j :: 0 <= j < i ==> Ready(c, db, c.specs[j])
      {
        var s := c.specs[i];
        ghost var b := db;
        if !(s.id in db.connections && db.connections[s.id].ws == c.demo.ws) {
          MissingWasNotReady(c, a, db, s);
          return false;
        }
        ok := VerifyConnection(s);
        StepsCompose(c, a, b, db, ok, fuel.None?, false);
        if !ok { return; }
        SameRowsUnstranded(b, db);
        UnstrandedTransitive(a, b, db);
        forall j | 0 <= j < i ensures Ready(c, db, c.specs[j]) { ReadyStays(c, b, db, c.specs[j]); }
      }
      return true;
    }

    // The demo connections one after the other.
    method EnsureConnections() returns (ok: bool, gap: bool)
      requires Consistent(db) && Distinct(c)
      modifies this
      ensures fuel.None? == old(fuel.None?) && Step(c, old(db), db, ok, fuel.None?, gap)
      ensures ok ==> Unstranded(old(db), db) && forall i :: 0 <= i < |c.specs| ==> Ready(c, db, c.specs[i])
    {
      hide Seedable, Seeded, Grown, Stranded, Consistent, Ready, Unstranded;
      ghost var a := db;
      gap := false;
      Standstill(c, a, true, fuel.None?);
      SameRowsUnstranded(a, a);
      for i := 0 to |c.specs|
        invariant fuel.None? == old(fuel.None?) && Step(c, a, db, true, fuel.None?, false)
        invariant Unstranded(a, db)
        invariant forall j :: 0 <= j < i ==> Ready(c, db, c.specs[j])
      {
        ghost var b := db;
        ok, gap := EnsureConnection(c.specs[i]);
        StepsCompose(c, a, b, db, ok, fuel.None?, gap);
        if !ok { return; }
        UnstrandedTransitive(a, b, db);
        forall j | 0 <= j < i ensures Ready(c, db, c.specs[j]) { ReadyStays(c, b, db, c.specs[j]); }
      }
      return true, false;
    }

    // Run. When it succeeds everything is in place; cut short, it leaves the database open to the next run unless the
    // cut fell between a credential and its connection.
    method Run() returns (ok: bool, gap: bool)
      requires Consistent(db) && Distinct(c)
      modifies this
      ensures fuel.None? == old(fuel.None?) && Ran(c, old(db), db, ok, fuel.None?, gap)
    {
      hide Seedable, Seeded, Grown, Stranded, Consistent, Ready, IdentityThere, ForeignThere;
      ghost var a := db;
      gap := false;
      ok := EnsureIdentity();
      if !ok { return; }
      ghost var b := db;
      ok, gap := EnsureForeign();
      StepsCompose(c, a, b, db, ok, fuel.None?, gap);
      if !ok { return; }
      ghost var d := db;
      var found := FindOrphan(c.demo.ws);
      if found {
        StrandsInTheWay(c, d, c.demo.ws, fuel.None?);
        StepsCompose(c, a, d, d, false, fuel.None?, false);
        return false, false;
      }
      ok, gap := EnsureConnections();
      StepsCompose(c, a, d, db, ok, fuel.None?, gap);
      if !ok { return; }
      ghost var e := db;
      ok := VerifyConnections();
      StepsCompose(c, a, e, db, ok, fuel.None?, false);
      if !ok { return; }
      GrownTransitive(d, e, db);
      GrownTransitive(b, d, db);
      AllThere(c, b, d, db);
      UnstrandedTransitive(d, e, db);
      SeededNow(c, db);
    }
  }

  // What one run does.
  ghost predicate Ran(c: Config, a: Db, b: Db, ok: bool, sure: bool, gap: bool)
  {
    Step(c, a, b, ok, sure, gap) && (ok ==> Seeded(c, b))
  }

  lemma UnstrandedTransitive(a: Db, b: Db, d: Db)
    requires Unstranded(a, b) && Unstranded(b, d)
    ensures Unstranded(a, d)
  {
    hide Stranded;
  }

  lemma ReadyStays(c: Config, a: Db, b: Db, s: Spec)
    requires Grown(a, b) && Ready(c, a, s)
    ensures Ready(c, b, s)
  {
    AttachedStays(a, b, c.demo.ws, s);
  }

  lemma MissingWasNotReady(c: Config, a: Db, b: Db, s: Spec)
    requires Grown(a, b) && !(s.id in b.connections && b.connections[s.id].ws == c.demo.ws)
    ensures !Ready(c, a, s)
  {
  }

  lemma SeededNow(c: Config, db: Db)
    requires IdentityThere(db, c.demo) && ForeignThere(c, db) && !Stranded(db, c.demo.ws) && !Stranded(db, c.foreign.ws)
    requires forall i :: 0 <= i < |c.specs| ==> Ready(c, db, c.specs[i])
    ensures Seeded(c, db)
  {
  }

  lemma AllThere(c: Config, b: Db, d: Db, e: Db)
    requires IdentityThere(b, c.demo) && Grown(b, e) && ForeignThere(c, d) && Grown(d, e)
    ensures IdentityThere(e, c.demo) && ForeignThere(c, e)
  {
    AttachedStays(d, e, c.foreign.ws, c.foreignSpec);
    RowsStay(b, e, c.demo);
    RowsStay(d, e, c.foreign);
  }

  ghost predicate ForeignThere(c: Config, db: Db)
  {
    IdentityThere(db, c.foreign) && db.users[c.foreign.user].hash == c.hash && ForeignOk(c, db)
  }

  // No workspace has an envelope without a connection that had none before.
  ghost predicate Unstranded(a: Db, b: Db)
  {
    forall ws :: Stranded(b, ws) ==> Stranded(a, ws)
  }

  lemma SameRowsUnstranded(a: Db, b: Db)
    requires a.envelopes == b.envelopes && a.connections == b.connections
    ensures Unstranded(a, b)
  {
    forall ws | Stranded(b, ws) ensures Stranded(a, ws) {
      SameStrands(a, b, ws);
    }
  }

  lemma ProvidedUnstranded(a: Db, t: Tenant, s: Spec)
    requires Consistent(a) && s.id !in a.connections
    ensures var b := WithConnection(WithCredential(a, t.ws, s), t, s, a.refs);
      Unstranded(a, b) && Attached(b, t.ws, s) && (t.ws, s.id) !in b.policies
  {
    ConnectionKeepsConsistent(a, t, s);
    forall ws | Stranded(WithConnection(WithCredential(a, t.ws, s), t, s, a.refs), ws) ensures Stranded(a, ws) {
      NoNewStrands(a, t, s, ws);
    }
  }

  lemma StrandsInTheWay(c: Config, a: Db, ws: nat, sure: bool)
    requires Consistent(a) && Stranded(a, ws) && ws in {c.demo.ws, c.foreign.ws}
    ensures Step(c, a, a, false, sure, false)
  {
    assert !Seedable(c, a);
    InTheWay(c, a, sure);
  }

  lemma NamesUntouched(a: Db, t: Tenant, s: Spec)
    ensures NameTaken(WithCredential(a, t.ws, s), t.ws, s.target.name) == NameTaken(a, t.ws, s.target.name)
  {
  }

  lemma SpecInTheWay(c: Config, a: Db, s: Spec, sure: bool)
    requires Consistent(a) && s in c.specs && s.id in a.connections && !DemoOk(c, a, s)
    ensures Step(c, a, a, false, sure, false)
  {
    var i :| 0 <= i < |c.specs| && c.specs[i] == s;
    assert !Seedable(c, a);
    InTheWay(c, a, sure);
  }

  ghost predicate RowsThere(db: Db, t: Tenant)
  {
    t.ws in db.workspaces && t.user in db.users && (t.ws, t.user) in db.members
  }

  lemma RowsStay(a: Db, b: Db, t: Tenant)
    requires Grown(a, b)
    ensures t.ws in a.workspaces ==> t.ws in b.workspaces && b.workspaces[t.ws] == a.workspaces[t.ws]
    ensures t.user in a.users ==> t.user in b.users && b.users[t.user] == a.users[t.user]
    ensures (t.ws, t.user) in a.members ==> (t.ws, t.user) in b.members && b.members[(t.ws, t.user)] == a.members[(t.ws, t.user)]
  {
  }

  // A database that is not seedable may be refused at any time.
  lemma InTheWay(c: Config, a: Db, sure: bool)
    requires Consistent(a) && !Seedable(c, a)
    ensures Step(c, a, a, false, sure, false)
  {
    if Seeded(c, a) { SeededIsSeedable(c, a); }
    hide Seedable, Seeded;
  }

  lemma IdentityInTheWay(c: Config, a: Db, t: Tenant, sure: bool)
    requires Consistent(a) && t in {c.demo, c.foreign} && !IdentityOk(a, t)
    ensures Step(c, a, a, false, sure, false)
  {
    assert !Seedable(c, a);
    InTheWay(c, a, sure);
  }

  lemma StepIsSure(c: Config, a: Db, b: Db, sure: bool)
    requires Step(c, a, b, true, true, false)
    ensures Step(c, a, b, true, sure, false)
  {
  }

  // ---- Runs after runs ----

  // A successful run repeated succeeds, unless it is cut short, and in any case changes nothing.
  lemma SeedingIsIdempotent(c: Config, a: Db, b: Db, d: Db, sure: bool, sure': bool, gap: bool, ok: bool, gap': bool)
    requires Ran(c, a, b, true, sure, gap) && Ran(c, b, d, ok, sure', gap')
    ensures d == b && (sure' ==> ok)
  {
    SeededIsSeedable(c, b);
    hide Seedable, Seeded, Grown, Consistent, Stranded;
  }

  // Runs from the empty database, cut short anywhere and started again; gaps[i] says that run i was cut between a
  // credential and its connection.
  ghost predicate Runs(c: Config, dbs: seq<Db>, oks: seq<bool>, sures: seq<bool>, gaps: seq<bool>)
  {
    && |dbs| == |oks| + 1 && |oks| == |sures| == |gaps| && dbs[0] == EMPTY
    && (forall i :: 0 <= i < |oks| ==> Ran(c, dbs[i], dbs[i + 1], oks[i], sures[i], gaps[i]))
  }

  // No run ever changes or removes a row.
  lemma {:induction false} RowsAreForever(c: Config, dbs: seq<Db>, oks: seq<bool>, sures: seq<bool>, gaps: seq<bool>,
      i: nat, j: nat)
    requires Runs(c, dbs, oks, sures, gaps) && i <= j < |dbs|
    ensures Grown(dbs[i], dbs[j]) && Consistent(dbs[j])
    decreases j
  {
    EmptyIsSeedable(c);
    hide Seedable, Seeded, Grown, Consistent, Stranded;
    if i == j {
      if j > 0 { RowsAreForever(c, dbs, oks, sures, gaps, j - 1, j - 1); }
      SelfGrown(dbs[i]);
    } else {
      RowsAreForever(c, dbs, oks, sures, gaps, i, j - 1);
      GrownTransitive(dbs[i], dbs[j - 1], dbs[j]);
    }
  }

  lemma SelfGrown(a: Db)
    ensures Grown(a, a)
  {
  }

  lemma {:induction false} SeedableUntilGap(c: Config, dbs: seq<Db>, oks: seq<bool>, sures: seq<bool>, gaps: seq<bool>,
      i: nat)
    requires Runs(c, dbs, oks, sures, gaps) && i < |dbs| && forall j :: 0 <= j < i ==> !gaps[j]
    ensures Seedable(c, dbs[i])
  {
    EmptyIsSeedable(c);
    hide Seedable, Seeded, Grown, Consistent, Stranded;
    if i > 0 {
      SeedableUntilGap(c, dbs, oks, sures, gaps, i - 1);
    }
  }

  // As long as no run was cut in that gap, a run that is not cut short succeeds; after one that was, no run ever does.
  lemma RerunsRecover(c: Config, dbs: seq<Db>, oks: seq<bool>, sures: seq<bool>, gaps: seq<bool>, i: nat)
    requires Runs(c, dbs, oks, sures, gaps) && i < |oks|
    ensures (forall j :: 0 <= j < i ==> !gaps[j]) && sures[i] ==> oks[i]
    ensures (exists j :: 0 <= j < i && gaps[j]) ==> !oks[i]
  {
    hide Seedable, Grown, Consistent, Stranded;
    assert Ran(c, dbs[i], dbs[i + 1], oks[i], sures[i], gaps[i]);
    if forall j :: 0 <= j < i ==> !gaps[j] {
      SeedableUntilGap(c, dbs, oks, sures, gaps, i);
    } else {
      var k := FirstGap(gaps, i);
      SeedableUntilGap(c, dbs, oks, sures, gaps, k);
      var ws := if Stranded(dbs[k + 1], c.demo.ws) then c.demo.ws else c.foreign.ws;
      RowsAreForever(c, dbs, oks, sures, gaps, k + 1, i + 1);
      RowsAreForever(c, dbs, oks, sures, gaps, k + 1, k + 1);
      StrandedStays(dbs[k + 1], dbs[i + 1], ws);
    }
  }

  lemma {:induction false} FirstGap(gaps: seq<bool>, i: nat) returns (k: nat)
    requires i <= |gaps| && exists j :: 0 <= j < i && gaps[j]
    ensures k < i && gaps[k] && forall j :: 0 <= j < k ==> !gaps[j]
    decreases i
  {
    if exists j :: 0 <= j < i - 1 && gaps[j] {
      k := FirstGap(gaps, i - 1);
    } else {
      k := i - 1;
    }
  }
}
