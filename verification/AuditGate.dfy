/** apps/api/internal/metadata/atomic_tx.go: a credential or connection transaction commits only with the one audit
    event that belongs to it. */
module AuditGate {
  import opened Prelude

  type ID = nat
  const NIL: ID := 0

  datatype OperationContext = OperationContext(mutationID: string, workspaceID: ID, resource: string, resourceID: string,
    action: string, connectionID: Option<ID>, actorID: ID, actorType: string, outcome: string, traceID: string)

  datatype AuditEvent = AuditEvent(workspaceID: ID, actorType: string, actorID: Option<ID>, connectionID: Option<ID>,
    action: string, resourceType: string, resourceID: string, outcome: string, traceID: string, metadata: string)

  // OperationContext.Validate
  predicate ValidOperation(c: OperationContext)
  {
    && c.mutationID != "" && c.workspaceID != NIL && c.resource in {"credential", "connection"}
    && c.resourceID != "" && c.action != "" && c.actorType != "" && c.outcome != ""
    && (c.resource == "connection" ==> c.connectionID.Some? && c.connectionID.value != NIL)
    && c.actorID != NIL && c.traceID != ""
  }

  // eventAllowed
  predicate EventAllowed(resource: string, action: string, outcome: string)
  {
    resource + "/" + action + "/" + outcome in {
      "connection/connection.create/succeeded", "connection/connection.update/succeeded",
      "credential/credential.create/succeeded", "credential/credential.rotate/succeeded",
      "credential/credential.retire/succeeded"}
  }

  // The event matrix: credentials are created, rotated and retired, connections created and updated, and only successes
  // are written with the change.
  lemma MatrixIsExact(resource: string, action: string, outcome: string)
    requires resource in {"credential", "connection"}
    ensures EventAllowed(resource, action, outcome) <==>
      && outcome == "succeeded"
      && action in (if resource == "connection" then {"connection.create", "connection.update"}
                    else {"credential.create", "credential.rotate", "credential.retire"})
  {
    Entries(resource, action, outcome);
    hide EventAllowed;
    CreateConnection(resource, action, outcome);
    UpdateConnection(resource, action, outcome);
    CreateCredential(resource, action, outcome);
    RotateCredential(resource, action, outcome);
    RetireCredential(resource, action, outcome);
    Resources();
  }

  lemma CreateConnection(resource: string, action: string, outcome: string)
    requires |resource| == 10
    ensures resource + "/" + action + "/" + outcome == "connection/connection.create/succeeded"
      <==> resource == "connection" && action == "connection.create" && outcome == "succeeded"
  {
    assert "connection" + "/" + "connection.create" + "/" + "succeeded" == "connection/connection.create/succeeded";
    EntryIs(resource, action, outcome, "connection", "connection.create", "connection/connection.create/succeeded");
  }

  lemma UpdateConnection(resource: string, action: string, outcome: string)
    requires |resource| == 10
    ensures resource + "/" + action + "/" + outcome == "connection/connection.update/succeeded"
      <==> resource == "connection" && action == "connection.update" && outcome == "succeeded"
  {
    assert "connection" + "/" + "connection.update" + "/" + "succeeded" == "connection/connection.update/succeeded";
    EntryIs(resource, action, outcome, "connection", "connection.update", "connection/connection.update/succeeded");
  }

  lemma CreateCredential(resource: string, action: string, outcome: string)
    requires |resource| == 10
    ensures resource + "/" + action + "/" + outcome == "credential/credential.create/succeeded"
      <==> resource == "credential" && action == "credential.create" && outcome == "succeeded"
  {
    assert "credential" + "/" + "credential.create" + "/" + "succeeded" == "credential/credential.create/succeeded";
    EntryIs(resource, action, outcome, "credential", "credential.create", "credential/credential.create/succeeded");
  }

  lemma RotateCredential(resource: string, action: string, outcome: string)
    requires |resource| == 10
    ensures resource + "/" + action + "/" + outcome == "credential/credential.rotate/succeeded"
      <==> resource == "credential" && action == "credential.rotate" && outcome == "succeeded"
  {
    assert "credential" + "/" + "credential.rotate" + "/" + "succeeded" == "credential/credential.rotate/succeeded";
    EntryIs(resource, action, outcome, "credential", "credential.rotate", "credential/credential.rotate/succeeded");
  }

  lemma RetireCredential(resource: string, action: string, outcome: string)
    requires |resource| == 10
    ensures resource + "/" + action + "/" + outcome == "credential/credential.retire/succeeded"
      <==> resource == "credential" && action == "credential.retire" && outcome == "succeeded"
  {
    assert "credential" + "/" + "credential.retire" + "/" + "succeeded" == "credential/credential.retire/succeeded";
    EntryIs(resource, action, outcome, "credential", "credential.retire", "credential/credential.retire/succeeded");
  }

  lemma Resources()
    ensures "credential" != "connection" && |"credential"| == |"connection"| == 10
  {
    assert "credential"[1] != "connection"[1];
  }

  lemma Entries(resource: string, action: string, outcome: string)
    ensures var s := resource + "/" + action + "/" + outcome;
      EventAllowed(resource, action, outcome) <==>
        || s == "connection/connection.create/succeeded" || s == "connection/connection.update/succeeded"
        || s == "credential/credential.create/succeeded" || s == "credential/credential.rotate/succeeded"
        || s == "credential/credential.retire/succeeded"
  {
  }

  // Only one way to read an entry of the matrix.
  lemma EntryIs(resource: string, action: string, outcome: string, r: string, a: string, entry: string)
    requires |resource| == |r| == 10 && '/' !in a && entry == r + "/" + a + "/" + "succeeded"
    ensures resource + "/" + action + "/" + outcome == entry <==> resource == r && action == a && outcome == "succeeded"
  {
    var s := resource + "/" + action + "/" + outcome;
    if s == entry {
      assert s[..10] == resource && entry[..10] == r && s[11..] == action + "/" + outcome && entry[11..] == a + "/" + "succeeded";
      SplitsOnce(action, outcome, a, "succeeded");
    }
  }

  lemma SplitsOnce(x: string, y: string, a: string, b: string)
    requires '/' !in a && '/' !in b && x + "/" + y == a + "/" + b
    ensures x == a && y == b
  {
    var t := a + "/" + b;
    assert forall i :: 0 <= i < |t| && t[i] == '/' ==> i == |a|;
    assert (x + "/" + y)[|x|] == '/';
    assert (x + "/" + y)[..|x|] == x && (x + "/" + y)[|x| + 1..] == y && t[..|a|] == a && t[|a| + 1..] == b;
  }

  // matchAuditEventOp
  predicate EventMatches(op: OperationContext, e: AuditEvent)
  {
    && e.workspaceID == op.workspaceID && e.actorType == op.actorType && e.actorID == Some(op.actorID)
    && e.action == op.action && e.resourceType == op.resource && e.resourceID == op.resourceID
    && e.outcome == op.outcome && e.traceID == op.traceID
    && (if op.resource == "connection" then
          e.connectionID.Some? && e.connectionID.value == (if op.connectionID.Some? then op.connectionID.value else NIL)
        else e.connectionID.None?)
  }

  // The identity of an event: everything but its metadata.
  function Identity(e: AuditEvent): AuditEvent { e.(metadata := "") }

  // Under a valid operation context the gate leaves no freedom in the identity of the event, and none is left out:
  // contexts of the same matching event differ at most in the mutation id and an unused connection id.
  lemma EventIsDetermined(op: OperationContext, p: OperationContext, e: AuditEvent, f: AuditEvent)
    requires ValidOperation(op) && ValidOperation(p) && EventMatches(op, e)
    ensures EventMatches(op, f) <==> Identity(f) == Identity(e)
    ensures EventMatches(p, e) <==>
      p.(mutationID := "", connectionID := None) == op.(mutationID := "", connectionID := None)
      && (op.resource == "connection" ==> p.connectionID == op.connectionID)
  {
    if EventMatches(op, f) {
      assert f.connectionID == e.connectionID;
    }
  }

  datatype Begun = Refused | Opened(tx: AtomicTx)

  // The event log of the database; each commit appends what one transaction wrote.
  class Log {
    var events: seq<AuditEvent>

    constructor ()
      ensures events == []
    {
      events := [];
    }
  }

  class AtomicTx {
    const op: OperationContext
    const log: Log
    var auditAppended: bool
    var pending: seq<AuditEvent>
    var open: bool

    ghost predicate Valid()
      reads this
    {
      if auditAppended then |pending| == 1 && EventMatches(op, pending[0]) else pending == []
    }

    constructor (op: OperationContext, log: Log)
      ensures Valid() && this.op == op && this.log == log && open && pending == []
    {
      this.op, this.log, auditAppended, pending, open := op, log, false, [], true;
    }

    // inserted: the INSERT and the metadata validation succeed.
    method AppendAudit(op': OperationContext, e: AuditEvent, inserted: bool) returns (ok: bool)
      requires Valid()
      modifies this
      ensures Valid() && open == old(open)
      ensures ok <==> (op' == op && EventMatches(op, e) && old(pending) == [] && inserted)
      ensures pending == if ok then [e] else old(pending)
    {
      if op' != op || !EventMatches(op, e) || auditAppended || !inserted {
        return false;
      }
      pending := pending + [e];
      auditAppended := true;
      return true;
    }

    // stored: the database accepts the commit.
    method Commit(stored: bool) returns (ok: bool)
      requires Valid() && open
      modifies this, log
      ensures Valid() && !open && log.events == old(log.events) + (if ok then old(pending) else [])
      ensures ok ==> |old(pending)| == 1 && EventMatches(op, old(pending)[0])
      ensures ok <==> (old(pending) != [] && stored)
    {
      open := false;
      if !auditAppended {
        return false;
      }
      if !stored {
        return false;
      }
      log.events := log.events + pending;
      return true;
    }
  }

  // BeginCredential / BeginConnection: a transaction is opened only for an operation of its domain in the event matrix.
  method Begin(op: Option<OperationContext>, domain: string, log: Log, available: bool) returns (r: Begun)
    ensures r.Opened? <==> (op.Some? && ValidOperation(op.value) && op.value.resource == domain
                            && EventAllowed(op.value.resource, op.value.action, op.value.outcome) && available)
    ensures r.Opened? ==> op.Some? && op.value.outcome == "succeeded" && op.value.workspaceID != 0 && op.value.actorID != 0
    ensures r.Opened? ==> op.value.traceID != "" && op.value.resourceID != "" && op.value.mutationID != "" && op.value.actorType != ""
    ensures r.Opened? && op.value.resource == "connection" ==> op.value.connectionID.Some? && op.value.connectionID.value != 0
    ensures r.Opened? ==> fresh(r.tx) && r.tx.Valid() && r.tx.op == op.value && r.tx.log == log && r.tx.open && r.tx.pending == []
  {
    if op.None? || !ValidOperation(op.value) || op.value.resource != domain
      || !EventAllowed(op.value.resource, op.value.action, op.value.outcome) || !available {
      return Refused;
    }
    MatrixIsExact(op.value.resource, op.value.action, op.value.outcome);
    var tx := new AtomicTx(op.value, log);
    return Opened(tx);
  }
}
