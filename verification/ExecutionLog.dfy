/** The execution rows and audit events of apps/api/internal/execution/pipeline.go in the metadata database
    (apps/api/internal/metadata/audit_tx.go), every access to which may fail. */
module ExecutionLog {
  import opened Prelude

  datatype Status = Pending | Running | Completed | Failed | Cancelled

  predicate Terminal(s: Status) { s.Completed? || s.Failed? || s.Cancelled? }

  datatype Action = SqlExecute | CredentialLookup | CredentialDecrypt

  datatype Outcome = Succeeded | Denied | FailedOutcome | CancelledOutcome

  // An execution in the making: its row id and its trace, both new.
  datatype Exec = Exec(id: nat, trace: nat)

  datatype Execution = Execution(trace: nat, status: Status)

  // Credential failures are recorded by the system actor without an execution id.
  datatype Record = Record(trace: nat, execution: Option<nat>, action: Action, outcome: Outcome)

  datatype Db = Db(executions: map<nat, Execution>, audits: seq<Record>)

  // What one transaction writes: a row's status, an event, or both.
  function Applied(db: Db, x: Exec, status: Option<Status>, record: Option<Record>): Db
  {
    Db(if status.Some? then db.executions[x.id := Execution(x.trace, status.value)] else db.executions,
       if record.Some? then db.audits + [record.value] else db.audits)
  }

  // b differs from a at most in the row of x and by one event of its trace.
  predicate Touched(a: Db, b: Db, x: Exec)
  {
    && (forall id :: id in a.executions && id != x.id ==> id in b.executions && b.executions[id] == a.executions[id])
    && (forall id :: id in b.executions && id != x.id ==> id in a.executions)
    && (x.id in b.executions ==> b.executions[x.id].trace == x.trace)
    && (b.audits == a.audits
        || (|b.audits| == |a.audits| + 1 && b.audits[..|a.audits|] == a.audits && b.audits[|a.audits|].trace == x.trace))
  }

  // The execution is open: its row is there, not yet terminal, and nothing is recorded about it.
  predicate Open(a: Db, b: Db, x: Exec)
  {
    && Touched(a, b, x) && x.id !in a.executions && x.id in b.executions
    && !Terminal(b.executions[x.id].status) && b.audits == a.audits
  }

  // The execution is open and marked as running: from here on its statement may reach the target database.
  predicate Underway(a: Db, b: Db, x: Exec)
  {
    Open(a, b, x) && b.executions[x.id].status.Running?
  }

  // The row ended terminal with exactly one event of its trace, or somebody was alarmed.
  predicate Accounted(a: Db, b: Db, x: Exec, alarmed: bool)
  {
    && Touched(a, b, x)
    && (alarmed || (x.id in b.executions && Terminal(b.executions[x.id].status) && |b.audits| == |a.audits| + 1))
  }

  // The execution completed and its success is on record.
  predicate Delivered(a: Db, b: Db, x: Exec)
  {
    && Touched(a, b, x) && x.id in b.executions && b.executions[x.id].status.Completed?
    && b.audits == a.audits + [Record(x.trace, Some(x.id), SqlExecute, Succeeded)]
  }

  // How the transaction that ends an execution before its query went: given up before its commit, with a commit that
  // reported an error and took effect or not, or committed.
  datatype Fate = GivenUp | Rejected(landed: bool) | Committed

  function AfterFate(db: Db, x: Exec, record: Record, fate: Fate): Db
  {
    if fate.Committed? || fate == Rejected(true) then Applied(db, x, Some(Failed), Some(record)) else db
  }

  // A receipt names an event that is in the log.
  predicate OnRecord(a: Db, b: Db, x: Exec, o: Outcome)
  {
    |b.audits| == |a.audits| + 1 && b.audits[|a.audits|] == Record(x.trace, Some(x.id), SqlExecute, o)
  }

  // The execution ended with this status, and one event says so.
  predicate EndedAs(a: Db, b: Db, x: Exec, status: Status, o: Outcome)
  {
    x.id in b.executions && b.executions[x.id].status == status && OnRecord(a, b, x, o)
  }

  // Nothing says that the execution succeeded: neither its row nor an event.
  predicate NoSuccess(a: Db, b: Db, x: Exec)
  {
    && (x.id in b.executions ==> !b.executions[x.id].status.Completed?)
    && forall i :: |a.audits| <= i < |b.audits| ==> !b.audits[i].outcome.Succeeded?
  }

  function CountTrace(audits: seq<Record>, trace: nat): nat
  {
    if audits == [] then 0
    else CountTrace(audits[..|audits| - 1], trace) + (if audits[|audits| - 1].trace == trace then 1 else 0)
  }

  predicate TraceIsNew(db: Db, trace: nat)
  {
    forall i :: 0 <= i < |db.audits| ==> db.audits[i].trace != trace
  }

  lemma {:induction false} NewTraceUncounted(audits: seq<Record>, trace: nat)
    requires forall i :: 0 <= i < |audits| ==> audits[i].trace != trace
    ensures CountTrace(audits, trace) == 0
  {
    if audits != [] { NewTraceUncounted(audits[..|audits| - 1], trace); }
  }

  // In the whole log there is exactly one event of the trace, unless an alarm was raised.
  lemma AccountedMeansOneEvent(a: Db, b: Db, x: Exec, alarmed: bool)
    requires TraceIsNew(a, x.trace) && Accounted(a, b, x, alarmed)
    ensures alarmed || (x.id in b.executions && Terminal(b.executions[x.id].status) && CountTrace(b.audits, x.trace) == 1)
  {
    NewTraceUncounted(a.audits, x.trace);
  }

  class Ledger {
    var db: Db
    var alarms: nat
    var nextID: nat
    var nextTrace: nat

    ghost predicate Valid()
      reads this
    {
      && (forall id :: id in db.executions ==> id < nextID)
      && (forall i :: 0 <= i < |db.audits| ==> db.audits[i].trace < nextTrace)
    }

    constructor ()
      ensures Valid() && db == Db(map[], []) && alarms == 0
    {
      db, alarms, nextID, nextTrace := Db(map[], []), 0, 0, 0;
    }

    method Draw() returns (x: Exec)
      requires Valid()
      modifies this`nextID, this`nextTrace
      ensures Valid() && x.id < nextID && x.trace < nextTrace
      ensures x.id !in db.executions && TraceIsNew(db, x.trace)
    {
      x := Exec(nextID, nextTrace);
      nextID, nextTrace := nextID + 1, nextTrace + 1;
    }

    // Opening a transaction or running a statement in it.
    method Statement() returns (ok: bool)
    {
      ok := *;
    }

    // A failed commit may have taken effect all the same.
    method Commit(x: Exec, status: Option<Status>, record: Option<Record>) returns (ok: bool, ghost landed: bool)
      modifies this`db
      ensures db == if landed then Applied(old(db), x, status, record) else old(db)
      ensures ok ==> landed
    {
      ok := *;
      var effective: bool := *;
      if ok || effective {
        db := Applied(db, x, status, record);
      }
      landed := ok || effective;
    }

    method Alarm()
      modifies this`alarms
      ensures alarms == old(alarms) + 1
    {
      alarms := alarms + 1;
    }

    // Phase B: create the row; on failure nobody runs anything, and the alarm is raised.
    method OpenExecution(status: Status) returns (r: Option<Exec>, ghost x: Exec)
      requires Valid() && !Terminal(status)
      modifies this
      ensures Valid() && alarms >= old(alarms) && TraceIsNew(old(db), x.trace) && x.id !in old(db).executions
      ensures r.Some? ==> r.value == x && Open(old(db), db, x) && alarms == old(alarms) && db.executions[x.id].status == status
      ensures r.Some? ==> x.id < nextID && x.trace < nextTrace
      ensures r.None? ==> Accounted(old(db), db, x, true) && alarms > old(alarms) && NoSuccess(old(db), db, x)
    {
      var e := Draw();
      x := e;
      var ok := Statement();
      if ok {
        ok := Statement();
      }
      if ok {
        var done, _ := Commit(e, Some(status), None);
        ok := done;
      }
      if !ok {
        Alarm();
        return None, x;
      }
      return Some(e), x;
    }

    // Phase D-0: the pending row becomes running; when that fails the row stays open.
    method StartRunning(x: Exec, ghost a: Db) returns (ok: bool)
      requires Valid() && Open(a, db, x) && x.id < nextID
      modifies this`db
      ensures Valid() && Open(a, db, x) && (ok ==> Underway(a, db, x))
    {
      ok := Statement();
      if ok {
        ok := Statement();
      }
      if ok {
        var done, _ := Commit(x, Some(Running), None);
        ok := done;
      }
    }

    // One transaction that ends an open execution and appends its event (failExecutionWith). The event has its receipt
    // once it is appended, before the commit.
    method SettleBefore(x: Exec, record: Record, ghost a: Db) returns (ok: bool, appended: bool, ghost fate: Fate)
      requires Valid() && Open(a, db, x) && record.trace == x.trace < nextTrace && x.id < nextID
      modifies this`db
      ensures Valid() && Touched(a, db, x)
      ensures ok <==> fate.Committed?
      ensures appended <==> !fate.GivenUp?
      ensures db == AfterFate(old(db), x, record, fate)
      ensures ok ==> Accounted(a, db, x, false) && db.audits == a.audits + [record]
    {
      fate := GivenUp;
      appended := false;
      ok := Statement();
      if ok {
        ok := Statement();
      }
      if ok {
        appended := Statement();
        ok := appended;
      }
      if ok {
        var done, landed := Commit(x, Some(Failed), Some(record));
        ok := done;
        fate := if done then Committed else Rejected(landed);
      }
    }

    // recordPostExecution: the terminal status in its own transaction, then the event.
    method SettleAfter(x: Exec, status: Status, record: Record, ghost a: Db) returns (ok: bool)
      requires Valid() && Open(a, db, x) && Terminal(status) && record.trace == x.trace < nextTrace && x.id < nextID
      modifies this`db
      ensures Valid() && Touched(a, db, x)
      ensures ok ==> Accounted(a, db, x, false) && db.executions[x.id].status == status && db.audits == a.audits + [record]
      ensures x.id in db.executions && db.executions[x.id].status in {old(db).executions[x.id].status, status}
      ensures db.audits in {a.audits, a.audits + [record]}
    {
      ok := Statement();
      if ok {
        ok := Statement();
      }
      if ok {
        var done, _ := Commit(x, Some(status), None);
        ok := done;
      }
      if ok {
        var done, _ := Commit(x, None, Some(record));
        ok := done;
      }
    }
  }
}
