/** apps/api/internal/execution/pipeline.go: running a first page and its continuations, with an audited execution for
    each, while every store, resolver, adapter or audit call may fail. */
module Pipeline {
  import opened Prelude
  import opened Sql
  import opened Continuation
  import opened TokenQuotas
  import opened Pagination
  import opened Lineages
  import opened TokenHistory
  import opened ExecutionLog
  import Paging
  import QP = QueryPlan

  datatype Code =
    | InternalError | Forbidden | ConnectionNotFound | UnsupportedEngine | StatementNotAllowed | ReadNotAllowed
    | PolicyNotConfigured | QueryTimeout | QueryCancelled | ExecutionTimeout | ExecutionCancelled | UnsupportedQuery
    | RateLimited | ConnectionBusy | ConnectionUnavailable | ConnectionConfigConflict | ResultTooLarge | DatabaseError
    | PageTokenInvalid | PaginationCapacityExhausted | AuditFailed
    | CredentialNotFound | CredentialRetired | DecryptionFailed | UnknownKEKVersion | WrapQuotaExhausted

  datatype Principal = Principal(userID: string, workspaceID: string)

  // revision and version derive from updated_at; they are positive when it is usable.
  datatype Connection = Connection(id: string, workspaceID: string, engine: Engine, revision: int)

  datatype Policy = Policy(allowRead: Option<bool>, timeoutMs: int, maxRows: int, version: int)

  datatype Request = Request(principal: Principal, connectionID: string, sql: string, args: seq<Any>,
    engine: Option<Engine>, pageSize: int)

  datatype Verified = Verified(plan: QP.VerifiedSortPlan, schemaGeneration: string, schema: string, table: string)

  // receipt is the outcome of the event named by AuditEventID.
  datatype ExecuteResult = ExecuteResult(error: Option<Code>, page: Option<Paging.Page>, token: Option<string>,
                                         receipt: Option<Outcome>, adapterCalled: bool)

  const Blank := ExecuteResult(None, None, None, None, false)

  // A first page, what it was asked with, and whether further pages may follow.
  datatype Fetched = Fetched(page: Paging.Page, query: State, paged: bool)

  function Called(error: Code): ExecuteResult { Blank.(error := Some(error), adapterCalled := true) }

  // Stands for the absent plan of a query that fits one page.
  const NO_PLAN := Verified(QP.VerifiedSortPlan([], QP.Binding("", PostgreSQL, 0, "")), "", "", "")

  // ---- Pure parts ----

  function PostStatus(e: Option<Code>): (Status, Outcome)
  {
    match e
    case None => (Completed, Succeeded)
    case Some(ExecutionCancelled) => (Cancelled, CancelledOutcome)
    case Some(QueryCancelled) => (Cancelled, CancelledOutcome)
    case Some(UnsupportedQuery) => (Failed, Denied)
    case _ => (Failed, FailedOutcome)
  }

  function MapPaginationError(f: TokenQuotas.Failure): Code
  {
    match f
    case InvalidPageToken => PageTokenInvalid
    case CapacityExhausted => PaginationCapacityExhausted
    case _ => InternalError
  }

  function CredentialAction(c: Code): Action
  {
    if c.DecryptionFailed? || c.UnknownKEKVersion? then CredentialDecrypt else CredentialLookup
  }

  // Page size and row cap of a first page.
  function EffectiveMaxRows(policy: Policy): int { if policy.maxRows > 500 then 500 else policy.maxRows }

  function EffectivePageSize(policy: Policy, requested: int): int
  {
    Min(if requested <= 0 then 100 else if requested > 500 then 500 else requested, EffectiveMaxRows(policy))
  }

  // What the adapter promises of a page read with before rows already returned (Paging.PageOf).
  predicate PageFits(p: Paging.Page, before: int, maxRows: int, pageSize: int)
  {
    && p.total == before + |p.rows| && p.total <= maxRows && |p.rows| <= pageSize
    && (p.hasMore ==> p.total < maxRows && p.rows != [])
  }

  lemma PagesFit(answer: seq<Row>, pageSize: int, before: int, maxRows: int)
    requires pageSize > 0 && before < maxRows
    ensures PageFits(Paging.PageOf(answer, Min(pageSize, maxRows - before), before, maxRows), before, maxRows, pageSize)
  {
  }

  // The state of a query as far as it is settled before its page is read.
  function QueryState(p: Principal, connectionID: string, generation: int, v: Verified, policyVersion: int, hash: string,
      sql: string, args: seq<Any>, pageSize: int): State
  {
    State(p.userID, p.workspaceID, connectionID, generation, v.schemaGeneration, v.schema, v.table, policyVersion, hash,
          Some(v.plan), sql, args, [], 0, pageSize, 0, 0, 0)
  }

  // The query is the one requested, for the requesting principal.
  predicate Asks(req: Request, query: State)
  {
    query.userID == req.principal.userID && query.workspaceID == req.principal.workspaceID
    && query.sql == req.sql && query.args == req.args
  }

  // The generations of the pool and of the table's schema.
  datatype Generations = Generations(pool: int, schema: string)

  // What was found when it was looked up: the membership, the policy, the generations, and for a first page that others
  // may follow the sort plan.
  datatype Seen = Seen(member: Result<Option<bool>, Code>, policy: Option<Policy>, found: Option<Generations>,
                       plan: Option<Verified>)

  // The bearer is the one the token was issued to, still a member that may read; connection policy, pool and schema are
  // those of the token; and plan and cursor, which belong together, make up a query.
  predicate StillHolds(p: Principal, s: State, seen: Seen)
  {
    && s.userID == p.userID && s.workspaceID == p.workspaceID && seen.member == Ok(Some(true))
    && seen.policy.Some? && seen.policy.value.allowRead == Some(true) && seen.policy.value.version == s.policyVersion
    && seen.found == Some(Generations(s.poolGeneration, s.schemaGeneration))
    && s.sortPlan.Some? && s.sortPlan.value.specs != [] && s.sql != "" && |s.lastSortValues| == 2 * |s.sortPlan.value.specs|
  }

  // The query of a first page is for what was found: the policy's version, cap and timeout, the pool's generation, and
  // the schema's.
  predicate AskedUnder(p: Served, seen: Seen)
  {
    && seen.member == Ok(Some(true)) && seen.policy.Some? && seen.found.Some?
    && seen.policy.value.allowRead == Some(true) && p.query.policyVersion == seen.policy.value.version
    && p.maxRows <= 500 && p.maxRows <= seen.policy.value.maxRows && p.maxRows in {500, seen.policy.value.maxRows}
    && p.timeoutMs == seen.policy.value.timeoutMs
    && p.query.poolGeneration == seen.found.value.pool && p.query.schemaGeneration == seen.found.value.schema
    && PlannedBy(p.query, seen.plan)
  }

  predicate PlannedBy(query: State, plan: Option<Verified>)
  {
    plan.Some? ==>
      && query.sortPlan == Some(plan.value.plan) && query.tableSchema == plan.value.schema && query.tableName == plan.value.table
      && query.schemaGeneration == plan.value.schemaGeneration
  }

  // The page size asked for: 100 when none is, and never more than 500.
  predicate WithinSize(rows: seq<Row>, requested: int)
  {
    |rows| <= 500 && |rows| <= (if requested > 0 then requested else 100)
  }

  // NewVerifiedNextPagePlan
  predicate NextPlanValid(s: State, maxRows: int)
  {
    && s.sortPlan.Some? && s.sortPlan.value.specs != [] && s.sql != "" && s.pageSize > 0 && maxRows > 0
    && 0 <= s.cumulativeCount < maxRows && |s.lastSortValues| == 2 * |s.sortPlan.value.specs|
  }

  // ---- Calls whose outcome is not ours: each may fail in any way it can ----

  class Environment {
    constructor () {}

    // auditFailed alone produces AuditFailed.
    method AnyFailure() returns (c: Code)
      ensures !c.AuditFailed?
    {
      c := *;
      if c.AuditFailed? {
        c := InternalError;
      }
    }

    method Succeeds() returns (ok: bool) { ok := *; }

    // Whether the principal is a member that may read; Ok(None) is the missing member.
    method FindMember(p: Principal) returns (canRead: Result<Option<bool>, Code>)
      ensures canRead.Err? ==> !canRead.error.AuditFailed?
    {
      var c := AnyFailure();
      var ok := Succeeds();
      var found: Option<bool> := *;
      return if ok then Ok(found) else Err(c);
    }

    method FindConnection(workspaceID: string, id: string) returns (r: Result<Connection, Code>)
      ensures r.Err? ==> !r.error.AuditFailed?
    {
      var c := AnyFailure();
      var ok := Succeeds();
      var found: Connection := *;
      return if ok then Ok(found) else Err(c);
    }

    // The SQL policy and the placeholder check: None lets the statement through.
    method Judge(engine: Engine, sql: string) returns (denied: Option<Code>)
      ensures denied.Some? ==> !denied.value.AuditFailed?
    {
      var c := AnyFailure();
      var ok := Succeeds();
      return if ok then None else Some(c);
    }

    method StatementHash(sql: string) returns (hash: string) { hash := *; }

    method FindPolicy(c: Connection) returns (r: Result<Option<Policy>, Code>)
      ensures r.Err? ==> !r.error.AuditFailed?
    {
      var e := AnyFailure();
      var ok := Succeeds();
      var found: Option<Policy> := *;
      return if ok then Ok(found) else Err(e);
    }

    method ResolveCredential(c: Connection) returns (failed: Option<Code>)
      ensures failed.Some? ==> !failed.value.AuditFailed?
    {
      var e := AnyFailure();
      var ok := Succeeds();
      return if ok then None else Some(e);
    }

    // The pool generation of the handle obtained.
    method GetPool(c: Connection) returns (r: Result<int, Code>)
      ensures r.Err? ==> !r.error.AuditFailed?
    {
      var e := AnyFailure();
      var ok := Succeeds();
      var generation: int := *;
      return if ok then Ok(generation) else Err(e);
    }

    method VerifySortPlan(req: Request, c: Connection, generation: int) returns (v: Option<Verified>) { v := *; }

    method LoadSchemaGeneration(schema: string, table: string) returns (r: Option<string>) { r := *; }

    // The only call that sends the user's statement to the target database, from which VerifySortPlan and
    // LoadSchemaGeneration read metadata: by then its execution is on record as running.
    method RunQuery(ghost query: State, pageSize: int, before: int, maxRows: int, ghost timeoutMs: int, ghost a: Db,
        ghost b: Db, ghost x: Exec)
        returns (r: Result<Paging.Page, Code>, ghost p: Served)
      requires Underway(a, b, x) && maxRows > before && pageSize == query.pageSize > 0
      ensures r.Err? ==> !r.error.AuditFailed?
      ensures r.Ok? ==> PageFits(r.value, before, maxRows, pageSize)
      ensures r.Ok? ==> p == Served(Identity(query), before, r.value.rows, maxRows, timeoutMs)
    {
      var e := AnyFailure();
      var page: Paging.Page := *;
      r := if PageFits(page, before, maxRows, pageSize) then Ok(page) else Err(e);
      p := Served(Identity(query), before, page.rows, maxRows, timeoutMs);
    }

    method ExtractLastValues(p: Paging.Page) returns (r: Option<seq<Any>>) { r := *; }

    method Now() returns (t: int) { t := *; }
  }

  // ---- How a call ends ----

  // The execution that a call opened has ended: it is accounted for, a receipt names the recorded event, and rows or a
  // token are only there when its completion and success are committed. If the record itself failed there is neither,
  // and the alarm was raised.
  predicate Ended(a: Db, b: Db, x: Exec, r: ExecuteResult, alarmed: bool)
  {
    && Touched(a, b, x)
    && if r.error == Some(AuditFailed) then alarmed && r.page.None? && r.token.None?
       else
         && Accounted(a, b, x, false)
         && (r.receipt.Some? ==> OnRecord(a, b, x, r.receipt.value))
         && (r.page.Some? || r.token.Some? ==> Delivered(a, b, x))
         && (r.error.None? ==> r.page.Some? && r.receipt == Some(Succeeded))
  }

  // The receipt names the event of this execution in the log.
  predicate Backed(a: Db, b: Db, x: Exec, r: ExecuteResult)
  {
    r.receipt.Some? ==> OnRecord(a, b, x, r.receipt.value)
  }

  // What is recorded of a query by its error: success, a cancellation, a query denied as unsupported, or a failure.
  predicate RecordedAs(a: Db, b: Db, x: Exec, error: Option<Code>, receipt: Option<Outcome>)
  {
    if error.None? then EndedAs(a, b, x, Completed, Succeeded) && receipt == Some(Succeeded)
    else if error.value in {ExecutionCancelled, QueryCancelled} then
      EndedAs(a, b, x, Cancelled, CancelledOutcome) && receipt == Some(CancelledOutcome)
    else if error == Some(UnsupportedQuery) then EndedAs(a, b, x, Failed, Denied) && receipt == Some(Denied)
    else EndedAs(a, b, x, Failed, FailedOutcome) && receipt == Some(FailedOutcome)
  }

  // What the adapter answered to the query of a call, if it was asked.
  type Answer = Option<Result<Paging.Page, Code>>

  // Success is on record only of a page that the adapter answered with, and an error it answered with is what the caller
  // gets and what is recorded, unless the record fails.
  predicate TrueTo(answer: Answer, a: Db, b: Db, x: Exec, r: ExecuteResult)
  {
    && (answer.None? || answer.value.Err? ==> NoSuccess(a, b, x) && r.page.None?)
    && (answer.Some? && answer.value.Err? ==>
          && r.error in {Some(answer.value.error), Some(AuditFailed)}
          && (r.error != Some(AuditFailed) ==> RecordedAs(a, b, x, r.error, r.receipt)))
    && (r.page.Some? ==> answer == Some(Ok(r.page.value)))
  }

  // A refusal with this code, on record with this outcome unless the record fails.
  predicate RefusedAs(a: Db, b: Db, x: Exec, r: ExecuteResult, code: Code, outcome: Outcome)
  {
    && r.error in {Some(code), Some(AuditFailed)} && NoSuccess(a, b, x)
    && (r.error == Some(code) ==> EndedAs(a, b, x, Failed, outcome) && r.receipt == Some(outcome))
  }

  // How a statement and a policy are judged: a denied statement, a missing policy and one that does not permit reading are
  // denied, and a failed look-up or a policy without limits fails.
  predicate Judged(denied: Option<Code>, policy: Result<Option<Policy>, Code>, a: Db, b: Db, x: Exec, r: ExecuteResult)
  {
    && (denied.Some? ==> RefusedAs(a, b, x, r, denied.value, Denied))
    && (denied.None? && policy.Err? ==> RefusedAs(a, b, x, r, policy.error, FailedOutcome))
    && (denied.None? && policy == Ok(None) ==> RefusedAs(a, b, x, r, PolicyNotConfigured, Denied))
    && (denied.None? && policy.Ok? && policy.value.Some? ==>
          var p := policy.value.value;
          && (p.allowRead != Some(true) ==> RefusedAs(a, b, x, r, ReadNotAllowed, Denied))
          && (p.allowRead == Some(true) && (p.timeoutMs <= 0 || p.maxRows <= 0) ==> RefusedAs(a, b, x, r, InternalError, FailedOutcome)))
  }

  // What a refusal before the query leaves in the database and answers, by the fate of its transaction.
  function Refused(db: Db, x: Exec, code: Code, outcome: Outcome, fate: Fate): (Db, ExecuteResult)
  {
    (AfterFate(db, x, Record(x.trace, Some(x.id), SqlExecute, outcome), fate),
     Blank.(error := Some(if fate.Committed? then code else AuditFailed), receipt := if fate.GivenUp? then None else Some(outcome)))
  }

  // The receipt of a refusal names an event that does not exist if and only if the commit was reported to have failed and
  // had no effect.
  lemma RefusalIsBackedIff(a: Db, db: Db, x: Exec, code: Code, outcome: Outcome, fate: Fate)
    requires Open(a, db, x)
    ensures var (b, r) := Refused(db, x, code, outcome, fate); Backed(a, b, x, r) <==> fate != Rejected(false)
  {
    assert AfterFate(db, x, Record(x.trace, Some(x.id), SqlExecute, outcome), Committed).audits
        == a.audits + [Record(x.trace, Some(x.id), SqlExecute, outcome)];
  }

  // A statement denied on an empty log, with a commit that fails: the receipt says denied, and no event does.
  lemma ReceiptWithoutEvent()
    ensures var (a, x) := (Db(map[], []), Exec(0, 0));
      var db := Applied(a, x, Some(Pending), None);
      var (b, r) := Refused(db, x, StatementNotAllowed, Denied, Rejected(false));
      && Open(a, db, x) && Ended(a, b, x, r, true) && r.receipt == Some(Denied) && b.audits == []
  {
  }

  predicate Nothing(r: ExecuteResult)
  {
    r.error.Some? && r.page.None? && r.token.None? && r.receipt.None? && !r.adapterCalled
  }

  // What a whole call leaves behind: nothing at all, an alarm because no execution could be opened, or an ended execution.
  predicate Settled(a: Db, b: Db, x: Exec, r: ExecuteResult, alarmed: bool)
  {
    || (b == a && Nothing(r))
    || (alarmed && Touched(a, b, x) && Nothing(r))
    || Ended(a, b, x, r, alarmed)
  }

  lemma RevocationUndoes(a: map<Digest, Entry>, b: Store, token: string, p: Served)
    requires Issued(a, b.entries, token, p) && !b.closed
    ensures Kept(a, RevokeStep(b, token).entries)
  {
  }

  lemma AccountedIsTouched(a: Db, b: Db, x: Exec, alarmed: bool)
    requires Accounted(a, b, x, alarmed)
    ensures Touched(a, b, x)
  {
  }

  // Once a page may be handed out, adding the token or withholding the page leaves the execution ended.
  lemma EndedStays(a: Db, b: Db, x: Exec, r: ExecuteResult, r': ExecuteResult, alarmed: bool)
    requires Ended(a, b, x, r, alarmed) && r.page.Some?
    requires r'.receipt == r.receipt && r'.error != Some(AuditFailed)
    requires r'.error == r.error || r'.error.Some?
    requires r'.error.None? ==> r'.page.Some?
    ensures Ended(a, b, x, r', alarmed)
  {
    hide Touched, Accounted, Delivered;
  }

  // ---- The pipeline ----

  class Executor {
    const env: Environment
    const ledger: Ledger
    const tokens: Tokens

    ghost predicate Valid()
      reads this, ledger, tokens, tokens.registry, tokens.handles
    {
      ledger.Valid() && tokens.Valid()
    }

    constructor (env: Environment, ledger: Ledger, tokens: Tokens)
      requires ledger.Valid() && tokens.Valid()
      ensures Valid() && this.env == env && this.ledger == ledger && this.tokens == tokens
    {
      this.env, this.ledger, this.tokens := env, ledger, tokens;
    }

    // The execution x, opened in a, is open in this ledger.
    ghost predicate Holds(a: Db, x: Exec)
      reads ledger
    {
      ledger.Valid() && Open(a, ledger.db, x) && x.trace < ledger.nextTrace && x.id < ledger.nextID
    }

    // auditFailed: nothing is delivered and the alarm is raised.
    method FailAudit(r: ExecuteResult) returns (r': ExecuteResult)
      modifies ledger`alarms
      ensures ledger.alarms == old(ledger.alarms) + 1
      ensures r' == r.(error := Some(AuditFailed), page := None, token := None)
    {
      ledger.Alarm();
      return r.(error := Some(AuditFailed), page := None, token := None);
    }

    // failPreExecution: the row fails and its event is appended in one transaction; the receipt is filled in before its
    // commit.
    method FailBefore(x: Exec, code: Code, outcome: Outcome, ghost a: Db) returns (r: ExecuteResult, ghost fate: Fate)
      requires Holds(a, x) && !code.AuditFailed? && !outcome.Succeeded?
      modifies ledger
      ensures ledger.Valid() && Ended(a, ledger.db, x, r, ledger.alarms > old(ledger.alarms)) && ledger.alarms >= old(ledger.alarms)
      ensures r.error in {Some(code), Some(AuditFailed)} && r.page.None? && r.token.None? && !r.adapterCalled
      ensures (ledger.db, r) == Refused(old(ledger.db), x, code, outcome, fate)
      ensures Backed(a, ledger.db, x, r) <==> fate != Rejected(false)
      ensures RefusedAs(a, ledger.db, x, r, code, outcome)
    {
      r := Blank.(error := Some(code));
      var ok, appended;
      ok, appended, fate := ledger.SettleBefore(x, Record(x.trace, Some(x.id), SqlExecute, outcome), a);
      RefusalIsBackedIff(a, old(ledger.db), x, code, outcome, fate);
      if appended {
        r := r.(receipt := Some(outcome));
      }
      if !ok {
        r := FailAudit(r);
      }
    }

    // recordCredentialFailure: as above, but the event belongs to the system actor; decryption failures also alarm.
    method FailCredential(x: Exec, code: Code, ghost a: Db) returns (r: ExecuteResult)
      requires Holds(a, x) && !code.AuditFailed?
      modifies ledger
      ensures ledger.Valid() && Ended(a, ledger.db, x, r, ledger.alarms > old(ledger.alarms)) && ledger.alarms >= old(ledger.alarms)
      ensures r.error in {Some(code), Some(AuditFailed)} && r.page.None? && r.token.None? && r.receipt.None? && !r.adapterCalled
      ensures var decrypting := code in {DecryptionFailed, UnknownKEKVersion};
        r.error == Some(code) ==>
          && ledger.db.audits == a.audits + [Record(x.trace, None, if decrypting then CredentialDecrypt else CredentialLookup, FailedOutcome)]
          && ledger.alarms == old(ledger.alarms) + (if decrypting then 1 else 0)
      ensures NoSuccess(a, ledger.db, x)
    {
      r := Blank.(error := Some(code));
      if CredentialAction(code).CredentialDecrypt? {
        ledger.Alarm();
      }
      var ok, _, _ := ledger.SettleBefore(x, Record(x.trace, None, CredentialAction(code), FailedOutcome), a);
      if !ok {
        r := FailAudit(r);
      }
    }

    // recordPostExecution, and auditFailed when it fails: the common end of every path past the adapter.
    method RecordAfter(x: Exec, r: ExecuteResult, ghost a: Db) returns (ok: bool, r': ExecuteResult)
      requires Holds(a, x) && r.token.None? && r.receipt.None? && r.error != Some(AuditFailed) && (r.page.Some? <==> r.error.None?)
      modifies ledger
      ensures ledger.Valid() && Ended(a, ledger.db, x, r', ledger.alarms > old(ledger.alarms)) && ledger.alarms >= old(ledger.alarms)
      ensures ok ==> r' == r.(receipt := r'.receipt)
      ensures !ok ==> r' == r.(error := Some(AuditFailed), page := None)
      ensures ok && r.error.None? ==> Delivered(a, ledger.db, x)
      ensures Backed(a, ledger.db, x, r')
      ensures ok ==> RecordedAs(a, ledger.db, x, r.error, r'.receipt)
      ensures r.error.Some? ==> NoSuccess(a, ledger.db, x)
    {
      var (status, outcome) := PostStatus(r.error);
      ok := ledger.SettleAfter(x, status, Record(x.trace, Some(x.id), SqlExecute, outcome), a);
      if ok {
        r' := r.(receipt := Some(outcome));
      } else {
        r' := FailAudit(r);
      }
    }

    // Phases A and B of Execute; nothing is recorded about a request refused here.
    method Authorize(req: Request) returns (r: Result<Connection, Code>, ghost member: Result<Option<bool>, Code>)
      ensures r.Err? ==> !r.error.AuditFailed?
      ensures r.Ok? ==> member == Ok(Some(true))
      ensures member.Err? ==> r == Err(member.error)
      ensures member.Ok? && member.value != Some(true) ==> r == Err(Forbidden)
      ensures r.Ok? && req.engine.Some? ==> r.value.engine == req.engine.value
    {
      var found := env.FindMember(req.principal);
      member := found;
      if found.Err? {
        return Err(found.error), member;
      }
      if found.value.None? {
        return Err(Forbidden), member;
      }
      if !found.value.value {
        return Err(Forbidden), member;
      }
      var conn := env.FindConnection(req.principal.workspaceID, req.connectionID);
      if conn.Ok? && req.engine.Some? && req.engine.value != conn.value.engine {
        return Err(UnsupportedEngine), member;
      }
      return conn, member;
    }

    // From the pending execution to the running one: the statement's verdict, the policy, the credential.
    method Preflight(conn: Connection, denied: Option<Code>, x: Exec, ghost a: Db)
        returns (r: Result<Policy, ExecuteResult>, ghost fate: Fate, ghost found: Result<Option<Policy>, Code>,
          ghost credential: Option<Code>)
      requires Holds(a, x) && (denied.Some? ==> !denied.value.AuditFailed?)
      modifies ledger
      ensures ledger.Valid() && ledger.alarms >= old(ledger.alarms)
      ensures r.Ok? ==> Holds(a, x) && Underway(a, ledger.db, x) && ledger.alarms == old(ledger.alarms)
      ensures r.Ok? ==> r.value.allowRead == Some(true) && r.value.timeoutMs > 0 && r.value.maxRows > 0 && denied.None?
      ensures r.Err? ==> Ended(a, ledger.db, x, r.error, ledger.alarms > old(ledger.alarms))
      ensures r.Err? ==> r.error.page.None? && r.error.token.None? && !r.error.adapterCalled
      ensures r.Ok? ==> fate.GivenUp? && found == Ok(Some(r.value))
      ensures r.Err? ==> (Backed(a, ledger.db, x, r.error) <==> fate != Rejected(false))
      ensures r.Err? ==> NoSuccess(a, ledger.db, x) && Judged(denied, found, a, ledger.db, x, r.error)
      ensures r.Ok? ==> credential.None? && conn.revision > 0
      ensures credential.Some? ==> r.Err? && r.error.error in {credential, Some(AuditFailed)}
    {
      hide Open, Ended, Underway, Ledger.Valid, Refused, EndedAs, NoSuccess;
      fate, found, credential := GivenUp, Err(InternalError), None;
      if denied.Some? {
        var f;
        f, fate := FailBefore(x, denied.value, Denied, a);
        return Err(f), fate, found, credential;
      }
      var policy := env.FindPolicy(conn);
      found := policy;
      if policy.Err? {
        var f;
        f, fate := FailBefore(x, policy.error, FailedOutcome, a);
        return Err(f), fate, found, credential;
      }
      if policy.value.None? {
        var f;
        f, fate := FailBefore(x, PolicyNotConfigured, Denied, a);
        return Err(f), fate, found, credential;
      }
      var p := policy.value.value;
      if p.allowRead.None? || !p.allowRead.value {
        var f;
        f, fate := FailBefore(x, ReadNotAllowed, Denied, a);
        return Err(f), fate, found, credential;
      }
      if p.timeoutMs <= 0 || p.maxRows <= 0 {
        var f;
        f, fate := FailBefore(x, InternalError, FailedOutcome, a);
        return Err(f), fate, found, credential;
      }
      var failed := env.ResolveCredential(conn);
      credential := failed;
      if failed.Some? {
        var f := FailCredential(x, failed.value, a);
        return Err(f), fate, found, credential;
      }
      if conn.revision <= 0 {
        var f;
        f, fate := FailBefore(x, InternalError, FailedOutcome, a);
        return Err(f), fate, found, credential;
      }
      r := StartRunning(x, p, a);
    }

    method StartRunning(x: Exec, p: Policy, ghost a: Db) returns (r: Result<Policy, ExecuteResult>)
      requires Holds(a, x)
      modifies ledger
      ensures ledger.Valid() && ledger.alarms >= old(ledger.alarms)
      ensures r.Ok? ==> r.value == p && Holds(a, x) && Underway(a, ledger.db, x) && ledger.alarms == old(ledger.alarms)
      ensures r.Err? ==> Ended(a, ledger.db, x, r.error, ledger.alarms > old(ledger.alarms))
      ensures r.Err? ==> r.error.page.None? && r.error.token.None? && r.error.receipt.None? && !r.error.adapterCalled
      ensures r.Err? ==> NoSuccess(a, ledger.db, x)
    {
      var ok := ledger.StartRunning(x, a);
      if !ok {
        var f := FailAudit(Blank);
        return Err(f);
      }
      return Ok(p);
    }

    // createContinuation: stores what the next page needs.
    method CreateContinuation(query: State, page: Paging.Page, policy: Policy, maxRows: int, ghost p: Served)
        returns (r: Result<string, Code>, ghost refused: Option<TokenQuotas.Failure>)
      requires tokens.Valid() && PageFits(page, 0, maxRows, query.pageSize) && page.hasMore && page.total < maxRows
      requires p == Served(Identity(query), 0, page.rows, maxRows, policy.timeoutMs)
      modifies tokens, tokens.registry, tokens.handles
      ensures tokens.Valid() && old(tokens.pasts) <= tokens.pasts && (r.Err? ==> !r.error.AuditFailed?)
      ensures r.Ok? ==> Issued(old(tokens.registry.entries), tokens.registry.entries, r.value, p) && !tokens.registry.closed
      ensures r.Ok? ==> PagesOf(tokens.Past(), DigestOf(r.value)) == [p]
      ensures r.Err? ==> Kept(old(tokens.registry.entries), tokens.registry.entries)
      ensures refused == Some(InvalidPageToken) ==> r == Err(PageTokenInvalid)
      ensures refused == Some(CapacityExhausted) ==> r == Err(PaginationCapacityExhausted)
      ensures refused in {Some(RegistryClosed), Some(NoRandomness)} ==> r == Err(InternalError)
    {
      refused := None;
      hide Tokens.Valid, ValidState, StateBytes, Issued, PagesOf;
      var last := env.ExtractLastValues(page);
      if last.None? || policy.version <= 0 {
        return Err(InternalError), refused;
      }
      var state := query.(lastSortValues := last.value, cumulativeCount := page.total, maxRows := maxRows,
        timeoutMs := policy.timeoutMs);
      var now := env.Now();
      var created := tokens.Begin(state, now, p);
      if created.Err? {
        refused := Some(created.error);
        return Err(MapPaginationError(created.error)), refused;
      }
      return Ok(created.value), refused;
    }

    // Phase D up to the page: the pool, the sort plan if there may be further pages, the query.
    method ReadFirst(req: Request, conn: Connection, policy: Policy, hash: string, x: Exec, ghost a: Db)
        returns (r: Result<Fetched, ExecuteResult>, ghost p: Served, ghost answer: Answer, ghost found: Option<Generations>,
          ghost plan: Option<Verified>)
      requires Holds(a, x) && Underway(a, ledger.db, x) && policy.maxRows > 0
      modifies ledger
      ensures ledger.Valid() && ledger.alarms >= old(ledger.alarms)
      ensures r.Err? ==> Ended(a, ledger.db, x, r.error, ledger.alarms > old(ledger.alarms))
      ensures r.Err? ==> r.error.page.None? && r.error.token.None? && Backed(a, ledger.db, x, r.error)
      ensures r.Err? ==> NoSuccess(a, ledger.db, x) && TrueTo(answer, a, ledger.db, x, r.error)
      ensures r.Ok? ==> Holds(a, x) && ledger.alarms == old(ledger.alarms) && answer == Some(Ok(r.value.page))
      ensures r.Ok? ==> (r.value.paged ==> EffectivePageSize(policy, req.pageSize) < EffectiveMaxRows(policy))
      ensures r.Ok? ==> Asks(req, p.query) && p.query.pageSize == EffectivePageSize(policy, req.pageSize)
      ensures r.Ok? ==> p.query.policyVersion == policy.version && p.query.connectionID == conn.id && p.query.statementHash == hash
      ensures r.Ok? ==> found == Some(Generations(p.query.poolGeneration, p.query.schemaGeneration))
      ensures r.Ok? ==> PlannedBy(p.query, plan) && (r.value.paged ==> plan.Some?)
      ensures r.Ok? ==> p == Served(Identity(r.value.query), 0, r.value.page.rows, EffectiveMaxRows(policy), policy.timeoutMs)
      ensures r.Ok? ==> PageFits(r.value.page, 0, EffectiveMaxRows(policy), p.query.pageSize)
      ensures r.Ok? ==> r.value.query.pageSize == p.query.pageSize
    {
      hide Ended, Ledger.Valid, Touched, Accounted, Delivered, Backed, EndedAs, NoSuccess;
      p, answer, found, plan := *, None, None, None;
      var generation := env.GetPool(conn);
      if generation.Err? {
        var _, f := RecordAfter(x, Blank.(error := Some(generation.error)), a);
        return Err(f), p, answer, found, plan;
      }
      var (maxRows, pageSize) := (EffectiveMaxRows(policy), EffectivePageSize(policy, req.pageSize));
      var verified: Option<Verified> := None;
      if maxRows > pageSize {
        verified := env.VerifySortPlan(req, conn, generation.value);
        if verified.None? {
          var _, f := RecordAfter(x, Called(UnsupportedQuery), a);
          return Err(f), p, answer, found, plan;
        }
      }
      plan := verified;
      var v := if verified.Some? then verified.value else NO_PLAN;
      found := Some(Generations(generation.value, v.schemaGeneration));
      var query := QueryState(req.principal, conn.id, generation.value, v, policy.version, hash, req.sql, req.args, pageSize);
      var page;
      page, p := env.RunQuery(query, pageSize, 0, maxRows, policy.timeoutMs, a, ledger.db, x);
      answer := Some(page);
      if page.Err? {
        var _, f := RecordAfter(x, Called(page.error), a);
        return Err(f), p, answer, found, plan;
      }
      return Ok(Fetched(page.value, query, maxRows > pageSize)), p, answer, found, plan;
    }

    // Phase D from the page on: the continuation is stored, the outcome recorded; only then is anything handed out.
    method FirstPage(req: Request, conn: Connection, policy: Policy, hash: string, x: Exec, ghost a: Db)
        returns (r: ExecuteResult, ghost p: Served, ghost answer: Answer, ghost found: Option<Generations>,
          ghost plan: Option<Verified>)
      requires Holds(a, x) && Underway(a, ledger.db, x) && tokens.Valid() && policy.maxRows > 0
      modifies ledger, tokens, tokens.registry, tokens.handles
      ensures Valid() && ledger.alarms >= old(ledger.alarms) && old(tokens.pasts) <= tokens.pasts
      ensures Ended(a, ledger.db, x, r, ledger.alarms > old(ledger.alarms)) && Backed(a, ledger.db, x, r)
      ensures TrueTo(answer, a, ledger.db, x, r)
      ensures r.token.None? ==> Kept(old(tokens.registry.entries), tokens.registry.entries)
      ensures r.page.Some? ==> Asks(req, p.query) && p.before == 0 && p.rows == r.page.value.rows
      ensures r.page.Some? ==> p.maxRows == EffectiveMaxRows(policy) && p.timeoutMs == policy.timeoutMs
      ensures r.page.Some? ==> PageFits(r.page.value, 0, p.maxRows, p.query.pageSize)
      ensures r.page.Some? ==> p.query.pageSize == EffectivePageSize(policy, req.pageSize) && p.query.policyVersion == policy.version
      ensures r.page.Some? ==> p.query.connectionID == conn.id && p.query.statementHash == hash
      ensures r.page.Some? ==> found == Some(Generations(p.query.poolGeneration, p.query.schemaGeneration))
      ensures r.page.Some? ==> PlannedBy(p.query, plan) && (r.token.Some? ==> plan.Some?)
      ensures r.token.Some? ==> r.page.Some? && r.error.None? && PagesOf(tokens.Past(), DigestOf(r.token.value)) == [p]
      ensures r.token.Some? ==> Issued(old(tokens.registry.entries), tokens.registry.entries, r.token.value, p)
    {
      hide Ended, Ledger.Valid, Touched, Identity, Tokens.Valid, RevokeStep, Issued, Accounted, Delivered, PagesOf, Asks, OnRecord;
      hide EndedAs, NoSuccess;
      var fetched;
      fetched, p, answer, found, plan := ReadFirst(req, conn, policy, hash, x, a);
      if fetched.Err? {
        r := fetched.error;
        return;
      }
      var (page, maxRows) := (fetched.value.page, EffectiveMaxRows(policy));
      var token: Option<string> := None;
      var ok;
      if fetched.value.paged && page.hasMore && page.total < maxRows {
        var created, _ := CreateContinuation(fetched.value.query, page, policy, maxRows, p);
        if created.Err? {
          ok, r := RecordAfter(x, Called(created.error), a);
          return;
        }
        token := Some(created.value);
      }
      ok, r := RecordAfter(x, Blank.(page := Some(page), adapterCalled := true), a);
      if ok {
        EndedStays(a, ledger.db, x, r, r.(token := token), ledger.alarms > old(ledger.alarms));
        r := r.(token := token);
      } else if token.Some? {
        RevocationUndoes(old(tokens.registry.entries), tokens.registry.Snapshot(), token.value, p);
        tokens.Revoke(token.value);
      }
    }

    // Execute: a request that is refused, or whose execution cannot be opened, leaves nothing behind but an alarm.
    method Execute(req: Request)
        returns (r: ExecuteResult, ghost x: Exec, ghost p: Served, ghost seen: Seen, ghost fate: Fate, ghost answer: Answer)
      requires Valid()
      modifies ledger, tokens, tokens.registry, tokens.handles
      ensures Valid() && x.id !in old(ledger.db).executions && TraceIsNew(old(ledger.db), x.trace)
      ensures ledger.alarms >= old(ledger.alarms) && old(tokens.pasts) <= tokens.pasts
      ensures Settled(old(ledger.db), ledger.db, x, r, ledger.alarms > old(ledger.alarms))
      ensures Backed(old(ledger.db), ledger.db, x, r) <==> fate != Rejected(false)
      ensures TrueTo(answer, old(ledger.db), ledger.db, x, r)
      ensures seen.member != Ok(Some(true)) ==> ledger.db == old(ledger.db) && ledger.alarms == old(ledger.alarms) && Nothing(r)
      ensures r.token.None? ==> Kept(old(tokens.registry.entries), tokens.registry.entries)
      ensures r.page.Some? ==> Asks(req, p.query) && p.before == 0 && p.rows == r.page.value.rows && AskedUnder(p, seen)
      ensures r.page.Some? ==> r.page.value.total == |r.page.value.rows| <= p.maxRows && WithinSize(r.page.value.rows, req.pageSize)
      ensures r.page.Some? && r.page.value.hasMore ==> r.page.value.rows != [] && r.page.value.total < p.maxRows
      ensures r.token.Some? ==> r.page.Some? && r.error.None? && PagesOf(tokens.Past(), DigestOf(r.token.value)) == [p]
      ensures r.token.Some? ==> Issued(old(tokens.registry.entries), tokens.registry.entries, r.token.value, p) && seen.plan.Some?
    {
      hide Ended, Touched, Identity, Tokens.Valid, Issued, Accounted, Delivered, PagesOf, Asks, OnRecord, EndedAs;
      p, fate, answer, seen := *, GivenUp, None, Seen(Ok(None), None, None, None);
      x := Exec(ledger.nextID, ledger.nextTrace);
      var conn;
      ghost var member;
      conn, member := Authorize(req);
      seen := Seen(member, None, None, None);
      if conn.Err? {
        r := Blank.(error := Some(conn.error));
        return;
      }
      var denied := env.Judge(conn.value.engine, req.sql);
      var hash := env.StatementHash(req.sql);
      var row;
      row, x := ledger.OpenExecution(Pending);
      if row.None? {
        r := Blank.(error := Some(InternalError));
        AccountedIsTouched(old(ledger.db), ledger.db, x, true);
        return;
      }
      hide NoSuccess;
      var policy;
      ghost var policyFound, credential;
      policy, fate, policyFound, credential := Preflight(conn.value, denied, row.value, old(ledger.db));
      if policy.Err? {
        r := policy.error;
        return;
      }
      ghost var found, plan;
      r, p, answer, found, plan := FirstPage(req, conn.value, policy.value, hash, row.value, old(ledger.db));
      seen := Seen(member, Some(policy.value), found, plan);
    }

    // ---- Next pages ----

    // What must still hold for the bearer of a token.
    method Reauthorize(principal: Principal, s: State)
        returns (r: Result<(Connection, Policy), Code>, ghost member: Result<Option<bool>, Code>)
      ensures r.Err? ==> !r.error.AuditFailed?
      ensures r.Ok? ==> s.userID == principal.userID && s.workspaceID == principal.workspaceID && member == Ok(Some(true))
      ensures r.Ok? ==> r.value.0.id == s.connectionID && r.value.1.version == s.policyVersion > 0
      ensures r.Ok? ==> r.value.1.allowRead == Some(true) && r.value.1.maxRows > 0 && r.value.1.timeoutMs > 0
    {
      member := Ok(None);
      if s.userID != principal.userID || s.workspaceID != principal.workspaceID {
        return Err(PageTokenInvalid), member;
      }
      var found := env.FindMember(principal);
      member := found;
      if found.Err? {
        return Err(found.error), member;
      }
      if found.value.None? || !found.value.value {
        return Err(Forbidden), member;
      }
      var parsed := env.Succeeds();
      if !parsed {
        return Err(PageTokenInvalid), member;
      }
      var conn := env.FindConnection(principal.workspaceID, s.connectionID);
      if conn.Err? {
        return Err(conn.error), member;
      }
      if conn.value.id != s.connectionID {
        return Err(PageTokenInvalid), member;
      }
      var policy := env.FindPolicy(conn.value);
      if policy.Err? {
        return Err(policy.error), member;
      }
      if policy.value.None? {
        return Err(PageTokenInvalid), member;
      }
      var p := policy.value.value;
      if p.allowRead.None? || !p.allowRead.value || p.maxRows <= 0 || p.timeoutMs <= 0 {
        return Err(PageTokenInvalid), member;
      }
      if p.version <= 0 || p.version != s.policyVersion {
        return Err(PageTokenInvalid), member;
      }
      return Ok((conn.value, p)), member;
    }

    // The credential is resolved anew, and the pool and the schema, whose generations are returned as they are found now,
    // are still those of the token.
    method Revalidate(s: State, conn: Connection, maxRows: int, x: Exec, ghost a: Db)
        returns (r: Result<Generations, ExecuteResult>, ghost credential: Option<Code>)
      requires Holds(a, x) && Underway(a, ledger.db, x)
      modifies ledger
      ensures ledger.Valid() && ledger.alarms >= old(ledger.alarms)
      ensures r.Ok? ==> ledger.db == old(ledger.db) && Holds(a, x) && ledger.alarms == old(ledger.alarms)
      ensures r.Ok? ==> r.value == Generations(s.poolGeneration, s.schemaGeneration) && NextPlanValid(s, maxRows)
      ensures r.Err? ==> Ended(a, ledger.db, x, r.error, ledger.alarms > old(ledger.alarms)) && Backed(a, ledger.db, x, r.error)
      ensures r.Err? ==> r.error.page.None? && r.error.token.None? && r.error.error.Some? && !r.error.adapterCalled
      ensures r.Err? ==> NoSuccess(a, ledger.db, x)
      ensures r.Ok? ==> credential.None? && conn.revision > 0
      ensures credential.Some? ==> r.Err? && r.error.error in {credential, Some(AuditFailed)}
    {
      hide Ended, Ledger.Valid, Open, Touched, Accounted, Delivered, OnRecord, EndedAs, NoSuccess;
      credential := None;
      var code := PageTokenInvalid;
      var failed := env.ResolveCredential(conn);
      credential := failed;
      if failed.Some? {
        var f := FailCredential(x, failed.value, a);
        return Err(f), credential;
      }
      var generation := Err(InternalError);
      if conn.revision > 0 {
        generation := env.GetPool(conn);
      }
      if generation.Err? {
        code := generation.error;
      } else if generation.value == s.poolGeneration {
        var schema := env.LoadSchemaGeneration(s.tableSchema, s.tableName);
        if schema.Some? && schema.value == s.schemaGeneration && NextPlanValid(s, maxRows) {
          return Ok(Generations(generation.value, schema.value)), credential;
        }
      }
      var _, f := RecordAfter(x, Blank.(error := Some(code)), a);
      return Err(f), credential;
    }

    // The page itself; what was read is handed out only with its success on record.
    method ReadNext(principal: Principal, s: State, conn: Connection, policy: Policy, maxRows: int, timeoutMs: int,
        x: Exec, ghost a: Db)
        returns (r: ExecuteResult, ghost p: Served, ghost found: Option<Generations>, ghost answer: Answer)
      requires Holds(a, x) && Underway(a, ledger.db, x)
      requires s.userID == principal.userID && s.workspaceID == principal.workspaceID && s.connectionID == conn.id
      requires s.policyVersion == policy.version
      modifies ledger
      ensures ledger.Valid() && ledger.alarms >= old(ledger.alarms) && r.token.None?
      ensures Ended(a, ledger.db, x, r, ledger.alarms > old(ledger.alarms)) && Backed(a, ledger.db, x, r)
      ensures r.page.Some? <==> r.error.None?
      ensures TrueTo(answer, a, ledger.db, x, r)
      ensures r.page.Some? ==> found == Some(Generations(s.poolGeneration, s.schemaGeneration)) && NextPlanValid(s, maxRows)
      ensures r.page.Some? ==> PageFits(r.page.value, s.cumulativeCount, maxRows, s.pageSize)
      ensures r.page.Some? ==> p == Served(Identity(s), s.cumulativeCount, r.page.value.rows, maxRows, timeoutMs)
    {
      hide Ended, Ledger.Valid, Open, Touched, Accounted, Delivered, Backed, EndedAs, NoSuccess;
      p, found, answer := *, None, None;
      var valid, _ := Revalidate(s, conn, maxRows, x, a);
      if valid.Err? {
        r := valid.error;
        return;
      }
      found := Some(valid.value);
      ghost var v := Verified(s.sortPlan.value, valid.value.schema, s.tableSchema, s.tableName);
      ghost var query := QueryState(principal, conn.id, valid.value.pool, v, policy.version, s.statementHash, s.sql, s.args,
        s.pageSize);
      assert Identity(query) == Identity(s);
      var page;
      page, p := env.RunQuery(query, s.pageSize, s.cumulativeCount, maxRows, timeoutMs, a, ledger.db, x);
      answer := Some(page);
      var ok;
      if page.Err? {
        ok, r := RecordAfter(x, Called(page.error), a);
      } else {
        ok, r := RecordAfter(x, Blank.(page := Some(page.value), adapterCalled := true), a);
      }
    }

    // Rotate or Complete. A page whose cursor cannot be extracted is returned together with the error.
    method Conclude(c: Claim, read: ExecuteResult, maxRows: int, timeoutMs: int, ghost p: Served)
        returns (r: ExecuteResult, ghost refused: Option<TokenQuotas.Failure>)
      requires tokens.Valid() && Owns(tokens.registry.Snapshot(), c)
      requires c in tokens.Past().open && c in tokens.Past().world.claims && ServedFrom(c.state, p)
      requires read.page.Some? && read.error.None? && read.token.None?
      requires p == Served(Identity(c.state), p.before, read.page.value.rows, maxRows, timeoutMs)
      requires PageFits(read.page.value, p.before, maxRows, c.state.pageSize)
      modifies tokens, tokens.registry, tokens.handles
      ensures tokens.Valid() && old(tokens.pasts) <= tokens.pasts
      ensures r.receipt == read.receipt && r.error != Some(AuditFailed)
      ensures c.digest !in tokens.registry.entries
      ensures r.token.None? ==> Kept(old(tokens.registry.entries), tokens.registry.entries)
      ensures r.token.Some? ==> Issued(old(tokens.registry.entries), tokens.registry.entries, r.token.value, p)
      ensures r.token.Some? ==>
        tokens.registry.entries[DigestOf(r.token.value)].expiresAt == old(tokens.registry.entries)[c.digest].expiresAt
      ensures r.token.Some? ==> LineageOf(tokens.Past().world, DigestOf(r.token.value)) == LineageOf(tokens.Past().world, c.digest)
      ensures r.page.Some? ==> PagesOf(tokens.Past(), c.digest) == PagesOf(old(tokens.Past()), c.digest) + [p]
      ensures r.page.None? ==> tokens.Past().trails == old(tokens.Past()).trails
      ensures r.error.None? ==> r.page == read.page && (r.token.Some? <==> read.page.value.hasMore)
      ensures r.error.Some? ==> r.token.None? && (r.page.Some? <==> r.error == Some(DatabaseError))
      ensures r.page.None? || r.page == read.page
      ensures r.page.None? ==> refused.Some?
      ensures r.page.None? && refused == Some(InvalidPageToken) ==> r.error == Some(PageTokenInvalid)
      ensures r.page.None? && refused == Some(CapacityExhausted) ==> r.error == Some(PaginationCapacityExhausted)
      ensures r.page.None? && refused in {Some(RegistryClosed), Some(NoRandomness)} ==> r.error == Some(InternalError)
    {
      hide ValidState, StateBytes, Tokens.Valid, Issued;
      refused := None;
      var page := read.page.value;
      r := read;
      if page.hasMore && page.total < maxRows {
        var last := env.ExtractLastValues(page);
        if last.None? {
          r := read.(error := Some(DatabaseError));
        } else {
          var state := c.state.(lastSortValues := last.value, cumulativeCount := page.total, maxRows := maxRows,
            timeoutMs := timeoutMs, expiresAt := 0);
          var now := env.Now();
          var rotated := tokens.Continue(c, state, now, p);
          if rotated.Err? {
            refused := Some(rotated.error);
            r := read.(page := None, error := Some(MapPaginationError(rotated.error)));
          } else {
            r := read.(token := Some(rotated.value));
          }
        }
      }
      tokens.Finish(c);
      if r.page.Some? && r.token.None? {
        tokens.ServeLast(c, p);
      }
    }

    // The page of a claimed token, from reauthorisation to the end of its execution; the token store is not touched.
    method ServeClaimed(principal: Principal, s: State)
        returns (r: ExecuteResult, ghost x: Exec, ghost p: Served, maxRows: int, timeoutMs: int, ghost seen: Seen,
          ghost answer: Answer)
      requires ledger.Valid()
      modifies ledger
      ensures ledger.Valid() && x.id !in old(ledger.db).executions && TraceIsNew(old(ledger.db), x.trace)
      ensures ledger.alarms >= old(ledger.alarms) && r.token.None?
      ensures Settled(old(ledger.db), ledger.db, x, r, ledger.alarms > old(ledger.alarms))
      ensures Backed(old(ledger.db), ledger.db, x, r)
      ensures r.page.Some? ==> Ended(old(ledger.db), ledger.db, x, r, ledger.alarms > old(ledger.alarms))
      ensures r.page.Some? <==> r.error.None?
      ensures TrueTo(answer, old(ledger.db), ledger.db, x, r)
      ensures r.page.Some? ==> PageFits(r.page.value, s.cumulativeCount, maxRows, s.pageSize) && ServedFrom(s, p)
      ensures r.page.Some? ==> StillHolds(principal, s, seen)
      ensures r.page.Some? ==> seen.policy.Some? && maxRows == Min(seen.policy.value.maxRows, s.maxRows)
      ensures r.page.Some? ==> seen.policy.Some? && timeoutMs == Min(seen.policy.value.timeoutMs, s.timeoutMs)
      ensures r.page.Some? ==> p == Served(Identity(s), s.cumulativeCount, r.page.value.rows, maxRows, timeoutMs)
    {
      hide Ended, Touched, Identity, Accounted, Delivered, OnRecord, EndedAs;
      p, seen, answer := *, Seen(Ok(None), None, None, None), None;
      x := Exec(ledger.nextID, ledger.nextTrace);
      maxRows, timeoutMs := s.maxRows, s.timeoutMs;
      var auth;
      ghost var member;
      auth, member := Reauthorize(principal, s);
      if auth.Err? {
        r := Blank.(error := Some(auth.error));
        return;
      }
      var (conn, policy) := auth.value;
      maxRows, timeoutMs := Min(policy.maxRows, s.maxRows), Min(policy.timeoutMs, s.timeoutMs);
      var row;
      row, x := ledger.OpenExecution(Running);
      if row.None? {
        AccountedIsTouched(old(ledger.db), ledger.db, x, true);
        r := Blank.(error := Some(AuditFailed));
        return;
      }
      ghost var found;
      r, p, found, answer := ReadNext(principal, s, conn, policy, maxRows, timeoutMs, row.value, old(ledger.db));
      seen := Seen(member, Some(policy), found, None);
    }

    // ExecuteNextPage: once the claim succeeded, the token is dead whatever happens.
    method ExecuteNextPage(principal: Principal, token: string)
        returns (r: ExecuteResult, ghost x: Exec, ghost c: Option<Claim>, ghost p: Served, ghost seen: Seen,
          ghost answer: Answer)
      requires Valid()
      modifies ledger, tokens, tokens.registry, tokens.handles
      ensures Valid() && x.id !in old(ledger.db).executions && TraceIsNew(old(ledger.db), x.trace)
      ensures ledger.alarms >= old(ledger.alarms) && old(tokens.pasts) <= tokens.pasts
      ensures Settled(old(ledger.db), ledger.db, x, r, ledger.alarms > old(ledger.alarms))
      ensures Backed(old(ledger.db), ledger.db, x, r)
      ensures TrueTo(answer, old(ledger.db), ledger.db, x, r)
      ensures c.None? ==> ledger.db == old(ledger.db) && Nothing(r)
      ensures c.None? ==> r.error == Some(if old(tokens.registry.closed) then InternalError else PageTokenInvalid)
      ensures c.Some? ==> DigestOf(token) in old(tokens.registry.entries) && DigestOf(token) !in tokens.registry.entries
      ensures c.Some? ==> c.value.state == old(tokens.registry.entries)[DigestOf(token)].state
      ensures r.page.Some? ==> c.Some? && ServedFrom(c.value.state, p) && StillHolds(principal, c.value.state, seen)
      ensures r.page.Some? ==> p.rows == r.page.value.rows && PageFits(r.page.value, p.before, p.maxRows, c.value.state.pageSize)
      ensures r.page.Some? ==> seen.policy.Some? && p.maxRows <= seen.policy.value.maxRows && p.timeoutMs <= seen.policy.value.timeoutMs
      ensures r.page.Some? ==> PagesOf(tokens.Past(), DigestOf(token)) == PagesOf(old(tokens.Past()), DigestOf(token)) + [p]
      ensures r.page.Some? ==> r.page.value.total == RowsServed(PagesOf(tokens.Past(), DigestOf(token)))
      ensures r.page.None? ==> tokens.Past().trails == old(tokens.Past()).trails
      ensures r.token.None? ==> Kept(old(tokens.registry.entries), tokens.registry.entries)
      ensures r.token.Some? ==> r.page.Some? && r.error.None?
      ensures r.token.Some? ==> Issued(old(tokens.registry.entries), tokens.registry.entries, r.token.value, p)
      ensures r.token.Some? ==>
        tokens.registry.entries[DigestOf(r.token.value)].expiresAt == old(tokens.registry.entries)[DigestOf(token)].expiresAt
      ensures r.token.Some? ==>
        LineageOf(tokens.Past().world, DigestOf(r.token.value)) == LineageOf(tokens.Past().world, DigestOf(token))
      ensures r.error.None? ==> (r.token.Some? <==> r.page.value.hasMore)
      ensures r.page.Some? ==> r.error in {None, Some(DatabaseError)}
    {
      hide Ended, Touched, Accounted, Delivered, Identity, ServedFrom, Continues, Tokens.Valid, Issued, OnRecord, StillHolds;
      hide RowsServed, EndedAs;
      p, c, seen, answer := *, None, Seen(Ok(None), None, None, None), None;
      x := Exec(ledger.nextID, ledger.nextTrace);
      var now := env.Now();
      var claimed := tokens.Claim(token, now);
      if claimed.Err? {
        r := Blank.(error := Some(MapPaginationError(claimed.error)));
        return;
      }
      c := Some(claimed.value);
      var maxRows, timeoutMs;
      r, x, p, maxRows, timeoutMs, seen, answer := ServeClaimed(principal, claimed.value.state);
      if r.page.Some? {
        var read := r;
        ghost var refused;
        r, refused := Conclude(claimed.value, read, maxRows, timeoutMs, p);
        EndedStays(old(ledger.db), ledger.db, x, read, r, ledger.alarms > old(ledger.alarms));
        ghost var (was, d) := (old(tokens.registry.entries), DigestOf(token));
        if r.token.Some? {
          IssuedBeforeClaim(was, d, was[d].(inFlight := true), tokens.registry.entries, r.token.value, p);
        }
        if r.page.Some? {
          tokens.CountIsRowsServed(DigestOf(token), p);
        }
      } else {
        tokens.Finish(claimed.value);
      }
    }
  }
}
