# WebDB: verified model

A Dafny model of the read path of WebDB and of the credential lifecycle behind it, with proofs. Everything is proved for
all inputs, runs and interleavings; external calls (databases, drivers, the random source, clocks, audit and alarm
channels) are nondeterministic: each may succeed, fail or be cancelled at any time.

Verify with `dafny verify dfyconfig.toml`.

| files | what they model |
|---|---|
| `Sql`, `Keyset` | SQL conditions under three-valued logic; the continuation condition, ORDER BY and argument binding |
| `Paging`, `PagingRuns`, `PagingProgress` | page queries, the reading loop, runs of pages over a table, and when they can be finished |
| `QueryPlan`, `PlanSoundness`, `Catalogue` | unique keys read from the catalogue, the sort plan they prove, and what an accepted plan guarantees |
| `Continuation`, `TokenQuotas`, `Pagination`, `TokenRuns` | the store of single-use continuation tokens, its quotas and eviction, and its runs |
| `Lineages`, `TokenHistory`, `ServedRows` | the pages served under a token and its successors, in every run of the store; the store with its history beside it; what their rows add up to |
| `ExecutionLog`, `Pipeline` | executing first and later pages with an audited execution each, while every call may fail |
| `Credentials`, `AuditGate` | concurrent credential and connection transactions, and the gate that ties each commit to one event |
| `PoolManager`, `PoolRuns` | the sections of the connection pool manager and their interleavings |
| `Lexemes`, `Placeholders`, `Insertions`, `ExecutableComments` | the scanners for native placeholders and executable comments, and what inserted literals do to the former |
| `SchemaGeneration`, `Decimal`, `WireText` | the bytes behind a schema generation; decimal and time texts |
| `SeedDemo` | seeding the demo tenants, cut short anywhere and run again |

Objects that the program updates in place (token registry, condition builder, pool manager, lexer, atomic transaction,
executor with its ledger, seeder) are classes whose methods are proved against functions or relations on their state; the
statements about whole runs are lemmas about those functions. Protocols between threads and transactions are state
machines with one step per critical section or statement.

## Where the code differs from what one might expect

- A denial or failure before the query, other than that of a credential, fills in the audit receipt before the commit that
  records it (apps/api/internal/execution/pipeline.go:1186-1231). `Pipeline.RefusalIsBackedIff`: the receipt names an event
  that does not exist if and only if that commit is reported failed and had no effect; `Pipeline.ReceiptWithoutEvent` shows
  one. `Pipeline.Executor.Execute` promises the same of the whole call; a later page has no such receipt.
- When the last values of a later page cannot be extracted, the page is returned together with an error and without a token
  (apps/api/internal/execution/pipeline.go:970-978); a failed rotation withholds the page.
- Inserting a quoted literal between tokens can change the verdict of the placeholder scanner. `Placeholders` gives two
  inputs, and `Insertions.InsertionIsHarmless` the exact places at which no properly quoted literal does.
- In PostgreSQL a question mark directly before a digit counts as a placeholder, because the test looks at the next byte
  only (apps/api/internal/sqlpolicy/placeholder.go:30-38). `Placeholders.QuestionDigitIsReported` shows it, and
  `Placeholders.ReportsNumbersIff` says when the report means a $-number.
- The bytes hashed into a schema generation do not delimit primary key and constraint names; and without a primary key, a
  first constraint name of 256 bytes or more can be read as further columns. Both are shown by pairs of valid tables;
  otherwise everything but that delimitation is determined.
- A rotation repoints the connections that its UPDATE finds: one that is created on an older active version, or moved
  there, before the rotation commits stays there (`Credentials.RotationMissesConnection`). `RotationRepointsIff` says
  exactly which connections are repointed; all stay usable.
- A caller that waited for another one's failed creation gets a configuration conflict although nothing conflicts, if it
  asked for revision 0 (apps/api/internal/adapter/manager.go:129-139): `PoolRuns.ConflictWithNothing` is such a run, and
  `PoolRuns.ConflictIsRealIff` says exactly when a reported conflict is one. A waiter with a newer revision creates without
  storing a channel of its own and may close the channel of a third caller (`PoolRuns.ForeignChannelClosed`); no wake-up
  is lost by it.
- A sort column that matches its exposed name only up to case can pass `VerifySortPlan` in MySQL, but the cursor is looked
  up by exact name (apps/api/internal/adapter/manager.go:973-995): such a query ends in an error after its first page.
  `PlanSoundness.MisspelledSortColumnStops` is one, and `PlanSoundness.VerifiedPagingFinishes` says exactly which accepted
  plans can be paged to the end.

## Assumptions

- A drawn handle was never drawn before, and digests of different handles differ.
- The queried table does not change between the pages of a run or of a lineage, its rows are as wide as its header, and the database
  resolves each sort column to the only column of the result that its name fits, up to case in MySQL.
- MySQL column names are distinct when folded (`PlanSoundness.CaseDistinct`).
- Values of a column are represented by their rank in the column's collation; equal ranks are equal values.
- `(workspace, secret_ref, version)` is unique and connections refer to existing envelopes, as the schema in
  apps/api/internal/migrate/migrations/00001_p0_schema.sql:54-114 has it.

## Model

| member | source | states |
|---|---|---|
| `Keyset.AfterIsExact` | apps/api/internal/adapter/keyset.go:120-141 | for any sort length, directions, null placements and last row, the condition built for later pages is TRUE exactly on the rows strictly after the last row and FALSE, never NULL, on all others |
| `Keyset.PastIsExact` | apps/api/internal/adapter/keyset.go:124-134 | the part for one column is TRUE exactly when the row is beyond the last one in that column, nulls ranked as asked |
| `Keyset.TiedIsExact` | apps/api/internal/adapter/keyset.go:135-137 | the tie part for one column is TRUE exactly when the two values are equal or both null |
| `Keyset.KsBuilder.BuildAfter` | apps/api/internal/adapter/keyset.go:118-141 | the builder emits that condition and appends its arguments in the order of its placeholders; in PostgreSQL the number advances by as many |
| `Keyset.NumberingAfter` | apps/api/internal/adapter/keyset.go:98-141 | the text has 5n-2 placeholders, and numbering the question marks of the MySQL text from left to right gives the numbered PostgreSQL text, so both bind alike |
| `Keyset.BuildOrderByClause` | apps/api/internal/adapter/keyset.go:143-166 | the loop emits, per engine, one item or pair of items for each sort column in order |
| `Keyset.OrderByIsKeysetOrder` | apps/api/internal/adapter/keyset.go:143-166 | the clauses of both engines order rows exactly as the comparison does that the continuation condition continues |
| `Keyset.BuildWrappedSQL` | apps/api/internal/adapter/keyset.go:71-96 | the condition is there exactly on later pages, and the arguments are those of the query, then those of the condition, then the limit |
| `Keyset.WrappedQueryIsExact` | apps/api/internal/adapter/keyset.go:71-96 | in both engines the wrapped query selects exactly the rows strictly after the last row, and its limit is read from the argument passed for it |
| `Keyset.CompareAntisymmetric` | apps/api/internal/adapter/keyset.go:143-166 | swapping two rows negates their comparison |
| `Keyset.CompareTransitive` | apps/api/internal/adapter/keyset.go:143-166 | the comparison of rows is transitive |
| `Paging.SortSpecsFromSpecs` | apps/api/internal/adapter/keyset.go:28-46 | specifications pass unchanged if there are any and all their columns are valid identifiers, and are refused otherwise |
| `Paging.ReadRows` | apps/api/internal/adapter/manager.go:638-828 | the reading loop returns exactly the page of the answer, or nothing: a driver error up to the last row kept, a cell or page over its byte limit, or a failed rollback refuse the page as a whole |
| `Paging.ExtractLastValues` | apps/api/internal/adapter/manager.go:973-995 | the cursor of a page is the null flag and value of each sort column in its last row; duplicate or missing columns are the only errors |
| `PagingRuns.PagingIsExact` | apps/api/internal/adapter/manager.go:476-616 | over any table keyed by the sort tuple, a finished run of pages concatenates to exactly the first rows of the sorted result, as many as the row cap asked for, 500 when none is, each once and in order, in exactly as many pages as that number of rows needs; an unfinished one to a proper prefix, in fewer pages |
| `PagingRuns.PagesAreBounded` | apps/api/internal/adapter/manager.go:476-616 | no page is longer than the page size asked for, 100 when none is, nor than 500; all pages together are no longer than the row cap |
| `PagingRuns.FirstCallIsMadeIff` | apps/api/internal/adapter/manager.go:476-529 | the database is asked only with a plan proved for this connection and pool generation, all of whose columns are valid identifiers, or without one when a single page is to hold everything; each refusal says which of these fails |
| `PagingProgress.RunHasNextIffExtractable` | apps/api/internal/adapter/manager.go:554-616 | after every page of a run that reports more rows, the next call is for at least one row, and there is a next page if and only if the column names of the result are distinct and every sort column is among them as spelled |
| `PagingProgress.FinishedRunExists` | apps/api/internal/adapter/manager.go:476-616 | a run over a keyed table can be finished if and only if one page suffices, by the page size and row cap asked for, or cursors can be extracted in that sense |
| `PagingProgress.RunFinishes` | apps/api/internal/adapter/manager.go:476-616 | where cursors can be extracted, every run extends to a finished one |
| `PagingProgress.NextPageExists` | apps/api/internal/adapter/manager.go:554-616 | the database has an answer to the next call, and the page made of it continues the run |
| `PagingProgress.SortedListing` | apps/api/internal/adapter/keyset.go:143-166 | every table keyed by the sort tuple has a strictly sorted listing |
| `PagingRuns.AnswerIsTail` | apps/api/internal/adapter/manager.go:554-581 | the full answer to a continuation after k rows is exactly the sorted result without its first k rows |
| `PagingRuns.ListingExists` | apps/api/internal/adapter/manager.go:476-529 | the sorted listing the other statements speak of exists whenever a first page can be read |
| `PagingRuns.SinglePageIsWhole` | apps/api/internal/adapter/manager.go:520-549 | without a plan the one page holds the whole result if that has no more rows than asked for, and otherwise the answer is result_too_large: rows are never cut off silently |
| `QueryPlan.ValidateMetadata` | apps/api/internal/queryplan/types.go:85-135 | metadata are accepted exactly when all identifiers are valid, ordinals positive, columns distinct and keys made of known columns |
| `Prelude.ValidIdentIsPlain` | apps/api/internal/queryplan/types.go:69-83 | valid identifiers are 1 to 63 ASCII letters, digits and underscores, no digit first |
| `Sql.SameIdentIff` | apps/api/internal/queryplan/types.go:140-145 | names are the same in PostgreSQL if they are equal, and in MySQL if their letters are, capital or small |
| `QueryPlan.FindUniqueProofs` | apps/api/internal/queryplan/types.go:177-200 | the proofs are exactly the primary key and the unique constraints all of whose columns are not null |
| `QueryPlan.SortColumnsCoverProof` | apps/api/internal/queryplan/plan.go:196-210 | true exactly when every column of the key is sorted by, up to case in MySQL |
| `QueryPlan.TraceSortKeys` | apps/api/internal/queryplan/plan.go:122-152 | the loop succeeds exactly when every sort key is exposed, traced to a base column, given a direction and not repeated; each specification has the column, direction and null placement of its key and the base column behind it |
| `QueryPlan.VerifySortPlan` | apps/api/internal/queryplan/plan.go:101-184 | a plan is accepted exactly when the inputs are well formed and some unique key is covered by the sort columns; it sorts by the columns asked for, in the direction asked for, with nulls where they were asked for, names nothing but valid identifiers, and binds the snapshot it was proved for |
| `PlanSoundness.AcceptedPlanIsKey` | apps/api/internal/queryplan/plan.go:101-210 | if the plan is accepted, no two rows of any table instance obeying the keys and NOT NULL flags tie on the sort tuple |
| `PlanSoundness.PlanIffKey` | apps/api/internal/queryplan/plan.go:154-210 | with otherwise valid inputs the plan is accepted if and only if no table instance obeying the metadata has two rows that tie: a refusal is always justified by two concrete rows |
| `PlanSoundness.CellAt` | apps/api/internal/queryplan/types.go:140-145 | where column names stay distinct when folded, looking a column up by any spelling of its name finds exactly that column |
| `PlanSoundness.ShownResultIsKeyed` | apps/api/internal/queryplan/plan.go:101-184 | the result of a query of the accepted shape is keyed by the plan |
| `PlanSoundness.ListingIsAsAsked` | apps/api/internal/queryplan/plan.go:122-152 | every listing sorted by an accepted plan is in the order that the keys ask for: any two rows differ in some key, and in the first such the non-null values rise or fall as asked and nulls stand first or last as asked |
| `PlanSoundness.VerifiedPagingIsExact` | apps/api/internal/adapter/manager.go:476-616 | the chain in one statement: for a plan that was accepted, the rows of every finished run of pages are the first rows of the result in the order its sort keys ask for, as many as the cap asked for, each once |
| `PlanSoundness.VerifiedPagingFinishes` | apps/api/internal/adapter/manager.go:476-616 | and there is a finished run if and only if one page suffices, or the result has distinct column names among which every sort key occurs as spelled |
| `PlanSoundness.MisspelledSortColumnStops` | apps/api/internal/adapter/manager.go:973-995 | SELECT * in MySQL sorted by ID over a column id: the plan is accepted and no run over two rows, one to a page, can be finished |
| `Catalogue.ScanMySQLUniquePairs` | apps/api/internal/adapter/schema_meta.go:170-224 | an index with a prefix, expression or nameless part is never reported; every other index is, once, with exactly its key columns |
| `Catalogue.AddPart` | apps/api/internal/adapter/schema_meta.go:184-214 | one catalogue row keeps the groups in step with the rows read so far |
| `Catalogue.KeyColumnsAreParts` | apps/api/internal/adapter/schema_meta.go:184-214 | the key columns of an index on distinct columns are those of its parts, one by one in their order, whatever other indexes are listed in between |
| `Catalogue.ReportedConstraintHolds` | apps/api/internal/adapter/schema_meta.go:170-245 | a reported constraint is a key of every table whose physical index holds |
| `Catalogue.CatalogueSupportsPlans` | apps/api/internal/adapter/schema_meta.go:170-245 | metadata assembled from the reported constraints are obeyed by every table whose physical indexes, primary key and NOT NULL flags hold, so that no two of its rows tie on the sort tuple of an accepted plan |
| `TokenQuotas.NormalizedConfig` | apps/api/internal/pagination/registry.go:80-115 | every limit becomes positive and the lifetime at most five minutes; a normal configuration is left as it is |
| `TokenQuotas.Defaults` | apps/api/internal/pagination/registry.go:58-115 | what is not configured gets the documented default |
| `Pagination.Registry.Create` | apps/api/internal/pagination/registry.go:215-244 | creates as specified: closed, invalid and oversized states are refused untouched; otherwise ready entries are evicted until the new one fits, or it is refused; counters and limits stay exact |
| `Pagination.CreationIsFair` | apps/api/internal/pagination/registry.go:379-434 | an entry is evicted only for a dimension that it counts in and that has no room; a creation is refused for capacity if and only if the state is too large or the claimed entries alone leave no room for it |
| `Pagination.OthersKeepTheirTokens` | apps/api/internal/pagination/registry.go:401-434 | as long as only the quota of the creating user is exhausted, nobody else loses a token |
| `Pagination.Registry.EvictForQuota` | apps/api/internal/pagination/registry.go:379-397 | terminates; each victim was the one to go: an earliest-expiring ready token of the user if the user has no room, else of the workspace, else of the connection, else of all; fails only when nothing is left that may go |
| `Pagination.Registry.PickEvictable` | apps/api/internal/pagination/registry.go:401-434 | the entry picked is ready and belongs to the user if the user has no room for the new one, else to the workspace if that has none, else to the connection if that has none; of these none expires earlier; none is picked only if there is none |
| `Pagination.Registry.ClaimToken` | apps/api/internal/pagination/registry.go:247-268 | a claim succeeds exactly on a ready entry before its expiry and marks it in flight; an expired one is removed |
| `Pagination.Registry.Rotate` | apps/api/internal/pagination/registry.go:456-513 | by the owner only: the entry is removed in every case, and replaced by the successor with the same expiry when it is alive, valid, of the same owner and within every byte budget |
| `Pagination.Registry.Finish` | apps/api/internal/pagination/registry.go:524-560 | Complete and Abort delete the entry when the claim still owns it and do nothing otherwise |
| `Pagination.Registry.Revoke` | apps/api/internal/pagination/registry.go:273-285 | a ready entry is removed, one in flight stays |
| `Pagination.Registry.CleanupExpired` | apps/api/internal/pagination/registry.go:288-298 | exactly the expired entries are removed |
| `Pagination.Registry.Close` | apps/api/internal/pagination/registry.go:173-179 | no entry survives and the store stays closed |
| `Pagination.Registry.DeleteEntry` | apps/api/internal/pagination/registry.go:314-375 | the entry goes and every counter stays the exact tally of what is left |
| `Pagination.Registry.Insert` | apps/api/internal/pagination/registry.go:323-332 | the entry is added under a new version and every counter stays exact and within its maximum |
| `Pagination.SlotFits` | apps/api/internal/pagination/registry.go:486-521 | the slot of a rotated entry has room for its successor when the byte budgets allow the difference |
| `TokenQuotas.AddingAccounts` | apps/api/internal/pagination/registry.go:323-332 | adding to the nine counters keeps each the exact count or byte sum, keys present exactly when positive |
| `TokenQuotas.RemovingAccounts` | apps/api/internal/pagination/registry.go:334-375 | so does removing |
| `TokenQuotas.FitsKeepsLimits` | apps/api/internal/pagination/registry.go:379-397 | an entry that fits leaves every count and byte total of every dimension within its maximum |
| `TokenQuotas.LimitsHold` | apps/api/internal/pagination/registry.go:379-397 | the tokens of any one user, workspace and connection, and all tokens, are no more, and no larger, than configured |
| `Continuation.StateIsCharged` | apps/api/internal/pagination/state.go:89-160 | every character of the query, and of arguments and cursor values however deep they are nested, is charged |
| `TokenQuotas.EvictionSparesInFlight` | apps/api/internal/pagination/registry.go:379-434 | eviction touches no entry in flight and changes none it keeps |
| `TokenRuns.SingleUse` | apps/api/internal/pagination/registry.go:215-298 | in every reachable state no handle was claimed twice and no lineage has two live entries |
| `TokenRuns.SpentForever` | apps/api/internal/pagination/registry.go:247-268 | a handle once claimed, dropped or expired never becomes ready again |
| `TokenRuns.LineageExpires` | apps/api/internal/pagination/registry.go:456-513 | no claim or rotation succeeds at or after the creation of the lineage plus the lifetime, however often it was rotated |
| `TokenRuns.OutdatedClaimIsInert` | apps/api/internal/pagination/registry.go:456-560 | a claim that lost its entry changes nothing at any later time |
| `TokenRuns.InFlightLeavesOnlyBy` | apps/api/internal/pagination/registry.go:288-298 | an entry in flight disappears only by its own claim, its expiry or closing |
| `TokenRuns.StateIsFixed` | apps/api/internal/pagination/registry.go:247-268 | what a token stands for does not change while its entry lives, except that it is claimed |
| `TokenRuns.RunsKeepInv` | apps/api/internal/pagination/registry.go:215-560 | every interleaving of the operations, under any clock, keeps the invariant these rest on |
| `Pipeline.Executor.Execute` | apps/api/internal/execution/pipeline.go:221-593 | whatever fails, the call leaves nothing, or an alarm, or an execution that ended terminal with exactly one event; success is on record only of a page that the adapter answered with, and an error it answered with is recorded as its code demands; rows or a token are returned only with completion and success committed, and only to a reading member; the page is for the query requested, under the policy, pool, schema and plan found, no longer than the page size asked for nor the policy allows; a token stands for exactly that page and begins a lineage with it; the receipt names a recorded event if and only if no commit of a refusal was reported failed without effect |
| `Pipeline.Executor.ExecuteNextPage` | apps/api/internal/execution/pipeline.go:710-1018 | the same for a later page; moreover after a successful claim the token is dead at every exit; the page is served from the claimed state for the same principal, found anew to be a reading member, with the policy version and both generations found anew to be those of the token; it extends the lineage of the token, whose rows in all its pages are as many as the total says; a new token continues it in that lineage with the same expiry; a token not claimed is invalid, or the store is closed; a receipt always names a recorded event |
| `Pipeline.Executor.Authorize` | apps/api/internal/execution/pipeline.go:235-267 | a connection is handed on only to a member found to be reading, and only for the engine asked for; a missing or not reading member is forbidden |
| `Pipeline.Executor.Preflight` | apps/api/internal/execution/pipeline.go:343-447 | a running execution is reached only past the verdict, an explicit read permission and positive limits; every other way ends it before the adapter is called, with the code and outcome of what was found: denied statements, missing and forbidding policies denied, failed look-ups and missing limits failed |
| `Pipeline.Executor.StartRunning` | apps/api/internal/execution/pipeline.go:449-466 | the row is running, or the audit failed with an alarm |
| `Pipeline.Executor.ReadFirst` | apps/api/internal/execution/pipeline.go:468-560 | the page read is that of the requested query under the effective cap and timeout, its total the number of its rows, or the execution ended |
| `Pipeline.Executor.FirstPage` | apps/api/internal/execution/pipeline.go:468-593 | the token is stored before and published after the record of success, and revoked when that record fails |
| `Pipeline.Executor.CreateContinuation` | apps/api/internal/execution/pipeline.go:653-693 | the stored state continues the page: same query, rows so far, cap and timeout; a refusal by the store is told as its kind demands |
| `Pipeline.Executor.Reauthorize` | apps/api/internal/execution/pipeline.go:735-808 | what must still hold for the bearer of a token: principal, reading membership as found now, connection, an explicit read permission, and the same policy version |
| `Pipeline.Executor.Revalidate` | apps/api/internal/execution/pipeline.go:843-934 | the pool generation and the schema generation as loaded now are those of the token and the plan is within bounds, or the execution ended |
| `Pipeline.Executor.ReadNext` | apps/api/internal/execution/pipeline.go:843-967 | the page read is that of the stored query after the stored number of rows, with a total that counts it on, under generations found unchanged |
| `Pipeline.Executor.ServeClaimed` | apps/api/internal/execution/pipeline.go:735-967 | cap and timeout are the smaller of policy and token |
| `Pipeline.Executor.Conclude` | apps/api/internal/execution/pipeline.go:970-1017 | the claimed entry is gone; a successor is issued exactly when there are more rows; the page handed out extends the lineage of the claim; of all errors exactly the one of the cursor comes with the page |
| `Pipeline.Executor.FailAudit` | apps/api/internal/execution/pipeline.go:1094-1114 | neither rows nor token leave with a failed audit, and the alarm is raised |
| `Pipeline.Executor.FailBefore` | apps/api/internal/execution/pipeline.go:1119-1231 | failure and event are committed together or the audit failed; the receipt names a recorded event if and only if the commit was not reported failed without effect |
| `Pipeline.Executor.FailCredential` | apps/api/internal/execution/pipeline.go:1235-1319 | a credential failure is on record by the system, as a decryption that failed or a look-up that failed by its code, and exactly the former raises an alarm |
| `Pipeline.Executor.RecordAfter` | apps/api/internal/execution/pipeline.go:1324-1443 | success is on record and in the receipt only without an error; a cancellation ends cancelled, an unsupported query failed and denied, any other error failed, in row, event and receipt alike |
| `Pipeline.RefusalIsBackedIff` | apps/api/internal/execution/pipeline.go:1119-1231 | by the fate of its transaction, the receipt of a refusal names an event on record if and only if the commit was not reported failed without effect |
| `Pipeline.ReceiptWithoutEvent` | apps/api/internal/execution/pipeline.go:1164-1231 | a denial whose commit fails answers with the receipt of a denial that is nowhere on record |
| `Pipeline.PagesFit` | apps/api/internal/adapter/manager.go:829-845 | what a call assumes of the page it reads, its length, total and cap, holds of every page the adapter makes of an answer |
| `Lineages.PagesFormLineages` | apps/api/internal/execution/pipeline.go:653-1018 | in every interleaving of creations, claims, rotations, finishes, revocations, cleanups and closing, the pages served under a token and its successors form one lineage, linked page to state to page; all ran for the same principal, connection, SQL, arguments, plan, generations and policy version; each starts behind exactly the rows served before it, fewer than the cap; cap and timeout never grow; all pages together have no more rows than the cap of the first; and a live token stands for the last state of its lineage |
| `ServedRows.ServedLineageIsExact` | apps/api/internal/execution/pipeline.go:653-1018 | in every interleaving, and for every accepted plan: when its queries are answered from one result that shows rows of a table obeying its metadata, the rows served under a token and its successors are the first rows of that result in the order the sort keys ask for, each once |
| `ServedRows.LineageListsRows` | apps/api/internal/adapter/manager.go:476-616 | the same for any table keyed by the plan, under caps that may shrink from page to page: each page ends where the listing ends, or the page size asked for further, or at its cap, whichever comes first |
| `ServedRows.NextFills` | apps/api/internal/adapter/manager.go:554-616 | a later page answered from the cursor stored with the page before starts where that one ended |
| `Lineages.LineageIsFixed` | apps/api/internal/execution/pipeline.go:653-693 | linked pages are fixed in that sense, whatever their number |
| `Lineages.IdentityIs` | apps/api/internal/execution/pipeline.go:970-1007 | what a lineage keeps: two states agree in it exactly if they agree in owner, connection, generations, policy version, table, plan, SQL, arguments, hash and page size |
| `Lineages.TrailsOnlyGrow` | apps/api/internal/execution/pipeline.go:710-1018 | a page once served stays in its lineage, which grows at its end only |
| `Lineages.RunsKeepInv` | apps/api/internal/pagination/registry.go:215-560 | every step of every interleaving keeps the trails linked, and leaves a lineage at most one way to go on |
| `TokenHistory.CreationIssues` | apps/api/internal/pagination/registry.go:215-244 | a creation that succeeds issues one ready entry of the given state and leaves all others unchanged |
| `TokenHistory.Tokens.LineagesAreFixed` | apps/api/internal/execution/pipeline.go:653-1018 | whatever calls were made on the token store, the trails of its history are linked and fixed |
| `TokenHistory.Tokens.LiveStatesAreComplete` | apps/api/internal/pagination/registry.go:562-576 | no live token stands for an incomplete query: owner, connection, table, plan, SQL, hash and sizes are all there |
| `TokenHistory.Tokens.CountIsRowsServed` | apps/api/internal/execution/pipeline.go:653-1018 | the count after the last page of a lineage is the number of rows in all its pages |
| `TokenHistory.Tokens.Begin` | apps/api/internal/execution/pipeline.go:653-693 | the token created stands for the page and begins a lineage with it |
| `TokenHistory.Tokens.Continue` | apps/api/internal/execution/pipeline.go:970-1007 | the successor stands for the page, in the lineage of the claim, with its expiry; a failed rotation serves nothing |
| `ExecutionLog.AccountedMeansOneEvent` | apps/api/internal/execution/pipeline.go:1324-1443 | an execution accounted for without an alarm is terminal with exactly one event of its trace in the whole log |
| `ExecutionLog.Ledger.OpenExecution` | apps/api/internal/execution/pipeline.go:293-338 | the row is open with no event, or the alarm is raised |
| `ExecutionLog.Ledger.SettleBefore` | apps/api/internal/execution/pipeline.go:1119-1231 | one transaction: given up, rejected with or without effect, or committed, the database being just that of its fate; the event has its receipt as soon as it is appended |
| `ExecutionLog.Ledger.SettleAfter` | apps/api/internal/execution/pipeline.go:1324-1443 | the terminal status first, then exactly one event |
| `ExecutionLog.Ledger.StartRunning` | apps/api/internal/execution/pipeline.go:449-466 | the row stays open and is running on success |
| `ExecutionLog.Ledger.Commit` | apps/api/internal/metadata/audit_tx.go:108-113 | a commit that reports failure may have taken effect; one that reports success has |
| `Credentials.ConnectionsStayUsable` | apps/api/internal/credentials/lifecycle.go:141-413 | in every interleaving each connection points at an existing, non-retired version, versions are contiguous from 1, and replaying the log gives exactly the envelopes and which are retired |
| `Credentials.RotationsExclude` | apps/api/internal/credentials/lifecycle.go:243-340 | of any rotations of a secret with the same expected version at most one commits |
| `Credentials.EnvelopesPersist` | apps/api/internal/metadata/postgres_credential_repo.go:57-117 | an envelope is never deleted and retirement is permanent |
| `Credentials.WorkspacesAreFixed` | apps/api/internal/connections/service.go:203-257 | a connection never comes to refer to a secret of another workspace |
| `Credentials.RotationRepointsIff` | apps/api/internal/metadata/postgres_credential_repo.go:121-128 | in every run, a committing rotation repoints a connection if and only if it belonged to the secret both when the UPDATE found its rows and when its scan got to the row; any other connection keeps its version |
| `Credentials.RotationRepointsAll` | apps/api/internal/metadata/postgres_credential_repo.go:121-128 | a rotation between whose UPDATE and commit no connection is created or updated, whatever else commits meanwhile, repoints every connection of the secret and no other |
| `Credentials.RotationMissesConnection` | apps/api/internal/metadata/postgres_credential_repo.go:121-128 | a reachable commit of a rotation that leaves a connection of its secret on an older version: the connection was created on it between UPDATE and commit |
| `Credentials.SnapshotExists` | apps/api/internal/metadata/postgres_credential_repo.go:121-128 | every rotation past its UPDATE found its rows in a step of its own, and they are the connections that belonged to the secret then |
| `Credentials.RetirementReached` | apps/api/internal/credentials/lifecycle.go:342-413 | a run that retires an unused version |
| `Credentials.UpdateReached` | apps/api/internal/connections/service.go:203-257 | a run that moves a connection to another version |
| `Credentials.CommitKeepsOthersGrounded` | apps/api/internal/metadata/atomic_tx.go:468-535 | a commit leaves what every transaction holding compatible locks has established |
| `Credentials.CommitKeepsSound` | apps/api/internal/credentials/lifecycle.go:183-206 | each committed transaction with its event keeps the data sound |
| `Credentials.RunsKeepInv` | apps/api/internal/credentials/lifecycle.go:141-413 | every statement, commit and abort of any interleaving keeps the invariant these rest on |
| `AuditGate.Begin` | apps/api/internal/metadata/atomic_tx.go:303-335 | a transaction is opened exactly for a valid operation of its domain that the event matrix lists |
| `AuditGate.MatrixIsExact` | apps/api/internal/metadata/atomic_tx.go:283-298 | the event matrix allows exactly the creation, rotation and retirement of credentials and the creation and update of connections, and only as successes |
| `AuditGate.AtomicTx.AppendAudit` | apps/api/internal/metadata/atomic_tx.go:379-394 | accepted exactly once, for the bound operation and a matching event |
| `AuditGate.AtomicTx.Commit` | apps/api/internal/metadata/atomic_tx.go:422-431 | commits only with exactly one event that matches the bound operation, which is what the log gains |
| `AuditGate.EventIsDetermined` | apps/api/internal/metadata/atomic_tx.go:133-215 | the gate leaves no freedom in the identity of the event, and every identifying field of the operation matters |
| `PoolManager.Manager.Begin` | apps/api/internal/adapter/manager.go:84-116 | the first section decides by closed flag, revision, installed pool and creation under way |
| `PoolManager.Manager.Awaken` | apps/api/internal/adapter/manager.go:117-139 | the section after the wait decides anew; only a newer revision creates, without storing a channel |
| `PoolManager.Manager.Unlatch` | apps/api/internal/adapter/manager.go:143-155 | whatever channel is stored for the connection is removed, to be closed |
| `PoolManager.Manager.Install` | apps/api/internal/adapter/manager.go:151-186 | the pool made is installed in place of the old one exactly when the manager is open and its revision is newer or nothing is installed |
| `PoolManager.Manager.Close` | apps/api/internal/adapter/manager.go:296-307 | only the first close takes the installed pools |
| `PoolRuns.HandleMatches` | apps/api/internal/adapter/manager.go:84-187 | a caller obtains a pool only while the manager is open; it is then the installed one, not draining, with the revision asked for and, field by field, the secret version, engine, host, port, user, database, TLS mode and limits asked for |
| `PoolRuns.InstalledDecides` | apps/api/internal/adapter/manager.go:84-187 | a caller that comes, wakes up or has made a pool of its own while one is installed under the revision it asks for is given that pool if and only if it differs from it in none of these fields, and is told of a conflict otherwise |
| `PoolRuns.ClosedOrOutdatedIsRefused` | apps/api/internal/adapter/manager.go:84-187 | a closed manager gives nothing, nor is anything given under a revision older than the installed one |
| `PoolRuns.NewerIsCreated` | apps/api/internal/adapter/manager.go:84-116 | with a newer revision, or the first, a caller creates or waits for the one who does |
| `PoolRuns.NewerIsInstalled` | apps/api/internal/adapter/manager.go:151-186 | and a pool made for one is installed |
| `PoolRuns.RequestIsKept` | apps/api/internal/adapter/manager.go:84-92 | what a caller asked for is what it is served by, up to the name of the default TLS mode |
| `PoolRuns.PasswordsAreNotKept` | apps/api/internal/adapter/manager.go:175-187 | no configuration kept for comparison holds a password |
| `PoolRuns.RevisionsNeverDecrease` | apps/api/internal/adapter/manager.go:84-187 | the revision of a connection never decreases |
| `PoolRuns.PoolsAccountedFor` | apps/api/internal/adapter/manager.go:140-187 | every pool made is held by its maker, installed, draining or closed |
| `PoolRuns.ChannelsClosedOnce` | apps/api/internal/adapter/manager.go:143-155 | no channel is closed twice |
| `PoolRuns.WakeUpIsOwed` | apps/api/internal/adapter/manager.go:112-155 | whoever waits on a channel still open has another caller at work who stored it and whose last step closes it |
| `PoolRuns.ConflictIsRealIff` | apps/api/internal/adapter/manager.go:117-139 | a caller refused with a conflict has one, a pool installed under its revision that differs in a field it asked for, if and only if a pool is installed; and of the callers that wake up to no pool while the manager is open, exactly those of revision 0 are refused so |
| `PoolRuns.ConflictWithNothing` | apps/api/internal/adapter/manager.go:129-139 | two callers of revision 0, the first creation fails, and the second is told of a conflict although nothing was ever installed |
| `PoolRuns.ForeignChannelClosed` | apps/api/internal/adapter/manager.go:117-155 | a woken caller with a newer revision fails and closes the channel of a third one that is still creating |
| `PoolRuns.RunsKeepInv` | apps/api/internal/adapter/manager.go:84-322 | every interleaving of callers, failures, cancellations and closing keeps the invariant these rest on |
| `Lexemes.SkipQuoted` | apps/api/internal/sqlpolicy/placeholder.go:192-243 | skips to just behind the closing quote, or reports that there is none |
| `Lexemes.QuotedTailIsBody` | apps/api/internal/sqlpolicy/placeholder.go:192-243 | the closing quote is the one that ends a well-formed body and is not doubled, and there is no other |
| `Lexemes.SkipLineComment` | apps/api/internal/sqlpolicy/placeholder.go:256-261 | skips to the end of the line |
| `Lexemes.SkipBlockComment` | apps/api/internal/sqlpolicy/placeholder.go:265-274 | skips through the first closing mark |
| `Lexemes.ThroughIsFirst` | apps/api/internal/sqlpolicy/placeholder.go:265-274 | the mark skipped through is the first one |
| `Lexemes.SkipDollarQuoted` | apps/api/internal/sqlpolicy/placeholder.go:160-187 | skips through the first repetition of the tag between dollars |
| `Placeholders.SkipElement` | apps/api/internal/sqlpolicy/placeholder.go:61-118 | one turn of the scanning loop lexes exactly the element that stands there |
| `Placeholders.ScanPlaceholder` | apps/api/internal/sqlpolicy/placeholder.go:61-118 | the loop gives the verdict of the tokenisation |
| `Placeholders.HasUnboundPlaceholder` | apps/api/internal/sqlpolicy/placeholder.go:19-44 | unknown dialects and unclosed elements are errors |
| `Placeholders.VerdictIsExact` | apps/api/internal/sqlpolicy/placeholder.go:61-118 | a placeholder is reported if and only if after whole tokens one stands in normal context; the error if and only if an element opens there that is never closed |
| `Placeholders.HashRule` | apps/api/internal/sqlpolicy/placeholder.go:61-118 | a number sign opens a comment in MySQL and is a character like others in PostgreSQL |
| `Placeholders.DashRule` | apps/api/internal/sqlpolicy/placeholder.go:61-118 | two minus signs open a comment in PostgreSQL, and in MySQL only at the end of the text or before a blank or control character |
| `Placeholders.DollarRule` | apps/api/internal/sqlpolicy/placeholder.go:100-187 | a dollar opens a quoted text in PostgreSQL before a letter, an underscore or a dollar, is a placeholder before a digit, and else, as in MySQL, a character like others |
| `Placeholders.DelimiterRule` | apps/api/internal/sqlpolicy/placeholder.go:61-118 | texts between double quotes or backticks know no escape but doubling, block comments no nesting |
| `Placeholders.EscapeRule` | apps/api/internal/sqlpolicy/placeholder.go:120-139 | a backslash escapes in every text of MySQL, and in PostgreSQL just behind an E that is not the end of a name |
| `Placeholders.QuestionIsPlaceholder` | apps/api/internal/sqlpolicy/placeholder.go:40-44 | in MySQL exactly the question marks in normal context are reported |
| `Placeholders.LiteralStandsAlone` | apps/api/internal/sqlpolicy/placeholder.go:61-118 | a properly quoted literal put between two tokens is one token of its own and leaves those before it whole if and only if the token before does not run on into it and no quote follows |
| `Placeholders.ReportsNumbersIff` | apps/api/internal/sqlpolicy/placeholder.go:30-38 | in PostgreSQL the report is the presence of a $-number in normal context if and only if no question mark before a digit comes to stand there |
| `Placeholders.HitIsNumber` | apps/api/internal/sqlpolicy/placeholder.go:30-38 | what is reported in PostgreSQL is, at the byte of the report, a $ or a question mark with a digit behind it, and nothing else |
| `Placeholders.QuestionDigitIsReported` | apps/api/internal/sqlpolicy/placeholder.go:30-38 | ?1 is reported although no $-number stands there |
| `Insertions.InsertionIsHarmless` | apps/api/internal/sqlpolicy/placeholder.go:61-139 | between any two tokens: inserting a quoted literal leaves the verdict as it is for all its properly quoted contents if and only if the place is harmless, by the token before it: one that does not run on, unless an escape prefix detached there is read differently; a literal, unless it is an escape string of PostgreSQL; a line comment only in MySQL, when a placeholder is found behind it anyway |
| `Insertions.FreeInsertion` | apps/api/internal/sqlpolicy/placeholder.go:61-139 | behind a token that does not run on, the rest is scanned as behind that token, quotes directly following included, or from scratch when its escape prefix is detached |
| `Insertions.BehindSameLiteral` | apps/api/internal/sqlpolicy/placeholder.go:192-243 | behind a literal with the same escape rule the inserted one merges with it and the verdict stays |
| `Insertions.EscapeStringExposes` | apps/api/internal/sqlpolicy/placeholder.go:127-139 | behind an escape string of PostgreSQL a properly quoted literal can expose any text that it contains |
| `Insertions.CommentExposes` | apps/api/internal/sqlpolicy/placeholder.go:256-261 | and so can a literal behind a line comment expose its second line |
| `Insertions.CrossingFound` | apps/api/internal/sqlpolicy/placeholder.go:61-118 | where a placeholder is found behind a MySQL comment in all five contexts, it is found behind every literal |
| `Placeholders.ContentsDoNotMatter` | apps/api/internal/sqlpolicy/placeholder.go:61-139 | any two properly quoted literals in the same place give the same verdict |
| `Placeholders.CommentSwallowsQuote` | apps/api/internal/sqlpolicy/placeholder.go:256-261 | behind a line comment at the end of the text an inserted literal changes the verdict |
| `Placeholders.LiteralDetachesPrefix` | apps/api/internal/sqlpolicy/placeholder.go:127-139 | and so it does between an identifier and its final E before a quote |
| `Placeholders.QuoteBehindIdentifier` | apps/api/internal/sqlpolicy/placeholder.go:127-139 | the same text without the literal is clean |
| `Placeholders.QuotedNameIsOneToken` | apps/api/internal/adapter/keyset.go:168-177 | a name quoted for either engine, whatever it contains, is skipped as exactly one token |
| `Placeholders.QuotedNameIsRead` | apps/api/internal/adapter/keyset.go:168-177 | a quoted name stands between double quotes in PostgreSQL and backticks in MySQL, and undoing the doubling between them gives the name back |
| `ExecutableComments.EcmLexer.ScanAll` | apps/api/internal/sqlpolicy/ecm_lexer.go:30-146 | the state machine gives the verdict of the tokenisation of what is left of the input |
| `ExecutableComments.EcmLexer.StepNormal` | apps/api/internal/sqlpolicy/ecm_lexer.go:38-78 | one byte in normal context |
| `ExecutableComments.EcmLexer.StepQuoted` | apps/api/internal/sqlpolicy/ecm_lexer.go:80-123 | one byte inside quotes |
| `ExecutableComments.VerdictIsExact` | apps/api/internal/sqlpolicy/ecm_lexer.go:30-146 | an executable comment is reported if and only if one starts in normal context after whole tokens; the error if and only if a block comment opening there is never closed |
| `ExecutableComments.CommentRule` | apps/api/internal/sqlpolicy/ecm_lexer.go:38-78 | what opens a line comment |
| `ExecutableComments.BlockRule` | apps/api/internal/sqlpolicy/ecm_lexer.go:38-78 | a block comment is executable exactly if an exclamation mark follows its opening at once |
| `ExecutableComments.QuoteRule` | apps/api/internal/sqlpolicy/ecm_lexer.go:80-123 | which quoted texts know backslash escapes, by the two modes, and that unclosed ones reach to the end |
| `SchemaGeneration.ComputeStream` | apps/api/internal/queryplan/schema.go:144-197 | writes the bytes of schema, table, sorted columns, key marker and names |
| `SchemaGeneration.StreamIgnoresOrder` | apps/api/internal/queryplan/schema.go:144-197 | the bytes do not depend on the order in which columns and constraints are given, nor on how ties are sorted |
| `SchemaGeneration.StreamDetermines` | apps/api/internal/queryplan/schema.go:144-197 | with a primary key, or no key names at all, or a first name of less than 256 bytes, two tables have the same bytes if and only if schema, table, the sorted columns, the presence of a primary key, and the sequence of key and constraint names agree |
| `SchemaGeneration.KeysAreNotDelimited` | apps/api/internal/queryplan/schema.go:174-195 | but not where the key ends and constraints begin: two valid tables with the same bytes |
| `SchemaGeneration.LongNamesReadAsColumns` | apps/api/internal/queryplan/schema.go:174-195 | and without a primary key and with a longer first constraint name not even the columns: two more |
| `WireText.PgNumericString` | apps/api/internal/executionhttp/wire.go:347-388 | NaN, infinities and missing values as such, everything else as the decimal text of coefficient and exponent |
| `WireText.DecimalRoundTrip` | apps/api/internal/executionhttp/wire.go:347-388 | the text is read back as exactly the coefficient and exponent when the exponent is not positive, and as the full integer otherwise |
| `WireText.TimeRoundTrip` | apps/api/internal/executionhttp/wire.go:435-446 | every time of the day from 00:00:00 to 24:00:00, and nothing else, is written, and read back from its text |
| `WireText.TimesDiffer` | apps/api/internal/executionhttp/wire.go:435-446 | different times have different texts |
| `SeedDemo.Seeder.Run` | apps/api/internal/seeddemo/seed.go:22-53 | a run never alters a row, ends with everything in place if it succeeds, succeeds from any seedable database if no write fails, and leaves a seedable database seedable unless it is cut between a credential and its connection |
| `SeedDemo.Seeder.EnsureIdentity` | apps/api/internal/seeddemo/identity.go:79-190 | what is there must be right, what is missing is inserted |
| `SeedDemo.Seeder.EnsureForeign` | apps/api/internal/seeddemo/foreign_fixture.go:55-167 | on success the second tenant is there as fixed and no envelope of it lacks a connection |
| `SeedDemo.Seeder.EnsureConnection` | apps/api/internal/seeddemo/seed.go:56-125 | on success connection, credential and policy are those of the specification and no envelope was left behind |
| `SeedDemo.Seeder.VerifyConnection` | apps/api/internal/seeddemo/seed.go:134-174 | succeeds only for the specified target and credential, and only then adds a missing policy |
| `SeedDemo.Seeder.VerifyConnections` | apps/api/internal/seeddemo/seed.go:240-254 | succeeds only if all connections are as specified |
| `SeedDemo.Seeder.Provide` | apps/api/internal/seeddemo/seed.go:71-98 | a credential, then the connection that refers to it; the gap between them is reported |
| `SeedDemo.Seeder.FindOrphan` | apps/api/internal/seeddemo/seed.go:216-237 | true exactly when an active envelope of the workspace has no connection |
| `SeedDemo.SeedingIsIdempotent` | apps/api/internal/seeddemo/seed.go:22-53 | a successful run repeated succeeds and changes nothing |
| `SeedDemo.SeededOnlyReads` | apps/api/internal/seeddemo/config.go:28-40 | a seeded connection may be read from within five seconds and 500 rows, and neither written to nor exported from |
| `SeedDemo.RowsAreForever` | apps/api/internal/seeddemo/seed.go:22-53 | over any sequence of runs no row is changed or removed |
| `SeedDemo.RerunsRecover` | apps/api/internal/seeddemo/seed.go:22-105 | from the empty database, however often runs were cut short, the next full run succeeds, unless one was cut between a credential and its connection: then no later run does |

## Left out

- Credentials.RunsKeepInv: transactions are steps of a state machine over values, not methods; lock waits appear as steps that are not enabled, and deadlocks and lock timeouts as aborts.
- Keyset.BuildWrappedSQL: the text is a syntax tree; parentheses, spelling and the inner SQL itself are not modelled, and the inner SQL is taken to use its own arguments in order.
- Pipeline.Executor.Execute: one call runs at a time against the token store; interleavings of its operations are the subject of `TokenRuns` and `Lineages`, whose steps each call consists of. Contexts, timeouts and releasing the pool handle are not modelled, and neither is recovery from panics.
- Pipeline.Executor.ExecuteNextPage: the explicit aborts before the deferred one are not repeated, since the deferred one runs on every path.
- Lineages.PagesFormLineages: a first page without a successor is a lineage of its own, which no step records.
- Pipeline.Executor.Authorize: the store may return any row for the connection asked for.
- Pagination.Registry.Create: the background cleanup loop is represented by its body; deep copies are identities on values; 64-bit byte counters do not overflow.
- PoolManager.Manager.Begin: the byte and connection limits are compared as one sequence, after their defaults were filled in; what createPool checks of a configuration is part of its nondeterministic outcome.
- SchemaGeneration.ComputeStream: the sorted copies are parameters, any outcome that sort.Slice may have; hashing is not modelled.
- SeedDemo.Seeder.Run: e-mail addresses stand for their lower-case form, concurrent seeding is not modelled, and a write whose failure is reported took no effect.
- Catalogue.ScanMySQLUniquePairs: PostgreSQL's scanner and the sorting of constraints by name are not modelled; expression columns found by a second query are parts with an expression.
- The content of audit metadata, error wrapping and logging.
- HTTP handlers, wire cell types other than numerics and times, the browse service, admission counters, the SQL classifier and shape analysis, encryption, hashing and the environment parsing: inputs, or settled by single branches.
- The web client.
