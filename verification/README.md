# Verified models of the PBVex backend

This project models the stateful cores of the PBVex Go backend in Dafny and proves what they are for: an
index that agrees with the documents, a filter compiler that keeps meaning, pages that lose and repeat nothing, a
metering protocol that survives a lossy transport, leases and pins that stay consistent under every interleaving,
an activation and its rollback, a quota against what is stored, and keys against the URLs they sign. Where the code
does not keep one of these, the exact condition under which it does is proved, with an input that shows the failure.

`dafny verify dfyconfig.toml` checks everything.

## How it is laid out

| file | what it holds |
|---|---|
| ByteStrings, Base64, WireValues, Costs | byte order, hexadecimal, fixed-width integers, base64 (section 4 of RFC 4648), wire values and validators, charges against a budget |
| OrderKeys, Projection | sortable keys of values, and the hidden projection that every write stores |
| Filters, TypedFilters, IndexRanges | filters and index ranges compiled to a small SQL tree with three-valued logic, and the filters that always compile |
| Pagination, QueryPages, CursorBinding, IssuedCursors | tuple cursors and pages; pages of stored documents under a filter and an index; cursors bound to the first page's arguments; when an issued cursor is accepted |
| Normalize, NormalizeCosts, Normalizer, IndexedValues | the validator evaluator: its meaning, what it charges, the evaluator with budgets, and its link to the keys |
| WireCodec | the conversion between JavaScript values and wire values |
| HostingService, ExecutionMetering | the policy service, and the observer and the service over a lossy transport |
| Jobs, SchedulerRuns | guarded updates of job rows, and all interleavings of workers and operators |
| Retention | deployments, pins, activation, rollback, upload with trim, clean-up |
| RealtimeNotify, RealtimeFence | the coalescing notifier and the activation fence |
| MigrationPlan, MigrationRun, SchemaActivation | planning a path of steps, running it up and down, and the whole activation and rollback with the tables that are only rewritten |
| QuotaLedger, QuotaRun, QuotaGaps | the quota service; uploads, variants, finalized blobs, deletions and lost blobs against it; and each way of undercounting |
| Keyring | signing keys under rotation, pruning and restarts |

Code that changes state is a class or a method with a loop, tied by its contract to a function of the old state;
protocols are worlds with one `Step` per atomic action, and their theorems hold at every point of every `Run`.
A step for an action that is not possible is not `Enabled`; everything else may happen in any order.
A predicate written `var ok := …; ok` is one that the verifier is to keep whole where it is claimed.

Hashes, signatures and canonical JSON text are parameters. What is used of them is stated where they are declared:
canonical text is equal exactly for the same value, digests do not collide, fresh ids are fresh.

## What the proofs found

- A union inside a union hides its ids. The order key of a union prefers an authenticated id among its direct
  branches only (`OrderKeyWithID`), so behind a string branch an id of a nested union keeps the rank of a string
  (`OrderKeys.NestedUnionHidesId`). `OrderKeys.IdsKeyedExactly` states for every indexable validator, from the
  structure of its branches, which strings are keyed as ids.
- `literal(null)` may be indexed and accepts null, but its projection fails, so such a document cannot be written
  (`IndexedValues.NullLiteralHasNoKey`). So does a null in a field of a recursive type that admits null, as the end of
  a list does (`IndexedValues.RecursiveNullHasNoKey`). Whatever else any validator accepts has its keys
  (`IndexedValues.AcceptedHasOrderKey`), and a normalized document is projected exactly when its declared objects are
  nested within the limit and no declared path holds a null that its type does not name
  (`IndexedValues.NormalizedDocumentsProject`).
- A field compared with a literal reads the literal as the field's validator does, so two tokens of one record are
  equal; two fields are equal only when their wire texts are (`Filters.FieldAgainst`, `Filters.FieldAgainstField`).
- A cursor can be issued and then refused, which ends a walk early: a key may have 4096 bytes, but the whole payload
  only 16 KiB. A document with 2047 bytes in each of four indexed string fields has such a cursor
  (`IssuedCursors.LongCursorsAreRefused`). For every stored document the cursor after it is accepted exactly when each
  key is within its limit, the index is narrower than the limit on tuples, and all keys together leave room for the
  fixed parts (`IssuedCursors.IssuedIsDecodable`); an index of up to three fields always leaves it
  (`IssuedCursors.ThreeFieldsAreAccepted`).
- A claim does not check the attempts of a pending row. A worker that read it before another one claimed it and gave it
  back, within the same millisecond or by another clock, counts one attempt too few, and if its admission is refused it
  writes that number back (`SchedulerRuns.StaleClaimForgetsAnAttempt`). A deferral restores the attempts from before its
  claim exactly when the row still had the attempts that were read (`SchedulerRuns.DeferralWritesWhatWasRead`), and while
  all claims of a row find it so, its attempts are its claims less its deferrals (`SchedulerRuns.AttemptsAreCounted`).
- A rollback does not restore every row. A table whose schema changes without a migration is rewritten on activation
  and again on rollback, so a default that the activation filled in stays after the rollback
  (`SchemaActivation.RollbackLeavesDefaults`), and a filled field that the old schema does not have makes the rollback
  fail (`SchemaActivation.RollbackRefusesNewFields`). All rows come back exactly when each document of such a table
  survives both rewritings (`SchemaActivation.RollbackRestoresExactly`); planned and unchanged tables always come back.
  Where only fields and defaults change, an operator can tell from the two schemas: no document is at risk unless the
  new schema fills a field that the old one lets documents lack (`SchemaActivation.SafeChange`,
  `SchemaActivation.SafeChangesComeBack`).
- The quota charge can fall below what is stored. Of each way the exact effect on any state is proved, for objects of any
  size, and a run from an empty store that ends below:
  - two updates of a record that both see a file before its deletion both credit it
    (`QuotaGaps.DoubleListingUndercounts`, `QuotaGaps.OverlappingUpdatesUndercount`);
  - one deletion credits every object under a blob's prefix, among them a variant that is stored and not settled yet,
    whose own reservation is then released (`QuotaGaps.UnsettledListingUndercounts`,
    `QuotaGaps.DeletedVariantUndercounts`);
  - a settled blob is copied to its final place and the delete of its staged object fails, so that two objects are
    stored for one settlement (`QuotaGaps.CopiedBlobUndercounts`), and one deletion then credits both
    (`QuotaGaps.BothPlacesUndercount`, `QuotaGaps.LeftoverCopyUndercounts`); the same happens when the copy is made
    after a deletion listed the staged object (`QuotaGaps.CopyOfListedUndercounts`);
  - a finalizer that found no final blob just before another made the copy finds no staged one either, and reports the
    stored blob lost (`QuotaGaps.LostBlobUndercounts`, `QuotaGaps.StoredBlobReportedLost`).

  While no listing, copy and report is of this kind, every object is paid for at one place, and the charge is below what
  is stored by no more than the staged objects left beside their copies (`QuotaRun.ChargeCoversStored`). Whatever
  happens, `QuotaRun.ChargeCoversAlways` bounds the gap by those and by the bytes credited without cover.
- A URL signed inside a transaction is checked against `now + ttl` and then given an expiry counted from a later
  moment, so it may outlive its key, for every key that is generated (`Keyring.CommittedKeyMayExpireFirst`). For every
  bound on the delay between check and signing, all URLs signed within it are covered exactly when the key reaches the
  whole second that the last of them claims, which is known at the check (`Keyring.CommittedKeyCovers`).

## Model

| member | source | states |
|---|---|---|
| OrderKeys.KeysFollowProtocolOrder | backend/internal/schema/order.go:176-333 | for any two keyed values, under any two validators, byte order of the keys is the protocol order of the values, and equal keys mean equal values |
| OrderKeys.EncodeKeepsOrder | backend/internal/schema/order.go:232-333 | the encoding of each rank keeps missing < null < false < true < numbers < strings < ids < int64 < bytes < compounds, in both directions |
| OrderKeys.SortableNumberOrder | backend/internal/schema/order.go:245-265 | the sign flip orders all finite doubles by value, subnormals included, and tells apart all but the two zeros |
| OrderKeys.SignedIsFlipped | backend/internal/schema/order.go:284-300 | reading eight little-endian bytes and flipping the sign bit gives the two's complement integer plus 2^63 |
| OrderKeys.PairOrder | backend/internal/schema/order.go:331-333 | table, a zero byte and the raw id order as the pair, given identifiers without zero bytes |
| OrderKeys.KeyMeans | backend/internal/schema/order.go:176-329 | every key a validator produces is the encoding of the protocol meaning of its value, through unions, optionals, defaults and literals |
| OrderKeys.GenericKeysCompareValues | backend/internal/schema/order.go:456-489 | validator-independent keys are equal exactly for the same wire values, and order as their own types |
| OrderKeys.PlainTellsApart | backend/internal/schema/order.go:499-507 | two values have the same meaning exactly when their canonical texts are equal |
| OrderKeys.FlatUnionPrefersId | backend/internal/schema/order.go:199-228 | without nested unions a string is keyed as an id exactly when some branch authenticates it, wherever the branch stands |
| OrderKeys.StringsKeyedExactly | backend/internal/schema/order.go:176-262 | a string has a key exactly when the validator takes it, read off the validator's structure |
| OrderKeys.IdsKeyedExactly | backend/internal/schema/order.go:199-262 | for every indexable validator, nested unions included: a string is keyed as an id exactly when a direct branch authenticates it, or else the first branch that takes the string takes it as an id; otherwise as a string, if at all |
| OrderKeys.NestedUnionHidesId | backend/internal/schema/order.go:199-228 | behind a string branch an authentic id of a nested union is keyed as a string |
| OrderKeys.IndexableIsScalar | backend/internal/schema/order.go:339-369 | under an indexable validator no value is keyed as a compound |
| IndexedValues.IndexableExactly | backend/internal/schema/order.go:339-369 | a validator with unions of an allowed size and literals of the wire subset may be indexed exactly when it keys no compound value |
| IndexedValues.NullIsAllowedExactly | backend/internal/schema/order.go:371-397 | without null literals and recursive types a validator allows null exactly when it accepts null |
| IndexedValues.IdsKeyedByTheirTable | backend/internal/schema/order.go:271-283 | an id validator keys exactly the authentic tokens of its table, by table and raw id |
| Projection.JoinUndoesSplit | backend/internal/schema/order.go:142-166 | splitting a path at its dots loses nothing and leaves dot-free segments |
| Projection.SplitUndoesJoin | backend/internal/schema/order.go:142-166 | and joining dot-free names with dots and splitting gives the names back |
| Projection.ResolvesExactly | backend/internal/schema/order.go:142-166 | a list of names resolves exactly to the validator that declared object fields lead to, one safe name after the other |
| Projection.SafePathsAreFields | backend/internal/schema/order.go:142-166 | a dotted path of safe names is the field that they lead to, exactly when the first one is declared |
| Projection.Projector.AppendOrderData | backend/internal/schema/order.go:76-92 | writes the order key and the equality key of one path, and touches no other entry |
| Projection.Projector.AppendNestedOrderData | backend/internal/schema/order.go:94-140 | succeeds exactly when the nested value can be projected; then every path below has its entries, and nothing outside is touched |
| Projection.Projector.OrderDataWithID | backend/internal/schema/order.go:62-74 | succeeds exactly when every declared value has its keys; then every path that resolves finds the keys of the value reached by walking the document, missing parents included |
| Projection.EntriesApart | backend/internal/deploy/manifest.go:736-790 | no two addressable paths share an entry, and no path is another's equality entry |
| Filters.SqlExpression | backend/internal/runtime/database.go:1680-1787 | a filter compiles exactly when its comparisons fit; its placeholders are distinct and all bound, nothing else is; the predicate is never NULL and selects exactly the documents that satisfy the filter |
| Filters.FilterCompiler.Build | backend/internal/runtime/database.go:1683-1785 | each subexpression uses the next free placeholders in order, and keeps its meaning whatever is bound later |
| Filters.FilterCompiler.BuildParts | backend/internal/runtime/database.go:1754-1767 | the arguments of a connective compile in order, each meaning its own expression |
| Filters.FieldLiteralMeans | backend/internal/runtime/database.go:1846-1854 | comparing a stored key with the literal's key is the protocol comparison of the values |
| Filters.IdLiteralMeans | backend/internal/runtime/database.go:1829-1838 | the id column and an authenticated literal compare as table and raw id |
| Filters.OperatorsCompare | backend/internal/runtime/database.go:1917-1945 | the six operators on an exact order are its six comparisons |
| Filters.ReversedExchanges | backend/internal/runtime/database.go:1811-1825 | the reversed operator on two sides is the operator on the sides exchanged |
| Filters.LiteralOnTheLeft | backend/internal/runtime/database.go:1811-1825 | the comparison compiled for a literal on the left means the operator applied to the literal and then the field |
| Filters.KeyColumnsMean | backend/internal/runtime/database.go:1856-1901 | comparing two key columns, a system id among them, is the protocol comparison of the two fields |
| Filters.EqualityColumnsMean | backend/internal/runtime/database.go:1894-1900 | equality through the equality entries is equality of wire values, whatever the two validators |
| Filters.LiteralsDecided | backend/internal/runtime/database.go:1917-1945 | two literals are decided while compiling, as the protocol compares them |
| Filters.ConnectiveMeans | backend/internal/runtime/database.go:1754-1767 | conjunction and disjunction in three-valued logic keep the meaning of parts that are never NULL |
| TypedFilters.WellTypedFiltersCompile | backend/internal/runtime/database.go:1683-1901 | every filter compiles whose literals are accepted by the fields they are compared with and whose fields are declared, or are the system id and a field that takes the table's ids |
| TypedFilters.IdsReadAreTargets | backend/internal/runtime/database.go:1856-1893 | a token that a validator reads as an id is of a table that the validator targets |
| TypedFilters.TargetsTakeTheirIds | backend/internal/runtime/database.go:1856-1893 | and every authentic token of a table that it targets has a key under it |
| IndexRanges.IndexRange.Call | backend/internal/runtime/database.go:834-950 | the exact condition for a builder call to be accepted; a refused call changes no bound and an accepted one adds exactly its own |
| IndexRanges.IndexExpression | backend/internal/runtime/database.go:1610-1641 | the compiler accepts exactly equalities on a prefix of the index followed by bounds on the next field |
| IndexRanges.BuiltRangesCompile | backend/internal/runtime/database.go:1610-1641 | whatever the callback did, the compiler's defensive errors cannot occur |
| IndexRanges.CompileRange | backend/internal/runtime/database.go:1600-1641 | a range fails only when it is empty or a value has no key; otherwise it selects exactly the documents that meet every bound |
| Pagination.KeysetExpression | backend/internal/runtime/database.go:1642-1676 | refused exactly for a malformed cursor; otherwise selects exactly the positions after the cursor's, in either direction |
| Pagination.BeyondAtSomeColumn | backend/internal/runtime/database.go:1655-1674 | being past a tuple is being equal on some prefix and past it on the next column |
| Pagination.BoundedDocuments | backend/internal/runtime/database.go:1312-1366 | returns the first documents up to the limit and whether there was one more, exactly when their JSON array is within the byte limit or there are none |
| Pagination.Paginate | backend/internal/runtime/database.go:2022-2041 | one page is the first rows of the answer, leaves out nothing between its start and its end, is within the byte limit as text, and has a next position exactly when a row is left |
| Pagination.NeverTwice | backend/internal/runtime/database.go:1969-2042 | no position is on two pages of a walk, whatever happens to the table in between |
| Pagination.ExactlyOnce | backend/internal/runtime/database.go:1969-2042 | following cursors to the end shows every row that stays put on exactly one page, under concurrent writes, in either direction |
| Pagination.PagesAreTheSortedResult | backend/internal/runtime/database.go:1969-2042 | on data that does not change the pages, concatenated, are the whole result in order |
| QueryPages.Compile | backend/internal/runtime/database.go:1257-1300 | a query compiles exactly when its range and its filter fit the table, and then selects exactly the stored documents that it asks for |
| QueryPages.ResumeAt | backend/internal/runtime/database.go:1642-1676 | the predicate sent for a cursor is the one it compiles to, and selects the positions past it |
| QueryPages.AnswerIsAnswer | backend/internal/runtime/database.go:1257-1300 | the first stored documents that satisfy the compiled predicates, in column order, are the answer that a page is cut from |
| QueryPages.StoredCursorsAreGood | backend/internal/runtime/database.go:1642-1660 | the position of a stored document passes the checks on the parts of a cursor exactly when each of its keys is within the limit on keys |
| QueryPages.Page | backend/internal/runtime/database.go:1969-2042 | from the compiled query and the resumed cursor to one page of documents, with a next cursor exactly when a document is left, and that is the position of the last document shown |
| QueryPages.DocumentsExactlyOnce | backend/internal/runtime/database.go:1969-2042 | a stored document that keeps its index keys and matches all the while is on exactly one page of a finished walk |
| QueryPages.ColumnsFollowDocuments | backend/internal/runtime/database.go:1419-1497 | the order of the columns is the protocol order of the documents' index fields, then creation, then id |
| QueryPages.PagesAreTheQuery | backend/internal/runtime/database.go:1969-2042 | on documents that do not change, the pages concatenated are exactly the documents that the filter and the range ask for, in protocol order |
| CursorBinding.RedactionIsLocal | backend/internal/runtime/database.go:2130-2182 | redaction sets or removes one property, and only where it holds the token |
| CursorBinding.RedactionRestoresFirstPage | backend/internal/runtime/database.go:2130-2182 | one of the two redactions of the next request gives the first page's arguments back |
| CursorBinding.CursorSearch.Walk | backend/internal/runtime/database.go:2097-2128 | the counting search keeps a count that tells no holder, exactly the one named, or at least two |
| CursorBinding.UniqueArgumentCursorPath | backend/internal/runtime/database.go:2097-2128 | names a path exactly when one object holds the token, and then that object's |
| CursorBinding.FreshTokenFound | backend/internal/runtime/database.go:2097-2128 | a token that nothing held before is found where it is put |
| CursorBinding.CursorArgumentBindings | backend/internal/runtime/database.go:2070-2095 | the candidate texts are exactly those of the arguments and their two redactions |
| CursorBinding.DecodeCursorCandidates | backend/internal/runtime/database.go:2266-2290 | a token is opened exactly when its payload is within the limits and bound to a candidate hash |
| CursorBinding.OpenCursor | backend/internal/runtime/database.go:2005-2019 | a continuation runs under the hash in its token, exactly when that hash is of its own or its redacted arguments |
| CursorBinding.ContinuesOnlyItsQuery | backend/internal/runtime/database.go:2130-2203 | a request that runs under a query's hash is that query's arguments, or they are its own with the cursor set to null or left out and nothing else changed |
| CursorBinding.ChainKeepsFirstHash | backend/internal/runtime/database.go:2005-2041 | where the options object is known, every page of a chain is accepted and carries the first page's hash |
| CursorBinding.FallbackContinuesExactly | backend/internal/runtime/database.go:2005-2128 | where it has to be searched for, a continuation runs under the first page's hash exactly when no other object holds the token, and is refused otherwise |
| CursorBinding.FallbackChainKeepsFirstHash | backend/internal/runtime/database.go:2005-2128 | so with tokens that nothing held before, every page of such a chain carries the first page's hash |
| IssuedCursors.IssuedIsDecodable | backend/internal/runtime/database.go:2256-2290 | the token issued after a stored document passes the limits on tokens exactly when each of its keys is within the limit on keys, its index is narrower than the limit on tuples, and the summed keys leave the payload within 16 KiB |
| CursorBinding.PayloadBytesAreText | backend/internal/runtime/database.go:2225-2261 | the bytes counted against the limit are those of the payload's JSON |
| IssuedCursors.ThreeFieldsAreAccepted | backend/internal/runtime/database.go:2256-2290 | over an index of up to three fields, keys within their own limit are enough |
| IssuedCursors.FourLongKeysAreRefused | backend/internal/runtime/database.go:2256-2290 | four keys of the longest accepted length exceed the limit on a token, over an index of any width |
| IssuedCursors.IssuedContinues | backend/internal/runtime/database.go:2005-2041 | the next request continues under the first page's hash exactly when the token issued after the page is accepted |
| IssuedCursors.IssuePage | backend/internal/runtime/database.go:2022-2041 | one page and its token: there is one exactly when a document is left, it is the one issued after the last document shown, and it decodes exactly under that condition |
| IssuedCursors.LongCursorsAreRefused | backend/internal/runtime/database.go:2256-2290 | in every table of four indexed string fields there is a document that is stored, whose keys pass the limit on keys, and whose token is refused |
| HostingService.ReferenceService.ServeHTTP | backend/hosting/reference.go:52-170 | one request turns the tables into what the specification function says, keeps them consistent and forgets nothing |
| HostingService.ReferenceService.Admit | backend/hosting/reference.go:90-118 | admission under idempotent request ids, one reservation per invocation |
| HostingService.ReferenceService.Report | backend/hosting/reference.go:119-165 | an event is recorded exactly when it fits its reservation, its state and its session's sequence |
| HostingService.ReferenceService.FindReservation | backend/hosting/reference.go:136-147 | the first admission found for a reservation is the only one |
| HostingService.CheckEvent | backend/hosting/client.go:312-314 | an event passes exactly with valid identifiers, a sequence number, a time, and the outcome and duration that its phase takes |
| HostingService.CheckToken | backend/hosting/client.go:294-304 | the loop accepts exactly one to 128 characters of the alphabet |
| HostingService.PolicyDecides | backend/hosting/reference.go:108-118 | a request that is decided anew is allowed exactly when the policy in force names its capability and allows it, with the code, the version and the reservation that go with that |
| HostingService.LastPolicyDecides | backend/hosting/reference.go:36-118 | after any requests a new decision follows the policy that was set last, with its version |
| HostingService.HistoryKeeps | backend/hosting/reference.go:119-165 | every request keeps the recorded events of a reservation to none, a start, a start and a completion, or a release, as its state says |
| HostingService.ServeKeeps | backend/hosting/reference.go:90-165 | the tables stay consistent and every recorded admission and event stays word for word |
| HostingService.OneStartOneCompletion | backend/hosting/reference.go:119-165 | no reservation has two starts or two completions |
| HostingService.RetriesAreIdempotent | backend/hosting/reference.go:35-165 | an identical retry, after any sequence of other requests and policy changes, is answered as before and changes nothing |
| HostingService.SetPolicyKeeps | backend/hosting/reference.go:35-50 | a policy change keeps the tables consistent |
| ExecutionMetering.Observer.Admit | backend/internal/pbvex/hosting_observer.go:227-258 | two attempts; it is clean only when the first sent nothing or the service decided, and every other end latches |
| ExecutionMetering.SecondCallDecides | backend/internal/pbvex/hosting_observer.go:227-258 | a busy first call ends the exchange cleanly; otherwise the first valid decision of two calls stands, and without one it is uncertain |
| ExecutionMetering.Observer.Report | backend/internal/pbvex/hosting_observer.go:260-275 | an event is lost, and the observer latches, exactly when no attempt was acknowledged |
| ExecutionMetering.Observer.Track | backend/internal/pbvex/hosting_observer.go:285-293 | the table of executions in flight is bounded |
| ExecutionMetering.Observer.Begin | backend/internal/pbvex/hosting_observer.go:102-146 | succeeds exactly when healthy, with room, granted and its start acknowledged; only then the execution stays tracked, and it latches on every other end that is not clean |
| ExecutionMetering.Observer.End | backend/internal/pbvex/hosting_observer.go:164-191 | untracks, and latches when the execution was not tracked or its completion is lost |
| ExecutionMetering.AdmissionStepsAreTheExchange | backend/internal/pbvex/hosting_observer.go:193-258 | the steps of the interleaving model end where the observer's admission loop ends, and latch when it does |
| ExecutionMetering.ReportStepsAreTheExchange | backend/internal/pbvex/hosting_observer.go:260-275 | and so do the steps of a report, at every number of attempts |
| ExecutionMetering.StepKeeps | backend/internal/pbvex/hosting_observer.go:102-279 | every step of either end and of the transport keeps the joint invariant |
| ExecutionMetering.HandlerRunsAfterStart | backend/internal/pbvex/hosting_observer.go:193-225 | in every run a handler runs only after the service recorded its start under a reservation it granted |
| ExecutionMetering.HandlerRunsUnderPolicy | backend/hosting/reference.go:90-118 | in every run a handler runs only under a reservation for a capability that the policy in force allowed when the service admitted it, and carries that policy's version |
| ExecutionMetering.DeniedByPolicy | backend/hosting/reference.go:90-118 | and an execution is denied only for a capability that it did not allow |
| ExecutionMetering.HistoryAlways | backend/hosting/reference.go:119-165 | in every run no completion without its start, and no start of what was released |
| ExecutionMetering.ExecutionSettles | backend/internal/pbvex/hosting_observer.go:102-191 | a run in which an allowed execution is admitted, started, run and completed, with nothing left in hand |
| ExecutionMetering.NeverTwice | backend/hosting/reference.go:119-165 | in no run, with lost requests, lost replies and retries, has a reservation two starts or two completions |
| ExecutionMetering.HealthyAccountsForAll | backend/internal/pbvex/hosting_observer.go:102-191 | while the observer is healthy every reservation the service holds is inside Begin, running, inside End, or completed |
| ExecutionMetering.NoBeginAfterLatch | backend/internal/pbvex/hosting_observer.go:102-110 | once unhealthy, always, and no later Begin is entered |
| Jobs.JobStore.ClaimOne | backend/internal/scheduler/worker.go:192-261 | a claim succeeds exactly under its guard on the row as read, and changes one row |
| Jobs.JobStore.End | backend/internal/scheduler/worker.go:464-665 | completion, failure, retry, release and deferral succeed exactly for the token the row carries, and write the row of that ending |
| Jobs.JobStore.RetryLater | backend/internal/scheduler/worker.go:562-605 | after an error the row fails when the worker has counted enough attempts, and is otherwise pending, due after the delay |
| Jobs.JobStore.DeferAdmission | backend/internal/scheduler/worker.go:607-634 | after a refused admission the row is pending, due after a minute or the longest delay, and the worker's count less one is written |
| Jobs.JobStore.CancelOnce | backend/internal/scheduler/service.go:283-301 | one round of a cancel succeeds exactly for the lease that was read |
| Jobs.JobStore.Retry | backend/internal/scheduler/service.go:328-395 | a terminal row is queued again and nothing else is |
| Jobs.CancelLoop | backend/internal/scheduler/service.go:265-325 | at most four rounds; the outcome is the last round's, and every earlier one missed a live row |
| Jobs.SelectedRowsAreClaimed | backend/internal/scheduler/worker.go:140-230 | an untouched row passes its claim guard exactly when the claim query selects it |
| Jobs.EmptyTokenCancelsOnlyPending | backend/internal/scheduler/service.go:283-297 | a cancel that read a pending row cannot hit a running attempt |
| Jobs.RetryBackoff | backend/internal/scheduler/service.go:662-676 | the doubling loop gives the initial delay times a power of two, plus jitter, capped at the maximum |
| Jobs.BackoffNeverShrinks | backend/internal/scheduler/service.go:662-676 | without jitter the delay never shrinks from one attempt to the next |
| SchedulerRuns.StepKeeps | backend/internal/scheduler/worker.go:118-293 | every step of any worker or operator keeps the invariant on rows, tokens and attempts |
| SchedulerRuns.JobIsCompleted | backend/internal/scheduler/worker.go:263-383 | a run in which a job is claimed, registered, checked, executed, completed and cleaned up |
| SchedulerRuns.JobIsCancelled | backend/internal/scheduler/service.go:265-325 | and one in which a cancel takes the token of an executing attempt and its signal stops it |
| SchedulerRuns.RunningIffLeased | backend/internal/scheduler/worker.go:192-665 | in every interleaving a job is running exactly when it carries a lease and an expiry |
| SchedulerRuns.DueRowsCanBeClaimed | backend/internal/scheduler/worker.go:140-230 | every due pending row and every expired running row passes its claim guard, and no other row does |
| SchedulerRuns.FinishedIffTerminal | backend/internal/scheduler/worker.go:464-548 | a job has a finishing time exactly when it has completed, failed or been cancelled |
| SchedulerRuns.RowsTellTheirLastWrite | backend/internal/scheduler/worker.go:192-665 | in every run a row is completed, failed or cancelled exactly when the last step that wrote it was that completion, failure or cancel, running exactly when it was a claim or a renewal, and pending, due when that step said, otherwise; with its attempts, lease and times as that step leaves them |
| SchedulerRuns.AttemptsAreCounted | backend/internal/scheduler/worker.go:192-261 | while claims find the attempts that they read, a row's attempts are its claims less its deferrals since it was inserted or retried, and so is what its worker counts |
| SchedulerRuns.DeferralWritesWhatWasRead | backend/internal/scheduler/worker.go:610-634 | in every run a deferral writes the attempts that its claim had read, which are those before the claim exactly when the row still had them |
| SchedulerRuns.StaleClaimForgetsAnAttempt | backend/internal/scheduler/worker.go:192-261 | a run in which a row claimed twice and deferred once says it was never tried |
| SchedulerRuns.FinishedJobsStay | backend/internal/scheduler/worker.go:464-665 | a finished job is untouched until an operator retries it or the clean-up removes it |
| SchedulerRuns.TokensEndOnce | backend/internal/scheduler/worker.go:464-665 | each claim token is taken from its row by at most one successful write |
| SchedulerRuns.StaleWritesChangeNothing | backend/internal/scheduler/worker.go:394-665 | once a token is taken, its attempt's writes and renewals and any cancel aimed at it change nothing |
| SchedulerRuns.CancelReachesTheAttempt | backend/internal/scheduler/worker.go:263-293 | once a cancel of a running attempt has returned, the attempt is not let in, is cancelled, or has left |
| SchedulerRuns.CancelBeforeCheckKeepsOut | backend/internal/scheduler/worker.go:263-293 | an attempt that the cancel found before its check never enters the executor |
| Retention.DeploymentStore.Upload | backend/internal/deploy/service.go:281-334 | a new deployment is stored inactive, a known one is left as it is |
| Retention.DeploymentStore.DeleteOldestInactive | backend/internal/deploy/repo.go:135-201 | removes exactly the candidates beyond the newest to keep |
| Retention.DeploymentStore.FilterDeletable | backend/internal/deploy/repo.go:163-174 | the filtering loop keeps the deletable rows in order |
| Retention.DeploymentStore.Activate | backend/internal/deploy/service.go:448-535 | afterwards exactly one deployment is flagged active, the one the state record names; the old one becomes the previous |
| Retention.DeploymentStore.Rollback | backend/internal/deploy/service.go:1327-1432 | swaps active and previous; the deployment it restores always exists |
| Retention.DeploymentStore.Pin | backend/internal/deploy/service.go:1735-1774 | adds or removes one pin, or reports the missing deployment or the underflow |
| Retention.DeploymentStore.ScheduleJob | backend/internal/scheduler/service.go:509-583 | a job is stored with its pin, or not at all |
| Retention.DeploymentStore.CleanupOld | backend/internal/scheduler/service.go:618-656 | removes exactly the given terminal jobs with their pins; the missing-deployment and underflow branches are unreachable |
| Retention.TrimTakesTheOldest | backend/internal/deploy/repo.go:135-201 | trimming takes deployments that are inactive, unnamed, unpinned and without jobs, as many as exceed the quota, the oldest |
| Retention.JobsHoldPins | backend/internal/scheduler/service.go:618-656 | while a job exists its deployment exists and has a pin |
| RealtimeNotify.NoLostInvalidation | backend/internal/realtime/subscription.go:82-151 | every live unpaused subscription has started a run after the newest invalidation, or is about to, or holds a token, or is still to be signalled |
| RealtimeNotify.StepKeeps | backend/internal/realtime/realtime.go:124-138 | every step keeps that, though the channel has one slot and sends never block |
| RealtimeNotify.QuietMeansServed | backend/internal/realtime/subscription.go:82-108 | once no call is in progress a waiting subscription that is behind has its token to receive |
| RealtimeNotify.EveryInvalidationCanBeServed | backend/internal/realtime/subscription.go:82-138 | from every reachable state each live unpaused subscription starts a run after the newest invalidation by its own steps and one send already owed to it |
| RealtimeNotify.DeniedStaysQuiet | backend/internal/realtime/subscription.go:98-129 | a run that was denied admission leaves its subscription waiting, and it starts no run again however many invalidations follow |
| RealtimeNotify.RegisteredUntilCancelled | backend/internal/realtime/session.go:292-303 | a subscription leaves once it is cancelled and not before, and nothing of it remains |
| RealtimeFence.Broadcaster.BeginReconnectAll | backend/internal/realtime/realtime.go:147-160 | raises the generation and lists everything registered |
| RealtimeFence.Broadcaster.SubscribeWithFence | backend/internal/realtime/realtime.go:183-191 | registers exactly under the generation that the admission read |
| RealtimeFence.Broadcaster.CloseSession | backend/internal/realtime/session.go:143-153 | unlists, closes and cancels the session |
| RealtimeFence.Broadcaster.AddSessionSubscription | backend/internal/realtime/session.go:250-303 | registers exactly when the session is open, the name free, the limit not reached and the generation unchanged; behind the fence the session is cancelled |
| RealtimeFence.Session.Forget | backend/internal/realtime/session.go:319-325 | a finishing subscription takes only its own entry |
| RealtimeFence.NoLiveStaleSubscription | backend/internal/deploy/service.go:450-553 | a live registered subscription on an inactive deployment is still to be listed or cancelled by an unfinished ReconnectAll |
| RealtimeFence.SettledMeansCurrent | backend/internal/realtime/realtime.go:147-171 | when every ReconnectAll has finished, all live subscriptions are on the active deployment |
| RealtimeFence.SubscribedExactly | backend/internal/realtime/realtime.go:173-191 | over runs a subscription is registered exactly when no ReconnectAll began after its request was admitted, and is then live on the deployment it resolved against |
| RealtimeFence.SessionOpenedExactly | backend/internal/realtime/session.go:133-141 | the same for a session, which starts open and empty |
| RealtimeFence.SubscribedInSessionExactly | backend/internal/realtime/session.go:250-303 | a session's subscription is registered and entered exactly when the session is open with room, the name is free and no ReconnectAll began; one that began ends the session |
| RealtimeFence.ActivationsSettle | backend/internal/realtime/realtime.go:147-171 | from every reachable state the ReconnectAll calls in progress can finish on their own, and then every live subscription is on the active deployment |
| RealtimeFence.ReconnectAllReachesAll | backend/internal/realtime/realtime.go:147-171 | over runs, what was registered when a ReconnectAll raised the fence, subscription or session, is cancelled when it returns |
| RealtimeFence.ActivationsCarryThrough | backend/internal/deploy/service.go:448-553 | from every reachable state a new activation can be committed and carried through until every live subscription is on its deployment |
| RealtimeFence.ClosedSessionsEnd | backend/internal/realtime/session.go:143-153 | a closed session is unlisted and leaves no live subscription |
| RealtimeFence.RemovedEnds | backend/internal/realtime/session.go:307-315 | removing a name ends its subscription and frees the name |
| RealtimeFence.ClosedSessionsOnlyShrink | backend/internal/realtime/session.go:250-303 | a closed session never gains a subscription |
| RealtimeFence.FencedSessionsStayDead | backend/internal/realtime/session.go:250-303 | a cancelled session never has a live subscription again |
| RealtimeFence.ReplacementStays | backend/internal/realtime/session.go:250-325 | in every run an entry stays until it is removed by name or its own subscription finishes |
| MigrationPlan.CheckChain | backend/internal/deploy/migrations.go:80-94 | the walk terminates and accepts a chain exactly when it arrives at the target schema |
| MigrationPlan.ClosedSetNeverArrives | backend/internal/deploy/migrations.go:83-86 | a set of schemas that links never leave never arrives, so a repeated schema is a real cycle |
| MigrationPlan.PlanTable | backend/internal/deploy/migrations.go:66-135 | fails exactly for tables that cannot be planned; a nonempty plan is a hash-linked path from source to target without a repeated step, and the walk's own errors cannot occur |
| MigrationPlan.PathsAreUnique | backend/internal/deploy/migrations.go:66-78 | an unambiguous manifest has one path between two schemas |
| MigrationPlan.PlanMigrations | backend/internal/deploy/migrations.go:58-144 | plans exactly the tables that need it, one plan each, in the order of their first steps |
| MigrationRun.ReverseInPlace | backend/internal/deploy/migrations.go:412-418 | the two-index loop reverses |
| MigrationRun.OrderedSteps | backend/internal/deploy/migrations.go:261-268 | a plan's steps run first to last up, last to first down |
| MigrationRun.DownUndoesUp | backend/internal/deploy/migrations.go:250-367 | the reversed steps down lead back from where the steps up arrived, whatever the row and the two times |
| MigrationRun.UpPathEnds | backend/internal/deploy/migrations.go:261-320 | up, a path takes a document that fits its source schema to one normalized under its target |
| MigrationRun.DownPathEnds | backend/internal/deploy/migrations.go:261-320 | down, the same steps backwards take one that fits the target schema to one normalized under the source |
| MigrationRun.RollbackRestoresRow | backend/internal/deploy/migrations.go:250-367 | a row that an activation migrates is restored by the rollback, with its order projection |
| MigrationRun.PlannedTablesRestored | backend/internal/deploy/migrations.go:250-418 | plans and steps reversed restore every row of every planned table |
| MigrationRun.Budget.ChargeBytes | backend/internal/deploy/service.go:1314-1321 | a charge past the limit is refused and changes nothing |
| MigrationRun.Budget.ApplySteps | backend/internal/deploy/migrations.go:292-352 | a row's steps succeed exactly when each of them does and the three charges of every step fit |
| MigrationRun.Budget.MigrateTable | backend/internal/deploy/migrations.go:250-367 | a table is migrated exactly when every row passes its steps, the target schema and the projection, and rows and bytes fit; then it is every row in order and exactly its cost is charged |
| MigrationRun.Budget.ApplyMigrationPlans | backend/internal/deploy/migrations.go:250-367 | the plans succeed exactly when each of them does and their whole cost fits |
| SchemaActivation.SchemaMigrationWork | backend/internal/deploy/migrations.go:146-175 | exactly the planned and the unchanged tables are skipped; changed tables without a plan are added as work without steps |
| SchemaActivation.MoveDocuments | backend/internal/deploy/service.go:448-535 | plans and then rewritten tables, from one budget: succeeds exactly when the specified move does and its whole cost fits |
| SchemaActivation.RollbackRestoresExactly | backend/internal/deploy/service.go:1376-1405 | the first rollback restores every row of every table exactly when each document of each changed table without a plan survives both rewritings |
| SchemaActivation.RoundTripsExactly | backend/internal/schema/validator.go:257-297 | where only fields and defaults change, a document comes back exactly when the new schema fills none of the fields it lacks |
| SchemaActivation.SafeChange | backend/internal/schema/validator.go:257-297 | so without a new default every document that the new schema accepts comes back, and with one no document that lacks the field does |
| SchemaActivation.SafeChangesComeBack | backend/internal/deploy/service.go:1376-1405 | and a table whose two schemas differ only so comes back as a whole |
| SchemaActivation.NewDefaultsAreSeen | backend/internal/schema/validator.go:257-297 | both failing rollbacks below are new defaults under that condition, and dropping the default again is safe |
| SchemaActivation.PlansAreDetermined | backend/internal/deploy/migrations.go:58-144 | planning the same two manifests again gives the same plans in the same order |
| SchemaActivation.ActivateAndRollBack | backend/internal/deploy/service.go:1327-1432 | activate, plan again, roll back: all rows are back under exactly that condition |
| SchemaActivation.UnionFreeIsIdempotent | backend/internal/schema/validator.go:257-512 | the idempotence this assumes holds for all validators without unions |
| SchemaActivation.RollbackLeavesDefaults | backend/internal/deploy/service.go:1215-1312 | an optional field gets a default without a migration: the rollback succeeds and the default stays |
| SchemaActivation.RollbackRefusesNewFields | backend/internal/deploy/service.go:1215-1312 | a new field with a default, filled by the activation, makes the rollback fail |
| QuotaLedger.ReferenceQuotaService.ServeHTTP | backend/hosting/storagequota/reference.go:76-235 | one request turns the tables into what the specification function says and keeps them balanced |
| QuotaLedger.ReferenceQuotaService.InflightBytes | backend/hosting/storagequota/reference.go:124-129 | the summing loop adds up the open reservations |
| QuotaLedger.ServeKeeps | backend/hosting/storagequota/reference.go:103-226 | usage is never negative, covers settlements less credits, and with the open reservations stays within capacity |
| QuotaLedger.RetriesAreIdempotent | backend/hosting/storagequota/reference.go:76-235 | an identical retry, after any sequence of other requests and capacity changes, is answered as before and changes nothing |
| QuotaRun.StepKeeps | backend/internal/storage/nativequota.go:240-440 | every step of uploads, variants, copies to the final place, deletions at either place, reports of lost blobs and deliveries keeps the joint invariant |
| QuotaLedger.LastCapacityDecides | backend/hosting/storagequota/reference.go:103-140 | after any requests a new reservation is allowed exactly when it fits, with all that is used and reserved, under the capacity that was set last |
| QuotaRun.ChargeStaysWithinCapacity | backend/hosting/storagequota/reference.go:103-226 | in every run used plus open reservations stays within a capacity that is not lowered |
| QuotaRun.ChargeCoversAlways | backend/internal/storage/service.go:545-785 | in every run the charge covers the stored bytes less the staged objects left beside their copies, and less those credited without cover |
| QuotaRun.NothingCreditedWithoutCover | backend/internal/storage/service.go:290-326 | while an object is listed by one deletion at a time, at one place and not while its write is undecided, no listed blob is copied, and none is reported lost but when it is gone and neither listed nor credited, no byte is credited without cover |
| QuotaRun.ChargeCoversStored | backend/internal/storage/service.go:290-326 | and then the charge covers every stored object, and every stored byte whenever no blob is at both places |
| QuotaGaps.DoubleListingUndercounts | backend/internal/storage/nativequota.go:335-389 | two deletions that have listed one object of positive size can both credit it: from any such state the margin of the charge over the objects changes by the object less twice its size or all that is used, so that without slack an object is uncovered exactly when more was used than its size |
| QuotaGaps.UnsettledListingUndercounts | backend/internal/storage/image.go:175-223 | a deletion that has listed a stored variant whose reservation is open can credit what is then released: the margin falls by its size or all that is used, so that without slack an object is uncovered exactly when anything was used |
| QuotaGaps.CopiedBlobUndercounts | backend/internal/storage/service.go:753-785 | a settled blob is copied while its staged object stays, with no deletion and no credit: the charge is then below what is stored exactly when the slack was less than its size |
| QuotaGaps.BothPlacesUndercount | backend/internal/storage/service.go:290-326 | one deletion that has listed a blob at both places credits it twice, with the margin of two listings |
| QuotaGaps.CopyOfListedUndercounts | backend/internal/storage/worker.go:206-258 | a copy made after the staged object was listed stays stored when that object is credited: the margin falls by its size or all that is used |
| QuotaGaps.LostBlobUndercounts | backend/internal/storage/service.go:790-817 | a report of a lost blob that is stored credits it: the margin falls by its size or all that is used |
| QuotaGaps.OverlappingUpdatesUndercount | backend/internal/storage/nativequota.go:335-389 | a reachable state in which two overlapping updates leave the charge below what is stored |
| QuotaGaps.DeletedVariantUndercounts | backend/internal/storage/service.go:290-326 | a reachable state in which one deletion of a blob with a variant in progress does |
| QuotaGaps.LeftoverCopyUndercounts | backend/internal/storage/service.go:753-785 | a reachable state in which a staged object left behind does, with no deletion and nothing credited, and one in which a single deletion has then credited both |
| QuotaGaps.StoredBlobReportedLost | backend/internal/storage/service.go:790-817 | a reachable state in which the report of a stored blob does |
| Normalize.PresentStaysPresent | backend/internal/schema/validator.go:299-512 | a present input never gives an absent output |
| Normalize.NormalizedIsAcceptedAgain | backend/internal/schema/validator.go:257-512 | any normalized result is accepted again by the same validator in the same scope, and without unions it is a fixed point |
| Normalizer.Evaluator.Normalize | backend/internal/schema/validator.go:299-512 | restores its scope; gives exactly the specified result whenever it ends within the budgets and fails past them; charges at most the specified cost, and all of it when it succeeds without unions |
| Normalizer.Evaluator.Object | backend/internal/schema/validator.go:257-297 | the object loop accepts exactly safe known keys with accepted fields, builds exactly the present results, and charges no more than the object and its fields |
| Normalizer.Evaluator.KeyOf | backend/internal/schema/validator.go:458-482 | a record key is accepted exactly under its validator, each option on budgets of its own |
| Normalizer.CheckRecordKey | backend/internal/schema/validator.go:600-636 | a record's key descriptor is accepted exactly for strings, safe literals and unions of them, of an allowed size and depth |
| Normalizer.CheckWireKey | backend/internal/schema/validator.go:683-693 | the loop accepts exactly the safe field names |
| Normalizer.IsCanonical | backend/internal/schema/validator.go:514-559 | a literal is canonical exactly when it is in the wire subset and its cost fits a budget of its own |
| Normalizer.NormalizeValue | backend/internal/schema/validator.go:77-84 | a returned value is the specified normalization; it is returned whenever there is one and its cost fits, and without unions only then |
| IndexedValues.AcceptedValuesHaveKeys | backend/internal/schema/order.go:176-262 | what an indexable validator accepts comes out unchanged and has a key, except a null admitted only by a literal |
| IndexedValues.WireValuesHaveKeys | backend/internal/schema/order.go:456-489 | every value of the wire subset has a validator-independent key, arrays, objects and tagged values included |
| IndexedValues.AcceptedHasGenericKey | backend/internal/schema/validator.go:257-512 | and so does whatever any validator accepts |
| IndexedValues.AcceptedHasOrderKey | backend/internal/schema/order.go:176-329 | it has an order key under that validator exactly when it is not a null, or a null that the validator's type names |
| IndexedValues.NormalizedDocumentsProject | backend/internal/schema/order.go:62-140 | a normalized document is projected exactly when its declared objects are nested within the limit and no declared path holds another null |
| IndexedValues.RecursiveNullHasNoKey | backend/internal/schema/order.go:371-397 | a recursive type that admits null accepts it and has no key for it |
| IndexedValues.NullLiteralIsAccepted | backend/internal/schema/validator.go:299-512 | the validator literal(null) accepts null |
| IndexedValues.NullLiteralHasNoKey | backend/internal/schema/order.go:371-397 | literal(null) is indexable, and a null under it has no key |
| WireCodec.Int64Bijection | backend/internal/runtime/wire.go:334-348 | the 2^64 byte patterns and the int64 integers correspond one to one |
| WireCodec.WriteInt64 | backend/internal/runtime/wire.go:341-348 | the byte loop writes the little-endian two's complement bytes |
| WireCodec.ReverseCopy | backend/internal/runtime/wire.go:334-340 | the swapping loop reverses a copy |
| WireCodec.DecodeUndoesEncode | backend/internal/runtime/wire.go:55-349 | every value that encodes decodes to itself, less its undefined properties |
| WireCodec.EncodeUndoesDecode | backend/internal/runtime/wire.go:55-349 | every wire value within the entry limits that decodes encodes back to itself, with tagged bytes in canonical spelling |
| WireCodec.CanonicalRoundTrip | backend/internal/runtime/wire.go:55-349 | it encodes back to itself exactly when its tagged bytes are canonical |
| WireCodec.Encoder.EncodeAt | backend/internal/runtime/wire.go:168-311 | the result is the specified encoding exactly when there is one and its cost fits what is left; a limit is reported only when it does not fit, and without a limit reached there is no encoding |
| WireCodec.EncodeWire | backend/internal/runtime/wire.go:168-170 | on fresh budgets: the specified encoding when the cost fits, and none otherwise |
| Base64.DecodeUndoesEncode | backend/internal/runtime/wire.go:110-145 | decoding undoes encoding on every byte string, and encoded text is canonical |
| Base64.BreaksAreIgnored | backend/internal/runtime/wire.go:110-145 | a carriage return or a line feed anywhere in a text changes nothing of what it decodes to |
| WireValues.IntegersAndBlobs | backend/internal/schema/validator.go:638-649 | tagged integers and byte strings are exactly the one-field objects that hold the standard encoding of eight, or any number of, bytes |
| Keyring.NormalizeConfig | backend/internal/storage/config.go:110-142 | the clamped configuration is the least sound one from the given one up |
| Keyring.Keyring.LoadOrCreate | backend/internal/storage/keyring.go:54-97 | a valid current key is kept; otherwise every record that has not expired is loaded and the newest inside its rotation becomes current, or a new key |
| Keyring.Keyring.Current | backend/internal/storage/keyring.go:99-128 | the key returned was inside its rotation when it was checked, and is recorded; a current key inside its rotation is not replaced |
| Keyring.Keyring.CurrentCommitted | backend/internal/storage/keyring.go:130-144 | writes nothing, and returns the loaded key exactly when it lasts past the moment of the check plus the lifetime |
| Keyring.Keyring.Prune | backend/internal/storage/keyring.go:166-196 | removes only records that have expired, at the records' precision |
| Keyring.Keyring.SignURL | backend/internal/storage/keyring.go:290-345 | a URL signed within a minute of the check is covered by its recorded key; in a transaction it is covered whenever signing kept to a delay that the key covered at the check |
| Keyring.Keyring.VerifyURL | backend/internal/storage/keyring.go:347-404 | a URL whose recorded key covers it is accepted for as long as it is honoured, and never longer |
| Keyring.Keyring.Run | backend/internal/storage/keyring.go:54-404 | over any sequence of restarts, waits, loads, rotations, signings, verifications and prunes a key that covers a URL stays recorded and unexpired while the URL is honoured |
| Keyring.Keyring.SignRunVerify | backend/internal/storage/keyring.go:290-404 | a URL signed before any such sequence and verified after it is accepted for as long as it is honoured, when its key covers it: outside transactions whenever it was signed within a minute of the check |
| Keyring.CoversExactly | backend/internal/storage/keyring.go:290-404 | a key covers a claim exactly when no honoured moment comes after the key's expiry |
| Keyring.RotatingKeyCovers | backend/internal/storage/keyring.go:99-128 | rotation plus a grace of the longest lifetime and a minute covers any URL signed within that minute |
| Keyring.CommittedKeyCovers | backend/internal/storage/keyring.go:130-144 | for every bound on the delay, all URLs signed within it are covered exactly when the key reaches the last claim, which is known at the check |
| Keyring.CommittedKeyMayExpireFirst | backend/internal/storage/keyring.go:130-166 | every generated key, under every sound configuration and lifetime, passes the check at a moment from which little more than a second of delay lets the URL outlive it |
| Keyring.KeyLastsAsLongAsItsUrl | backend/internal/storage/keyring.go:54-196 | however the records change, as long as unexpired ones stay, a covering key stays recorded and valid while the URL is honoured |

## Left out

- Filter arithmetic (add, sub, mul, div, mod, neg) and bare boolean fields: they read raw JSON, so SQLite's number typing and NULL decide.
- The operand type check of validateExpression: the compiler is modelled on every comparison it accepts, which includes all that pass that check; the limits on nodes and depth of a filter are not modelled.
- The depth error inside canonical JSON text of compound values: the text is a total function here.
- SQLite, PocketBase records, transactions that fail, HTTP and SSE framing: rows are maps, a transaction is one step or a sequence under one lock, and a failed one changes nothing.
- List's cursor over jobs, namespaces of requesters, the worker's concurrency limit and its wake-ups.
- The loops of a worker's job, a subscription's run and an upload's hooks as classes: what is claimed of them is about interleavings, so they are steps of a world, and only the guarded updates and exchanges inside them are methods.
- Cancel across processes: a signal reaches attempts of the same process only, as in the source; an attempt elsewhere runs until its next write or renewal finds its token taken.
- A bound on total attempts: expired leases, releases and deferrals do not go through retry.
- ExecutionMetering.StepKeeps: runs start from an empty service and one observer session; the labels of an operation, their projection and the pauses between attempts are not modelled.
- RealtimeNotify.NoLostInvalidation: says nothing of subscriptions that an admission denial paused, which stay quiet until the client resubscribes; lastSent and the comparison of payloads are not modelled.
- SchemaActivation.RollbackRestoresExactly: a rollback of a rollback, which plans from other migrations, is not modelled; that down undoes up is the author's obligation, and idempotent normalization is a premise, proved for validators without unions.
- SchemaActivation.MoveDocuments: the estimates before a run and their limits, the history records, and the index changes between plans and rewriting are left out; component namespaces are only a flag that keeps a table from plans.
- SchemaActivation.RollbackLeavesDefaults: a document is normalized there as a value of its object validator, one level deeper than the document's own entry point.
- MigrationPlan.PlanTable: hashes and names are opaque; the descriptor lookups, the history check and the warnings are left out.
- Retention.DeploymentStore.Upload: the trim that follows an upload is DeleteOldestInactive with whatever rows the query returned; manifests, bundles and migrations of an activation are elsewhere or left out.
- QuotaLedger.ServeKeeps: capacities and sums are unbounded integers, so the wrap-around of a sum near 2^63 is not modelled; a reservation is named by its request's id.
- QuotaRun.ChargeStaysWithinCapacity: lowering the capacity is not a step.
- QuotaRun.StepKeeps: an upload, a stored blob or a variant is one flow of objects with sizes fixed when it is reserved, stored at an original and a final place (only a blob is ever copied), and the sizes read from the store are these flows' maps. The store is empty when the quota service is attached: objects stored before it, native thumbnails among them, are not modelled.
- Normalize.NormalizedIsAcceptedAgain: the evaluator's own budgets are Normalizer's and not part of the meaning (a literal's are); idempotence with unions fails, since an earlier branch may accept the output; values and validators are finite trees, so cycle detection is not needed.
- Normalizer.Evaluator.Normalize: with unions the charge is only bounded, because how much a refused branch charges depends on the order in which its fields and entries come, which the source leaves to map iteration.
- Normalizer.Evaluator.Object: the modes of NormalizeDocument that keep omitted fields out of a patch and refuse system fields are left out, as are the malformed descriptors that ValidateDescriptor refuses, other than record keys, literals, unions and names.
- WireCodec.Encoder.EncodeAt: too many entries count as a value that does not encode, not as a limit; the properties of an array are its items.
- WireCodec.DecodeUndoesEncode: JavaScript strings are byte strings, host objects are one constructor that does not encode, and shared but acyclic values are trees.
- IndexRanges.IndexRange.Call: one call at a time on one builder; the wrapping in JavaScript functions is not modelled.
- QueryPages.Page: that the database answers the compiled predicates with the first rows in column order is a premise; parsing of options is left out.
- IssuedCursors.IssuedIsDecodable: hashes, keys, times and ids are counted byte for byte, as characters that JSON never escapes; the creation text is any text, not the fixed format of the source's times.
- CursorBinding.DecodeCursorCandidates: the signature check and JSON parsing of a token are one parameter that yields the payload of an authentic token.
- Keyring.Keyring.SignURL: the signature, the nonce and the claims other than key and expiry are left out; one keyring runs at a time, and creation times recorded later than the key's own are measured by Lag, which counts toward the minute.
- Manifest field checks, CORS, outbound requests, mail, command line and TypeScript packages, thumbnails and image decoding, component hashing.
