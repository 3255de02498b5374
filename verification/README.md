# Verified models of the Mohalla foundation

Mohalla's foundation has no product feature yet, but several small pieces of
its running code exist to guarantee something hard. This project models those
pieces in Dafny and proves the guarantees, for every input, every run and
every interleaving; where the code guarantees less than its comments say, the
exact condition under which it does is proved instead.

    dafny verify dfyconfig.toml

## What is modelled

**The RTL lint rule** (`StyleTree`, `StyleFixes`, `StyleMeaning`,
`StyleVocabulary`, `StyleOrder`, `StyleSpread`, `StyleRewrite`, `StyleCollision`,
`StyleGate`).
Style objects of any depth, with spreads, computed keys and values that are not
literals; the rule's visitor; carrying its reports out one at a time; and a
meaning for style objects (objects as JavaScript makes them from literals,
ordered declarations, physical and logical names for the same side competing,
shorthands expanding, in either direction, after section 4 of CSS Logical
Properties and Values Level 1).
`docs/foundation/rtl-verification.md:15` says that code which passes the rule
cannot express a layout that does not mirror. The code does not go that far:
the rule looks at names and at literal text alignments, not at the words of
`margin: 0 1 0 2` or `borderRadius: 4 8`, not at `float`, `clear` or
`borderLeftStyle`, and not at a text alignment that is computed. Exactly which
clean styles mirror, those with `borderLeftStyle` included, is
`CleanStyleMirrors`. In the other direction the rule also flags a style that
merely is *named* `left`, and it asks for a key that may be there already, in
which case JavaScript moves the value; exactly when obeying the reports keeps
the left-to-right style is `RewriteKeepsLtrStyle`, in terms of the order in
which the keys are put.

**Transactions over the bounded pool** (`TransactionMachine`,
`TransactionSafety`, `DatabaseService`). Any number of calls of
`withTransaction` and `query`, interleaved at every `await`, with a failure
possible at each, connections lost at any moment, and a server that keeps one
session per connection: a BEGIN inside an open transaction only warns, a
statement outside one commits by itself, COMMIT of a failed transaction reports
success, and a connection lost after the server acted hides what it committed.
Calls are kept apart by nothing but the order of steps in the service and the
pool. Having returned means durable unless `fn` swallowed a failed statement.

**The worker's retries and dead letters** (`WorkerQueue`, `WorkerSafety`).
Delivering, handling and settling are separate steps and an expiry may fall
between any two. The handler derives the attempt from a retry count that the
type leaves optional (`apps/worker/src/main.ts:57`); exactly when its
prediction agrees with the queue is `PredictionAgreesIff`, and exactly when a
dead job is logged dead, on every run, is `LoggedDeadIff`. The comment at
`apps/worker/src/main.ts:76` calls the `job_dead` line the only signal of lost
work: an expired delivery gives no such signal, and without retry counts no job
is logged dead as soon as any retries are configured.

**The append-only audit log** (`AuditTable`, `AuditProtection`,
`AuditMigration`). Runs of data, privilege and schema statements by the four
roles against privileges, triggers and constraints, and the migration that sets
them up and takes them down. The privilege protection and the trigger protection are each proved
sufficient without the other, and the triggers are shown to be no boundary.

**Correlation** (`CorrelationContext`, `CorrelationId`, `RequestTrace`,
`ServerRuns`). The module-level store under every interleaving of requests,
continuations and nested runs, against a reference that has no store; one failed
request from the admin console and back; any number of requests failing at once,
with stores lost or mixed up; the id made up from the clock. The filter's comment says that internal detail
does not ship from status 500 on; the message and the details do not, the
exception's own `code` does.

**Three text codecs** (`GradlewArguments`, `OriginList`, `Urls`). The escaping
in `gradlew` and the shell's reading of it, the rotation of the arguments, the
origin list, and URL joining.

## Assumptions

- Queue: one job per handler call; a failed or expired delivery goes back while
  `retryCount < retryLimit`, otherwise the payload is copied to the dead-letter
  queue. The handler has no `await`, so it runs as one step.
- Database: ROLLBACK fails only on a broken connection; the pool drops broken
  clients; the server rolls back when a connection is lost; `fn` sends no
  BEGIN, COMMIT or ROLLBACK of its own and awaits each statement.
- Roles: no role is a member of another, and all grants come from the owner.
- Async context: creating a continuation captures the store, resuming it puts
  the captured store back, and `run` restores the store when its callback
  returns or throws.
- Styles: horizontal writing mode; apart from the families of `StyleTree.Name`
  only direction-neutral names. Names with a side in them or in their values
  that the rule passes as well (`scrollMarginLeft`, `backgroundPosition`,
  `transform`, `boxShadow`) are outside the vocabulary.
- `randomUUID` returns a UUID.

## Model

| member | source | states |
|---|---|---|
| `StyleTree.RuleContext.Visit` | packages/eslint-plugin-mohalla/rules/no-physical-properties.js:58-86 | the visitor, early returns included, appends the node's one report or nothing |
| `StyleTree.RuleContext.Lint` | packages/eslint-plugin-mohalla/rules/no-physical-properties.js:56-88 | the traversal appends the reports of the whole tree, parents first and siblings in order |
| `StyleTree.ReplacementIsTheTable` | packages/eslint-plugin-mohalla/rules/no-physical-properties.js:18-35 | the replacement function is the rule's table of 16 pairs: each replaced name has its own row with these spellings |
| `StyleTree.OtherNamesAreNotInTheTable` | packages/eslint-plugin-mohalla/rules/no-physical-properties.js:18-35 | a side name without a replacement, logical ones included, is spelt like no key of the table |
| `StyleFixes.ReportsAreExact` | packages/eslint-plugin-mohalla/rules/no-physical-properties.js:58-86 | at any depth, a node is reported with a replacement if and only if it is a physical key or a literal physical alignment |
| `StyleFixes.ReportedIffPhysical` | packages/eslint-plugin-mohalla/rules/no-physical-properties.js:58-86 | the same spelled out: a key, quoted, computed or not, iff it is a physical side other than of a border style; a value iff it is the literal `left` or `right` of a `textAlign` |
| `StyleFixes.ReportsAreDistinct` | packages/eslint-plugin-mohalla/rules/no-physical-properties.js:67-84 | no node is reported twice |
| `StyleFixes.AnyOrderReachesTheRewrite` | packages/eslint-plugin-mohalla/rules/no-physical-properties.js:67-84 | carrying the reports out in any order ends in one and the same tree, which has no reports |
| `StyleFixes.RemainingReports` | packages/eslint-plugin-mohalla/rules/no-physical-properties.js:67-84 | part way through, what is reported is exactly what has not been carried out |
| `StyleFixes.RewriteDiffersOnlyWhereReported` | packages/eslint-plugin-mohalla/rules/no-physical-properties.js:67-84 | the rewritten tree differs from the original at the reported nodes and nowhere else |
| `StyleSpread.SpreadMayBeFlattened` | packages/eslint-plugin-mohalla/rules/no-physical-properties.js:18-35 | putting the keys of a spread literal one by one makes the object that evaluating the literal first makes |
| `StyleVocabulary.SpreadSaysItsItems` | packages/eslint-plugin-mohalla/rules/no-physical-properties.js:18-35 | a style with a literal spread into it has the style of the same items written out |
| `StyleVocabulary.SidesSayWhatTheyDo` | packages/eslint-plugin-mohalla/rules/no-physical-properties.js:18-35 | a physical name writes its side in both directions, a logical one the side that the direction makes of it, and neither any other |
| `StyleVocabulary.TextAlignSaysWhatItDoes` | packages/eslint-plugin-mohalla/rules/no-physical-properties.js:37-38 | `start` and `end` follow the direction, `left` does not |
| `StyleVocabulary.BoxExpands` | packages/eslint-plugin-mohalla/rules/no-physical-properties.js:6-16 | one to four values of a box shorthand go to top, right, bottom and left with the usual omissions |
| `StyleVocabulary.CornersExpand` | packages/eslint-plugin-mohalla/rules/no-physical-properties.js:6-16 | one to four radii go to the four corners with the usual omissions |
| `StyleVocabulary.InlineExpands` | packages/eslint-plugin-mohalla/rules/no-physical-properties.js:6-16 | one or two values of an inline shorthand go to start and end |
| `StyleVocabulary.WordsOfJoined` | packages/eslint-plugin-mohalla/rules/no-physical-properties.js:6-16 | the words of a value are what was written between blanks |
| `StyleOrder.WinnerDecides` | packages/eslint-plugin-mohalla/rules/no-physical-properties.js:18-35 | which put decides a place, told by the order of the puts alone: the last put of its key, and of those that write the place the one whose key was first put latest |
| `StyleOrder.DecidedHasWinner` | packages/eslint-plugin-mohalla/rules/no-physical-properties.js:18-35 | conversely each decided place has such a put |
| `StyleRewrite.RewriteKeepsLtrStyle` | packages/eslint-plugin-mohalla/rules/no-physical-properties.js:18-35 | the replacements keep the left-to-right style iff nothing that takes effect sits below a reported key, and wherever a reported key stands beside its replacement the path leads to the same object and the winning put, or the one that wins once both count as one key, writes the same |
| `StyleRewrite.PlaceKeptIff` | packages/eslint-plugin-mohalla/rules/no-physical-properties.js:67-74 | the same for one place of one object, for any number of colliding and repeated keys |
| `StyleRewrite.UnsharedPlaceIsKept` | packages/eslint-plugin-mohalla/rules/no-physical-properties.js:67-74 | where no reported key stands beside its replacement, at any depth, each place is kept |
| `StyleCollision.StandsBetween` | packages/eslint-plugin-mohalla/rules/no-physical-properties.js:67-74 | a put that can take a place from its winner has its key's position between the one that the winner moves to and the one that it had |
| `StyleCollision.CollisionsKeepPlaceIff` | packages/eslint-plugin-mohalla/rules/no-physical-properties.js:67-74 | any number of collisions in an object of a tree: with nothing between, a place is kept iff the last word on the winner's new name writes what the winner wrote; otherwise iff the last of what stands between does |
| `StyleCollision.DivertedPlaceIsLost` | packages/eslint-plugin-mohalla/rules/no-physical-properties.js:67-74 | collisions of selectors or style names: at a path that comes to lead elsewhere nothing is left |
| `StyleCollision.CollidingKeysChangeTheStyle` | packages/eslint-plugin-mohalla/rules/no-physical-properties.js:67-74 | a concrete style with `marginInlineStart`, `margin` and `marginLeft` whose left margin the replacement changes |
| `StyleGate.DeclarationMirrors` | packages/eslint-plugin-mohalla/rules/no-physical-properties.js:8-12 | a declaration that is not physical writes a place left to right exactly when it writes the mirror place right to left, and the same thing exactly when its words are symmetric |
| `StyleGate.CleanStyleMirrors` | packages/eslint-plugin-mohalla/rules/no-physical-properties.js:6-16 | a style without reports mirrors iff every place is decided alike: by one entry with symmetric words, or, where `borderLeftStyle` or `borderRightStyle` decides one side, by entries for both sides that write the same |
| `StyleGate.GateVerdict` | packages/eslint-plugin-mohalla/rules/no-physical-properties.js:6-16 | for every style, reports carried out in any order: none is left; the left-to-right style is kept iff nothing effective sits below a reported key and winners are kept wherever keys collide; the result mirrors iff every place, once fixed, is decided alike |
| `StyleGate.GateDeliversMirroredStyle` | packages/eslint-plugin-mohalla/rules/no-physical-properties.js:6-16 | so over the rule's vocabulary, without lopsided shorthands and colliding keys: after the reports are carried out the left-to-right style is unchanged and the right-to-left style is its mirror image |
| `StyleGate.FourSidedMarginPassesUnmirrored` | packages/eslint-plugin-mohalla/rules/no-physical-properties.js:67-85 | a four-sided shorthand passes the rule and does not mirror |
| `StyleGate.BorderSideStylePassesUnmirrored` | packages/eslint-plugin-mohalla/rules/no-physical-properties.js:18-35 | `borderLeftStyle` is missing from the table: it passes and does not mirror |
| `StyleGate.StyleNamedLeftIsFlagged` | packages/eslint-plugin-mohalla/rules/no-physical-properties.js:59-74 | a style named `left` is reported, and obeying the report changes what the tree means |
| `TransactionSafety.RunsRefineAtomicDatabase` | apps/api/src/database/database.service.ts:59-76 | in every interleaving the durable log is that of a database that appends each committed call's own writes in one piece |
| `TransactionSafety.OutcomeDecidesDurability` | apps/api/src/database/database.service.ts:61-75 | returned means durable iff no statement failed or nothing was written; thrown before COMMIT means nothing durable; thrown by COMMIT all or nothing; the error is the original one |
| `TransactionSafety.UncommittedWritesAreInvisible` | apps/api/src/database/database.service.ts:62-64 | nothing of a call is durable before its COMMIT |
| `TransactionSafety.QueryDecidesDurability` | apps/api/src/database/database.service.ts:45-50 | a single query that returned has its one write durable; one that threw left nothing, or exactly that write; it never ran inside another call's transaction |
| `TransactionSafety.PoolIsSafe` | apps/api/src/database/database.service.ts:27-32 | never more clients than the maximum; idle clients are alive and have no open transaction; a finished call released exactly what it acquired, at most one client; with all calls finished none is checked out |
| `TransactionSafety.WaitingCallCanBeServed` | apps/api/src/database/database.service.ts:53-58 | no path leaks a client: once nobody holds one, a waiting call can be served |
| `TransactionSafety.SwallowedFailureLosesTheWrite` | apps/api/src/database/database.service.ts:62-65 | a run in which `fn` swallows a failed statement, the call returns, and its write is not durable |
| `TransactionSafety.LostConnectionLeavesNothing` | apps/api/src/database/database.service.ts:61-75 | a run whose connection is lost under the transaction: COMMIT's error is thrown, ROLLBACK's is dropped, nothing is durable |
| `TransactionSafety.LostAcknowledgementKeepsTheWrite` | apps/api/src/database/database.service.ts:45-50 | a run in which a query throws although the server has committed its write |
| `TransactionSafety.StepKeepsPool` | apps/api/src/database/database.service.ts:59-76 | each step keeps the pool's invariant: bound, clean idle clients, every busy client held by exactly one call |
| `TransactionSafety.StepKeepsCall` | apps/api/src/database/database.service.ts:59-76 | each step keeps every call's invariant: its session's open transaction is exactly what that call wrote, its history fits its stage |
| `DatabaseService.Service.WithTransaction` | apps/api/src/database/database.service.ts:59-76 | the method, with other calls running at each `await`: returned means connect, BEGIN and COMMIT went well, `fn` returned and caught every failure; else the first error of connect, BEGIN, `fn`'s uncaught statements, `fn` itself and COMMIT is thrown, and never ROLLBACK's; a durable transaction is `fn`'s writes one by one; the client is released once |
| `DatabaseService.FnThrowsFirstUncaught` | apps/api/src/database/database.service.ts:63 | what leaves `fn` is the error of its first failing statement that it does not catch, else its own error, else nothing |
| `DatabaseService.Service.Attempt` | apps/api/src/database/database.service.ts:61-65 | the `try` block ends committed with all of `fn`'s writes sent, or with the first error of BEGIN, `fn` and COMMIT to roll back for |
| `DatabaseService.Service.Rollback` | apps/api/src/database/database.service.ts:66-72 | ROLLBACK's own error is dropped and the pending one is kept |
| `DatabaseService.Service.PoolQuery` | apps/api/src/database/database.service.ts:45-50 | a query that returns was sent and has its write durable; one that throws, throws its own error or the connect's and leaves nothing, or that write if the connection was lost after the server had committed it; the client is given back |
| `DatabaseService.OthersLeaveAlone` | apps/api/src/database/database.service.ts:53-58 | whatever other calls do meanwhile, a suspended call's stage, client and open transaction stay as they were unless a connection is lost |
| `WorkerQueue.Worker.Handle` | apps/worker/src/main.ts:53-93 | the handler throws iff `failUntilAttempt` is given and above the attempt, logs the one line for that attempt, and rethrows exactly then |
| `WorkerSafety.JobsAreConserved` | apps/worker/src/main.ts:34-49 | on every run an accepted job is in exactly one of waiting, active, completed and failed, payload unchanged, and the queue's retry count is the true number of deliveries |
| `WorkerSafety.DeadLettersAreTheFailedJobs` | apps/worker/src/main.ts:34-38 | the dead-letter queue holds one copy of each failed job's payload and nothing else |
| `WorkerSafety.EveryJobSettles` | apps/worker/src/main.ts:43-49 | each job is delivered at most limit + 1 times, its steps are bounded, and until it is completed or dead it has a step other than expiry to take |
| `WorkerSafety.PredictionAgreesIff` | apps/worker/src/main.ts:57-74 | the handler's prediction is the queue's decision iff the retry count was delivered, or retries are left, or none are configured |
| `WorkerSafety.LogTellsTheTruth` | apps/worker/src/main.ts:56-91 | with retry counts delivered, and whatever expires, a job's log is one line for each delivery that reached the handler, with that delivery's true number: completed from the first success on, before it will-retry up to the limit and then dead |
| `WorkerSafety.LoggedDeadIff` | apps/worker/src/main.ts:57-90 | on every run, with expiry and with or without retry counts: a job is logged dead iff delivery limit + 1 reached the handler and threw, and it came with its retry count or there are no retries |
| `WorkerSafety.DeadLineIsNeverFalse` | apps/worker/src/main.ts:76-90 | on every run, a job logged dead is in the dead-letter queue, or its last delivery has thrown and can only go there |
| `WorkerSafety.DeadLettersAreLoggedIff` | apps/worker/src/main.ts:34-90 | a settled job that never expired is logged dead iff the queue dead-letters it and its last delivery came with its retry count or there are no retries |
| `WorkerSafety.FirstSuccess` | apps/worker/src/jobs/foundation-health.job.ts:57-62 | the first success is attempt 1 without `failUntilAttempt`, else the least attempt that reaches it, for any number given |
| `WorkerSafety.ThrowsIffBeforeFirstSuccess` | apps/worker/src/jobs/foundation-health.job.ts:57-62 | a job throws on an attempt iff it comes before the first success |
| `WorkerSafety.DeliveryThrewIff` | apps/worker/src/main.ts:57-90 | with retry counts delivered, and whatever expires, a handled delivery threw iff its number is below the first success, and a job only completes on one that is not |
| `WorkerSafety.SettledJobLog` | apps/worker/src/main.ts:51-94 | without expiry: will-retry lines for attempts 1 to n - 1, then one completed or dead line at n, and dead exactly for the jobs the queue dead-letters |
| `WorkerSafety.WithoutRetryCountsNothingIsLoggedDead` | apps/worker/src/main.ts:56-59 | if no job carries its retry count, every line says attempt 1, no job is logged dead, and a job that needs a second attempt never completes |
| `WorkerSafety.ExpiredJobDiesSilently` | apps/worker/src/main.ts:76-79 | a run in which a job expires into the dead-letter queue without a line in the log |
| `WorkerSafety.UncountedJobDiesUnannounced` | apps/worker/src/main.ts:56-74 | a run without retry counts in which a job is dead-lettered and every line of its log says it will be retried |
| `AuditProtection.ArmedTableOnlyGrows` | packages/db/migrations/0002_foundation_audit_log.js:92-113 | while the triggers exist and their function raises, no run of statements by any roles, owner included, that does not rewrite or drop the table, whatever is granted, changes or removes a row; ids stay unique and the actor check holds |
| `AuditProtection.RuntimeRolesOnlyAppend` | packages/db/migrations/0002_foundation_audit_log.js:78-89 | over every run of statements by the runtime roles, refused or not, rows only grow, each actor is USER, ADMIN or SYSTEM, and the catalogue is unchanged, triggers or not |
| `AuditProtection.RuntimeInsertAppendsIff` | packages/db/migrations/0002_foundation_audit_log.js:31-61 | a runtime role's INSERT is accepted iff no required column is NULL, the actors are USER, ADMIN or SYSTEM and the ids are new and distinct; its rows then stand behind the old ones value by value |
| `AuditProtection.RuntimeRunsRefineGrowOnlyLog` | packages/db/migrations/0002_foundation_audit_log.js:78-89 | to the runtime roles the table is a log that can only append: the same rows after every run of statements |
| `AuditProtection.OwnerCanDisarm` | packages/db/migrations/0002_foundation_audit_log.js:16-19 | dropping or disabling any one trigger, or replacing their function, lets the owner's next statement destroy or alter rows |
| `AuditProtection.OwnerCanRewrite` | packages/db/migrations/0002_foundation_audit_log.js:16-19 | altering or dropping the table gets past all triggers at once |
| `AuditProtection.PublicPrivilegeOpensTheTable` | packages/db/migrations/0002_foundation_audit_log.js:88 | why PUBLIC is revoked from: UPDATE left to PUBLIC lets a runtime role alter rows unless the trigger refuses |
| `AuditProtection.UpsertIsInsertOrRefused` | packages/db/migrations/0002_foundation_audit_log.js:92-113 | while the triggers fire, an upsert is an insert if no id conflicts and is refused if one does |
| `AuditMigration.Migration.SetPrivileges` | packages/db/migrations/0002_foundation_audit_log.js:78-89 | the five GRANT and REVOKE statements, from any grants, leave the stated ones |
| `AuditMigration.Migration.SetTriggers` | packages/db/migrations/0002_foundation_audit_log.js:92-113 | the function and the three triggers, on a table without any |
| `AuditMigration.Migration.Up` | packages/db/migrations/0002_foundation_audit_log.js:30-114 | `up` creates the table, privileges, function and triggers, or stops at once if the table exists |
| `AuditMigration.Migration.Down` | packages/db/migrations/0002_foundation_audit_log.js:116-124 | `down` succeeds statement by statement and leaves none of them |
| `AuditMigration.UpProtects` | packages/db/migrations/0002_foundation_audit_log.js:78-113 | from any default privileges, after `up` each runtime role has exactly SELECT and INSERT, PUBLIC nothing, other roles what they had, and all triggers fire |
| `AuditMigration.SecondRevokeIsRedundant` | packages/db/migrations/0002_foundation_audit_log.js:79-87 | the second REVOKE changes nothing after the first, and alone would leave REFERENCES and TRIGGER |
| `AuditMigration.RemovalsSucceedIff` | packages/db/migrations/0002_foundation_audit_log.js:116-124 | the statements of `down` in any order and number: none is refused iff the table is dropped at most once and the function only after all triggers or the table |
| `AuditMigration.AuditLogIsAppendOnly` | packages/db/migrations/0002_foundation_audit_log.js:4-14 | from the migration on, whatever the runtime roles send, every accepted row stays as it was |
| `AuditMigration.UpThenDown` | packages/db/migrations/0002_foundation_audit_log.js:116-124 | `down` after `up`, with any runtime statements in between, restores the catalogue |
| `CorrelationContext.LogFollowsAncestry` | apps/api/src/common/correlation/correlation.context.ts:16-25 | under every interleaving the id on each line is that of the innermost `run` around the emitting continuation or its ancestors, and none outside any |
| `CorrelationContext.LineInsideRun` | apps/api/src/common/correlation/correlation.context.ts:18-25 | inside a `run`, whatever else goes on, a line carries exactly that `run`'s id and its own message |
| `CorrelationContext.ContinuationKeepsId` | apps/api/src/common/correlation/correlation.context.ts:16-25 | across an `await` a continuation logs under the id it was created under |
| `CorrelationContext.TwoRequestsInterleave` | apps/api/src/common/correlation/correlation.context.ts:16-25 | a run of two requests whose continuations resume in the other order, each line under its own id |
| `CorrelationContext.LeavingRestores` | apps/api/src/common/correlation/correlation.context.ts:18-20 | leaving a `run` puts the enclosing id back, whatever ran inside |
| `CorrelationContext.RequestsDoNotInterfere` | apps/api/src/common/correlation/correlation.context.ts:16-25 | a request logs, under any interleaving, exactly what it logs when served alone |
| `CorrelationContext.NoForeignId` | apps/api/src/common/logging/structured.logger.ts:35-36 | a line carries the id of the request whose tree emitted it, or none |
| `CorrelationContext.Storage.RunWithCorrelation` | apps/api/src/common/correlation/correlation.context.ts:18-20 | the synchronous half: the body's lines carry the innermost id, and the store is as before whether the body returns or throws |
| `CorrelationContext.TranscriptByFirst` | apps/api/src/common/correlation/correlation.context.ts:18-20 | what a body logs, by its first action: a line with the id around it, a nested `run` under its own id, nothing after a throw |
| `RequestTrace.Exchange.Use` | apps/api/src/common/correlation/correlation.middleware.ts:18-30 | response header, request field and context get one and the same id: the supplied one, or the first of several, if it is a UUID, else the random one |
| `RequestTrace.Exchange.Emit` | apps/api/src/common/logging/structured.logger.ts:25-41 | below the level nothing, otherwise one line whose optional fields are present exactly when truthy |
| `RequestTrace.Exchange.Catch` | apps/api/src/common/errors/all-exceptions.filter.ts:31-98 | case by case: status, code, message, details and id of the reply, exactly one line with the stack from 500 on, and none below |
| `RequestTrace.ServerErrorsDifferByCodeOnly` | apps/api/src/common/errors/all-exceptions.filter.ts:53-85 | from status 500 on, two exceptions with one status give the same envelope iff they bring along the same code, whatever their messages, details and stacks; the code is not redacted |
| `RequestTrace.CodeShipsWithServerErrors` | apps/api/src/common/errors/all-exceptions.filter.ts:53-85 | a concrete exception whose code reaches the client with status 500 |
| `RequestTrace.Receive` | apps/admin/lib/api-client.ts:72-93 | what the client throws for a failed reply, envelope or not, header readable or not |
| `RequestTrace.DigitsDenote` | apps/admin/lib/api-client.ts:74 | the status in the message is its decimal numeral |
| `RequestTrace.NewIdIsCryptosOrUuid` | apps/admin/lib/api-client.ts:29-39 | the id sent is Web Crypto's if there is one, else a UUID that ends in the clock's digits |
| `RequestTrace.FailedRequest` | apps/admin/lib/api-client.ts:53-93 | end to end: header, request field, envelope and the one log line agree; the error reported carries the server's id iff the id sent was a UUID or the header is readable; status, code and message come back as written |
| `ServerRuns.FailureCarriesItsOwnIdIff` | apps/api/src/common/errors/all-exceptions.filter.ts:38-42 | with any number of requests interleaved, and any store put under any continuation: a failure's envelope carries the id its own request was given iff the filter found that id in the store, or none |
| `ServerRuns.FailureIsLoggedOnceIff` | apps/api/src/common/errors/all-exceptions.filter.ts:72-82 | on every run a failure is logged exactly once, with its stack, iff its status is 500 or more |
| `ServerRuns.FailuresCarryTheirOwnId` | apps/api/src/common/errors/all-exceptions.filter.ts:38-42 | so each failure of a request carries its own id, a UUID, and its log line that id or none, as long as no foreign id was put under its own continuations, whatever happened to other requests and wherever its store was lost |
| `ServerRuns.ForeignStoreMislabelsFailure` | apps/api/src/common/errors/all-exceptions.filter.ts:38-42 | a run in which a foreign store makes the envelope carry a foreign id although the request's own field is right |
| `ServerRuns.LinesCarryTheirOwnId` | apps/api/src/common/logging/structured.logger.ts:35-36 | in the same runs every line of such a request carries its id, or none |
| `RequestTrace.AssignedIdIsUuid` | apps/api/src/common/correlation/correlation.middleware.ts:19-22 | the assigned id is a UUID whatever was supplied |
| `RequestTrace.FallbackIdIsKept` | apps/admin/lib/api-client.ts:29-39 | the middleware keeps the clock-made id |
| `CorrelationId.ValidIffGroups` | packages/contracts/src/correlation.ts:16-17 | an id is valid iff it is five groups of 8, 4, 4, 4 and 12 hex digits with dashes between |
| `CorrelationId.FallbackIdIsUuid` | apps/admin/lib/api-client.ts:38 | for every clock reading the id has the fixed prefix, matches the pattern, with version 4 and the RFC variant, and its last 12 digits denote the reading modulo 16^12 |
| `CorrelationId.FallbackIdsCollideIff` | apps/admin/lib/api-client.ts:38 | two readings give one id iff they are congruent modulo 16^12 |
| `GradlewArguments.Parameters.ConvertAll` | apps/android/gradlew:178-198 | the rotation ends with each argument converted once and in its original position |
| `GradlewArguments.EvalOfPipeline` | apps/android/gradlew:241-246 | the `eval` leaves the one-line tokens that are not empty, then the old parameters untouched |
| `GradlewArguments.EvalOfAnyTokens` | apps/android/gradlew:237-246 | for tokens with newlines too: what is left are their lines that are not empty, then the old parameters |
| `GradlewArguments.EscapeThenEvalIsIdentityIff` | apps/android/gradlew:237-246 | for every list of tokens, splitting what was escaped gives the tokens and the old parameters back iff no token is empty or holds a newline |
| `GradlewArguments.EveryTokenSurvivesIffSafe` | apps/android/gradlew:244 | every list of non-empty one-line tokens survives iff the class `sed` leaves alone holds no special character and no blank |
| `GradlewArguments.PlainWrittenOut` | apps/android/gradlew:244 | the characters that `sed` leaves alone, written out |
| `GradlewArguments.SpecialWrittenOut` | apps/android/gradlew:234-246 | the characters that the shell takes for itself, written out |
| `OriginList.ParseUndoesJoin` | apps/api/src/config/env.ts:40-48 | parsing undoes comma-joining for every list of non-empty, trimmed, comma-free entries |
| `OriginList.JoinParsesBackIff` | apps/api/src/config/env.ts:40-48 | a list survives joining and parsing iff each element is such an entry |
| `OriginList.ParseOfJoined` | apps/api/src/realtime/foundation.gateway.ts:36-39 | parsing two texts joined by a comma is the concatenation of the two parses |
| `OriginList.ParseIsStable` | apps/api/src/realtime/foundation.gateway.ts:36-39 | the parser returns entries only, and printing and parsing them again changes nothing |
| `OriginList.ParseIgnoresSpaces` | apps/api/src/config/env.ts:40-48 | white space around an entry does not matter, and white space alone is no entry |
| `OriginList.SpacesWrittenOut` | apps/api/src/config/env.ts:46 | the characters that `trim` removes, written out |
| `Urls.PlainJunction` | apps/admin/lib/api-client.ts:47-51 | without slashes at the junction the URL is the base, a slash and the path |
| `Urls.JunctionSlashesDoNotMatter` | apps/admin/lib/api-client.ts:47-51 | no number of slashes at the junction changes the URL, nor does the environment's own stripping; with `PlainJunction` this decides every URL |
| `Urls.OneSlashAtJunction` | apps/admin/lib/api-client.ts:48-50 | exactly one slash at the junction |
| `Urls.JoiningComposes` | apps/admin/lib/api-client.ts:47-51 | joining twice is joining once with the joined stripped paths, for every two paths and every base |

## Left out

- Keys that look like array indices, which JavaScript moves to the front of an object: no style property is spelt so.
- Styles with computed keys: what the rule reports of them is proved, what they mean is not said.
- Shorthand values with functions or slashes: words are split at blanks.
- Expressions inside values and spreads are opaque unless they are object literals; conditional spreads are not looked into.
- The 17 module shells, Nest wiring, Socket.IO transport, Swagger and design tokens: no behaviour to model.
- `DatabaseService.ping` and `onApplicationShutdown`, the worker's heartbeat and its `shutdown` flag: true, but easy.
- The result value of the health job and its latency, backoff timing, clocks and JSON formatting: only whether the job throws decides anything.
- Statements of one `fn` sent without awaiting them, and a `fn` that sends its own COMMIT or ROLLBACK.
- A handler still running when its delivery expires: the handler has no `await`, so the model runs it in one step.
- ArmedTableOnlyGrows: does not range over the owner's remaining ways around the triggers (rewrite rules, further triggers, renaming, inheritance, superuser settings), because PostgreSQL has no closed list of them; `OwnerCanDisarm` and `OwnerCanRewrite` show that the triggers are no boundary in any case.
- Column privileges, role membership, MERGE and `ON CONFLICT DO NOTHING`, and multi-statement transactions around audit statements.
- `xargs` quote removal, and `echo` reading `-n` as an option: the model starts from the tokens `xargs` prints.
- Which arguments the Cygwin branch of `gradlew` converts: the rotation is proved for every conversion.
- The symlink loop of `gradlew`: it depends on the file system and need not terminate.
- The path and status inside the failure line's message, and the filter's rethrow for a context that is not HTTP.
- An error body whose `error` object lacks `code` or `message`.
- zod's range checks in the environments; the pool bound is only used as at least 1.
