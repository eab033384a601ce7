# Verified models of moa's export, validation, locking, compaction and analytics logic

This project models the parts of moa whose correctness depends on several operations agreeing with
each other, and proves what they promise together. `dafny verify dfyconfig.toml` checks everything.

| files | what they model |
|---|---|
| `ExportModel`, `ExportInvariant`, `ExportEnvironment`, `ExportSteps`, `ExportGuards`, `ExportTheorems` | the fenced export of execution runs and tasks from Postgres to ClickHouse, as a state machine whose steps are its durable effects, with writers, table resets and crashes between any two of them |
| `ExportLoops`, `ExportDriver` | the exporter's own start-up, tick, page and stage loops, run against an arbitrary environment and an arbitrary clock |
| `PlanModel`, `PlanGraph`, `PlanReferences`, `PlanValidation`, `PlanTheorems`, `PlanAcceptance`, `PlanReports` | the execution-plan validator, what an empty report is worth and what any other report says |
| `JsonPointer`, `Compensation`, `CompensationInput` | compensation input mappings: their validation, and the object the interpreter builds from them |
| `ArtifactReference`, `ReferenceSchema` | artifact references, their parser, and the JSON Schema published for them |
| `AgentModel`, `AgentDependencies`, `ConnectorBindings`, `RevisionLock`, `LockContents`, `LockReordering` | agent revision locks: minting from the registry, replaying without it, and what a lock holds |
| `Ddl`, `DdlParser` | reading the declared columns back out of table DDL |
| `Compaction`, `CompactionTheorems` | cumulative checkpoints of a session log, and the watermark gate in front of them |
| `QueryModel`, `QueryValidation`, `QueryCompiler`, `QueryStatement`, `QueryRendering` | analytics query validation and compilation, down to the statement's text |
| `QueryMeaning`, `QueryReading`, `QuerySelection`, `QueryWhere`, `QueryResults` | what that text means: a reader of its clauses, the rows a filter asks for, and that the two agree |
| `StreamExport` | the timestamp-cursored export of the event stream, and the reader that drops its duplicates |
| `Prelude`, `Text`, `TextOrder`, `TextMatching`, `Sequences`, `SortedLists` | shared values, string searching, `LIKE` patterns and sorting |

## What is assumed of the surroundings

- One exporter is active at a time: the lease at `crates/moa-analytics-export/src/lib.rs:357-367` is a step only one process can take.
- A source write draws its sequence number from one increasing counter while holding a shared advisory lock, and fences and new generations are taken under the exclusive lock, when no such write is open (`crates/moa-migrations/migrations/postgres/V000028__execution_analytics.sql:1414-1454`). Both are written out as guards of the steps. Nothing is assumed about the order in which writes commit.
- A batch insert into ClickHouse is atomic, and a statement takes effect or does not. Rows may be deleted, and their ids used again.
- A dropped and recreated ClickHouse table or database gets an identity that was never used before.
- The clock is arbitrary: it may stand still or go back. A write to the upgrade table that is refused because it went back is an outcome of the step that tries it.
- The registry returns revisions of the kind and name it was asked for. It may change between any two loads, except where a lemma says `Static`.
- Hashes are arbitrary functions; no collision freedom is used.
- A row of the event stream stays as it is once it is there. Rows may come to be visible in any order.
- A session has one compactor: no checkpoint is written between another compaction's read and its write. Entries may be.
- ClickHouse identities are not nil, which schema validation checks before start-up (`crates/moa-analytics-export/src/schema.rs:109-113` and `327-331`).
- The fields named as default time fields of a dataset are timestamps. Where a statement's text is read, the catalog's own text holds no placeholder character (`PlainCatalog`).
- A database compares and spells values in its own way, which is arbitrary here (`Database`), with three exceptions: instants compare as numbers and are read from text as validation reads them; folding case leaves `%`, `_` and the backslash alone where a pattern is compared with a literal search; and a clause over a missing value, or over a bound text that does not convert, is not true.

## Claims of the design that do not hold as stated

Each has a concrete input and the exact condition under which the claim holds.

- A plan that validates may still read a conditional node: the scope check looks at neither `when` nor the expiry output of a wait (`ConditionMayReadConditional`, `ExpiryMayReadConditional`). It reads none exactly when those do not (`ConditionalReadsExactly`).
- The validator accepts a compensation mapping onto `/`, which the interpreter refuses (`EmptyFieldNameIsRefused`). An accepted mapping can be placed exactly when no target is `/` (`ValidatedMappingIsPlaceable`).
- A tool that the policy both lists and denies stays locked (`ListedDeniedToolIsLocked`). No denied tool is locked exactly when the policy lists none (`DeniedToolsStayOut`).
- A closed watermark gate may hide a due compaction (`VerbatimTurnIsMissed`). It is safe for every configuration exactly while no more summary lines are waiting than events it counts (`GateSafeExactly`).
- Validation accepts ordering by the default name of an aliased measure, which the compiler cannot resolve (`AliasedCountIsUnresolved`). An accepted order field fails to resolve exactly when it is the default name of an aliased measure and nothing selected is called that (`SelectedIsLostExactly`, `AcceptedOrdersResolve`).
- The operators that search text ask whether a field contains, starts with or ends with the supplied text (`crates/moa-wire/src/analytics.rs:128-133`). On Postgres the text is matched as a pattern without escaping, so on a text with `%`, `_` or a backslash it finds other rows than the same search on ClickHouse does (`WildcardSearch`). It finds exactly the rows that hold the text if and only if the text has none of these (`SearchIsLiteralExactly`).
- Export versions are made to advance under clock skew, but the write that stores them is refused when the clock has gone back (`LateClaimIsRefused`, `ClockGoingBackEndsStartUp`). A write to the upgrade table goes through exactly when its clock is not behind the stored one (`WritesAreRefusedExactly`), and start-up, bootstrap and passes fail on the clock exactly at the first write that is.
- The cursor of the event stream rewinds by an overlap so that boundary rows are read again. A row that comes while a pass is reading, dated less than the overlap behind the newest row, can still be missed for good (`LateRowIsNeverCopied`). A completed pass copies a row that was there when it began exactly if it was copied before or is dated no earlier than the rewound cursor (`CompletedPassExactly`); if rows come in order, none since the epoch is lost (`NothingIsLost`).
- The deduplicated count of a tenant's exported events misses rows dated before the epoch, where the first pass starts (`RowBeforeTheEpochIsMissed`). After a completed pass during which no row came it is exact if and only if each of the tenant's rows that the pass does not read had been copied before (`CompletedPassCountsExactly`).

The comment at `crates/moa-brain/src/compaction.rs:22-23` promises the fourth unconditionally; the model follows the code.

## Model

| member | source | states |
|---|---|---|
| `ExportModel.Later` | crates/moa-analytics-export/src/lib.rs:93-106 | the later of two positions: no earlier than either, and one of them; the sequence decides and the id breaks ties |
| `ExportModel.Greatest` | crates/moa-analytics-export/src/lib.rs:533-541 | the highest committed position of a table, or zero: every row is at or below it, and unless zero it is some row's |
| `ExportModel.MonotonicVersion` | crates/moa-analytics-export/src/lib.rs:1151-1166 | the least version that is not below the clock and exceeds the floor; it fails exactly when the floor cannot grow |
| `ExportModel.MaxVersion` | crates/moa-analytics-export/src/lib.rs:543-570 | the highest version any live copy carries, absent exactly when there is no copy |
| `ExportModel.ResetStartsNewGeneration` | crates/moa-analytics-export/src/lib.rs:1168-1200 | a new generation starts exactly when both tables of the same database were replaced, and the old one continues exactly when nothing was |
| `ExportSteps.PageIsPrefix` | crates/moa-analytics-export/src/dims.rs:46-49 | a page is a beginning of the window between cursor and fence in position order: its rows are current, none at or below its last one is missing, and it is empty exactly when the window is |
| `ExportSteps.PageIsSorted` | crates/moa-analytics-export/src/dims.rs:46-49 | the rows of a page are in strictly ascending position order |
| `ExportSteps.ShortPageIsFull` | crates/moa-analytics-export/src/dims.rs:46-49 | a page shorter than its limit holds every row of the window |
| `ExportEnvironment.EnvDisturbs` | crates/moa-migrations/migrations/postgres/V000028__execution_analytics.sql:1435-1445 | whatever writers, deletes and resets do, sequences only grow, committed rows only move to later ones and no exporter table changes |
| `ExportEnvironment.TransactionsAreAtomic` | crates/moa-migrations/migrations/postgres/V000028__execution_analytics.sql:1414-1454 | a commit publishes all drafts of one transaction and nothing else, and an abort none of them |
| `ExportEnvironment.ResetEmptiesOneTable` | crates/moa-analytics-export/src/lib.rs:1168-1200 | replacing a table loses exactly its own copies and changes exactly its own identity, to one never used before |
| `ExportEnvironment.WindowShrinks` | crates/moa-analytics-export/src/dims.rs:46-49 | a write can only take a row out of a sealed window: what is left of it are unchanged rows that were in it |
| `ExportEnvironment.EnvKeepsInv` | crates/moa-migrations/migrations/postgres/V000028__execution_analytics.sql:1435-1454 | every environment step keeps the invariant, whatever the exporter is in the middle of |
| `ExportSteps.InsertKeepsOrder` | crates/moa-analytics-export/src/lib.rs:867-900 | inserting a page keeps every copy ever inserted ordered: a later version never carries an older row |
| `ExportSteps.InsertedWins` | crates/moa-analytics-export/src/lib.rs:951-983 | each row of a page inserted at the claimed version becomes its key's winning copy |
| `ExportSteps.InsertKeepsMirror` | crates/moa-analytics-export/src/lib.rs:867-900 | inserting a page leaves what was mirrored at or below the cursor mirrored |
| `ExportSteps.InsertExtendsMirror` | crates/moa-analytics-export/src/lib.rs:867-900 | and mirrors everything up to the last row of the page |
| `ExportSteps.ExporterKeepsInv` | crates/moa-analytics-export/src/lib.rs:387-1036 | every durable step of the exporter keeps the invariant, as does a crash |
| `ExportTheorems.RunStartsAnywhere` | crates/moa-analytics-export/src/lib.rs:455-531 | a run can start from any committed rows and any legacy copies |
| `ExportTheorems.RunKeepsInv` | crates/moa-analytics-export/src/lib.rs:387-1036 | the invariant holds in every state of every interleaving of exporter steps, writes, resets and crashes |
| `ExportTheorems.MirroredCollapses` | crates/moa-analytics-export/src/lib.rs:796-1036 | a mirrored row is what a reader that keeps the highest version per key sees |
| `ExportTheorems.CursorIsMirrored` | crates/moa-analytics-export/src/lib.rs:796-1036 | in every run, while the newest generation is complete and bound to the live tables, each row at or below a cursor has its current content as its highest-version copy |
| `ExportTheorems.VersionsFollowTheSource` | crates/moa-analytics-export/src/lib.rs:645-721 | for any two copies of a key inserted anywhere in a run, a higher version never carries an older source sequence and equal versions are equal copies |
| `ExportTheorems.StagesAdvanceInOrder` | crates/moa-migrations/migrations/postgres/V000028__execution_analytics.sql:1614-1800 | no row that the constraints or the trigger on the upgrade table would refuse is ever stored, in any run: identities, creation and completion times and fences never change, stages move one at a time, pages within their fence, versions and times only up, and a new generation has its own tables and a higher version |
| `ExportTheorems.WritesAreRefusedExactly` | crates/moa-migrations/migrations/postgres/V000028__execution_analytics.sql:1650-1793 | in every run, each update an exporter step tries is allowed exactly when its clock is not behind the stored time; it is then the whole change to the table, and otherwise nothing changes and the exporter is back at its next attempt |
| `ExportTheorems.LateClaimIsRefused` | crates/moa-analytics-export/src/lib.rs:951-983 | a claim at time 9 that the version rule grants and the trigger refuses, because the row was last written at time 10; one at time 10 succeeds |
| `ExportTheorems.ClockGoingBackEndsStartUp` | crates/moa-analytics-export/src/lib.rs:572-596 | the smallest run with a refused write |
| `ExportGuards.AllowedExactly` | crates/moa-migrations/migrations/postgres/V000028__execution_analytics.sql:1784-1787 | for every update the exporter can try in a state that satisfies the invariant, the constraints and the trigger come down to the clock alone |
| `ExportTheorems.OnlyTheLastStageCompletes` | crates/moa-analytics-export/src/lib.rs:751-794 | only a tick at the last stage, for the generation's own tables, completes a bootstrap |
| `ExportTheorems.CompletionIsMirrored` | crates/moa-analytics-export/src/lib.rs:751-794 | when a bootstrap completes, both tables are mirrored up to the fences it began with and the cursors stand there |
| `ExportTheorems.StagesSetCursors` | crates/moa-analytics-export/src/lib.rs:598-643 | in every run, the reset stage puts both cursors and pages at zero without a fence, completion puts the cursors at the bootstrap fences without a fence, and no other stage touches them |
| `ExportTheorems.OnlyPreparingFences` | crates/moa-analytics-export/src/lib.rs:832-865 | in every run, no step but preparing a pass sets a fence |
| `ExportTheorems.ExporterTouchesOnly` | crates/moa-analytics-export/src/lib.rs:387-1036 | an exporter step never touches the source, inserts copies only with a page, moves cursors only in a pass or at the two stages that set them, and writes generations only where it records a stage, a page or a claim |
| `ExportTheorems.PassesWaitForBootstrap` | crates/moa-analytics-export/src/lib.rs:796-830 | in every run a normal pass is under way only while the newest generation is complete |
| `ExportTheorems.PairedResetOpensOneGeneration` | crates/moa-analytics-export/src/lib.rs:455-531 | in every run, initialisation adds a generation exactly when there is none or both tables of the same database were replaced, and neither the versions nor the generation numbers are used up; it is fenced at the greatest committed positions, and its version is the least that is not behind the clock and exceeds every earlier claim and every live copy; it gives up exactly when it should have added one and could not, or when the identities changed in any other way |
| `ExportTheorems.GenerationsAreDistinct` | crates/moa-analytics-export/src/lib.rs:1168-1200 | no two generations of a run share a table, and a later one's version exceeds every version the earlier one claimed |
| `ExportTheorems.CursorNeverMovesBack` | crates/moa-analytics-export/src/lib.rs:985-1002 | no step of a run moves a cursor back within a generation once its cursors are reset |
| `ExportTheorems.FencesAreKept` | crates/moa-analytics-export/src/lib.rs:832-865 | no step of a run replaces the active fence of a generation whose cursors are reset: it stays until the cursor has reached it |
| `ExportTheorems.PreparingFencesBoth` | crates/moa-analytics-export/src/lib.rs:796-865 | preparing a pass leaves both cursors where they are and fences both tables at one moment without open transactions; an active fence is kept, and a new one is the later of the cursor and the greatest committed position |
| `ExportTheorems.QuietRunStaysFenced` | crates/moa-analytics-export/src/lib.rs:832-865 | after a fence is taken, without further commits every row stays at or below it, in any interleaving |
| `ExportTheorems.QuietPassMirrorsSource` | crates/moa-analytics-export/src/lib.rs:1004-1036 | when such a pass has completed, the collapsed copies equal the source table, up to deleted rows |
| `ExportTheorems.IdleTableIsMirrored` | crates/moa-analytics-export/src/lib.rs:1004-1036 | and whenever no row lies beyond the cursor of an idle table |
| `ExportLoops.AdvanceShrinks` | crates/moa-analytics-export/src/lib.rs:867-900 | moving past the last row of a page strictly shrinks the window, however busy writers are |
| `ExportLoops.TimelyThen` | crates/moa-migrations/migrations/postgres/V000028__execution_analytics.sql:1784-1787 | writes are timely as a whole exactly when they are up to any point and from there on |
| `ExportDriver.Exporter.Interfere` | crates/moa-migrations/migrations/postgres/V000028__execution_analytics.sql:1435-1454 | any list of environment steps keeps the invariant and can only shrink a sealed window |
| `ExportDriver.Exporter.ReadPage` | crates/moa-analytics-export/src/dims.rs:258-292 | the page read is a prefix of what the window then holds, and an empty one ends the pass |
| `ExportDriver.Exporter.ClaimVersion` | crates/moa-analytics-export/src/lib.rs:951-983 | fails with an exhausted version range exactly at its end and with a late clock exactly when the clock is behind the stored time; otherwise the least version above the floor is claimed, only floor and time change, and page and invariant are kept |
| `ExportDriver.Exporter.InsertRows` | crates/moa-analytics-export/src/lib.rs:1101-1121 | the page lands with the invariant kept, after which its last position is known to be mirrored |
| `ExportDriver.Exporter.Advance` | crates/moa-analytics-export/src/lib.rs:985-1002 | the cursor of this table alone moves to the last inserted row, under the same fence |
| `ExportDriver.Exporter.Complete` | crates/moa-analytics-export/src/lib.rs:1004-1036 | the fence becomes the cursor and is cleared, the other table is untouched, and everything up to it is mirrored |
| `ExportDriver.Exporter.ExportPage` | crates/moa-analytics-export/src/lib.rs:867-900 | one turn of the loop drains the window, strictly shrinks it, or fails on its claim, with a late clock exactly when one of its writes was behind the stored time |
| `ExportDriver.Exporter.ExportPass` | crates/moa-analytics-export/src/lib.rs:867-935 | a pass terminates under any environment and clock; it fails on the clock exactly when one of its writes was late, and otherwise, unless the version range is exhausted, ends at the fence it started with, has mirrored everything up to it and leaves the other table alone |
| `ExportDriver.Exporter.DrainPass` | crates/moa-analytics-export/src/lib.rs:867-900 | the page loop ends with the window drained under the same fence, or on a refused claim with the fence kept for the next pass |
| `ExportDriver.Exporter.Prepare` | crates/moa-analytics-export/src/lib.rs:796-865 | both tables are fenced at one moment without open transactions, cursors unmoved: an active fence is kept, and a new one is the later of the cursor and the greatest committed position |
| `ExportDriver.Exporter.ExportTick` | crates/moa-analytics-export/src/lib.rs:796-1036 | a whole tick: once no transaction is open, both cursors end at the fences of that moment, each the active one or else the later of the cursor and the greatest committed position, with everything up to them mirrored, or a claim failed |
| `ExportDriver.Exporter.ReadBoot` | crates/moa-analytics-export/src/lib.rs:645-682 | a bootstrap page is a prefix of the window up to the bootstrap fence |
| `ExportDriver.Exporter.InsertBoot` | crates/moa-analytics-export/src/lib.rs:645-682 | it is inserted at the generation's own version with the invariant kept |
| `ExportDriver.Exporter.RecordPage` | crates/moa-analytics-export/src/lib.rs:723-749 | goes through exactly when the clock is not behind the stored time, and then only the page position of this table and the time move |
| `ExportDriver.Exporter.RecordHighWater` | crates/moa-analytics-export/src/lib.rs:723-749 | after an empty page the position moves to the high water, without a write when it is there already, and fails exactly on a late clock |
| `ExportDriver.Exporter.AdvanceStage` | crates/moa-analytics-export/src/lib.rs:572-596 | goes through exactly when the clock is not behind the stored time, and then only stage and time move, to the stage after this table |
| `ExportDriver.Exporter.BootTable` | crates/moa-analytics-export/src/lib.rs:645-721 | bootstrapping a table terminates under any environment and clock; it fails exactly on a late write, keeping the stage, and otherwise ends at the next stage of the same generation |
| `ExportDriver.Exporter.Tick` | crates/moa-analytics-export/src/lib.rs:387-436 | one iteration of the stage loop does what the stage prescribes, at the clock it reads, and keeps the generation |
| `ExportDriver.Exporter.EnsureUpgrade` | crates/moa-analytics-export/src/lib.rs:387-436 | from whatever stage and page a crash or a refused write left, the stage loop reaches the end unless a write is late, exactly; a bootstrap it finishes leaves both tables mirrored up to their fences; other tables than the generation's are refused |
| `ExportDriver.Exporter.UpgradeOnce` | crates/moa-analytics-export/src/lib.rs:412-435 | one iteration with the table it bootstraps moves the stage by one, or fails exactly on a late write and keeps it |
| `ExportDriver.Exporter.InitializeGeneration` | crates/moa-analytics-export/src/lib.rs:455-531 | opens a generation exactly for a first start or a paired reset with a version and a number left, at the least version that is not behind the clock and exceeds what was used; each error is returned exactly on its own condition, and nothing changes when it fails |
| `ExportDriver.Exporter.Launch` | crates/moa-analytics-export/src/lib.rs:289-327 | a start-up from any state a crash left: one new generation at the next version for a first start or a paired reset, otherwise the newest one resumed, ending complete and mirrored up to the cursors; exhausted versions or numbers, an unsafe reset, a held lock and a late clock are each reported exactly when they occur |
| `PlanGraph.OrderedIsAcyclic` | crates/moa-artifacts/src/validation.rs:1332-1390 | a graph whose nodes can be ordered behind their dependencies has no cycle |
| `PlanGraph.StuckIsCyclic` | crates/moa-artifacts/src/validation.rs:1332-1390 | a non-empty set in which everyone waits for someone contains a cycle |
| `PlanGraph.FinishCloses` | crates/moa-artifacts/src/validation.rs:1371-1383 | finishing an id lowers each node's count of unfinished dependencies by as often as it names that id |
| `PlanGraph.ReleaseOne` | crates/moa-artifacts/src/validation.rs:1375-1382 | a dependent's count is never zero before it is lowered, so the saturating subtraction never saturates, repeated dependencies included |
| `PlanGraph.CountDependencies` | crates/moa-artifacts/src/validation.rs:1338-1364 | the counting loop builds the in-degree and dependents of the multigraph over known ids, unknown and self-repeating entries included |
| `PlanGraph.CountSchedulable` | crates/moa-artifacts/src/validation.rs:1332-1390 | whichever ready id is taken at each turn, no id is taken twice and all known ids are taken exactly when the dependency graph has no cycle |
| `PlanGraph.CollectAncestors` | crates/moa-artifacts/src/validation.rs:1415-1433 | the backward walk collects exactly the ids the output node needs, directly or not |
| `PlanReferences.ReferenceRoundTrip` | crates/moa-artifacts/src/validation.rs:1547-1589 | a reference to the run input or to a node, with any tail of segments, is read back as that input or node |
| `PlanReferences.ReferenceAccepts` | crates/moa-artifacts/src/validation.rs:1547-1589 | and nothing but such references is accepted |
| `PlanReferences.WalkSeesEveryObject` | crates/moa-artifacts/src/validation.rs:1445-1520 | a value without issues has at every depth only plain objects and well-formed references |
| `PlanReferences.CleanValueReadsDependencies` | crates/moa-artifacts/src/validation.rs:1522-1545 | a value without issues refers only to the run input and to declared dependencies |
| `PlanReferences.ConditionalWalkIsComplete` | crates/moa-artifacts/src/validation.rs:1049-1097 | the conditional walk reports nothing exactly when no reference at any depth names a conditional node |
| `PlanReferences.CleanValueAvoidsConditional` | crates/moa-artifacts/src/validation.rs:1049-1097 | in a value without dynamic issues the conditional walk reports nothing exactly when the value reads no conditional node |
| `PlanValidation.CheckIds` | crates/moa-artifacts/src/validation.rs:948-955 | collects the stable ids and reports the duplicates |
| `PlanValidation.ValidateDag` | crates/moa-artifacts/src/validation.rs:1332-1390 | reports a cycle exactly when the dependency graph has one |
| `PlanValidation.ValidateTerminalOutput` | crates/moa-artifacts/src/validation.rs:1392-1443 | reports exactly a missing or repeated output node, dependents of it and nodes it does not need |
| `PlanValidation.ValidateConditionScope` | crates/moa-artifacts/src/validation.rs:978-1046 | reports the conditional references of inspected values and one issue for each requirement left to conditional nodes alone; what these lists hold is stated by PlanTheorems.OperationValuesExact, PlanAcceptance.OnlyConditionalExact and PlanReports.ReportsExactly |
| `PlanValidation.ValidatePlan` | crates/moa-artifacts/src/validation.rs:931-970 | appends the issues of every check, in order, to whatever the report held; which issues those are is stated by PlanReports.ReportsExactly |
| `PlanReports.ReportsExactly` | crates/moa-artifacts/src/validation.rs:931-1443 | the report holds a structural issue at a node or at the plan exactly when that node or the plan has the fault: unstable, repeated, missing or unknown ids, a dependency on itself, a conditional or needed output, an unneeded node, a cycle, a wrong number of outputs, a schema that is no object, a requirement left to conditional nodes |
| `PlanReports.TerminalHolds` | crates/moa-artifacts/src/validation.rs:1392-1443 | dependents and strays are reported at their own nodes and against the only output, and otherwise the wrong number of outputs alone |
| `PlanReports.RequirementsAreCounted` | crates/moa-artifacts/src/validation.rs:1024-1046 | there is one such issue for each requirement that a conditional node serves and no other node does |
| `PlanReports.WalkHolds` | crates/moa-artifacts/src/validation.rs:1445-1520 | the walk over a value never reports a structural issue |
| `PlanTheorems.OperationValuesExact` | crates/moa-artifacts/src/validation.rs:1172-1330 | the values checked are exactly those an operation runs on or expires to, and the scope check sees exactly those it runs on |
| `PlanTheorems.ErrorFreePlanHasSchedule` | crates/moa-artifacts/src/validation.rs:931-1170 | a plan without issues has an order that respects every dependency |
| `PlanTheorems.SchedulesEndWithOutput` | crates/moa-artifacts/src/validation.rs:1392-1443 | every such order ends with the one output node |
| `PlanTheorems.InputsAreReadable` | crates/moa-artifacts/src/validation.rs:1099-1170 | in every such order, whatever a node's input, a value its operation runs on or expires to, or its condition refers to is the run input or a strictly earlier node |
| `PlanTheorems.InputsAvoidConditionalNodes` | crates/moa-artifacts/src/validation.rs:978-1097 | no input of such a plan and no value an operation runs on reads a conditional node |
| `PlanAcceptance.AcceptsExactly` | crates/moa-artifacts/src/validation.rs:931-1443 | the exact set of plans accepted, in terms of the plan alone: well-formed nodes, every object at every depth of an input, of a value an operation runs on or of one it expires to plain or one well-formed binding to a declared dependency, no cycle, one output that needs all other nodes, no input or value run on reading a conditional node, and every requirement of a conditional node also served by one that always runs |
| `PlanAcceptance.OnlyConditionalExact` | crates/moa-artifacts/src/validation.rs:1024-1046 | no requirement is counted as left to conditional nodes exactly when each of theirs is also served by a node that always runs |
| `PlanAcceptance.ConditionalReadsExactly` | crates/moa-artifacts/src/validation.rs:988-1022 | an accepted plan reads no conditional node anywhere exactly when its conditions and the values its waits expire to do not |
| `PlanAcceptance.ConditionMayReadConditional` | crates/moa-artifacts/src/validation.rs:988-1022 | an accepted plan whose condition reads a conditional node |
| `PlanAcceptance.ExpiryMayReadConditional` | crates/moa-artifacts/src/validation.rs:1003-1022 | an accepted plan in which the expiry output of a review reads a conditional node |
| `JsonPointer.ScanPointer` | crates/moa-artifacts/src/validation/json.rs:22-45 | the byte scan accepts exactly the texts that decode |
| `JsonPointer.PointerDecodesOnce` | crates/moa-artifacts/src/validation/json.rs:48-72 | a text is determined by the segments it decodes to, so distinct texts name distinct places |
| `JsonPointer.PointerRoundTrip` | crates/moa-artifacts/src/validation/json.rs:48-72 | any list of segments, with any characters in them, is decoded from its escaped text |
| `Compensation.ValidateMapping` | crates/moa-artifacts/src/validation.rs:1193-1259 | reports the issues of every binding in order, those that depend on earlier bindings included |
| `Compensation.MappingIssuesExact` | crates/moa-artifacts/src/validation.rs:1193-1259 | no issue exactly for 1 to 64 bindings with decodable sources and strictly ascending, decodable, non-root targets whose paths are pairwise unrelated |
| `CompensationInput.InsertSucceeds` | crates/moa-execution/src/interpreter/compensation.rs:104-132 | a value can be inserted exactly where there is room, and is then read back from there |
| `CompensationInput.InsertLeavesOthers` | crates/moa-execution/src/interpreter/compensation.rs:104-132 | inserting a value changes neither what is at an unrelated path nor whether there is room |
| `CompensationInput.DecodeTargets` | crates/moa-execution/src/interpreter/compensation.rs:24-41 | the targets are accepted exactly when all decode and no two are related; otherwise it names why the first binding that cannot be placed cannot |
| `CompensationInput.PlaceValues` | crates/moa-execution/src/interpreter/compensation.rs:43-56 | with unrelated targets only a missing source stops the placement, and the result holds every resolved value at its target and nothing beside them |
| `CompensationInput.ResolveInput` | crates/moa-execution/src/interpreter/compensation.rs:18-62 | the compensator's input holds exactly the resolved values at their targets and satisfies the schema; an accepted, resolvable mapping fails only on the schema; a missing source and a target at fault are each reported exactly when they occur |
| `CompensationInput.ValidatedMappingIsPlaceable` | crates/moa-artifacts/src/validation.rs:1193-1259 | a mapping the validator accepts can be placed exactly when no target is `/` |
| `CompensationInput.EmptyFieldNameIsRefused` | crates/moa-execution/src/interpreter/compensation.rs:64-75 | a mapping onto `/` that is accepted and then refused |
| `CompensationInput.OrderIsIrrelevant` | crates/moa-execution/src/interpreter/compensation.rs:43-56 | a placeable mapping stays so in every order, and every order builds the same object: equal at every path but the parents of targets, which are objects in both |
| `CompensationInput.InputIsDetermined` | crates/moa-execution/src/interpreter/compensation.rs:43-56 | the resolved values and the absence of anything else determine the input up to key order |
| `CompensationInput.ResolveInTwoOrders` | crates/moa-execution/src/interpreter/compensation.rs:18-62 | two runs of the interpreter over one mapping in two orders succeed together and build the same object |
| `ArtifactReference.ParseInvertsPrint` | crates/moa-artifacts/src/reference.rs:36-64 | every reference that prints is parsed back from its text |
| `ArtifactReference.ParsesExactlyWhatPrints` | crates/moa-artifacts/src/reference.rs:137-162 | a text is parsed as a reference exactly when that reference prints as that text |
| `ArtifactReference.PrintIsInjective` | crates/moa-artifacts/src/reference.rs:36-64 | no two references of any variant share a text |
| `ArtifactReference.AcceptsCanonicalText` | crates/moa-artifacts/src/reference.rs:276-285 | the parser accepts exactly the canonical texts |
| `ArtifactReference.ParseFails` | crates/moa-artifacts/src/reference.rs:137-285 | what a text is refused for: no scheme, an unknown one, an action with an empty part, or what keeps the reference it would be from printing; the check that it is canonical never fails |
| `ReferenceSchema.PlainMatches` | crates/moa-artifacts/src/reference.rs:188-194 | the first pattern matches exactly the texts of tools and of artifacts other than actions |
| `ReferenceSchema.UndottedMatches` | crates/moa-artifacts/src/reference.rs:195-198 | the second exactly those of standalone actions |
| `ReferenceSchema.DottedMatches` | crates/moa-artifacts/src/reference.rs:199-204 | the third exactly those of connector actions |
| `ReferenceSchema.SchemaAgreesWithParser` | crates/moa-artifacts/src/reference.rs:183-207 | exactly one branch of the schema matches a text if and only if the parser accepts it |
| `AgentDependencies.LoadDependency` | crates/moa-agents/src/resolver.rs:519-546 | a key that was loaded is served from the cache; otherwise the registry is asked once |
| `AgentDependencies.ResolveDependencies` | crates/moa-agents/src/resolver.rs:403-477 | whatever the registry serves meanwhile, exactly the declared entries are loaded, each once, and locked in strictly ascending text order, with exactly the tools loaded skills declare; it fails exactly at the first reference that does not print or whose entry is not there |
| `TextOrder.LessExactly` | crates/moa-agents/src/resolver.rs:449-452 | the order of the lists is that of their texts: at the first difference the smaller character, or the end, comes first |
| `ConnectorBindings.CheckUniqueness` | crates/moa-agents/src/resolver.rs:837-855 | accepts exactly lists in which neither a connector nor a connection repeats; otherwise it says which of the two repeats at the first binding that clashes |
| `ConnectorBindings.BindAll` | crates/moa-agents/src/resolver.rs:732-752 | succeeds exactly when every binding binds and none clashes, and returns them in strictly ascending order; otherwise it has the error of the first binding that does not bind, or else of the first clash |
| `RevisionLock.CheckActions` | crates/moa-agents/src/resolver.rs:754-775 | accepts exactly when each connector action's connector is loaded and bound; otherwise it names what the first uncovered action lacks |
| `RevisionLock.ResolveBindings` | crates/moa-agents/src/resolver.rs:728-777 | the fresh bindings, when there are any that satisfy the whole policy; otherwise the error of the first binding or action at fault |
| `RevisionLock.LockedToolsExact` | crates/moa-agents/src/resolver.rs:915-958 | locked tools are strictly ascending and are the policy's own plus the referenced and skill-declared ones that are not denied |
| `RevisionLock.DeniedToolsStayOut` | crates/moa-agents/src/resolver.rs:909-914 | no denied tool is locked exactly when the policy lists none |
| `RevisionLock.ListedDeniedToolIsLocked` | crates/moa-agents/src/resolver.rs:926-930 | a denied tool that is locked |
| `RevisionLock.Mint` | crates/moa-agents/src/resolver.rs:243-299 | a fresh resolution returns a lock with exactly the resolved dependencies, tools and digest, over a policy that lists in order exactly the texts and names the definition gives for each field; against a fixed registry it succeeds exactly when everything prints, is served and binds; a failure has the error of the first dependency, binding or action at fault |
| `RevisionLock.Replay` | crates/moa-agents/src/resolver.rs:779-813 | an installed lock is accepted exactly when the bindings rebuilt from it match its digest and revision, over the policy that lists exactly what the definition gives for each field; a refused lock gets the first of: an unprintable policy, a binding at fault, the wrong revision, a digest that differs |
| `RevisionLock.PolicyExactly` | crates/moa-agents/src/resolver.rs:707-726 | each list of the policy is strictly ascending and holds exactly the texts or names its own field of the definition gives |
| `LockContents.DeclaredExactly` | crates/moa-artifacts/src/agent.rs:57-66 | the references collected from a definition are exactly those written in its instruction, skill, allowed, review, binding and tool fields, each under its own field |
| `LockContents.LocksExactly` | crates/moa-agents/src/resolver.rs:1019-1042 | a dependency is locked exactly when some written reference loads its entry, with the identity, revision and version of that entry and the text of that reference |
| `LockContents.SkillDeclaresExactly` | crates/moa-agents/src/resolver.rs:493-517 | a tool is granted by a skill exactly when a loaded skill names it among its tools or as the tool of an action |
| `LockContents.LocksToolExactly` | crates/moa-agents/src/resolver.rs:915-958 | a tool is locked exactly when the policy lists it, or it is not denied and a loaded skill grants it or a reference other than a denial names it |
| `LockContents.FreshExactly` | crates/moa-agents/src/resolver.rs:728-752 | a connector is bound to its loaded revision under its own connection, exactly when that is a connector |
| `LockContents.FromLockExactly` | crates/moa-agents/src/resolver.rs:779-813 | a connector is rebound to the first dependency of the lock with its text, exactly when that is a connector |
| `LockContents.MintedLockHolds` | crates/moa-agents/src/resolver.rs:243-299 | what a minted lock holds, in terms of the definition and the entries loaded: its revision, exactly the entries the references need, their dependencies, the tools, the bindings, the policy and the digest of all of it |
| `LockContents.ReplayedPolicyHolds` | crates/moa-agents/src/resolver.rs:779-813 | what a replayed lock yields: the bindings rebuilt from its dependencies, in order, and the definition's policy over them, under the very digest the lock carries |
| `RevisionLock.MintedLockReplays` | crates/moa-agents/src/resolver.rs:1044-1068 | a minted lock always replays on its definition, with exactly the bindings it was minted with, whatever the registry serves later |
| `LockReordering.ReorderedMintAlike` | crates/moa-agents/src/resolver.rs:403-477 | reordering the lists of a definition changes neither success nor failure |
| `LockReordering.ReorderedMintSameLock` | crates/moa-agents/src/resolver.rs:902-958 | and yields the identical lock and bindings |
| `Ddl.FindClose` | crates/moa-analytics-export/src/schema.rs:226-243 | finds the one parenthesis that closes the list, or none if there is none; the depth never underflows |
| `Ddl.SplitTopLevel` | crates/moa-analytics-export/src/schema.rs:246-263 | cuts the list at exactly its top-level commas; the depth never underflows |
| `Ddl.SplitUnique` | crates/moa-analytics-export/src/schema.rs:246-263 | there is one such cutting |
| `DdlParser.CollectColumns` | crates/moa-analytics-export/src/schema.rs:265-274 | reads one column per non-blank span, in order, or fails at the first span without a type |
| `DdlParser.DeclaredColumns` | crates/moa-analytics-export/src/schema.rs:206-279 | returns what the text declares and fails exactly when it declares nothing; otherwise it names the first part that is missing |
| `DdlParser.OneReading` | crates/moa-analytics-export/src/schema.rs:206-279 | a text declares at most one table and column list |
| `DdlParser.RenderedRoundTrip` | crates/moa-analytics-export/src/schema.rs:206-279 | a rendered declaration, for every table name, layout and non-empty list of columns with balanced types without top-level commas, declares exactly its table and columns |
| `DdlParser.FirstMismatch` | crates/moa-analytics-export/src/schema.rs:286-299 | no mismatch exactly for equal column lists, otherwise the first position at which they differ |
| `Compaction.RecentTurnBoundary` | crates/moa-brain/src/compaction.rs:95-114 | the boundary is the user entry from which exactly the configured number of turns remain, the end for none, and zero when there are too few |
| `Compaction.BoundaryUnique` | crates/moa-brain/src/compaction.rs:95-114 | there is one boundary |
| `Compaction.CompactsExactly` | crates/moa-brain/src/compaction.rs:116-140 | compaction is due exactly when it is enabled, the tail is not empty, and the entries with a summary line reach the threshold or the tokens of their lines reach the ratio of the budget |
| `Compaction.CountTail` | crates/moa-brain/src/compaction.rs:126-136 | the fold counts the entries that have a line and adds up their tokens |
| `Compaction.CeilingIsReached` | crates/moa-brain/src/compaction.rs:137 | reaching the rounded-up threshold is reaching the ratio itself |
| `CompactionTheorems.FoldsAndTailAreTheEntries` | crates/moa-brain/src/compaction.rs:63-92 | in every run of appends and compactions the folded slices followed by the tail are exactly the entries, and each checkpoint summarizes more than the one before |
| `CompactionTheorems.TailAfter` | crates/moa-brain/src/compaction.rs:163-224 | after a checkpoint the tail is what the snapshot kept and what arrived since |
| `CompactionTheorems.TailAfterCheckpoint` | crates/moa-brain/src/compaction.rs:163-224 | with verbatim turns that tail starts at a user's entry and what was kept holds exactly that many |
| `CompactionTheorems.TailBeyondGate` | crates/moa-brain/src/compaction.rs:31-51 | the tail exceeds the gate's count by exactly the entries the last checkpoint left verbatim |
| `CompactionTheorems.GateSafeExactly` | crates/moa-brain/src/compaction.rs:19-51 | given the line cap, a closed gate rules out compaction under every configuration exactly while no more lines wait than events are counted |
| `CompactionTheorems.GateOpensExactly` | crates/moa-brain/src/compaction.rs:31-51 | the gate is open exactly when compaction is enabled and the events since the last checkpoint reach the threshold, or would reach the ratio of the budget at the cap of tokens per line |
| `CompactionTheorems.GateSafeWithoutVerbatim` | crates/moa-brain/src/compaction.rs:31-51 | in particular before the first checkpoint and after one that left nothing |
| `CompactionTheorems.VerbatimTurnIsMissed` | crates/moa-brain/src/compaction.rs:22-30 | a run under one configuration at whose end the gate is closed although compaction is due and has something to fold |
| `CompactionTheorems.ClosedGateBoundsTail` | crates/moa-brain/src/compaction.rs:24-30 | in every run, behind a closed gate fewer lines and tokens are waiting than the thresholds plus the entries the last checkpoint left verbatim |
| `CompactionTheorems.SessionLog.Append` | crates/moa-brain/src/compaction.rs:77-83 | appending keeps the account of entries |
| `CompactionTheorems.SessionLog.MaybeCompact` | crates/moa-brain/src/compaction.rs:145-228 | compacts from a possibly stale snapshot exactly when it should and there is something to fold, appending one checkpoint that accounts for it |
| `QueryValidation.CheckSelection` | crates/moa-analytics/src/query.rs:90-109 | accepts exactly dimensions and measures whose fields have the role and aggregation; otherwise it names the fault of the first dimension, or else of the first measure, that has one |
| `QueryValidation.CheckFilters` | crates/moa-analytics/src/query.rs:111-127 | accepts exactly filters with a known field, a supported operator, a value where needed, the request's own tenant and a bounded range; otherwise it names the first fault of the first filter that has one |
| `QueryValidation.EnforceTimeWindow` | crates/moa-analytics/src/query.rs:286-328 | accepts exactly when some filter closes the window and every lower bound is recent enough; otherwise it names the fault of the first lower bound that has one, or the missing window |
| `QueryValidation.ValidateQuery` | crates/moa-analytics/src/query.rs:48-144 | the exact set of requests accepted, with their limit and tenant; a refused request gets the error of the first check it fails |
| `QueryValidation.FaultIsUnique` | crates/moa-analytics/src/query.rs:48-144 | there is one such error for each request |
| `QueryValidation.SpansExactly` | crates/moa-analytics/src/query.rs:247-328 | the day counts as spans of time: a range is accepted exactly when its ends are less than 367 days apart, and a lower bound exactly when it is less than 367 days before now |
| `QueryValidation.AcceptedWindowIsBounded` | crates/moa-analytics/src/query.rs:247-328 | rows dated no later than now that pass every filter of an accepted request lie in one window shorter than 367 days |
| `QueryCompiler.PushItems` | crates/moa-analytics/src/compiler.rs:550-574 | pushes one fitting bind per item and numbers its placeholder by its place |
| `QueryCompiler.PushDemand` | crates/moa-analytics/src/compiler.rs:515-574 | pushes exactly the values a filter asks for, each with a placeholder numbered by its place and of a fitting kind |
| `QueryCompiler.PredicateHoles` | crates/moa-analytics/src/compiler.rs:427-512 | a predicate holds its placeholders once each and in order, whatever the operator and backend |
| `QueryCompiler.FilterPredicate` | crates/moa-analytics/src/compiler.rs:418-513 | the predicate of a filter is the operator's, over placeholders numbered behind the values bound before, one for each value it pushes; which rows it is true of is stated by QuerySelection.ClauseMeans |
| `QueryStatement.SourceHoles` | crates/moa-analytics/src/compiler.rs:138-143 | replacing markers puts the tenant's placeholder once for each |
| `QueryStatement.SourceRestores` | crates/moa-analytics/src/compiler.rs:138-143 | replacing the markers changes nothing else in the source and leaves none: putting them back gives the source text |
| `QueryStatement.Predicates` | crates/moa-analytics/src/compiler.rs:146-164 | binds the tenant first and then what the filters ask for, in order; the clauses are the tenant's and then each filter's own, aligned with the binds; which rows pass all of them is stated by QueryResults.FiltersSelect; it fails with the error of the first filter that has no field, no expression on the backend or no value to bind |
| `QueryStatement.ResolveOrders` | crates/moa-analytics/src/compiler.rs:180-206 | each order field resolves to the first output that provides it, or the request is refused |
| `QueryStatement.Compile` | crates/moa-analytics/src/compiler.rs:39-218 | the compiled statement is the frame around the source, the tenant's predicate unless the source holds it, and each filter's predicate in order; its k-th placeholder is number k and fits the k-th bind exactly when the source has at most one marker; bind 1 is the tenant; compilation succeeds exactly when everything is available, bindable and resolvable; what it selects is stated by QueryResults.CompiledSelects; a failed compilation has the error of the first step that refuses the request |
| `QueryStatement.OutputsExactly` | crates/moa-analytics/src/compiler.rs:50-119 | the outputs are the dimensions and then the measures, in the order of the request, each under its alias or else its field or default name |
| `QueryStatement.AcceptedOrdersResolve` | crates/moa-analytics/src/query.rs:196-216 | the order fields of an accepted request all resolve exactly when none is the default name of an aliased measure that nothing selected is called |
| `QueryStatement.ResolvesExactly` | crates/moa-analytics/src/compiler.rs:180-193 | an order field resolves exactly when a dimension's or measure's field or alias, or the default name of a measure without alias, is that field |
| `QueryStatement.SelectedIsLostExactly` | crates/moa-analytics/src/query.rs:196-216 | an order field is accepted exactly if it resolves or is a lost default name, and is lost exactly when it is the default name of an aliased measure and nothing selected is called that |
| `QueryStatement.UnaliasedOrdersResolve` | crates/moa-analytics/src/compiler.rs:180-193 | without measure aliases every accepted order field resolves |
| `QueryStatement.AliasedCountIsUnresolved` | crates/moa-analytics/src/query.rs:201-215 | an accepted order field that does not resolve |
| `QueryRendering.PlaceholderReadsBack` | crates/moa-analytics/src/compiler.rs:670-697 | the number behind `$` reads back as the placeholder's position, whatever follows that is no digit |
| `QueryRendering.RenderedReferences` | crates/moa-analytics/src/compiler.rs:670-697 | in the text of a statement with placeholder-free fixed text there is one placeholder for each hole, in order: its number is the hole's on Postgres, and its place in the text is what ClickHouse goes by |
| `QueryRendering.CompiledIsPlain` | crates/moa-analytics/src/compiler.rs:39-218 | a statement compiled over a placeholder-free catalog has placeholder-free fixed text |
| `QueryRendering.CompiledReferences` | crates/moa-analytics/src/compiler.rs:121-178 | in a compiled statement's text every placeholder is read as the bind it was written for, always on Postgres, and on ClickHouse exactly when the source names the tenant at most once |
| `QueryReading.PredicateReads` | crates/moa-analytics/src/compiler.rs:418-513 | the text of every clause, on both backends, reads back as its operator's condition over its own placeholders with their conversions, in order |
| `QuerySelection.CellBindExactly` | crates/moa-analytics/src/compiler.rs:576-619 | a value is bound exactly when it is of the field's kind, and what the database reads in its place is the value the filter names |
| `QuerySelection.ItemBindExactly` | crates/moa-analytics/src/compiler.rs:621-661 | the same for each element of a list |
| `QuerySelection.DemandExactly` | crates/moa-analytics/src/compiler.rs:515-574 | a filter can be bound exactly when it carries what its operator needs: nothing, one value of the kind, a text, a non-empty list or a pair |
| `QuerySelection.CompilesExactly` | crates/moa-analytics/src/compiler.rs:39-218 | an accepted request compiles exactly when the backend has its source and fields, every filter carries what its operator needs, and every order field resolves |
| `QuerySelection.ClauseMeans` | crates/moa-wire/src/analytics.rs:108-140 | the clause of a filter, read from its text over the bound values, is true of a row exactly when the filter asks for the row, for every operator, kind and backend; text operators on Postgres ask by pattern |
| `QuerySelection.SearchIsLiteralExactly` | crates/moa-wire/src/analytics.rs:128-133 | a text search on Postgres finds exactly the rows with that text if and only if the text holds no `%`, `_` or backslash |
| `QuerySelection.WildcardSearch` | crates/moa-analytics/src/compiler.rs:452-486 | for every other text and operator, a value on which the pattern and the search disagree |
| `TextMatching.LiteralOccurs` | crates/moa-analytics/src/compiler.rs:452-462 | a pattern around a text without wildcards matches exactly where that text occurs |
| `TextMatching.WildcardsDiffer` | crates/moa-analytics/src/compiler.rs:452-486 | a pattern with a wildcard matches some text that does not hold it |
| `QueryResults.FiltersSelect` | crates/moa-analytics/src/compiler.rs:146-164 | a row passes the conjunction of all clauses, read from their texts, exactly when every filter asks for it |
| `QueryResults.CompiledText` | crates/moa-analytics/src/compiler.rs:121-178 | the text of a compiled statement is its head, the clauses joined by AND behind WHERE, if there are any, and its tail |
| `QueryResults.CompiledSelects` | crates/moa-analytics/src/compiler.rs:39-218 | a row passes what stands behind WHERE in a compiled statement, read from its text over the bound values, exactly when it is the tenant's, or the source sees to that, and every filter asks for it |
| `QueryResults.TenantFilterHolds` | crates/moa-analytics/src/query.rs:111-127 | a tenant filter, which adds no clause, asks in an accepted request for nothing that the tenant's own clause does not |
| `QueryResults.OrderTextReads` | crates/moa-analytics/src/compiler.rs:180-206 | behind ORDER BY, each item reads back as the resolved output and direction, in the order of the request |
| `QueryResults.CompiledWindowIsBounded` | crates/moa-analytics/src/query.rs:247-328 | the rows dated no later than now that the compiled statement of an accepted request selects lie in one window shorter than 367 days |
| `StreamExport.RestExact` | crates/moa-analytics-export/src/events.rs:22-29 | the rows past a bound are exactly those, each once and in order |
| `StreamExport.PageReads` | crates/moa-analytics-export/src/events.rs:22-29 | a page is in order and holds the first rows past its bound: none up to its last row is left out, and a short page leaves out none at all |
| `StreamExport.StreamExporter.Pass` | crates/moa-analytics-export/src/events.rs:34-79 | the paging loop, over a table that changes between any two queries and cut short after any number of durable steps, leaves exactly the copies and cursor of the pass as specified |
| `StreamExport.RunAdds` | crates/moa-analytics-export/src/events.rs:34-79 | however the table grows and wherever the pass is cut, what it adds are rows past its bound, each once and in order |
| `StreamExport.RunReads` | crates/moa-analytics-export/src/events.rs:34-79 | a pass that comes to its end has copied every row past its bound that was there when it began |
| `StreamExport.CompletedPassExactly` | crates/moa-analytics-export/src/lib.rs:1138-1149 | a row that is there when a completed pass begins has been copied by the end of it exactly if it was before, or is dated no earlier than the cursor less the overlap, or than the epoch when there is no cursor |
| `StreamExport.NothingIsLost` | crates/moa-analytics-export/src/lib.rs:11-16 | if rows come in order, a completed pass leaves no row since the epoch uncopied, after any number of passes that crashed at any step |
| `StreamExport.LateRowIsNeverCopied` | crates/moa-analytics-export/src/events.rs:41-74 | a row that comes during a pass, dated less than the overlap behind the newest, which that pass does not see and no later pass copies, crashed or completed |
| `StreamExport.CountIsExact` | crates/moa-analytics/src/dialect.rs:104-123 | whichever duplicate the reader keeps, the deduplicated count of a tenant is its number of rows exactly when all of them were copied |
| `StreamExport.CompletedPassCountsExactly` | crates/moa-analytics/src/compiler.rs:323-335 | after a completed pass during which no row came, the count is exact if and only if each of the tenant's rows from before the rewound cursor, or from before the epoch when there is none, had been copied already |
| `StreamExport.RowBeforeTheEpochIsMissed` | crates/moa-analytics-export/src/lib.rs:1140-1149 | a row that the first pass never reads |

## Left out

- SQL text of the exporter, sqlx and the ClickHouse client: only the durable effect of a statement is modelled.
- Waiting for the exclusive lock: start-up and a tick that find a transaction open end with `LockHeld` instead of blocking.
- Two exporters leading at once: the design has a single writer.
- The windowed fact tables and the dimension row conversions of the export, which hold no protocol of their own. `export_dim_paged` pages like the event stream; its skipped rows are not modelled.
- Operation payloads beyond the values they take from the plan: retry policies, capability names, prompts, temporal targets, item keys. They are an arbitrary function of a node.
- The compensation object is built on values: in-place update of a JSON tree is not modelled. The wiring of a node's compensation mapping into the plan report is part of the arbitrary payload.
- Error texts and report paths; errors are told apart by kind.
- Release overlays, which lead to a fresh resolution of a modified policy.
- Knowledge, model, guardrail and sandbox policies, which are copied into the hash unchanged; the identity hash of a locked tool, which is a function of its name.
- The stable sort of bindings compares connector, connection and revision; connectors are distinct by then, so the model compares connectors alone.
- Summary texts, costs and rendering of log events; the ratio threshold is computed over reals.
- Column labels, select expressions, grouping and limits of a compiled statement are fixed text without placeholders. What a statement selects is stated for single rows, before grouping and aggregation.
- Floating-point values of filters are reals.
- Rows whose evaluation ends in a database error, such as a text that is no UUID or a pattern that ends in its escape character: the clause is not true of them.
- The messages, and the order of the issues that a walk over one value reports; which of its codes it reports is not stated beyond when there are none.
- RFC 3339 parsing is an arbitrary partial function from texts to instants.
- QueryValidation.AcceptedWindowIsBounded: needs the default time field to be a timestamp field, as every dataset of the catalog declares it, because the span of a range over another kind of field is not checked.
- Release states, Kubernetes schemas, lineage, configuration and command-line plumbing.
