# Verified models of the script workshop

Dafny models of the parts of the repository where state is shared, rewritten or transformed, with proofs
of what those parts are meant to guarantee. `dafny verify dfyconfig.toml` checks the whole project.

| file | what it models |
|---|---|
| `DraftStore`, `DraftWorkflow`, `DraftRuns`, `DraftRecovery`, `DraftConfirmation` | the script plan protocol: one episode's formal plan and its draft, shared by the agent, the web interface and generation jobs; opening, patching and promoting in two steps each, saving, discarding, generating, with anybody else's changes in between |
| `ScriptPlanShapes`, `Decimal`, `Json` | the two shapes of a script plan (draft and formal), unit ids, new assets |
| `ScriptEditor`, `EditMeaning`, `PatchProjection`, `BatchEditor`, `ProjectionSoundness` | public script edits and what they mean, their projection onto the batch editor's primitive commands, and the way back of the editor's findings |
| `PythonFragment`, `ParamSubstitution` | an evaluator for a fragment of Python test bodies, callbacks from outside code included, and the literal substitution behind duplicate-test detection |
| `Text`, `Coverage` | the verbatim-coverage check of narration segments |
| `SseFeed`, `SseChannel` | fan-out to bounded subscriber queues under two overflow policies |
| `ReloadOrder` | overlapping reloads of which the latest read wins |
| `TaskGraph`, `PlanningChain` | window-by-window planning on the queue, with stop |
| `TaskGraph`, `CancellingMigration` | the database upgrade that retires a status, with its recursive cascade |
| `ClassHierarchy` | inheritance closures and the search for a class's collection flag |
| `Utf8`, `MemoryIndex` | truncation of the memory index by lines and octets (UTF-8 as in section 3 of RFC 3629) |
| `ApiKeyCache` | the cache of verified API keys |

Operations that change state in place are methods of classes, each proved to do exactly what a specification
function says; runs, interleavings and round trips are lemmas about those functions. Fingerprints and
revisions are injective constructors. Validation, model answers, the code under test and the clock are
parameters: every result holds for all of them.

Some results are about limits of the code. All but the last stand beside the exact condition under which the
property holds:

- A working copy can replace a confirmed plan, because every operation looks at the confirmation before it
  writes and not when it writes, and confirming looks for a draft before it records, in a section of its own.
  The plan may be confirmed while a promotion is under way (`ConfirmationRace`) or between an opening's look and
  its copy (`CopyRace`). From a working copy whose base is not confirmed, exactly two kinds of step lead to one
  whose base is (`BreaksExactlyWhenHarmful`): a confirmation of the base on file, and a copy or acceptance of a
  version confirmed by then. The second kind needs the plan to have become confirmed since that operation looked
  (`LateOnlyIfConfirmedMeanwhile`). In a run with neither, no working copy replaces a confirmed plan
  (`ConfirmedPlanIsReadOnly`); a promotion under way does so exactly when its base is the version confirmed and
  on file (`ReplacesConfirmedExactlyWhen`, `ConfirmationDefeatsExactlyWhen`).
- A projected split is refused exactly when a second item has the split item's id (`DuplicateIdsDefeatSplits`),
  and puts its parts in the wrong place exactly when the item before it shares its id with an earlier one
  (`SharedPredecessorMisplacesSplit`); otherwise it gives the direct result (`SplitRunsExactlyWhen`). The other
  operations need nothing of the ids (`OperationRuns`).
- The content a reload installs may step back for a while (`ContentMayStepBack`). It can exactly after a read
  overtaken by a later reload that had read an older table (`DangerArisesExactly`, `StepsBackExactlyInDanger`,
  `OvertakenReadStepsBack`); without such a read it never does (`ContentNeverStepsBack`).
- The greedy coverage scan decides the declarative question for every source exactly when no part after the first
  begins with a space (`GreedyDecidesExactlyWhen`); otherwise it refuses a covered source
  (`LeadingSpaceDefeatsGreedy`). Stripped segments never begin with one.
- A test body that rebinds no parameter does the same with literals in place of its parameters
  (`SubstitutedTestRunsAlike`). That the guard is needed is shown for one body only
  (`RebindingDefeatsSubstitution`); rebinding bodies it rejects may well behave the same.

## Model

| member | source | states |
|---|---|---|
| `DraftRuns.NoLostUpdate` | server/draft_workflow.py:467-498 | in every run, a generation commit replaces the very formal text on file when that job was started, and a promotion replaces the very text on file when its draft's base was recorded: by the copy or acceptance since which the draft has kept that base, or at the start of the job whose quarantined answer it is; only a promotion whose draft has had its base since before the run is left to that base |
| `DraftRuns.ReplacedEqualsBase` | lib/script/script_review.py:266-284 | whoever replaces the formal text found it equal to the base it recorded, if it recorded one; no other step but a foreign write changes the formal text |
| `DraftRuns.DraftConserved` | server/draft_workflow.py:1280-1331 | in every run, a step that changes or removes a readable draft carried that draft's current revision; a commit, through the beginning of that very patch or promotion |
| `DraftRuns.FormalValidity` | server/draft_workflow.py:441-483 | each text a promotion or a job makes formal was found without violations in that very call, and the draft is gone with the same step |
| `DraftRuns.LockedAlways` | server/draft_workflow.py:1380-1402 | while an opening, patch or promotion holds the draft lock, what is on file is what it found: no draft, the draft of the given revision, or the one judged clean |
| `DraftRuns.AlwaysKnown` | server/draft_workflow.py:367-378 | where the base of the draft on file and of every job in flight comes from: the step of the run that recorded it and the identical formal document it was taken of, and that no later step recorded another |
| `DraftRuns.BaseMoves` | server/draft_workflow.py:1303-1317 | only copies, acceptances and quarantined answers give a draft another base: the formal version on file, or that of their job |
| `DraftRecovery.LoserLosesNothing` | server/text_generation.py:264-286 | a patch, promotion or generation that loses to a formal change leaves the formal text alone and a readable draft behind; generation keeps its answer with the old base |
| `DraftRecovery.ConflictsAreResolvable` | server/draft_workflow.py:507-543 | from wherever a formal conflict leaves the system in any run, opening, patching with the reported formal revision (null included) and promoting with the returned revision ends with the new formal text and no draft, for valid content of an unconfirmed plan |
| `DraftRecovery.ResolvesExactlyWhen` | server/draft_workflow.py:1362-1402 | with any readable draft that sequence succeeds if and only if the content is valid and the plan is not read-only to this draft |
| `DraftRecovery.ConflictPersistsUnaccepted` | server/draft_workflow.py:1303-1317 | without accepting the new version every patch and promotion meets the same conflict again |
| `DraftRecovery.PromotedExactlyWhen` | server/draft_workflow.py:1380-1402 | undisturbed, a promotion goes through exactly for the current revision of an editable, clean draft whose base still holds |
| `DraftRecovery.BlockedPromotionReports` | server/draft_workflow.py:441-483 | what promoting the current, editable draft leaves and answers, verdict by verdict: unfit for the schema, the draft as it was with exactly the violations found; violating, exactly the normalised content and those violations; unreadable, nothing; clean, the formal text or the conflict |
| `DraftRecovery.BlockedPromotionKeepsDraft` | server/draft_workflow.py:441-465 | a promotion blocked by validation leaves the formal text unchanged and the draft present with the same meta, with the report and content of exactly that verdict |
| `DraftRecovery.GenerationCommitsExactlyWhen` | server/text_generation.py:989-1016 | an answer becomes formal exactly when it is clean and neither the draft file nor the formal file changed since the job started |
| `DraftRecovery.SaveAdoptsExactlyWhen` | server/draft_workflow.py:1442-1469 | saving adopts the text exactly for the current revision of a draft not owned by the agent, valid and on a current base; otherwise the formal text is untouched |
| `DraftRecovery.SaveReports` | server/draft_workflow.py:1449-1469 | what saving leaves and answers when the text is not adopted, verdict by verdict; the refreshed draft returned is the one on file |
| `DraftRecovery.SaveKeepsText` | server/draft_workflow.py:1451-1454 | once written into the draft, the saved text stays on file however promotion ends and whatever others do to the formal document, project and confirmation meanwhile |
| `DraftRecovery.PromotedPlanReopens` | server/draft_workflow.py:602-607 | a promoted reference plan, opened again, shows the very content promoted, on a current base |
| `DraftConfirmation.ConfirmedPlanIsReadOnly` | server/draft_workflow.py:1166-1177 | in every run without a harmful step (a confirmation of a working copy's base, a copy or acceptance of a confirmed version), no promotion of a working copy replaces a confirmed plan, although nothing looks again when it writes |
| `DraftConfirmation.BreaksExactlyWhenHarmful` | server/draft_workflow.py:1265-1275 | from a working copy whose base is not confirmed, a step leads to one whose base is if and only if it confirms the base on file, or copies or accepts a version that is confirmed by then |
| `DraftConfirmation.LateOnlyIfConfirmedMeanwhile` | server/draft_workflow.py:1302-1310 | in every run, an editing operation under way on a confirmed plan looked before the plan became confirmed: some confirmation or formal write since made it so |
| `DraftConfirmation.ConfirmationDefeatsExactlyWhen` | server/services/project/script_review.py:519-535 | wherever a run has a promotion under way, recording a confirmation makes its commit replace a confirmed plan exactly when it confirms the base on file and that version is the formal one |
| `DraftConfirmation.ReplacesConfirmedExactlyWhen` | server/draft_workflow.py:1393-1403 | a commit replaces a confirmed plan exactly when its working copy is based on the version confirmed and on file |
| `DraftConfirmation.BaseNeverConfirmed` | server/draft_workflow.py:1302-1317 | in every run without a harmful step the base of a working copy is never the confirmed version |
| `DraftConfirmation.ConfirmationRace` | server/services/project/script_review.py:485-527 | there is a run in which it happens: open, begin promotion, confirm, commit |
| `DraftConfirmation.CopyRace` | server/draft_workflow.py:1265-1275 | and one in which no confirmation finds a draft: look, confirm, copy, then promote across a formal write away and back |
| `DraftWorkflow.Workspace.BeginOpen` | server/draft_workflow.py:1261-1265 | the draft there is comes back as it is; otherwise the go-ahead on an unconfirmed plan and a readable source, each refusal in its order, nothing written |
| `DraftWorkflow.Workspace.CommitOpen` | server/draft_workflow.py:351-378 | under the formal lock: a working copy with the draft shape of the plan now on file, no violations, its fingerprint as base and the source asked for; or no plan to copy |
| `DraftWorkflow.Workspace.Open` | server/draft_workflow.py:1251-1278 | both halves when nothing happens in between: the existing draft or a new working copy |
| `DraftWorkflow.Workspace.BeginPatch` | server/draft_workflow.py:1292-1308 | revision, confirmation and source are checked in that order, nothing written |
| `DraftWorkflow.Workspace.CommitPatch` | server/draft_workflow.py:1309-1331 | refuses exactly when an accepted formal version (null included) is not the one now on file; else the new content with the old violations, the source and base changed only as asked, and the reply shows it |
| `DraftWorkflow.Workspace.Patch` | server/draft_workflow.py:1280-1331 | both halves when nothing happens in between: whole new files and reply, every refusal |
| `DraftWorkflow.Workspace.Discard` | server/draft_workflow.py:1471-1491 | removes the file, readable or not; a readable draft only by its revision |
| `DraftWorkflow.Workspace.BeginPromote` | server/draft_workflow.py:1380-1393 | each refusal in its order; a verdict with violations leaves exactly its content and violations in the draft under the same meta, a clean one the formal text to commit |
| `DraftWorkflow.Workspace.CommitPromote` | server/draft_workflow.py:323-340 | base comparison, formal write and clearing of the draft, or conflict and nothing written |
| `DraftWorkflow.Workspace.Promote` | server/draft_workflow.py:1362-1440 | both halves when nothing happens in between |
| `DraftWorkflow.Workspace.Save` | server/draft_workflow.py:1442-1469 | ownership check, patch, promotion; a refreshed draft is returned as not adopted, other failures are passed on |
| `DraftWorkflow.Workspace.StartGeneration` | server/text_generation.py:229-240 | a job records the draft file's and the formal file's revision |
| `DraftWorkflow.Workspace.FinishGeneration` | server/text_generation.py:969-1016 | each outcome exactly when: commit of the judged text, quarantine of an invalid answer with its content and violations, quarantine after a formal conflict, refusal when the draft file changed |
| `DraftStore.FingerprintIdentifies` | lib/script/script_review.py:157-185 | equal fingerprints mean the same formal file, a missing one included |
| `ScriptPlanShapes.UnitIdInjective` | server/text_generation.py:1134-1140 | unit ids are equal exactly for equal episodes and indexes, past two digits too |
| `ScriptPlanShapes.UnitIdText` | server/text_generation.py:1134-1140 | the text of a unit id, with two digits at least |
| `ScriptPlanShapes.FlattenUndoesBuild` | server/draft_workflow.py:568-594 | flattening the units built from a flat draft gives that draft back |
| `ScriptPlanShapes.BuildUndoesFlattenIffCanonical` | server/text_generation.py:1208-1234 | rebuilding a flattened list gives that list back if and only if every unit is in canonical form |
| `ScriptPlanShapes.Flatten` | server/draft_workflow.py:581-594 | flattening keeps the length of arbitrary malformed input |
| `ScriptPlanShapes.FlattenCarriesOver` | server/draft_workflow.py:582-593 | fields that are there are carried over whatever they are; missing ones, other text and other units go blank |
| `ScriptPlanShapes.RetrievalIsStable` | server/draft_workflow.py:574-579 | promoting a retrieved plan unchanged and retrieving it again finds the same draft, however malformed it was |
| `ScriptPlanShapes.DedupeIdempotent` | lib/script/plan_new_assets.py:514-525 | deduplicating new assets settles in one pass |
| `ScriptPlanShapes.DedupeKeepsFirsts` | lib/script/plan_new_assets.py:514-525 | kept are, in order, exactly the items of which no earlier one has the same type and normalised name |
| `ScriptPlanShapes.MarkersAgree` | lib/script/plan_new_assets.py:519-520 | two items count as the same exactly when their types and their normalised names agree, a missing type as null, anything but text as an empty name |
| `ScriptPlanShapes.NewAssetsWritten` | lib/script/plan_new_assets.py:528-534 | the field holds exactly what remains, is absent when nothing does, and the other fields stay |
| `ScriptPlanShapes.NewAssetsCarryOver` | lib/script/plan_new_assets.py:528-534 | new assets written with a plan are the ones read back into the draft, and absent when none remain |
| `ScriptPlanShapes.DraftShapeHas` | server/draft_workflow.py:602-626 | for each kind of plan: when it can be retrieved, with exactly which fields, and what becomes of each item |
| `ScriptPlanShapes.ReopenedReferencePlan` | server/draft_workflow.py:597-607 | the draft shape of the formal plan saved from a flat draft is that draft |
| `ScriptPlanShapes.ReopenedDramaPlan` | server/draft_workflow.py:610-626 | marking scenes for replanning leaves no trace in the draft shape |
| `ProjectionSoundness.ProjectionPreservesMeaning` | server/tool_runtime.py:2209-2329 | whenever the public operations succeed directly and every split is safe where it is applied, the projected commands succeed on the original script and give exactly the directly edited script, up to the two markers the batch editor derives |
| `ProjectionSoundness.AgreesExactlyWhenSafe` | server/tool_runtime.py:2209-2329 | the projection agrees with direct application after every operation if and only if every split is safe where it is applied |
| `ProjectionSoundness.UniqueIdsAreSafe` | lib/script/script_editor.py:196-289 | with unique ids every split of a batch is safe, and the ids are unique afterwards |
| `ProjectionSoundness.OperationRuns` | lib/script/script_batch_edit.py:682-791 | one public operation at a time, from any candidate that agrees with the preview: the commands agree again if and only if the operation is no split or a safe one |
| `ProjectionSoundness.SplitRunsExactlyWhen` | server/tool_runtime.py:2296-2327 | a projected split runs if and only if no second item has its id, and gives the direct result if and only if moreover the item before it is the first with that item's id |
| `ProjectionSoundness.SplitLands` | lib/script/script_batch_edit.py:734-761 | where the parts of a projected split land: behind the first item with the predecessor's id, together and with the first part's media |
| `ProjectionSoundness.SharedPredecessorMisplacesSplit` | server/tool_runtime.py:2310-2323 | a split accepted by the batch editor whose parts land elsewhere than in the direct result |
| `ProjectionSoundness.ReinsertionsRun` | server/tool_runtime.py:2319-2327 | re-inserting any parts with ids of their own behind one another, the first as itself or as new, puts them all in a row where the first goes |
| `ProjectionSoundness.ProjectIsDirect` | server/tool_runtime.py:2209-2329 | the projection refuses where, and with what, direct application refuses; its preview is the direct result |
| `ProjectionSoundness.DirectKeepsUnique` | lib/script/script_editor.py:196-289 | ids stay unique under every public operation |
| `ProjectionSoundness.SourceIndexesDelimitOperations` | server/tool_runtime.py:2219-2223 | the commands before an operation's own are exactly those of earlier operations, and give the script it is applied to if the splits among them are safe |
| `ProjectionSoundness.NewInsertsAreExact` | lib/script/script_batch_edit.py:337-349 | the inserts marked as new are exactly those bringing an id the script did not hold before their operation |
| `ProjectionSoundness.RemapOperationIndexes` | server/tool_runtime.py:2332-2350 | every problem keeps its place; its index and its paths are rewritten to public operations |
| `ProjectionSoundness.ProblemsNameTheirOperation` | server/tool_runtime.py:2336-2348 | a problem at a projected command is reported at the public operation the command came from |
| `ProjectionSoundness.DuplicateIdsDefeatSplits` | lib/script/script_batch_edit.py:732-733 | with a second item under its id, a split that succeeds directly is refused when projected, on every script |
| `PatchProjection.ProjectPatchOperations` | server/tool_runtime.py:2209-2329 | the loop over operations yields the three lists of the projection, and refuses exactly where it does |
| `EditMeaning.DirectMeans` | lib/script/script_editor.py:150-300 | a public edit goes through exactly when a script is meant by it, and yields that script. Meant are: the edits set in turn, each changing only what its path leads to; the new item right behind the first with the anchor's id, with a new id, its fields and no media; the moved item behind its anchor and the others in order; all but the removed one; the parts where the item stood, the first with its id and media |
| `EditMeaning.DirectRunMeans` | server/tool_runtime.py:2209-2329 | a batch of public edits goes through exactly when its operations can be meant one after another |
| `EditMeaning.RefusedAtFirst` | server/tool_runtime.py:2209-2329 | a refusal names the first operation that can mean nothing |
| `EditMeaning.RefusedForReason` | lib/script/script_editor.py:68-72 | the reason a refusal gives is found in the script and the operation |
| `EditMeaning.SetsIsSetNested` | lib/script/script_editor.py:97-147 | setting a path succeeds exactly when its parents are objects that are there, and changes exactly what the path leads to |
| `EditMeaning.NewIdIsNew` | lib/script/script_editor.py:163-193 | the new id has the script's episode, else that of the first well-formed id, and the least number above all of that episode's whose id is free |
| `EditMeaning.ParseExactly` | lib/script/script_editor.py:160-160 | which ids are read as an episode, a letter and a number, and as which |
| `EditMeaning.SuffixedIsNext` | lib/script/script_editor.py:79-94 | a part's id is what precedes the first underscore with the least free suffix from one on |
| `PatchProjection.AppendCommands` | server/tool_runtime.py:2240-2327 | one round of the loop appends the commands of the operation just previewed |
| `PatchProjection.AppendReinsertions` | server/tool_runtime.py:2319-2327 | each part is inserted behind the one before it; all but the first are new identities |
| `PatchProjection.SplitLandsInPlace` | lib/script/script_editor.py:232-289 | the parts stand where the item stood, the first still found under its id |
| `ScriptEditor.CountUp` | lib/script/script_editor.py:173-193 | counting up ends, at the first number whose id is free |
| `ScriptEditor.NewItemId` | lib/script/script_editor.py:173-193 | a new item's id is not taken |
| `ScriptEditor.NextSuffixedId` | lib/script/script_editor.py:79-94 | a split part's id is not taken |
| `ParamSubstitution.SubstitutedTestRunsAlike` | scripts/audit_tests.py:1667-1706 | a body that rebinds no parameter, run with its parameters bound to a row of literals, and the body with the literals in place: the same verdict after the same exchange with outside code (calls, arguments, callbacks and what they return), for every world and however far evaluation is followed |
| `ParamSubstitution.RunCommutes` | scripts/audit_tests.py:1667-1677 | statement lists: evaluation commutes with substitution from every corresponding pair of states, closures included |
| `ParamSubstitution.EvalCommutes` | scripts/audit_tests.py:1667-1677 | expressions: the same |
| `ParamSubstitution.ApplyCommutes` | scripts/audit_tests.py:1667-1677 | calls of functions the body defines, directly or handed back, and of outside code: the same |
| `ParamSubstitution.ConverseCommutes` | scripts/audit_tests.py:1667-1677 | outside code that calls functions of the body back, any number of times and nested: it sees the same, so it does the same |
| `ParamSubstitution.CodeScope` | scripts/audit_tests.py:1687-1706 | substitution changes no scope, and code without rebinding has no parameter as a local |
| `ParamSubstitution.BodyRebindsByNode` | scripts/audit_tests.py:1687-1721 | a body rebinds a parameter exactly if one of the nodes of its tree does, parameters of nested functions included |
| `ParamSubstitution.LiteralExactlyWhen` | scripts/audit_tests.py:1631-1637 | literals are exactly the expressions of constants and displays alone that evaluate |
| `ParamSubstitution.RebindingDefeatsSubstitution` | scripts/audit_tests.py:1687-1692 | the guard is needed: a body that rebinds a parameter can fail where the substituted one passes |
| `ParamSubstitution.ParametrizeRows` | scripts/audit_tests.py:1640-1664 | the rows are read exactly when the table is not empty and every entry is literal and, beyond one parameter, a tuple or list of that many |
| `ParamSubstitution.ExpandedBodies` | scripts/audit_tests.py:1709-1729 | a map exactly when the table can be read and nothing rebinds; its keys are exactly the bodies with, for some row, each parameter replaced by the literal in its place, each with the first such row |
| `ParamSubstitution.ReportedDuplicateRunsAlike` | scripts/audit_tests.py:1834-1856 | a plain test reported as a duplicate does what the parametrised test does with its parameters bound in their order to the literals of the reported row |
| `Coverage.CoversSourceVerbatim` | server/text_generation.py:1461-1478 | the cursor scan accepts if and only if some choice of zero or one space at each joint makes the joined parts the source, for parts that do not begin with a space; what it accepts is always covered |
| `Coverage.GreedyIsCovers` | server/text_generation.py:1464-1465 | spending a space at the first joint that meets it loses no solution |
| `Coverage.HonestSegmentationPasses` | server/text_generation.py:1585-1591 | cut any text anywhere into consecutive chunks and normalise each: the scan accepts them against the normalised text |
| `Coverage.AcceptsExactlyTheHonest` | server/text_generation.py:1585-1591 | the check accepts exactly the segments that have the normal forms of some such cut |
| `Coverage.NovelTextCovered` | server/text_generation.py:1590-1591 | the whole check, as the violation collector runs it |
| `Coverage.NormalizeIsScan` | server/text_generation.py:1440-1448 | collapsing and stripping is one left-to-right scan |
| `Coverage.NormalizeIdempotent` | server/text_generation.py:1440-1448 | normalising twice changes nothing more |
| `Coverage.GreedyDecidesExactlyWhen` | server/text_generation.py:1461-1478 | for a given list of parts the scan gives the declarative answer on every source if and only if no part after the first begins with a space |
| `Coverage.LeadingSpaceDefeatsGreedy` | server/text_generation.py:1464-1465 | whenever a later part does, the parts put together without spaces are covered and the scan refuses them |
| `SseFeed.PromiseAlwaysHolds` | server/sse_channel.py:56-132 | whatever happens after subscribing: under eviction consumed and queued items are an in-order subsequence of the broadcasts with every critical one, and what a removed subscriber consumed is one that skips no critical item before its last; under dropping they are exactly the broadcasts, and after removal a prefix; the bound holds; a removed subscriber finds only end of stream |
| `SseFeed.BroadcastKeepsEvicting` | server/sse_channel.py:68-106 | one broadcast keeps the evicting promise, also when a queued item makes room |
| `SseFeed.BroadcastKeepsDropping` | server/sse_channel.py:120-128 | one broadcast keeps the dropping promise |
| `SseFeed.RemovedExactlyWhen` | server/sse_channel.py:205-212 | a broadcast costs a subscription exactly when the queue is full and, under eviction, item and queue are all critical |
| `SseFeed.BroadcastDelivers` | server/sse_channel.py:68-128 | what one broadcast does to a queue, under both policies: with room the item is appended, whatever it is; a full queue costs the subscription, or under eviction the item if not critical, else the first queued one that is not, else the subscription |
| `SseFeed.EveryLossHasItsFullQueue` | server/sse_channel.py:56-112 | in every history of a subscriber not removed, consumed and queued are items broadcast in their order, and every other one met a full queue or was evicted, not being critical, by a critical one that did |
| `SseChannel.Queue.EvictOneNonCritical` | server/sse_channel.py:89-106 | draining and refilling removes the first item that is not critical and keeps the order of the others |
| `SseChannel.Queue.EndStream` | server/sse_channel.py:44-53 | the queue holds the end of the stream and nothing else |
| `SseChannel.SseChannel.Subscribe` | server/sse_channel.py:167-184 | a new empty queue joins, no other is touched |
| `SseChannel.SseChannel.Unsubscribe` | server/sse_channel.py:196-203 | only that queue leaves |
| `SseChannel.SseChannel.Broadcast` | server/sse_channel.py:205-212 | every live subscriber's queue changes as its own delivery says, whatever the others do, and nobody else's changes |
| `SseChannel.SseChannel.Consume` | server/sse_channel.py:214-229 | one step of the iteration: head, end of stream, or idle |
| `ReloadOrder.LatestReadWins.Begin` | lib/catalog/reload_order.py:19-21 | tickets are handed out in order |
| `ReloadOrder.LatestReadWins.Finish` | lib/catalog/reload_order.py:22-26 | installs unless a later-begun reload has installed |
| `ReloadOrder.FreshAgainstFinished` | lib/catalog/reload_order.py:8-26 | over every interleaving installs happen in increasing ticket order, and the content is at least as new as the table when any finished reload began |
| `ReloadOrder.FollowedCommitShows` | lib/catalog/reload_order.py:11-12 | a commit followed by a reload shows once that reload has finished |
| `ReloadOrder.SettledContent` | lib/catalog/reload_order.py:8-26 | once all reloads are done, failed ones included, the latest that did not fail is installed and as new as the table when any that did not fail began |
| `ReloadOrder.ContentMayStepBack` | lib/catalog/reload_order.py:22-26 | the installed content itself may step back in between |
| `ReloadOrder.StepsBackExactlyInDanger` | lib/catalog/reload_order.py:22-26 | at any point of any run, finishing what has been read can make it step back exactly if a later reload that may still install has read less than an earlier one that may, or than is installed |
| `ReloadOrder.DangerArisesExactly` | lib/catalog/reload_order.py:19-26 | that comes about exactly by a read overtaken by a later reload that read an older table, and only finishing ends it |
| `ReloadOrder.ContentNeverStepsBack` | lib/catalog/reload_order.py:11-12 | in every run without an overtaken read the content never steps back, nor can it |
| `ReloadOrder.OvertakenReadStepsBack` | lib/catalog/reload_order.py:22-26 | every overtaken read of any run can be followed by a step back |
| `PlanningChain.PlanningIsSerial` | server/tool_runtime.py:2780-2807 | in every reachable state at most one window runs and each slot holds at most one active one |
| `PlanningChain.StopEndsEveryChain` | server/tool_runtime.py:3169-3193 | after a stop, whatever happens next, no window of a chain there was is queued, may queue a successor or begins; the running one is left running |
| `PlanningChain.RunningWindowCompletes` | server/tool_runtime.py:3165-3167 | the window running at a stop can still return and succeed |
| `PlanningChain.RestartIsAbsorbed` | server/tool_runtime.py:731-739 | asking for the same planning again while the stopped first-slot window runs changes nothing |
| `PlanningChain.SuccessorIsQueued` | server/tool_runtime.py:2789-2807 | an executing chained window that is not stopped, the other slot being free, adds exactly one window: queued in the other slot, depending on it, with its payload; otherwise nothing changes |
| `PlanningChain.SuccessorBecomesClaimable` | lib/db/repositories/task_repo.py:502-537 | in every run without stop, failure or cancellation, a successor keeps its place until claimed, and can be claimed exactly once its predecessor has succeeded |
| `PlanningChain.PlanningGoesOn` | server/tool_runtime.py:2780-2807 | a window that may go on hands over in four steps to one that executes and may go on, everything else as it was |
| `PlanningChain.PlanningReachesAnyWindow` | server/tool_runtime.py:2780-2807 | from an empty queue, chains of any length are reachable, all windows before the last succeeded |
| `PlanningChain.PlanningIsStarted` | server/tool_runtime.py:712-748 | a request adds exactly one queued window in the first slot when nothing is active, and else changes nothing |
| `PlanningChain.LeavesWithItsDownstream` | lib/db/repositories/task_repo.py:720-743 | with a window that fails or is cancelled leave exactly those from which queued dependencies lead to it |
| `PlanningChain.NextKeepsInv` | lib/db/repositories/task_repo.py:502-537 | every step keeps: of two active windows one runs and the other waits for it in the other slot |
| `PlanningChain.LeavingKeepsInv` | lib/db/repositories/task_repo.py:720-743 | when a window fails or is cancelled, what waited for it leaves with it |
| `PlanningChain.PlanningQueue.Start` | server/tool_runtime.py:712-748 | conflict, joining and enqueueing, each exactly when |
| `PlanningChain.PlanningQueue.QueueNext` | server/tool_runtime.py:2789-2807 | the successor goes to the other slot unless stopped or the slot is taken |
| `PlanningChain.PlanningQueue.CancelTask` | lib/db/repositories/task_repo.py:786-865 | a queued window goes with its queued downstream; any other is left alone |
| `PlanningChain.PlanningQueue.Stop` | server/tool_runtime.py:3169-3193 | cancels exactly the queued windows and marks exactly the running ones |
| `TaskGraph.Downstream` | alembic/versions/23c60be146cc_retire_cancelling_task_status.py:54-60 | the recursive query ends, on cycles too, with exactly what a chain of queued dependencies reaches |
| `CancellingMigration.TaskTable.Upgrade` | alembic/versions/23c60be146cc_retire_cancelling_task_status.py:48-84 | the statements in their order, and the narrower index can be created |
| `CancellingMigration.CancelsExactlyTheDoomed` | alembic/versions/23c60be146cc_retire_cancelling_task_status.py:51-69 | a queued row is cancelled exactly when a chain of queued dependencies leads to a cancelling one |
| `CancellingMigration.SettlesTheCancelling` | alembic/versions/23c60be146cc_retire_cancelling_task_status.py:72-82 | a cancelling row is cancelled; who cancelled it and when it ended are kept if recorded |
| `CancellingMigration.NothingIsStranded` | alembic/versions/23c60be146cc_retire_cancelling_task_status.py:49-82 | no row is left cancelling and no surviving queued row depends on one this upgrade cancelled |
| `CancellingMigration.NarrowerIndexHolds` | alembic/versions/23c60be146cc_retire_cancelling_task_status.py:29-45 | uniqueness of active keys carries over to the narrower index |
| `CancellingMigration.CascadeFollowsItsCause` | alembic/versions/23c60be146cc_retire_cancelling_task_status.py:54-66 | what a cascaded row depends on ends cancelled too |
| `CancellingMigration.SettlingFirstDoomsNothing` | alembic/versions/23c60be146cc_retire_cancelling_task_status.py:49-50 | in the other order the cascade would find nothing |
| `ClassHierarchy.Inherited` | scripts/audit_tests.py:452-464 | ends with exactly the least set with the seeds closed under local bases |
| `ClassHierarchy.ResolveUnittestCases` | scripts/audit_tests.py:362-392 | the same for unittest cases and the import aliases |
| `ClassHierarchy.JoinsIffUnittestBase` | scripts/audit_tests.py:395-401 | a class joins exactly through a base that is a known class or a dotted unittest base |
| `ClassHierarchy.ImportsMakeModulesKnown` | scripts/audit_tests.py:362-381 | which names plain imports make known as the unittest module |
| `ClassHierarchy.ImportsMakeCasesKnown` | scripts/audit_tests.py:362-381 | which names imports from it make known as its case classes |
| `ClassHierarchy.LeastIsUnique` | scripts/audit_tests.py:382-392 | there is only one such least set |
| `ClassHierarchy.FlagFoundIffInherited` | scripts/audit_tests.py:480-491 | the flag search ends on cyclic hierarchies and finds a value exactly when an ancestor carries one, and one of those |
| `ClassHierarchy.OptOutWins` | scripts/audit_tests.py:496-503 | among classes of one name any opt-out wins, and without an explicit value there is none |
| `ClassHierarchy.ExplicitComesFrom` | scripts/audit_tests.py:467-486 | an assignment outside the class body wins over the bodies of that name, of which any opt-out wins |
| `ClassHierarchy.FirstExplicitInDepthFirstOrder` | scripts/audit_tests.py:473-491 | where no class leads back to itself, it finds the first explicit value in depth-first base order |
| `ClassHierarchy.OptedOutExactlyWhen` | scripts/audit_tests.py:467-493 | where no class leads back to itself, the opted-out classes are those whose first explicit value, depth first, opts out |
| `ClassHierarchy.AcyclicExactlyWhenRanked` | scripts/audit_tests.py:480-491 | no class leads back to itself if and only if there is a rank that falls from every class to its bases |
| `ClassHierarchy.OptedOutInherit` | scripts/audit_tests.py:470-493 | on every hierarchy an opted-out class can reach an opt-out, an explicit class is taken at its word, and where no reachable class opts in the opted-out are exactly those that reach an opt-out |
| `MemoryIndex.UnchangedIffWithinLimits` | lib/agent/agent_memory_index.py:45-65 | the stripped text comes back unchanged exactly when it is within both limits |
| `MemoryIndex.StatsCount` | lib/agent/agent_memory_index.py:45-50 | the figures are the newlines plus one and the octets of the stripped text, zero for a blank one, and over the limit beyond 200 or 25000 |
| `MemoryIndex.KeptWithinLimits` | lib/agent/agent_memory_index.py:67-73 | the kept text is a proper prefix within both limits, and the longest of its kind: whole lines with their newline, or whole code points when the head has no newline |
| `MemoryIndex.OctetCut` | lib/agent/agent_memory_index.py:69-73 | what the octet cut keeps, exactly |
| `MemoryIndex.FirstLinesCut` | lib/agent/agent_memory_index.py:67-67 | the first lines are a prefix with that many lines |
| `Utf8.CutThenDecode` | lib/agent/agent_memory_index.py:70-73 | cutting octets anywhere and decoding loses only the code point cut through |
| `Utf8.RoundTrip` | lib/agent/agent_memory_index.py:68-73 | decoding encoded text gives the text |
| `ApiKeyCache.RunInvariant` | server/auth.py:330-347 | in every run at most 512 distinct keys, each with the last store of its key |
| `ApiKeyCache.HitIsFresh` | server/auth.py:317-347 | a hit returns the last value stored, never after an invalidation, at most 300 seconds later, and a positive one never past the key's own expiry |
| `ApiKeyCache.HitExactlyWhen` | server/auth.py:317-347 | in every run, a key on file is hit exactly until its last store lapses (with the key, at most 300 seconds on), and serves what that store recorded |
| `ApiKeyCache.StoreHits` | server/auth.py:330-347 | a store is served from then on, exactly until it lapses |
| `ApiKeyCache.StaysUnlessRemoved` | server/auth.py:312-347 | an entry leaves only by invalidation, by a look after it lapsed, by eviction from the head of a full order, or replaced |
| `ApiKeyCache.RunOrdered` | server/auth.py:300-303 | the order of the entries is the order of last touches in every run |
| `ApiKeyCache.EvictsLeastRecentlyTouched` | server/auth.py:336-338 | a full cache evicts the entry touched longest ago |
| `ApiKeyCache.StoreRefreshesIffAbsent` | server/auth.py:336-347 | storing an existing key does not move it, unless eviction has just removed it |
| `ApiKeyCache.Cache.Get` | server/auth.py:317-327 | hit, miss and removal of a lapsed entry, with the whole new order |
| `ApiKeyCache.Cache.Set` | server/auth.py:330-347 | eviction at capacity even for an existing key, the entry's lifetime, the whole new order |
| `ApiKeyCache.Cache.Evict` | server/auth.py:336-338 | at capacity exactly the head goes, so there is room |
| `ApiKeyCache.Cache.Assign` | server/auth.py:344-347 | an existing key keeps its place, a new one goes to the end |
| `ApiKeyCache.Cache.Invalidate` | server/auth.py:312-314 | the key is gone, nothing else is |

## Left out

- File locks, atomic writes, transactions and crash recovery: each locked section is one step.
- The draft of prompt authoring, which depends on the formal plan, and its clearing when the plan changes.
- Renaming assets rewrites drafts in place, and starting over from blank clears them without a revision; both are outside the protocol's steps.
- Validation itself (schemas, speech, durations, references, source ranges), model calls, prompts and message wording: arbitrary functions, or not represented.
- The steps of confirming a plan (structure checks, materialising the script): only that a fingerprint gets recorded, at any time.
- SHA-256: fingerprints are injective by construction. Unicode NFC: texts are taken as normalised already.
- Meta keys of a draft besides source, base and edit mark; the envelope's schema version counts only towards the file revision.
- ProjectionPreservesMeaning: the two markers the batch editor recomputes (pending authoring, needs replanning) are compared on neither side, and how it computes them is left open.
- ExpandedBodies: unparsing is taken to be injective, so bodies themselves are the keys; of what counts as a literal, the call `set()` and dictionary spreads are left out.
- SubstitutedTestRunsAlike: lists, sets and dictionaries are values nothing changes in place; a test that mutates a literal of its row lies outside. So do class statements, `with`, `match`, `global`, `del`, generators, defaults, decorators, attribute or subscript targets, `locals`, `exec` and identity; operators applied to functions of the test are errors, and such a function handed out twice counts as two.
- Item ids with digits other than ASCII ones or a final newline, which the source's pattern would also read.
- KeptWithinLimits: the notice appended to the kept text is not counted by the code either; its wording is not modelled.
- Cancellation of a waiting `get`, timers and lifecycle hooks of the channel: a consuming step takes the head or idles.
- The window between the check for active tasks and the enqueue, requeueing at restart, and other projects, users and providers on the queue.
- Restoring the old index in the downgrade, other migrations, the rest of the audit script, JWT and passwords, HTTP wiring and the frontend.
