# Verification of the audit workspace

A Dafny model of the parts of the repository whose correctness is an argument rather than a reading: the build
scheduler, the greedy comparison of two finding lists, the transactional apply loop, the host rate limiter, the
workspace lock, the architecture-anchor tools, correlation and report order, trend accounting, document-read
coverage, the code-graph watcher, and issue filing.

`dafny verify dfyconfig.toml` checks the whole project.

## How it is organised

Code that changes things step by step is a method with loops, or a class whose methods change its fields; each is
proved equal to a function or predicate over values, and the promises are lemmas about those. Protocols of several
processes, and programs cut into segments by `await`, are state machines over their steps, with invariants proved
for every reachable state. The modules named for an order, a rate, an outcome or a meaning state what the functions of
their area come to without using them, so that those functions are fixed by more than their own text.

| area | modules |
|---|---|
| shared | `Prelude`, `Sorting` (a stable comparison sort and what characterises it), `Arithmetic` |
| build scheduler | `DependencyGraph`, `Chunks`, `Rounds` (the frontier loop on ids, repeated ids included), `Layers`, `FirstFit`, `Waves`, `ScheduleProperties`, `WaveOrder` (the order of waves and entries), `Plan` |
| finding comparison | `Matching`, `MatchMeaning` |
| apply loop | `TextEdits`, `AnchorApply`, `ApplySpec`, `ApplyProperties`, `ApplyGate` (what may be applied), `ApplyOutcomes` (how each finding ends), `Coordinators` |
| rate limiter | `TokenBuckets`, `TokenRates` (lower bounds), `HostQueue`, `HostRates` |
| workspace lock | `Locks`, `LockProtocol`, `LockProgress`, `LockRace`, `FixStatus` |
| anchors | `Markdown`, `CommonMark`, `Slugs`, `Generator`, `Sections`, `AnchorMeaning`, `SectionMeaning` |
| correlation and report | `Severities`, `Correlation`, `CorrelationProperties`, `Reports`, `ReportMeaning` |
| trend, coverage | `Trends`, `TrendHistory`, `TrendMeaning`, `Intervals`, `IntervalOrder`, `DocReads`, `ReadMeaning` |
| watcher | `Watcher`, `WatcherImports`, `WatcherMeaning`, `ReverseIndex` |
| issue filing | `Filing`, `FilingMeaning` |

## What is assumed

- Collation (`localeCompare`, with or without `numeric`) is a total preorder. Where a result is said to be
  independent of input order, it is also assumed to tell the keys at hand apart: "1" and "01" tie under numeric
  collation, and then the order of the input shows.
- The frontier loop of the scheduler ends. Distinct ids, which an accepted plan has, are enough
  (`Rounds.DistinctSettles`); `Rounds.SettlesIff` says exactly when it ends. What a schedule guarantees is stated for
  distinct ids, the only ones with a schedule. Case folding is a function on file names.
- Findings that are correlated have distinct fingerprints and distinct ids. An id is only the first 16 hex digits of
  a fingerprint, so the second does not follow from the first.
- Scores, shares and time are exact rationals. Clocks do not run backwards; `rps` is a positive integer.
- The liveness probe calls a process dead only when no living process has its id, and a live holder refreshes its
  heartbeat within five intervals.
- Verification and acceptance commands do not change files. They may answer differently from one call to the next;
  the model gives each call its number.
- A search for issues reflects issues created before it and answers with one page in any order.

## Where the code differs from what is written or expected

The model follows the code; each of these has a lemma.

- An edit whose anchor is not unique must fail (`scripts/review-coordinator/applyFindings.ts:260-263`), but
  occurrences are counted without overlaps, so `"aa"` counts once in `"aaa"`. The two agree on every text exactly
  for anchors without a border (`TextEdits.OnceIsUniqueIffUnbordered`).
- All edits of a finding are to be applied atomically (`scripts/review-coordinator/applyFindings.ts:260-263`), but each
  is computed from the file as it was before the finding, and whole contents are written. Of two edits of one file
  the earlier is lost and success is reported (`AnchorApply.EarlierEditLost`); all edits land if and only if no two
  make different things of one file (`AnchorApply.EveryEditLandsIff`).
- The gate is said to demand the triage hint `technical` (`scripts/review-coordinator/applyFindingsPure.ts:136`), but it
  only refuses two other hints. A finding that passes all other sub-checks passes exactly when its hint is `technical`
  if and only if its hint is one of the three (`ApplyGate.TriageTextIff`).
- Of overlapping findings the one whose id sorts lowest is to be kept
  (`scripts/review-coordinator/applyFindingsPure.ts:193-230`); the code keeps the first of the list
  (`ApplyGate.FirstIsKept`).
- A failed finding is rolled back to "exact pre-apply bytes" (`scripts/review-coordinator/applyFindings.ts:617`), but
  only `affected_files` are snapshotted. The rollback is exact if and only if every file an edit changes is listed
  (`AnchorApply.RollbackExact`).
- The host queue "must still advance" after an error (`src/live/ratelimit.ts:128`). It does for a rejected promise,
  but when `fn` throws before returning one, the chain stays rejected: call, call, throw, and the second family never
  starts (`HostQueue.ThrowBlocks`). In every run a host's queue always goes on if and only if none of its families
  threw before returning a promise (`HostQueue.QueueAdvancesIff`).
- Re-recording a run is called idempotent (`src/report/trend.ts:259`), and the previous run is said to be the most
  recent non-current one (`src/report/trend.ts:213`). The exported functions compare a re-recorded run with its own
  stored report, so its new and fixed counts become zero (`TrendHistory.RerunChangesTheFile`); the file is unchanged
  exactly when they were zero already (`TrendHistory.RerunIdempotentIff`). This concerns callers of those functions
  that use a run id again: the command line makes a fresh id for every run (`src/cli.ts:793`), and the server refuses
  an id it knows (`src/ui/server.ts:890`).
- The mask is described by CommonMark section 4.4 (`scripts/audit-context-packs.ts:152-160`). It marks exactly the
  code lines of sections 4.4 and 4.5 of CommonMark if and only if no indented line stands directly below a heading, a
  break or a closing fence, and no blank line trails an indented block (`CommonMark.AgreesIff`); three short documents on
  which it does not are in `CommonMark.MaskDeparts`.
- A lock may be broken only when its holder is gone (`src/report/lock.ts:86-92`). With the read, the unlink and the
  retry of two processes interleaved, the second breaker removes the first one's new lock and both hold it
  (`LockRace.TwoBreakersRace`). Whatever decides who may unlink when, all runs are exclusive if and only if no live
  holder's file is ever unlinked (`LockRace.ExclusiveIff`). With a given set of processes that break locks they are if
  and only if it has at most one member (`LockRace.BreakersIff`), and in the code everybody may; looking again in the
  step of the unlink would be safe (`LockRace.RecheckingKeeps`).
- `topologicalLayers` "throws on cycle or unknown dependency id" (`scripts/build-scheduler/computeWaves.ts:81`) and
  is silent on repeated ids, which it does not reject. With them it never succeeds (`Rounds.RepeatedNeverPlaced`):
  it reports a cycle whether there is one or not, or its frontier goes round for ever (`Rounds.TakingTurns`), the
  latter if and only if the edges of all blocks hold a cycle among the ids whose last blocks lead into none
  (`Rounds.SettlesIff`). Plans that pass validation have distinct ids.
- A single search page is read (`src/fix/github.ts:173-174`): beyond 100 open labelled issues some answer of the
  search makes a second issue for a fingerprint that has one (`Filing.OneTooMany`, `Filing.PageIsTheLimit`).
- The watcher skips a file whose hash it has cached (`scripts/build-code-graph.ts:588-591`), and so keeps imports that
  were resolved before a file they name was known (`WatcherImports.StaleImports`); when they are still right is
  `WatcherImports.QuietImportsIff`.
- A file that the watcher could not read is known to it from then on (`scripts/build-code-graph.ts:848`), and, not being
  in the cache, is not forgotten when it is deleted (`scripts/build-code-graph.ts:840-846`): the known files, against which
  imports are resolved, are those of the cache and those skipped as unreadable that have not been in the cache since
  (`WatcherMeaning.KnownExactly`).
- The merged length of a document's reads is "the total covered length" (`scripts/lib/docReadAuditPure.ts:181`). With
  a negative `limit` an interval runs backwards; the total is then the number of covered lines less what backward
  intervals that open a group take off (`Intervals.MergedMeasures`), so it is that number if and only if none does
  (`Intervals.MergedIsMeasureIff`), for one read if and only if its limit is absent or not negative
  (`DocReads.OneReadMeasuredIff`). It then depends on the order of the reads exactly in the case of
  `IntervalOrder.OrderFreeIff`. With a negative `offset` a session can cover more lines than the document has;
  `DocReads.SessionFitsIff` says when it does not.

## Model

| member | source | states |
|---|---|---|
| `Layers.BuildSuccessors` | scripts/build-scheduler/computeWaves.ts:102-115 | the successor lists hold exactly the reversed dependency edges; of several blocks with one id the last decides its in-degree |
| `Layers.NextFrontier` | scripts/build-scheduler/computeWaves.ts:129-144 | whatever the plan, the ids of the next frontier are those some block of which depends on the last layer and whose last block has all dependencies placed, once each in id order; with distinct ids, every chunk with a dependency in the last layer and all dependencies placed |
| `Layers.FindUnknown` | scripts/build-scheduler/computeWaves.ts:88-97 | an unknown dependency is reported if and only if some chunk names one, and it is one a chunk names |
| `Layers.TopologicalLayers` | scripts/build-scheduler/computeWaves.ts:87-157 | reports an unknown dependency if and only if one is named; otherwise, if the loop ends, succeeds if and only if ids are distinct and the dependency graph has no cycle: a chunk is then in layer k if and only if its longest dependency chain has length k. A cycle error names exactly the ids that were not placed, which with distinct ids are those that lead into a cycle |
| `DependencyGraph.LevelIsLongest` | scripts/build-scheduler/computeWaves.ts:123-145 | whatever the rounds place in round k has longest chain exactly k, and no other length |
| `DependencyGraph.SustainedHasCycle` | scripts/build-scheduler/computeWaves.ts:147-154 | a non-empty unplaced set, each member of which depends on another member, contains a cycle (pigeonhole) |
| `Layers.LeftoverIsCyclic` | scripts/build-scheduler/computeWaves.ts:147-154 | the unplaced chunks contain a cycle, and are exactly those with dependency chains as long as the plan |
| `Layers.LayersCanonical` | scripts/build-scheduler/computeWaves.ts:119-144 | the layers are the same for every input order of the chunks |
| `Rounds.SettlesIff` | scripts/build-scheduler/computeWaves.ts:99-145 | for any plan without unknown dependencies, the frontier loop ends if and only if the edges of all blocks hold no cycle among the ids whose last blocks lead into none |
| `Rounds.DistinctSettles` | scripts/build-scheduler/computeWaves.ts:99-145 | with distinct ids it always ends |
| `Rounds.SettledPlaced` | scripts/build-scheduler/computeWaves.ts:99-145 | when it ends it has placed exactly the ids whose last blocks lead into no cycle |
| `Rounds.RepeatedNeverPlaced` | scripts/build-scheduler/computeWaves.ts:147-154 | with repeated ids fewer ids are placed than there are blocks, so the plan is never accepted |
| `Rounds.TakingTurns` | scripts/build-scheduler/computeWaves.ts:99-145 | three blocks on which the frontier alternates between two ids for ever, and whose other order has an empty first frontier |
| `FirstFit.PackPartitions` | scripts/build-scheduler/computeWaves.ts:184-278 | packing a layer loses and repeats no chunk |
| `FirstFit.PackSound` | scripts/build-scheduler/computeWaves.ts:187-209 | every sub-wave is non-empty, within the cap and free of conflicts |
| `FirstFit.BlockedCount` | scripts/build-scheduler/computeWaves.ts:190-211 | when every sub-wave rejects a chunk, at most as many of them as it has conflicts are not full, so that the others are worth the cap each |
| `FirstFit.FirstFitBound` | scripts/build-scheduler/computeWaves.ts:184-278 | n chunks of conflict degree at most d give at most 1 + d + (n - 1) / cap sub-waves |
| `FirstFit.NoConflictExact` | scripts/build-scheduler/computeWaves.ts:184-278 | without conflicts the number of sub-waves is n / cap rounded up |
| `Waves.HasResourceConflict` | scripts/build-scheduler/computeWaves.ts:62-68 | true if and only if the two chunks share an exclusive resource |
| `Waves.HasFileConflict` | scripts/build-scheduler/computeWaves.ts:71-77 | true if and only if two declared files are the same up to case |
| `Waves.PackLayer` | scripts/build-scheduler/computeWaves.ts:181-286 | the nested loops with early exits produce the first-fit packing and the reasons of its specification |
| `Waves.ComputeWaves` | scripts/build-scheduler/computeWaves.ts:163-289 | fails on a cap below one, on an unknown dependency, with a cycle error on repeated ids, and for distinct ids if and only if there is a cycle; otherwise yields the schedule of the exact layers, waves and entries in the order stated by `WaveOrder` |
| `ScheduleProperties.ScheduleSound` | scripts/build-scheduler/computeWaves.ts:163-289 | waves partition the chunks, hold between one and cap of them in id order, share no file or resource inside, and put every dependency in a strictly earlier wave |
| `ScheduleProperties.ScheduleCanonical` | scripts/build-scheduler/computeWaves.ts:52-59 | schedules of the same chunks in any two orders are equal, reasons included |
| `ScheduleProperties.ReasonMeaning` | scripts/build-scheduler/computeWaves.ts:211-276 | a chunk that joins a sub-wave has no reason; one that opens a later sub-wave has exactly one: a resource clash if there is any, else a file clash with the named chunk, and cap-spill if and only if it conflicts with no earlier member of the layer, all sub-waves then being full |
| `ScheduleProperties.EntriesOfChunk` | scripts/build-scheduler/computeWaves.ts:176-288 | the entries of a schedule that name a chunk are exactly those of its place in its layer; the first chunk of a layer has one, a dependency, exactly when it is alone in a later layer |
| `ScheduleProperties.EntriesNameChunks` | scripts/build-scheduler/computeWaves.ts:176-288 | every entry names a chunk of the plan |
| `ScheduleProperties.ScheduleReasonCount` | scripts/build-scheduler/computeWaves.ts:176-288 | the number of reasons is waves minus layers plus single-chunk layers after the first |
| `ScheduleProperties.ClashIsConflict` | scripts/build-scheduler/computeWaves.ts:62-77 | two chunks conflict if and only if they share an exclusive resource or two of their files are the same up to case |
| `WaveOrder.LayersInOrder` | scripts/build-scheduler/computeWaves.ts:119-145 | in every schedule a chunk whose longest dependency chain is shorter runs in a strictly earlier wave |
| `WaveOrder.EarlierWavesRefuse` | scripts/build-scheduler/computeWaves.ts:190-211 | first fit over the schedule itself: in every earlier wave of its layer the chunks before a chunk in id order number the cap, or one of them clashes with it |
| `WaveOrder.NamedRunsEarlier` | scripts/build-scheduler/computeWaves.ts:211-276 | an entry that names a conflict names a chunk in a strictly earlier wave |
| `WaveOrder.NamedIsFirst` | scripts/build-scheduler/computeWaves.ts:211-276 | it names the first chunk of the layer that clashes in that way, by wave and then by id |
| `WaveOrder.EntriesInOrder` | scripts/build-scheduler/computeWaves.ts:176-288 | entries are listed by layer and then by id |
| `Plan.ValidatePlanMetadata` | scripts/build-scheduler/validatePlanMetadata.ts:288-409 | accepts exactly the lists whose blocks have distinct ids, files, known dependencies and well-formed resources; otherwise the errors name exactly the blocks and fields at fault |
| `Plan.AcceptedIsSchedulable` | scripts/build-scheduler/validatePlanMetadata.ts:288-409 | an accepted plan meets the scheduler's demands: distinct ids, no unknown dependency, and a loop that ends |
| `Plan.AcceptedMeans` | scripts/build-scheduler/validatePlanMetadata.ts:288-409 | the accepted lists written out block by block |
| `Matching.Jaccard` | scripts/chatgpt-reviewPure.ts:2130-2136 | size of the intersection over size of the union, zero for two empty sets |
| `Matching.AffectedFilesOverlap` | scripts/chatgpt-reviewPure.ts:2138-2145 | shared files over the smaller set, zero if either is empty |
| `Matching.Candidates` | scripts/chatgpt-reviewPure.ts:2160-2168 | exactly the pairs at or above the threshold, once each, in the order the two loops meet them |
| `Matching.Take` | scripts/chatgpt-reviewPure.ts:2171-2180 | the loop over used indices reports the greedy choice |
| `Matching.CompareFindingSets` | scripts/chatgpt-reviewPure.ts:2147-2201 | the whole comparison with its defaults: overlap, both leftovers and the summary belong to one greedy choice, and every match scores the title weight times shared over all title words plus the rest times shared files over the smaller file set, and at least the threshold |
| `Matching.LeftoverCounts` | scripts/chatgpt-reviewPure.ts:2182-2200 | each side's leftovers are its findings minus the matched ones |
| `Matching.ChosenIsStableMatching` | scripts/chatgpt-reviewPure.ts:2159-2180 | the choice uses each finding at most once, and every eligible pair meets a chosen pair of at least its score |
| `Matching.ChosenIsHalfOptimal` | scripts/chatgpt-reviewPure.ts:2159-2180 | no matching of eligible pairs has more than twice its total score or more than twice its size |
| `Matching.FactorTwoIsTight` | scripts/chatgpt-reviewPure.ts:2159-2180 | the factor two is attained |
| `Matching.ScoreInUnit` | scripts/chatgpt-reviewPure.ts:2153-2166 | for a title weight between zero and one a score is between zero and one |
| `MatchMeaning.TitleAloneIff` | scripts/chatgpt-reviewPure.ts:2160-2168 | an equal non-empty title with no files to compare makes a candidate if and only if the title weight reaches the threshold |
| `MatchMeaning.FilesAloneIff` | scripts/chatgpt-reviewPure.ts:2160-2168 | equal files with disjoint titles make one if and only if the rest of the weight does |
| `MatchMeaning.DefaultsDecide` | scripts/chatgpt-reviewPure.ts:2147-2168 | with the defaults a title alone matches and files alone do not |
| `MatchMeaning.FirstComeFirstMatched` | scripts/chatgpt-reviewPure.ts:2169-2180 | an eligible pair that is not chosen meets a chosen one that scores more, or as much and comes first in the order of the lists |
| `MatchMeaning.ChoiceIsUnique` | scripts/chatgpt-reviewPure.ts:2159-2180 | there is only one matching of eligible pairs with that property |
| `MatchMeaning.DeltasMean` | scripts/chatgpt-reviewPure.ts:2100-2200 | deltas by points of severity, their mean, and counts that are those of the lists and add up |
| `MatchMeaning.UnusedAre` | scripts/chatgpt-reviewPure.ts:2182-2187 | the leftovers are the findings at unmatched positions, each once, in input order |
| `TextEdits.CountOccurrences` | scripts/review-coordinator/applyFindings.ts:335-345 | counts the occurrences met when each search resumes behind the previous hit |
| `TextEdits.CountedOnceMeans` | scripts/review-coordinator/applyFindings.ts:302-318 | a count of one means: the anchor occurs, and every occurrence overlaps the first |
| `TextEdits.OnceIsUniqueIffUnbordered` | scripts/review-coordinator/applyFindings.ts:260-318 | the count of one is uniqueness on every text if and only if the anchor has no border |
| `TextEdits.OnceIsNotUnique` | scripts/review-coordinator/applyFindings.ts:335-345 | a concrete anchor accepted where it occurs twice |
| `TextEdits.ReplaceMeans` | scripts/review-coordinator/applyFindings.ts:320-322 | the first occurrence is replaced and nothing else |
| `AnchorApply.NoRefusal` | scripts/review-coordinator/applyFindings.ts:273-322 | a finding passes pre-validation if and only if each of its edits would on its own |
| `AnchorApply.LastEditWins` | scripts/review-coordinator/applyFindings.ts:276-327 | after a write each touched file holds what its last edit makes of the original content, and other files are untouched |
| `AnchorApply.EveryEditLandsIff` | scripts/review-coordinator/applyFindings.ts:260-327 | every edit of a finding lands, that is, its file ends up as what the edit makes of the original, if and only if no two edits make different things of one file |
| `AnchorApply.DistinctFilesLand` | scripts/review-coordinator/applyFindings.ts:276-327 | in particular edits of distinct files all land |
| `AnchorApply.EarlierEditLost` | scripts/review-coordinator/applyFindings.ts:276-327 | two accepted edits of one file, the first of which is lost |
| `AnchorApply.RestoredAt` | scripts/review-coordinator/applyFindings.ts:226-258 | snapshot then restore sets exactly the listed files that existed back, whatever happened in between |
| `AnchorApply.RollbackExact` | scripts/review-coordinator/applyFindings.ts:589-628 | undoing an applied finding gives back the very file map if and only if every file it changes is among its listed files |
| `AnchorApply.UncoveredLeavesEdits` | scripts/review-coordinator/applyFindings.ts:589-628 | a finding whose edit survives its own rollback |
| `ApplyProperties.KeptPartition` | scripts/review-coordinator/applyFindingsPure.ts:203-230 | every finding is kept or deferred, and only one of the two |
| `ApplyProperties.KeptIsMaximal` | scripts/review-coordinator/applyFindingsPure.ts:203-230 | kept findings share no file, and each deferred one shares a file with a kept one |
| `ApplyProperties.FrontEndKeeps` | scripts/review-coordinator/applyFindings.ts:436-576 | gate, manifest, overlap and batch cap change no file and make no commit, and account for every finding that is not in the batch |
| `ApplyProperties.RunConserves` | scripts/review-coordinator/applyFindings.ts:436-702 | every finding ends in exactly one of applied and surfaced, and causes exactly one audit entry that says which |
| `ApplyProperties.ApplyBatchClean` | scripts/review-coordinator/applyFindings.ts:584-651 | after every finding of the batch the files are the initial ones with exactly the successful findings written, of each finding the last edit of a file, and the last snapshot takes the last one back |
| `ApplyProperties.WalkBackClean` | scripts/review-coordinator/applyFindings.ts:657-690 | the walk-back keeps that |
| `ApplyProperties.RunFiles` | scripts/review-coordinator/applyFindings.ts:584-713 | the final files are the initial files with exactly the survivors written in batch order, of each survivor the last edit of a file; for each one of the verifications and one of the acceptance commands of this very run passed on the files right after it was written |
| `ApplyProperties.WalkBackVerified` | scripts/review-coordinator/applyFindings.ts:661-688 | if anything survives the walk-back, the last verification passed on the files as they now are |
| `ApplyProperties.RunCommits` | scripts/review-coordinator/applyFindings.ts:692-713 | a commit is made only with survivors and holds the final files; with survivors the run made a verification, and its last one passed on those very files |
| `ApplyProperties.SteadyNeverWalksBack` | scripts/review-coordinator/applyFindings.ts:653-690 | if verification depends on the files alone, nothing is ever walked back |
| `ApplyProperties.SuccessInOrder` | scripts/review-coordinator/applyFindings.ts:584-651 | successful findings keep the order of the batch |
| `ApplyGate.GateIs` | scripts/review-coordinator/applyFindingsPure.ts:125-190 | the gate gives the first of eight sub-checks that fails, each written out: known acceptance check, recommendation, eligibility and its reason, six risk domains, scope, two triage hints, suppression |
| `ApplyGate.TriageTextIff` | scripts/review-coordinator/applyFindingsPure.ts:136-179 | when the gate agrees with the demand for the hint `technical` |
| `ApplyGate.ManifestIff` | scripts/review-coordinator/applyFindings.ts:436-547 | the manifest holds exactly the findings that are not inline-applied, pass all eight sub-checks, do not check against production and list a file |
| `ApplyGate.BatchCleared` | scripts/review-coordinator/applyFindings.ts:548-576 | so does every finding of the batch, which is as large as the limit allows |
| `ApplyGate.FirstIsKept` | scripts/review-coordinator/applyFindingsPure.ts:193-230 | a finding is kept if and only if it shares no file with one kept before it in the list |
| `ApplyGate.KeptShareNothing` | scripts/review-coordinator/applyFindingsPure.ts:203-230 | no file is listed by two kept findings, and each one left out lists a file of a kept one |
| `ApplyGate.CommitsCleared` | scripts/review-coordinator/applyFindings.ts:436-713 | every finding of a new commit passes all that |
| `ApplyOutcomes.RefusedUnderFirstReason` | scripts/review-coordinator/applyFindings.ts:439-529 | any other finding not applied inline ends surfaced with its first failing reason, through to the end of the run |
| `ApplyOutcomes.ProductionDeferred` | scripts/review-coordinator/applyFindings.ts:495-520 | one that would check against production ends deferred and marked so |
| `ApplyOutcomes.InlineChecked` | scripts/review-coordinator/applyFindings.ts:439-480 | a finding applied inline is credited if and only if its check passes on the files as they are and is not a production one |
| `ApplyOutcomes.WithoutFiles` | scripts/review-coordinator/applyFindings.ts:530-547 | a cleared finding without files ends surfaced for that |
| `ApplyOutcomes.NotTried` | scripts/review-coordinator/applyFindings.ts:548-576 | one of the manifest outside the batch ends surfaced as overlapping, or as beyond the limit |
| `ApplyOutcomes.SurvivorCredited` | scripts/review-coordinator/applyFindings.ts:584-702 | each survivor ends credited |
| `ApplyOutcomes.WalkedBack` | scripts/review-coordinator/applyFindings.ts:661-688 | each finding walked back ends surfaced as that |
| `ApplyOutcomes.OutsideUntouched` | scripts/review-coordinator/applyFindings.ts:264-333 | files outside the project are never changed |
| `ApplyOutcomes.NothingFails` | scripts/review-coordinator/applyFindings.ts:584-713 | if all edits of the batch fit and all checks pass, the whole batch is written, credited and committed |
| `Coordinators.DetectOverlaps` | scripts/review-coordinator/applyFindingsPure.ts:203-230 | keeps and defers as specified; a deferred finding names the owner of the first of its files that is taken |
| `Coordinators.Coordinator.GateFinding` | scripts/review-coordinator/applyFindings.ts:439-529 | one turn of the gate loop: inline findings checked or surfaced, ineligible and production findings surfaced, the rest passed on |
| `Coordinators.Coordinator.ApplyAnchorEdits` | scripts/review-coordinator/applyFindings.ts:264-333 | all edits or none: the first refusal with untouched files, or every write |
| `Coordinators.Coordinator.TryFinding` | scripts/review-coordinator/applyFindings.ts:584-651 | one finding applied, verified, accepted, and rolled back and surfaced on failure |
| `Coordinators.Coordinator.Reverify` | scripts/review-coordinator/applyFindings.ts:653-690 | the cumulative verification and its walk-back loop |
| `Coordinators.Coordinator.ApplyFindings` | scripts/review-coordinator/applyFindings.ts:401-716 | files, lists, audit log and commits after the whole loop are those of the specified run |
| `TokenBuckets.TokenBucket.AcquirePass` | src/live/ratelimit.ts:47-66 | one turn of the acquire loop: the new fields, whether a token was granted, and how long to sleep |
| `TokenBuckets.NextTokenDue` | src/live/ratelimit.ts:63-65 | an empty bucket grants at a time if and only if a full interval has passed since the last refill |
| `TokenBuckets.SleepSuffices` | src/live/ratelimit.ts:63-65 | after sleeping as long as computed, the next attempt is granted |
| `TokenBuckets.TotalBound` | src/live/ratelimit.ts:47-66 | by time t at most maxTokens + floor((t - t0) / interval) tokens |
| `TokenBuckets.WindowBound` | src/live/ratelimit.ts:47-66 | between two grants at times a and b at most maxTokens + floor((b - a) / interval) + 1 tokens, both included |
| `TokenBuckets.WindowBoundIsTight` | src/live/ratelimit.ts:47-66 | the bound is attained |
| `TokenRates.BurstAfterRest` | src/live/ratelimit.ts:47-61 | an empty bucket left alone for k whole intervals grants exactly the least of k, its size and the number of passes made at one time |
| `TokenRates.DeniedMeansSpent` | src/live/ratelimit.ts:47-61 | while the bucket never fills, at a denied pass exactly the initial tokens and one for every interval since have been granted |
| `TokenRates.SinceFull` | src/live/ratelimit.ts:47-61 | from the last pass that found the bucket full to a denied pass, exactly the size of the bucket and one token for every interval since its refill are granted, and so at least as many as intervals fit between the two |
| `TokenRates.LastFull` | src/live/ratelimit.ts:39-45 | a bucket that starts full has such a pass before every denied one |
| `TokenRates.RateIsRps` | src/live/ratelimit.ts:39-45 | a new bucket holds rps tokens, and in whole seconds rps times as many fall due |
| `TokenRates.SleepsNoLonger` | src/live/ratelimit.ts:63-65 | a denied pass sleeps at least a millisecond and otherwise no longer than it must |
| `HostQueue.HostIsSerial` | src/live/ratelimit.ts:98-134 | a family has started only if every earlier family of its host has settled; two never run at once |
| `HostQueue.HostTotalBound` | src/live/ratelimit.ts:98-134 | the total bound holds for all families of a host together, in every reachable state |
| `HostQueue.HostWindowBound` | src/live/ratelimit.ts:98-134 | so does the window bound |
| `HostQueue.QueueAdvances` | src/live/ratelimit.ts:121-130 | the first unsettled family of a host is running or may start if and only if it has not thrown before returning a promise |
| `HostQueue.BrokenBlocks` | src/live/ratelimit.ts:121-130 | behind a family that threw, later families of the host wait in every later state |
| `HostQueue.QueueAdvancesIff` | src/live/ratelimit.ts:121-130 | over every run: the first unsettled family of a host is always running or free to start if and only if no family of that host threw before returning a promise |
| `HostQueue.ThrowBlocks` | src/live/ratelimit.ts:121-130 | the run call, call, throw, after which the second family may not start |
| `HostRates.FirstCallSetsRate` | src/live/ratelimit.ts:104-112 | the first call for a host fixes its rate and makes its bucket; later calls and other hosts leave it alone |
| `HostRates.HostKeeps` | src/live/ratelimit.ts:104-112 | rate and start of a host never change and its passes only grow |
| `HostRates.BucketIsItsPasses` | src/live/ratelimit.ts:112 | in every reachable state the bucket is the new one after exactly the passes of the host's families |
| `HostRates.PassIsCounted` | src/live/ratelimit.ts:112 | each pass is one of the bucket, which grants or denies it |
| `HostRates.SinceLastFull` | src/live/ratelimit.ts:98-134 | over all families of a host, in every reachable state: since the last full bucket at least the rate and one token for every interval were granted by any denied pass |
| `Locks.AcquireLock` | src/report/lock.ts:112-171 | succeeds if and only if the file is absent, or readable with a holder that is dead, or unknown with an unreadable heartbeat or one more than 300000 ms old; then the file holds the new record, otherwise it is unchanged and the refusal names the recorded pid and heartbeat |
| `Locks.LockHandle.Refresh` | src/report/lock.ts:194-208 | renews record and file unless released; a failed rename leaves the file |
| `Locks.LockHandle.Release` | src/report/lock.ts:213-225 | removes the file once |
| `LockProtocol.HolderKeeps` | src/report/lock.ts:93-99 | no acquire takes the lock from a live holder |
| `LockProtocol.MutualExclusion` | src/report/lock.ts:81-225 | no reachable state has two live unreleased handles |
| `LockProtocol.NoLostUpdate` | src/fix/status.ts:225-247 | the file is always the initial one with all completed updates folded in, in acquisition order, each once |
| `LockProtocol.LogGrows` | src/fix/status.ts:225-247 | a completed update is never undone |
| `LockProtocol.EntryIsItsUpdates` | src/fix/status.ts:239-246 | an entry is what the updates of its own fingerprint made of it |
| `LockProgress.AcquireGainsIff` | src/report/lock.ts:93-171 | an acquire of the protocol gains the lock in exactly the cases of `AcquireLock` and otherwise changes nothing |
| `LockProgress.CrashedLockIsTaken` | src/report/lock.ts:86-99 | in every reachable state whose lock file is absent, or readable with a pid no living process has, nobody holds the lock and any living process that is told so gains it |
| `LockProgress.StaleLockIsTaken` | src/report/lock.ts:80-99 | so it is where the holder is unknown and its heartbeat stale |
| `LockProgress.CrashIsSurvived` | src/report/lock.ts:86-99 | when a holder dies whose pid no other living process has, any living process gains the lock at once |
| `LockProgress.UpdateCompletes` | src/fix/status.ts:225-247 | whoever gains the lock can read, write and release, after which its update is in the file and the lock is free |
| `LockProgress.RefreshBuysTime` | src/report/lock.ts:194-208 | after a refresh that works the lock cannot grow stale for five minutes, and is not taken meanwhile unless the probe calls its process dead |
| `LockProgress.EntryIsItsChain` | src/fix/status.ts:239-246 | in every reachable state an entry is its initial one with its own updates applied one after the other |
| `LockRace.TwoBreakersRace` | src/report/lock.ts:143-162 | any two processes that may break a lock have a run, step by step, in which both end up holding it |
| `LockRace.BreakersIff` | src/report/lock.ts:131-162 | all runs in which only given processes break locks are exclusive if and only if there is at most one of them |
| `LockRace.ExclusiveIff` | src/report/lock.ts:131-162 | for any rule on who may unlink in which state: all runs are exclusive if and only if in no run a live holder's file may be unlinked |
| `LockRace.CodeGuardFails` | src/report/lock.ts:143-162 | the code's rule, everyone who saw a dead holder, is not exclusive |
| `LockRace.RecheckingKeeps` | src/report/lock.ts:143-162 | looking at the holder again in the step of the unlink would be |
| `LockRace.RecheckingTakes` | src/report/lock.ts:143-162 | and it would still take the lock of a dead holder |
| `LockRace.OneBreakerKeeps` | src/report/lock.ts:143-162 | so are runs in which only one process ever breaks locks |
| `LockRace.ExclusiveWithoutBreaking` | src/report/lock.ts:131-141 | runs in which no lock is broken are exclusive |
| `FixStatus.UpsertFix` | src/fix/status.ts:225-247 | refused with nothing changed; or the entry updated on the file as it stood and the lock given back; or an unreadable file left alone and the lock given back; the lock is refused in exactly the cases of `AcquireLock`, and an update changes its own entry alone |
| `Markdown.BuildCodeBlockMask` | scripts/audit-context-packs.ts:162-215 | the state machine computes the specified mask |
| `Markdown.MaskMeaning` | scripts/audit-context-packs.ts:149-215 | a line is masked if and only if it lies in a fenced block that is opened, not closed before it, and not itself inside another; or in an indented block that starts after a blank line and is not yet ended |
| `CommonMark.AgreesIff` | scripts/audit-context-packs.ts:149-215 | on every document the mask marks exactly the code lines of CommonMark if and only if no indented line stands directly below a heading, a break or a closing fence and no blank line trails an indented code block |
| `CommonMark.MaskDeparts` | scripts/audit-context-packs.ts:190-211 | three documents with such a line: below a heading, below a closing fence, trailing a block |
| `AnchorMeaning.FencedMeans` | scripts/audit-context-packs.ts:176-189 | the lines in fenced blocks are those from a fence to the first fence of its mark, at least as long and bare, or to the end, blocks taken from top to bottom |
| `AnchorMeaning.BlocksExist` | scripts/audit-context-packs.ts:176-189 | every document divides that way |
| `Slugs.SearchFree` | scripts/audit-context-packs.ts:132-137 | the inner loop ends, at the least free suffix from its start |
| `Slugs.ExtractDeclaredAnchors` | scripts/audit-context-packs.ts:93-143 | the per-slug counter gives each heading what the naive search from zero would |
| `Slugs.EveryHeadingAddsOne` | scripts/audit-context-packs.ts:112-140 | each unmasked heading with a non-empty slug adds exactly one anchor, new and different from all others |
| `Slugs.SuffixedInjective` | scripts/audit-context-packs.ts:133-137 | different suffixes give different candidates, which is why the search ends |
| `Slugs.LeastFreeUnique` | scripts/audit-context-packs.ts:132-138 | there is one least free suffix, so the assignment is determined |
| `AnchorMeaning.ExplicitAre` | scripts/audit-context-packs.ts:93-110 | the explicit anchors are the ids of the tags outside code |
| `AnchorMeaning.CandidatesAre` | scripts/audit-context-packs.ts:133-137 | the candidates for a slug are the slug, and the slug with a dash and a decimal numeral from one up |
| `AnchorMeaning.AssignmentMeans` | scripts/audit-context-packs.ts:112-140 | exactly the headings of level one to six outside code with a slug are given an anchor, in order, each the first candidate neither declared nor given before |
| `Generator.GenerateArchitectureAnchors` | scripts/generate-architecture-anchors.ts:56-106 | an anchor with the least free id before each unmasked level-2 heading without one and with a slug; the two counts |
| `Generator.OnlyInserts` | scripts/generate-architecture-anchors.ts:72-105 | deleting the inserted lines gives back the document, and they are exactly the anchor lines |
| `Generator.NewIdsFresh` | scripts/generate-architecture-anchors.ts:60-99 | generated ids are pairwise distinct and not declared before |
| `Generator.SameState` | scripts/audit-context-packs.ts:162-215 | insertion leaves the mask of every original line as it was and masks no inserted line |
| `Generator.OutputWantsNothing` | scripts/generate-architecture-anchors.ts:76-103 | in the output every such heading is already anchored |
| `Generator.Idempotent` | scripts/generate-architecture-anchors.ts:56-106 | a second run changes nothing |
| `AnchorMeaning.WrittenMeans` | scripts/generate-architecture-anchors.ts:56-106 | exactly the level-two headings outside code with a slug and without a tag above get an anchor right above them, the first candidate neither declared nor given before; all lines keep their order, and the second count is that of the headings with a tag above |
| `Sections.ScanStack` | scripts/lib/architectureSearchPure.ts:84-89 | the two inner scans find the end of the anchor stack and the first line behind it that counts |
| `Sections.FindStarts` | scripts/lib/architectureSearchPure.ts:77-98 | the section starts are exactly the unmasked anchor stacks that lead to a level-2 heading |
| `Sections.ParseArchitectureSections` | scripts/lib/architectureSearchPure.ts:72-112 | anchor, title, range and body of each section, as `SectionMeaning.ParseMeans` spells out |
| `Sections.StartsUnique` | scripts/lib/architectureSearchPure.ts:79-98 | the list of section starts is determined by the document: any two lists that meet the specification are equal |
| `Sections.SectionsTile` | scripts/lib/architectureSearchPure.ts:100-111 | each section ends where the next begins, the last at the end of the document |
| `Sections.SameTitles` | scripts/generate-architecture-anchors.ts:76-103 | generating leaves the list of section headings as it was |
| `Sections.GenerateThenParse` | scripts/lib/architectureSearchPure.ts:72-112 | parsing a generated document gives exactly one section per unmasked level-2 heading with a slug, in order, with distinct anchors |
| `SectionMeaning.ParseMeans` | scripts/lib/architectureSearchPure.ts:72-112 | in lines of the document: each section has its title, its text up to the end line, the first tag that leads to the title as its start and the last of the tags standing there as its anchor; sections follow one another to the end, and every title a tag leads to has one |
| `SectionMeaning.GeneratedTextComesBack` | scripts/lib/architectureSearchPure.ts:72-112 | generating and parsing gives back exactly the titled headings with the lines of the document between them |
| `Severities.ComputeSeverity` | src/correlate/severity.ts:41-74 | the modifier chain as one formula on ranks; live confirmation sets the confidence |
| `Severities.SeverityOrder` | src/correlate/severity.ts:41-74 | a worse base never ends milder, live confirmation raises by at most a step, floored classes end at high or above |
| `ReportMeaning.SeverityTable` | src/correlate/severity.ts:41-74 | the outcome as a table of base, reachability and confirmation, with the floor |
| `ReportMeaning.ConfirmationRaisesIff` | src/correlate/severity.ts:48-71 | live confirmation raises a severity by exactly a step or not at all, and exactly when it raises |
| `Correlation.Correlate` | src/correlate/correlate.ts:89-148 | the nested loop over an updated map yields, in fingerprint order, each finding with the links of its side |
| `CorrelationProperties.LinksBothWays` | src/correlate/correlate.ts:101-144 | a static and a live finding of the output are linked in both directions or in neither; from unlinked input, if and only if all three criteria hold |
| `CorrelationProperties.GainedLink` | src/correlate/correlate.ts:119-142 | a linked static finding is confirmed at its raised severity, and every link points to a finding that meets the criteria |
| `CorrelationProperties.Idempotent` | src/correlate/correlate.ts:89-148 | correlating the output again changes nothing |
| `CorrelationProperties.OrderIndependent` | src/correlate/correlate.ts:92-93 | the output is the same for every input order |
| `ReportMeaning.LinkedIffCriteria` | src/correlate/correlate.ts:101-111 | from unlinked input two findings are linked if and only if the host is registered for the repository, the classes agree, and route and request match |
| `ReportMeaning.EveryLinkMeans` | src/correlate/correlate.ts:101-142 | every link leads to a finding of the other side that meets them |
| `ReportMeaning.WhatCorrelateChanges` | src/correlate/correlate.ts:119-142 | a linked static finding gets the confirmed severity of the table and nothing else changes |
| `Reports.LexicographicConsistent` | src/report/json.ts:55-82 | the six keys one after another make a consistent comparator |
| `Reports.SameOrder` | src/report/json.ts:55-82 | the comparator of the code is that lexicographic order |
| `Reports.ReportListsAll` | src/report/json.ts:175-179 | the listing is a permutation of the derived findings, in order |
| `Reports.ListedEarlier` | src/report/json.ts:48-54 | an earlier finding is more severe, or as severe and at least as certain |
| `Reports.ReportCanonical` | src/report/json.ts:53-82 | the final order is unique: the listing is the same for every input order |
| `Reports.DeriveSettles` | src/report/json.ts:108-140 | deriving twice changes nothing, and links never move a live finding |
| `Reports.SeverityAgrees` | src/report/json.ts:112-128 | for a linked static finding the report recomputes the severity and confidence that correlation set |
| `Reports.ConfirmedExactly` | src/report/json.ts:165-179 | a static finding is listed at live-confirmed severity if and only if a listed live finding meets all three criteria with it |
| `ReportMeaning.DerivedFields` | src/report/json.ts:108-140 | severity by the table, confidence, and the issue link, for static and live findings; nothing else changes |
| `ReportMeaning.ComparatorMeans` | src/report/json.ts:20-82 | the comparator is: worse first, then surer, then by the twelve classes in their order, then by target, rule and fingerprint |
| `ReportMeaning.ListedInOrder` | src/report/json.ts:48-82 | of any two listed findings the earlier one does not come after the later by that |
| `Trends.ComputeTargetTrend` | src/report/trend.ts:31-131 | the counting loops give the sizes of the new, persisting and fixed sets and the severity counts |
| `Trends.BuildPrevMap` | src/report/trend.ts:226-252 | target and family lead to exactly the fingerprints completed families found |
| `TrendHistory.CurrentSplits` | src/report/trend.ts:103-110 | new plus persisting is the number of current fingerprints of completed families |
| `TrendHistory.FixedIgnoresIncomplete` | src/report/trend.ts:112-122 | fixed does not depend on what a family that did not complete had found |
| `TrendHistory.PreviousIsFingerprints` | src/report/trend.ts:206-253 | the previous map flattens to the previous run's completed fingerprints |
| `TrendHistory.PreviousSplits` | src/report/trend.ts:93-122 | with disjoint families each previous fingerprint is persisting, fixed or lost, in exactly one way |
| `TrendHistory.Balance` | src/report/trend.ts:99-122 | the stock changes by new minus fixed, up to exactly the fingerprints whose family did not complete |
| `TrendHistory.Conservation` | src/report/trend.ts:206-253 | over any history, total new minus total fixed is the last run's stock plus all that was lost from sight |
| `TrendHistory.ExactConservation` | src/report/trend.ts:206-253 | when completed families stay completed, it is exactly the last run's stock |
| `TrendHistory.BuildTrendLine` | src/report/trend.ts:140-167 | one trend per target with a finding or a status |
| `TrendHistory.Workspace.WriteTrend` | src/report/trend.ts:261-280 | lines of other runs kept in order, the new line last |
| `TrendHistory.WriteKeepsUnique` | src/report/trend.ts:256-280 | one line per run id, and writing a line twice is writing it once |
| `TrendHistory.Workspace.RecordRun` | src/cli.ts:890-900 | the end of a run as one step on reports and lines |
| `TrendHistory.RerunIdempotentIff` | src/report/trend.ts:206-280 | recording a run again leaves the file unchanged if and only if it had nothing new and nothing fixed |
| `TrendHistory.RerunForgets` | src/report/trend.ts:206-280 | in a fresh workspace a second recording of any run that found something in a completed family changes the file: the new findings are no longer new |
| `TrendHistory.RerunChangesTheFile` | src/report/trend.ts:206-280 | such a run with a single finding: its new count is one, then zero |
| `TrendMeaning.TrendMeans` | src/report/trend.ts:31-131 | against the run before: new, persisting and fixed as sets of what finished families found on the target then and now |
| `TrendMeaning.StatusAndSeverities` | src/report/trend.ts:43-76 | complete if and only if a scanner is recorded for the target and all are complete; severities count all its findings |
| `TrendMeaning.LineMeans` | src/report/trend.ts:140-167 | a line has exactly the targets a finding or a scanner names |
| `TrendMeaning.HistoryMeans` | src/report/trend.ts:206-280 | over any history with ids of their own, line k counts run k against run k - 1 |
| `Intervals.MergedLength` | scripts/lib/docReadAuditPure.ts:182-198 | the loop computes the sweep for intervals of any shape |
| `Intervals.MergedMeasures` | scripts/lib/docReadAuditPure.ts:181-198 | for intervals of any shape in any order the result is the size of their union less what backward intervals that open a group take off |
| `Intervals.MergedIsMeasureIff` | scripts/lib/docReadAuditPure.ts:181-198 | it is the size of the union if and only if no group opens with a backward interval |
| `Intervals.MergedIsMeasure` | scripts/lib/docReadAuditPure.ts:181-198 | so it is for intervals none of which runs backwards |
| `IntervalOrder.OrderFreeIff` | scripts/lib/docReadAuditPure.ts:184 | the result is the same for every order of the intervals if and only if no backward interval that no earlier start reaches shares its start with one that is not backward |
| `IntervalOrder.OrderShows` | scripts/lib/docReadAuditPure.ts:184 | two intervals whose two orders give three and zero |
| `DocReads.RangeOrderedIff` | scripts/lib/docReadAuditPure.ts:135-145 | a read's interval runs backwards if and only if its limit is negative |
| `DocReads.OneReadFitsIff` | scripts/lib/docReadAuditPure.ts:135-145 | when one read counts for no more lines than the document has |
| `DocReads.OneReadMeasuredIff` | scripts/lib/docReadAuditPure.ts:135-145 | one read is counted by its distinct lines if and only if its limit is absent or not negative |
| `DocReads.SessionMeasures` | scripts/lib/docReadAuditPure.ts:206-226 | a session's merged length is the number of distinct lines it covers less what backward openers take off |
| `DocReads.SessionFitsIff` | scripts/lib/docReadAuditPure.ts:206-226 | whatever its offsets and limits, a session's merged length stays within the document if and only if it asks for no more lines before the document than it leaves unread and backward openers take off |
| `DocReads.TogetherTooLong` | scripts/lib/docReadAuditPure.ts:206-226 | two reads that each fit a document of ten lines and together merge to fifteen |
| `DocReads.CoverageBounded` | scripts/lib/docReadAuditPure.ts:206-226 | however its reads overlap and whatever their limits, a session whose offsets are not negative has a merged length of at most the distinct lines it covers, and these are at most the document's |
| `DocReads.SummariseTarget` | scripts/lib/docReadAuditPure.ts:206-226 | call counts, and the sessions whose merged length reaches four fifths |
| `DocReads.WholeMeansFourFifths` | scripts/lib/docReadAuditPure.ts:219-222 | those sessions read at least four fifths of the lines, in whatever pieces; all that did are counted unless a session's sweep opens a group backwards |
| `DocReads.SummaryOrderFree` | scripts/lib/docReadAuditPure.ts:206-226 | the order of events does not matter unless a session has a backward read that shares its start with another and that no earlier start reaches |
| `DocReads.SessionOrderFreeIff` | scripts/lib/docReadAuditPure.ts:206-226 | a session's merged length is the same for every order of the events if and only if it has no such read |
| `ReadMeaning.ReadCovers` | scripts/lib/docReadAuditPure.ts:128-145 | a read covers the document's lines from its offset on, 2000 without a limit; it is sliced if and only if it has an offset or a limit |
| `ReadMeaning.SummaryMeans` | scripts/lib/docReadAuditPure.ts:206-226 | calls for the document by whether they were sliced, and sessions that read at least four fifths of its lines, all of them if no limit is negative |
| `Watcher.PendingIsServed` | scripts/build-code-graph.ts:826-906 | in every reachable state pending work implies an armed timer or a running drain |
| `Watcher.IndexBetweenDrains` | scripts/build-code-graph.ts:866-874 | outside the update loop, p is in importedBy of q if and only if q is in imports of p |
| `Watcher.QuietMeansFresh` | scripts/build-code-graph.ts:826-906 | with nothing pending, running or undelivered the cache holds exactly the files of the disk, each with the hash of its content, however events and drains were interleaved |
| `WatcherImports.ImportsCurrentIff` | scripts/build-code-graph.ts:571-600 | in every run the imports cached for a file are those its content has among the files known now if and only if resolution finds the same among those known when it was cached |
| `WatcherImports.HasOrigin` | scripts/build-code-graph.ts:826-865 | every entry of the cache goes back to the step that cached its content, or to the start |
| `WatcherImports.QuietImportsIff` | scripts/build-code-graph.ts:571-600 | in a quiet watcher that could read every file the cached imports are those a rebuild finds on the disk if and only if resolution finds the same among the files that were cached when the file was |
| `WatcherImports.CandidatesKept` | scripts/build-code-graph.ts:571-600 | so they are whenever no file that resolution looks at has come or gone since |
| `WatcherImports.StaleImports` | scripts/build-code-graph.ts:826-899 | a run from a correct cache to a quiet watcher in which a file does not import a file created after it |
| `Watcher.WorkDecreases` | scripts/build-code-graph.ts:826-906 | without new events every step reduces a measure of the work left |
| `Watcher.SettlesDown` | scripts/build-code-graph.ts:826-906 | left alone the watcher takes boundedly many steps |
| `Watcher.StopsOnlyWhenDone` | scripts/build-code-graph.ts:896-906 | where no step is possible, nothing is pending |
| `WatcherMeaning.BurstArmsOne` | scripts/build-code-graph.ts:902-906 | any burst of events leaves one timer armed, a new one, and the paths of the burst pending |
| `WatcherMeaning.OneFireTakesAll` | scripts/build-code-graph.ts:826-832 | that timer, fired in an idle watcher, starts a drain of everything pending |
| `WatcherMeaning.DrainArmsIff` | scripts/build-code-graph.ts:896-899 | a drain arms a timer when it ends if and only if something is pending |
| `WatcherMeaning.FlushesIffChanged` | scripts/build-code-graph.ts:833-895 | a drain writes the cache out if and only if it changed it |
| `WatcherMeaning.KnownExactly` | scripts/build-code-graph.ts:819-864 | the known files are those of the cache and those skipped as unreadable and not cached since |
| `ReverseIndex.BuildImportedBy` | scripts/build-code-graph.ts:439-452 | each list is sorted and names an importer as often as it imports the file |
| `ReverseIndex.ListsAreImporters` | scripts/build-code-graph.ts:439-452 | the lists hold exactly the importers, once each if imports are distinct |
| `ReverseIndex.Variables.ScheduleFile` | scripts/build-code-graph.ts:902-906 | adds the path, cancels the old timer, arms a new one |
| `ReverseIndex.Variables.EnterDrain` | scripts/build-code-graph.ts:826-832 | does nothing while processing; otherwise takes the whole pending set and clears the timer |
| `ReverseIndex.Variables.UpdateFile` | scripts/build-code-graph.ts:835-864 | what the loop does with one path after looking at it |
| `ReverseIndex.Variables.LeaveDrain` | scripts/build-code-graph.ts:896-899 | ends processing and re-arms if anything is pending |
| `Filing.GitHub.FindExistingIssue` | src/fix/github.ts:164-196 | the first issue of the page with the marker in its body, or none |
| `Filing.GitHub.CommentMarkerExists` | src/fix/github.ts:202-240 | the page loop ends and finds the marker if and only if a comment has it |
| `Filing.GitHub.CommentOnIssue` | src/fix/github.ts:295-331 | comments unless the marker is there; nothing changes on an error |
| `Filing.GitHub.FileFixRequest` | src/fix/github.ts:359-407 | re-files on the issue found or creates one; nothing changes on an error |
| `Filing.RunTidy` | src/fix/github.ts:359-407 | over any sequence of calls and of closing, unlabelling and remarks by people: at most one open labelled issue per fingerprint, at most one comment per issue and marker |
| `Filing.ThirdTimeNothing` | src/fix/github.ts:382-395 | once a finding has been re-filed, filing it again changes nothing |
| `Filing.PageIsTheLimit` | src/fix/github.ts:173-190 | when the finding has an open issue, every answer of the search keeps that if and only if the open labelled issues fit on one page |
| `Filing.OneTooMany` | src/fix/github.ts:173-190 | a tidy repository of 101 open labelled issues and an answer after which the finding has two |
| `FilingMeaning.RefiledMeans` | src/fix/github.ts:382-395 | re-filing adds one comment with its marker to the first issue found unless there is one, and changes nothing else |
| `FilingMeaning.CreatedMeans` | src/fix/github.ts:396-407 | otherwise one open labelled issue with the marker and the given text is added, and nothing else changes |
| `FilingMeaning.SearchMeans` | src/fix/github.ts:164-190 | a search answers with at most 100 open labelled issues, and with all if they are no more |
| `FilingMeaning.NeverTwice` | src/fix/github.ts:359-407 | over any sequence of calls and of what people do, no two open labelled issues carry a finding's marker and no two comments of an issue share one |
| `FilingMeaning.ThenThereIsOne` | src/fix/github.ts:359-407 | after a call with fewer than 100 open labelled issues there is exactly one for the finding |

## Left out

- Files, processes, git, HTTP, timers and the clock themselves: they are maps, oracles, events and parameters; crashes in the middle of a write are not modelled.
- Prompt texts, report rendering, redaction, command lines, user interface, scanners, rules, login, benchmarks and migrations.
- Regular expressions and text classification: a Markdown line is one of a few classes, with its slug given; several anchors in one line, anchors inside other text, a heading written with a tab, and `headingTextForSlug` are not modelled. In the comparison with CommonMark a text line is a line of a paragraph: lists, block quotes and HTML blocks are not told apart, nor are backticks behind an opening fence; thematic breaks, setext underlines and headings set in by spaces are one class (`Lone`).
- `locationMatches`, `modelsAreCompatible`, `normaliseTitleForMatch`, `resolveSpecifier`, `matchSuppression`, `matchProductionDsn`, `classifyAcceptanceCheck` are given functions.
- `parsePlanMetadata` and path canonicalisation in the plan; validation is modelled on parsed blocks, and only the chunk and the field of an error are kept, not its text.
- `String.replace` patterns starting with `$` in replacements; a replacement is literal text.
- Hash collisions: content and findings are known by given distinct keys.
- Baseline suppression and the file read of `buildReport`; findings enter after it.
- Audit entries hold decision, reason, outcome and the production mark; versions and extra fields are left out.
- HostQueue: modelled on values, one state for all hosts; promises are phases of a family, so the order in which callbacks of different hosts run is not captured beyond interleaving.
- LockProtocol: modelled on values; acquire is one step, and it does not model the step-by-step break of a stale lock, for which exclusion is false (`LockRace.ExclusiveIff` has the exact condition).
- Watcher: modelled on values, with the closure variables as a class beside it; failures other than an unreadable file end the process and are not modelled, nor are shards, digest and exports.
- Layers.TopologicalLayers: requires that the frontier loop ends, since a method here has to; on which plans it does not is stated by `Rounds.SettlesIff`.
- Waves.ComputeWaves: requires the same of a plan that gets as far as the loop.
- TrendHistory.Conservation: assumes distinct run ids and, per target, that no fingerprint is reported by two completed families; with a re-recorded id the balance is lost as stated by `TrendHistory.RerunIdempotentIff`.
- Trends: target names of findings and scanner status are assumed to be written alike; live findings use the host while status uses the registry name.
- DocReads.SummariseTarget: the token estimate is left out, and four fifths stands for the floating-point 0.8.
- Filing.RunTidy: people neither reopen nor relabel issues nor write markers themselves; the remediation text contains no issue marker.
- Matching.CompareFindingSets: scores are exact, so ties between floating-point scores may fall differently.
- `deriveStatus`, `rankSections`, evaluation scoring and other single-branch reads, which would add easy members only.
