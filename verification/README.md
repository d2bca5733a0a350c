# UCAgent batch verification: a verified model

This project models the decision logic of UCAgent's verification workflow and proves what its verdicts mean. It
covers four parts of the program.

- **The line-map batch checker.** Source files are cut into blocks; completed blocks are recorded, re-validated on
  every call and advanced batch by batch through `UnityChipBatchTask`. Files, mapping files and the checkpoint list
  are a value (`LineMapFile.World`) that may be different at every call. The main result is that a passing call covers
  every required line, over every history of calls, edits and restarts (`LineMapRuns.EveryPassIsSound`), with the exact
  condition on file names (`LineMapExact.SoundIff`).
- **The Bug recorder.** A validator that brings submitted records into canonical form, and a windowed merge that never
  forgets (`RecordWindow.SlidingWindow`, `RecordWindow.StepKeepsWindow`), with the exact condition under which a
  document can be finished (`RecordCompletion.CanPassIff`).
- **The report and waveform gates.** "If the gate passes, every failure is explained"
  (`ReportGate.PassExplainsFailures`, `WaveformGate.FinalGateIsSound`), on top of parsers for the dynamic Bug document
  whose results are characterised line by line and which read back every written document
  (`DocumentWriter.DocumentIsRead`).
- **The debugger.** Per-thread stacks of command tokens over a shared table, as interleaved steps; the console
  transcript; the retry loop.

Each verdict also has an exact description that does not mention how it is computed: when a call of the line-map
checker passes (`LineMapVerdicts.CallPassesIff`), when a report passes (`ReportRules.ReportPassesIff`), when a document
is accepted (`DynamicBugRules.AcceptedIff`, `WaveformRules.BlocksIff`), when the gates pass
(`GateRules.FinalPassesIff`), when the expectation is loaded (`ExpectedRules.LoadsIff`), when an entry is accepted
(`RecordRules.EntryIff`), and how a call of the random-test checker ends (`RandomRules.OutcomeIff`).

Classes stand for the program's mutable objects. Their methods are proved against functions of the old state, and the
theorems are about those functions. Texts are handled character by character where the program does
(tokens, labels, locations, tags); strings are sequences of characters with Python's notion of white space.

## Files

| files | content |
|---|---|
| `Text`, `Lists` | Python text and list operations |
| `LineRanges`, `TaskTokens`, `LineMapFile`, `LineMapSpec`, `LineMapChecker` | the line-map checker and its specification |
| `LineMapSoundness`, `LineMapProgress`, `LineMapRuns`, `LineMapExact`, `LineMapVerdicts` | what it guarantees, and exactly when a call passes |
| `BatchTask`, `BatchRuns`, `AnnouncedBatches`, `RandomCases`, `RandomRules` | the batch task, its runs, what it announces, and a second client whose goal changes |
| `ExpectedBugs`, `ExpectedLinks`, `ExpectedRules`, `Records`, `RecordRules`, `RecordRuns`, `RecordWindow`, `RecordCompletion` | the Bug recorder |
| `Locations`, `LocationRules`, `DocumentRanges` | printed references, labels, entry ranges |
| `ReportGate`, `ReportRules` | the test-report gate |
| `DynamicBugs`, `DynamicBugLines`, `DynamicBugRules`, `TestTags`, `TagMeaning`, `Waveform`, `WaveformRules`, `WaveformGate`, `GateRules`, `DocumentedTests`, `Sections` | the dynamic Bug document and its gates |
| `WaveformWriter`, `DocumentWriter`, `TwoTests`, `RawTags`, `SheetExamples` | written documents: reading them back, and what the gates make of some of them |
| `Registry`, `RunningCommands`, `ThreadAborts`, `ThreadInterrupts`, `Console`, `RetryLoop` | the debugger |

## Findings

The code is modelled as written. Where a promised property fails, the failing family is given and the exact condition
is proved.

- A file name that contains `@sha256=` breaks the tokens of the line-map checker: such targets never heal
  (`HealsIff`), and if the name also reads as `name:start-end` before the separator, another file is validated in its
  place (`SoundIff`). Two names that differ only in leading blanks are confused by the stripped comparison of
  `get_str_array_diff` (`TwinNamesFail`). The same names are the ones for which the number of calls can be wrong
  (`CountsIff`).
- `get_str_array_diff` sorts, strips and drops blank items; it keeps the order of its inputs only when that is string
  order (`DiffKeepsOrderIff`, `DiffReorders`). An announced batch can therefore lie outside the source list
  (`AnnouncedBatchIff`, `AnnouncedOutsideSource`).
- `sync_source_task` filters against the old source list, so a deleted task can stay in the open batch
  (`SyncKeepsBatchIff`, `SyncCanKeepDeletedTask`).
- The batch that is announced need not be the batch that is checked next (`AnnouncedIsCheckedIff`); one file with ten
  one-line blocks is enough (`TenBlocksDisagree`).
- A Bug whose name itself starts with `BG-` makes the stored record list unreadable; from then on every call of the
  recorder fails (`StuckForever`). A run gets there if and only if there is such a Bug (`StuckIsReachedIff`), and
  which documents can still be finished is `CanPassIff`.
- Tests are matched by substring, first match first. A failed test can shadow another, whose marks then do not count
  (`ExplainsIff`), and the final waveform gate refuses a complete document exactly when a test is shadowed by one that
  is not documented under its checkpoint (`RefusedIff`, `CompletePassesIff`, `CompleteDocumentRefused`).
- `normalize_test_case_tag` is not idempotent: it strips the `::`-parts, and joining them again can move the split
  (`NotIdempotent`, exactly when: `NormalizingTwiceIff`). The report looks a failed test up under its tag as written, while records belong to normal forms.
  Let `<TC-a.py::t[b :::c]>` be listed under Bug X and fail, and `<TC-a.py::t[b : ::c]>` under Bug Y. The record headed
  with the second tag is found under the first one and lists Bug Y alone; the waveform gate of the report passes without
  a record that lists Bug X (`BugWithoutRecordPasses`; for all such documents `PassesWithoutRecord`).
  `PassingReportIsProved` has the exact condition. The final gate is not affected, because there every listed test needs
  a record (`RecordedTagsAreNormal`).
- An interrupt that falls between registering and pushing a token, or between popping and finishing it, leaves the
  command in the table for ever (`LeaksIff`, `LeakedForever`).
- `postcmd` always pops. An untracked command inside a tracked one takes a token that is not its own (`RestoresIff`).
- Console output appended to an entry that a reader already counted is not seen by a reader who continues from that
  count (`ReadingOnIff`).

## Assumptions

- `TaskTokens.Digest` is a 64-digit hexadecimal text; that equal content has an equal digest, and conversely, is not
  used.
- The recorder's theorems are about documents with `RecordRuns.Loaded`, which `ExpectedBugs.ExpectationIsLoaded` proves
  of everything that is loaded. It relies on what reading the documents gives (`ExpectedBugs.ReadSources`): tag texts
  contain neither white space nor angle brackets, the ranges of the tags are those of the entry scan
  (`DocumentRanges.EntryRanges`), and the two Bug documents are different files. `RandomCases.PassMeansDocument` uses
  the first fact for checkpoints. Batch sizes are positive, as the constructors demand.
- An interrupt falls between two atomic steps of a thread: registering and finishing run under the lock, pushing and
  popping are one step each.
- `DocumentWriter.Readable` says that contract and protocol read the single lines of a written document as they are
  meant; `SheetExamples` has such a contract and protocol.
- Confidences are real numbers; the tolerance of 1e-9 is kept.

## Model

| member | source | states |
|---|---|---|
| LineMapRuns.EveryPassIsSound | ucagent/checkers/file_linemap.py:798-951 | over every history of calls, file edits and restarts from arbitrary saved lists: when a call passes and the matched names are trusted (see SoundIff), every required line of every matched file lies in a range of its canonical mapping file in the world of that call, and every mapping file behind a block parses with known keys |
| LineMapVerdicts.CallPassesIff | ucagent/checkers/file_linemap.py:798-951 | from any recorded lists and for any names, exactly when a call passes: the CK list is readable, configuration and records are in order, some file is matched, the next targets are valid, and every target is, up to blanks, one of those done by then |
| LineMapVerdicts.NoTargetsPassIff | ucagent/checkers/file_linemap.py:859-884 | without required lines the call passes if and only if some file is matched, nothing is recorded and the configuration is in order; all lists are empty then |
| LineMapVerdicts.PassNeedsFiles | ucagent/checkers/file_linemap.py:878-884 | no call passes without a matched file |
| LineMapVerdicts.TargetsIff | ucagent/checkers/file_linemap.py:455-480 | there are targets if and only if some line of a matched file needs a mapping |
| LineMapVerdicts.PassingCallMaps | ucagent/checkers/file_linemap.py:59-170 | what a pass says of one line, about the texts: with trusted names the canonical mapping file exists, all its lines are in order, and one of them is a rule with a range that contains the line |
| LineMapVerdicts.BlockStatusIff | ucagent/checkers/file_linemap.py:226-355 | exactly how the validation of one block ends, over the lines of the file and of its canonical mapping file: valid, invalid, or the IndexError of a block beyond the end |
| LineMapVerdicts.SharedStemIff | ucagent/checkers/file_linemap.py:411-453 | two names share a mapping file if and only if they differ in slashes, dots and underscores only |
| LineMapVerdicts.StoppedCall | ucagent/checkers/file_linemap.py:723-770 | a first target that is recorded for the present content but not valid fails the call after the refresh; one whose validation raises makes the call raise and keeps the lists |
| LineMapSoundness.PassIsSound | ucagent/checkers/file_linemap.py:798-951 | a passing call is sound from any recorded lists, given trusted file names |
| LineMapExact.SoundIff | ucagent/checkers/file_linemap.py:483-494 | exact condition: every pass with the given matched names is sound if and only if two names share a mapping file (then nothing passes) or the names are trusted, i.e. none with the token separator reads as `name:start-end` before it and no two differ in leading blanks only |
| LineMapExact.TwinNamesFail | ucagent/checkers/base.py:554-572 | two separator-free names that differ only in leading blanks: some world makes a call pass although the second file is never covered, because the difference lists compare stripped names |
| LineMapExact.SeparatorNameFails | ucagent/checkers/file_linemap.py:483-494 | a name that contains the separator and reads as `name:start-end` before it: some call passes after validating another file |
| LineMapSoundness.PassValidates | ucagent/checkers/file_linemap.py:798-951 | a pass means that every current target was, up to leading blanks, validated in that very call and nothing is wrong with the configuration; no assumption on names or lists |
| LineMapSoundness.LineHasBlock | ucagent/checkers/file_linemap.py:455-480 | every required line of a file is inside one of its blocks: skipped blocks hide no required line |
| LineMapSoundness.AllBlocksMembers | ucagent/checkers/file_linemap.py:455-480 | the blocks are exactly the blocks of the matched readable files, inside their files and at most max_block_lines long |
| LineMapSoundness.TokenDeterminesParts | ucagent/checkers/file_linemap.py:476-494 | a task text determines file, range and digest whatever the file name contains |
| LineMapProgress.RefreshHeals | ucagent/checkers/file_linemap.py:703-757 | from any recorded list (stale, duplicated, gapped, unknown) a refresh keeps exactly the longest prefix of targets whose first record matches in content and that are valid, and opens the next min(batch size, rest) targets in source order |
| LineMapProgress.RefreshIdempotent | ucagent/checkers/file_linemap.py:703-757 | refreshing the refreshed lists in the same world changes nothing and reports no progress, completed-validation or raised error |
| LineMapExact.HealsIff | ucagent/checkers/file_linemap.py:48-56 | refreshing heals every recorded list if and only if no matched name contains the token separator |
| LineMapExact.SeparatorNameNeverHeals | ucagent/checkers/file_linemap.py:48-56 | a matched name with the separator: some refreshed list is reported as having a progress error for ever |
| LineMapProgress.BasesAreDistinct | ucagent/checkers/file_linemap.py:48-50 | when no file with blocks has the separator in its name, all current targets have different bases |
| LineMapProgress.PrefixIsHealed | ucagent/checkers/file_linemap.py:703-757 | a recorded prefix of valid targets is kept whole and raises no complaint |
| LineMapRuns.CallRecordsPrefix | ucagent/checkers/file_linemap.py:886-951 | every call that is acted on leaves a prefix of the current targets recorded, in source order and all valid, from any recorded list |
| LineMapRuns.RestartLosesNothing | ucagent/checkers/base.py:462-495 | saving what a call left, restarting in the same world and refreshing records the same targets, without progress or validation errors |
| LineMapProgress.OneCall | ucagent/checkers/file_linemap.py:886-951 | with trusted names, from a recorded prefix of p valid targets one call records exactly the next batch and passes if and only if nothing is left |
| LineMapProgress.ExactNumberOfCalls | ucagent/checkers/file_linemap.py:886-951 | with trusted names, from prefix p of n > 0 valid targets all calls fail until the last of exactly max(1, ceil((n - p) / batch size)) calls, which passes |
| BatchRuns.CallsNeededIsCeiling | ucagent/checkers/file_linemap.py:886-951 | the number of calls above is max(1, ceil(left / size)) |
| LineMapChecker.UnityChipBatchCheckerFileLineMap.DoCheck | ucagent/checkers/file_linemap.py:798-951 | the method refines the one-call specification: verdict, exceptions included, and lists as a function of the world and the old lists; on a pass the final CK list is stored |
| LineMapChecker.UnityChipBatchCheckerFileLineMap.AttachLineBlockContent | ucagent/checkers/file_linemap.py:631-683 | showing block contents raises if and only if one of the tasks cannot be split |
| LineMapProgress.NoCallRaises | ucagent/checkers/file_linemap.py:798-951 | with separator-free names and a readable CK list no call raises, whatever is recorded |
| LineMapChecker.UnityChipBatchCheckerFileLineMap.CheckCurrentBatch | ucagent/checkers/file_linemap.py:903-934 | validates the open batch, appends it without repetitions and closes it as specified |
| LineMapChecker.UnityChipBatchCheckerFileLineMap.RefreshBatchState | ucagent/checkers/file_linemap.py:703-770 | new lists, task errors, completed-validation errors and the raise condition, each if and only if |
| LineMapChecker.UnityChipBatchCheckerFileLineMap.ScanProgress | ucagent/checkers/file_linemap.py:723-757 | the flag-driven scan keeps exactly the good prefix and reports gaps, stale and invalid targets as they occur |
| LineMapChecker.UnityChipBatchCheckerFileLineMap.IndexRecords | ucagent/checkers/file_linemap.py:708-717 | duplicate bases are reported if and only if there are any, and each base keeps its first record |
| LineMapChecker.UnityChipBatchCheckerFileLineMap.ReportUnknown | ucagent/checkers/file_linemap.py:718-721 | recorded bases without a current target are reported if and only if there are any |
| LineMapChecker.UnityChipBatchCheckerFileLineMap.GetAllSourceFiles | ucagent/checkers/file_linemap.py:436-453 | the matched names sorted without repetitions, with an error if and only if two share a mapping file |
| LineMapChecker.UnityChipBatchCheckerFileLineMap.GetAllLineBlocks | ucagent/checkers/file_linemap.py:455-480 | all block tasks in source order, with an error if and only if a file is unreadable or shares a mapping file |
| LineMapChecker.UnityChipBatchCheckerFileLineMap.GetFileTasks | ucagent/checkers/file_linemap.py:469-479 | the block loop of one file yields its blocks in order |
| LineMapChecker.UnityChipBatchCheckerFileLineMap.SyncBatchState | ucagent/checkers/file_linemap.py:496-506 | after the two syncs the batch is overwritten by the next targets in source order |
| LineMapChecker.UnityChipBatchCheckerFileLineMap.ValidateLineBlock | ucagent/checkers/file_linemap.py:537-558 | splits the task and validates that one range |
| LineMapChecker.UnityChipBatchCheckerFileLineMap.OnInit | ucagent/checkers/file_linemap.py:696-701 | initialising refreshes whatever lists were loaded, or raises and leaves them |
| LineMapExact.CountsIff | ucagent/checkers/file_linemap.py:886-951 | exact condition on names: in every world where everything is valid and from every recorded prefix it takes exactly max(1, ceil(left / size)) calls, the last one passing, if and only if two names share a mapping file (then nothing is ever valid) or the names are trusted |
| LineMapFile.ParseStrictLineMap | ucagent/checkers/file_linemap.py:59-146 | rejected if and only if one of its lines is; otherwise each key holds canonical ranges covering exactly the lines its accepted lines give |
| LineMapFile.ParseLineList | ucagent/checkers/file_linemap.py:112-142 | all ranges of a line, or nothing when one of them is malformed, out of the file or too long |
| LineMapFile.AcceptedRanges | ucagent/checkers/file_linemap.py:112-142 | every raw range of an accepted line is inside the file and at most max_block_lines long, and there is one |
| LineMapFile.ParseOfRendered | ucagent/checkers/file_linemap.py:59-146 | round trip and its exact limits: a rendered line gives back its key and ranges if and only if the key is FG or MISSMT (or IGNORE with a reason), FC and CK, and every range lies inside the file and the block limit; otherwise it is rejected |
| LineMapFile.AcceptedKey | ucagent/checkers/file_linemap.py:75-111 | the key of any accepted line, however it is spaced: three non-empty segments, FC and CK behind FG, MISSMT or IGNORE, the latter only with a reason behind the first `#` |
| LineMapFile.LineMapCheckOneFile | ucagent/checkers/file_linemap.py:226-355 | verdict of one range, and on failure canonical blocks that expand to exactly the required lines no mapping range covers |
| LineMapFile.AllKeysKnown | ucagent/checkers/file_linemap.py:261-296 | accepted if and only if every key is a known checkpoint, IGNORE, or MISSMT where that is allowed |
| LineMapFile.UnmappedLines | ucagent/checkers/file_linemap.py:161-170 | exactly the required lines outside the mapped set, ascending; or the IndexError of a range that leaves the file |
| LineRanges.RangeListMerge | ucagent/util/functions.py:2327-2351 | merging preserves the covered lines and yields the canonical list |
| LineRanges.MappedLines | ucagent/checkers/file_linemap.py:149-158 | the union of the lines of all keys |
| LineRanges.LineNumbersToBlocks | ucagent/checkers/file_linemap.py:173-187 | compaction yields ascending, disjoint, non-adjacent blocks that expand to exactly the input set |
| LineRanges.CanonicalUnique | ucagent/checkers/file_linemap.py:173-187 | a set of lines has only one canonical list: compaction is injective on sets |
| LineRanges.CanonicalIsFewest | ucagent/checkers/file_linemap.py:173-187 | no list of ranges covering the same lines is shorter |
| TaskTokens.TokenRoundTripIff | ucagent/checkers/file_linemap.py:476-494 | splitting a formatted task returns its parts if and only if the file name does not contain the separator |
| TaskTokens.TokenParts | ucagent/checkers/file_linemap.py:48-56 | base and digest of a task, for separator-free names and for the others |
| TaskTokens.TokenInjective | ucagent/checkers/file_linemap.py:476-480 | tasks of separator-free files are equal only if all their parts are |
| TaskTokens.StripOfToken | ucagent/util/functions.py:1777-1782 | stripping a task only touches the front of the file name |
| BatchTask.PassIff | ucagent/checkers/base.py:623-727 | exactly when `do_complete` answers True |
| BatchRuns.CompleteIff | ucagent/checkers/base.py:623-727 | exactly how `do_complete` ends, each outcome if and only if, and the lists it leaves |
| BatchTask.EmptyDiff | ucagent/util/functions.py:1777-1782 | the difference list is empty if and only if every non-blank item is covered up to surrounding blanks |
| BatchTask.CoveredByClean | ucagent/checkers/base.py:639-665 | on clean names that is inclusion |
| BatchRuns.DiffKeepsOrderIff | ucagent/util/functions.py:1777-1782 | the difference list keeps the order of its first argument if and only if what is left is in string order already |
| BatchRuns.DiffReorders | ucagent/util/functions.py:1777-1782 | two names out of order come back sorted |
| BatchTask.UnityChipBatchTask.DoComplete | ucagent/checkers/base.py:623-727 | new lists, outcome and the checkpoint written exactly when a batch closes |
| BatchTask.UnityChipBatchTask.CloseBatch | ucagent/checkers/base.py:707-727 | the batch is emptied before it is saved and the next one is opened after: the checkpoint never holds an open batch |
| BatchTask.UnityChipBatchTask.MarkCompleted | ucagent/checkers/base.py:671-674 | the loop appends exactly the generated tasks of the batch that are not listed yet |
| BatchTask.UnityChipBatchTask.RemainingInBatch | ucagent/checkers/base.py:676-683 | exactly the tasks of the batch that are not completed, in order |
| BatchTask.UnityChipBatchTask.UpdateCurrentTbd | ucagent/checkers/base.py:554-572 | an open batch is never replaced; otherwise the first sorted unfinished tasks |
| BatchTask.UnityChipBatchTask.SyncSourceTask | ucagent/checkers/base.py:574-597 | as written: the lists are filtered against the list that is about to be replaced |
| BatchTask.UnityChipBatchTask.SyncGenTask | ucagent/checkers/base.py:599-621 | the generated list is replaced, no other list changes, and the answer says whether there is anything to note |
| BatchTask.UnityChipBatchTask.UpdateTbdFromSource | ucagent/checkers/base.py:524-532 | the in-place removal loop is the filter on the source list |
| BatchTask.UnityChipBatchTask.UpdateCmpFromTbd | ucagent/checkers/base.py:534-547 | the removal loop is the filter on the open batch |
| BatchTask.UnityChipBatchTask.UpdateTbdAndCmp | ucagent/checkers/base.py:549-552 | both filters, one after the other |
| BatchTask.UnityChipBatchTask.SavePoint | ucagent/checkers/base.py:462-477 | all four lists are saved |
| BatchTask.UnityChipBatchTask.LoadPoint | ucagent/checkers/base.py:479-495 | loading restores them, or changes nothing when nothing was saved |
| BatchRuns.SyncFiltersIff | ucagent/checkers/base.py:574-597 | which tasks a sync keeps: the filter works exactly when a change was noted or one list has a name the other lacks, and then it keeps the tasks of the old source list |
| BatchRuns.SyncKeepsBatchIff | ucagent/checkers/base.py:592-597 | on a consistent batch the sync removes nothing: tbd stays inside the new source if and only if it already was |
| BatchRuns.SyncCanKeepDeletedTask | ucagent/checkers/base.py:592-597 | so a deleted task can stay in the open batch |
| BatchRuns.SyncThenUpdate | ucagent/checkers/unity_test_random.py:121-126 | a second update restores cmp within tbd within source |
| BatchRuns.AnnouncedBatch | ucagent/checkers/base.py:560-572 | the announced batch is the first min(size, unfinished) unfinished names in string order, unfinished meaning stripped, not blank and not among the stripped results |
| BatchRuns.AnnouncedBatchIff | ucagent/checkers/base.py:560-572 | the announced batch is a duplicate-free choice of source tasks for every batch size if and only if no two unfinished names agree up to blanks and each stands in the source as announced |
| BatchRuns.AnnouncedOutsideSource | ucagent/checkers/base.py:560-572 | a source with two names that differ in blanks only: the announced batch has a repetition and lies outside the source |
| BatchRuns.AnnouncedIsNextIff | ucagent/checkers/file_linemap.py:500-504 | on clean names the announced batch equals the first unfinished tasks in source order if and only if those are ascending and exceed no later one |
| AnnouncedBatches.CallAnnounces | ucagent/checkers/file_linemap.py:500-504 | a call of the line-map checker that closes a batch and leaves targets announces the first stripped ones in string order, while the next call checks the first ones in source order |
| AnnouncedBatches.AnnouncedIsCheckedIff | ucagent/checkers/file_linemap.py:500-504 | along a run the announced batch is the one checked next if and only if its names need no stripping, are ascending and exceed no later target |
| AnnouncedBatches.TenBlocksDisagree | ucagent/checkers/file_linemap.py:500-504 | one file of ten or more non-blank lines, one line per block, at most eight blocks per batch: the two batches differ |
| AnnouncedBatches.AnnouncedIsNotChecked | ucagent/checkers/file_linemap.py:500-504 | such a world exists for every separator-free name |
| BatchRuns.ClosedBatchesBound | ucagent/checkers/base.py:623-727 | a run with fixed source and no lost results closes at most as many batches as there were unfinished names and open tasks, whatever the names look like |
| BatchRuns.PassMeansCovered | ucagent/checkers/base.py:623-727 | in any interleaving of syncs and completions a True verdict means the source is covered by the result |
| RandomCases.CallKeepsNesting | ucagent/checkers/unity_test_random.py:118-131 | after every call with a readable document cmp within tbd within source, gen within source, source is the current document, and no recorded checkpoint is lost |
| RandomCases.PassMeansDocument | ucagent/checkers/unity_test_random.py:186-340 | a True verdict means the tests passed and the finished checkpoints are exactly those of the current document, each with a stored record unless it counted as finished without one before |
| RandomCases.FinishedAreRecorded | ucagent/checkers/unity_test_random.py:186-340 | what counts as finished after any call has a stored record or counted as finished before |
| RandomCases.NothingElseIsRecorded | ucagent/checkers/unity_test_random.py:186-340 | only submitted checkpoints of the open batch become recorded |
| RandomRules.OutcomeIff | ucagent/checkers/unity_test_random.py:186-340 | exactly how a call on a readable document ends: argument error, keys outside document or batch, nothing new, failed tests, or acted on |
| RandomRules.RecordedIff | ucagent/checkers/unity_test_random.py:308-340 | a call that gets as far as the tests records exactly the submitted checkpoints of the open batch, in the record and in the finished list; any other call records nothing |
| RandomRules.PreparedGenIff | ucagent/checkers/unity_test_random.py:118-131 | what counts as finished before the keys are looked at: what was finished or has a record, as far as the document still has it |
| RandomRules.PreparedBatch | ucagent/checkers/unity_test_random.py:118-131 | the open batch: the rest of the old one in the document, or else the first unfinished checkpoints in string order |
| RandomRules.FullBatchCloses | ucagent/checkers/unity_test_random.py:308-340 | submitting exactly the open batch with passing tests closes it; the call passes if and only if nothing else of the document is unfinished, and otherwise the next batch is open |
| RandomRules.ExactNumberOfFullCalls | ucagent/checkers/unity_test_random.py:186-340 | submitting each open batch finishes a clean document without repetitions after exactly max(1, ceil(left / size)) calls, the last of which is the only one that passes |
| RandomRules.ParsedKeysIff | ucagent/checkers/unity_test_random.py:166-184 | the keys of the submission: the stripped non-blank ones, each once |
| RandomCases.RandomTestCasesChecker.SyncSourceFromDoc | ucagent/checkers/unity_test_random.py:118-131 | the lists after synchronising with the document |
| RandomCases.RandomTestCasesChecker.DoCheck | ucagent/checkers/unity_test_random.py:186-340 | outcome, lists and record of one call |
| RecordWindow.SlidingWindow | ucagent/checkers/recorder.py:783-812 | after any calls from an empty payload the recorded Bugs are in document order, each once, and each has fewer than batch_size unrecorded Bugs before it |
| RecordWindow.StepKeepsWindow | ucagent/checkers/recorder.py:669-838 | one call keeps that, never loses a recorded Bug, adds at most batch_size, passes if and only if it is acted on and every expected Bug is recorded, and otherwise leaves the payload alone |
| RecordWindow.RunNeverForgets | ucagent/checkers/recorder.py:669-838 | the same along every run |
| RecordWindow.MergedRecords | ucagent/checkers/recorder.py:806-810 | a record is in the merged list if and only if it was submitted, or was there and its Bug was not submitted |
| RecordWindow.MergeKeepsWindow | ucagent/checkers/recorder.py:783-812 | a merge inside the current batch keeps the window |
| RecordWindow.PassTakesCalls | ucagent/checkers/recorder.py:669-838 | no run passes in fewer than ceil(n / batch_size) calls |
| RecordWindow.EnoughCalls | ucagent/checkers/recorder.py:669-838 | handing in one full batch per call passes at exactly that call |
| RecordWindow.StuckIff | ucagent/checkers/recorder.py:684-697 | a stored list is unreadable, so that no call is ever acted on, if and only if a recorded name starts with `BG-` |
| RecordWindow.StuckForever | ucagent/checkers/recorder.py:684-697 | from there every further run leaves the payload unchanged and every call fails |
| RecordCompletion.CanPassIff | ucagent/checkers/recorder.py:669-838 | a document can ever be finished if and only if its Bugs starting with `BG-` are fewer than a batch, or exactly a batch that includes the last Bug of the document |
| RecordCompletion.StuckIsReachedIff | ucagent/checkers/recorder.py:684-697 | some run from an empty payload gets stuck if and only if some expected Bug starts with `BG-` |
| RecordCompletion.OneBugGetsStuck | ucagent/checkers/recorder.py:684-697 | a document with the single Bug `BG-x`: one call with `<BG-BG-x-50>` passes, and no call is acted on afterwards |
| RecordCompletion.LabelledEntry | ucagent/checkers/recorder.py:403-419 | submitted with its complete label every canonical record is accepted, whatever the Bug is called |
| RecordWindow.GoodIsReadable | ucagent/checkers/recorder.py:684-697 | a payload of a run reads back as its own records if and only if no recorded name starts with `BG-` |
| RecordRuns.NormalizingTwiceIff | ucagent/checkers/recorder.py:358-602 | normalising an accepted list again changes nothing if and only if none of its names starts with `BG-` |
| RecordRuns.StoredEntry | ucagent/checkers/recorder.py:358-602 | a stored record is accepted as itself, or (name starting with `BG-`) refused |
| RecordRuns.PercentReadsAsFraction | ucagent/checkers/recorder.py:456-487 | a percentage above one is accepted as the fraction it stands for, and refused above one hundred |
| RecordRuns.NormalizedIsCanonical | ucagent/checkers/recorder.py:358-602 | accepted lists hold canonical records without a repeated name |
| RecordRuns.OrderIsIgnored | ucagent/checkers/recorder.py:429-572 | rearranging the alias, CK and ref values of an entry does not change its record |
| RecordRules.CallIff | ucagent/checkers/recorder.py:669-838 | exactly what one call does: unreadable payload or submission, no submission, a submission outside the window, and a merge, each with its verdict and the payload it leaves |
| RecordRules.NormalizedIff | ucagent/checkers/recorder.py:358-602 | exactly which arrays, or decoded strings, are accepted, and as which records |
| RecordRules.EntryIff | ucagent/checkers/recorder.py:396-601 | exactly which entries are accepted and as which record, field by field: name or label, confidence, aliases, checkpoints, description, locations, references, severity |
| Records.ResolveIff | ucagent/checkers/recorder.py:489-526 | a checkpoint text resolves to a declared path if and only if it is that path, or has no slash and is the last part of that path alone |
| Records.LastPartIs | ucagent/checkers/recorder.py:489-526 | the last part of `front/name` is `name`, and a name without a slash is its own last part |
| Records.NormalizeBugList | ucagent/checkers/recorder.py:358-602 | the loops return the canonical list if and only if every entry is acceptable and no name repeats |
| Records.ReadEntry | ucagent/checkers/recorder.py:396-601 | one entry: name or label, confidence, aliases, checkpoints, description, locations, references and severity |
| Records.ReadAliases | ucagent/checkers/recorder.py:429-454 | accepted if and only if exactly the declared aliases are given, each once |
| Records.ReadCks | ucagent/checkers/recorder.py:489-526 | accepted if and only if every value resolves unambiguously and every declared checkpoint is given |
| Records.ReadLocations | ucagent/checkers/recorder.py:534-550 | the parsed locations without repetitions, or the error |
| Records.ReadRefs | ucagent/checkers/recorder.py:552-572 | accepted if and only if exactly the declared references are given, each once |
| Records.BugRecordType.Record | ucagent/checkers/recorder.py:669-838 | the method refines the one-call specification |
| Records.Recorder.DoCheck | ucagent/checkers/recorder.py:1064-1116 | the payload the call leaves is the one that is stored |
| ExpectedBugs.ExpectationIsLoaded | ucagent/checkers/recorder.py:191-346 | whatever the documents are read into satisfies what the guarantees of the recorder rely on; in particular two Bugs always differ in a reference |
| ExpectedBugs.MarksAreExact | ucagent/checkers/recorder.py:265-318 | the expected Bugs are those of the non-zero marks in order of first mention, each with its checkpoints in that order; the k-th mark with a label gets the range of the k-th tag with that label |
| ExpectedRules.LoadsIff | ucagent/checkers/recorder.py:265-334 | loading refuses if and only if some mark is refused (no Bug label, fewer than four parts, no tag line of its own, a confidence that differs from that of the first mark of its Bug) or some linked label is unknown |
| ExpectedRules.ConfidencesAreExact | ucagent/checkers/recorder.py:265-302 | every expected Bug has the confidence of its first mark, and every other mark of it agrees within the tolerance |
| ExpectedRules.BugsAreExact | ucagent/checkers/recorder.py:265-346 | names, checkpoints, aliases and references of the expected Bugs as functions of marks, tag lines and links |
| ExpectedBugs.LoadExpectedBugs | ucagent/checkers/recorder.py:265-346 | the loops over marks and links against their specification, every ValueError included |
| ExpectedBugs.RefsTellApart | ucagent/checkers/recorder.py:336-345 | equal reference sets belong to the same Bug, because the entry scan gives every tag its own line |
| ExpectedLinks.LabelsAreExact | ucagent/checkers/recorder.py:266-318 | a linked label is known if and only if some mark has it up to case, and it means the Bug of the last such mark, or none when that has confidence zero |
| ExpectedLinks.LinksAreExact | ucagent/checkers/recorder.py:320-334 | the links are accepted if and only if every linked label is known; each Bug then has the aliases and ranges of the links that resolve to it, in order of first link |
| ExpectedLinks.AliasesAreExact | ucagent/checkers/recorder.py:265-346 | the aliases of a loaded Bug are exactly those of the links whose label means it, each once |
| ExpectedBugs.OccurrencesInOrder | ucagent/checkers/recorder.py:235-262 | the ranges found by the entry scan start on different lines, in order |
| Locations.ReferenceRoundTripIff | ucagent/checkers/recorder.py:148-159 | reading a printed reference returns document and de-duplicated ranges in order, colons in the path included, if and only if the document is non-empty without leading blank or newline and there are ranges, all from line one on |
| Locations.LabelRoundTripIff | ucagent/checkers/toffee_report.py:95-106 | parsing `BG-name-cc` returns name and cc/100 if and only if cc <= 100 and the name is not blank and has no newline |
| Locations.TagReadsAsLabel | ucagent/checkers/toffee_report.py:95-106 | a complete tag in angle brackets reads like its label |
| LocationRules.LocationIff | ucagent/checkers/static_bug.py:128-146 | exactly which texts are locations and which: a path up to the last colon, colons of its own included, and behind it comma-separated `N` or `N-M` with 1 <= N <= M |
| LocationRules.LabelIff | ucagent/checkers/toffee_report.py:95-107 | exactly which texts are Bug labels and which: any angle brackets around `BG-name-cc` with one to three digits up to 100 behind the last dash and a name that is not blank and has no newline |
| Locations.ParseSourceLocation | ucagent/checkers/static_bug.py:128-146 | the parsing loop against its specification |
| Locations.FormatDocumentRef | ucagent/checkers/recorder.py:148-159 | the printing loop against its specification |
| DocumentRanges.ScanEntries | ucagent/checkers/static_bug.py:170-194 | one range per Bug line, in order; each crosses no tag or heading, ends on a non-blank line unless it is a single line, and leaves only blank lines before the next boundary |
| DocumentRanges.EntryEnd | ucagent/checkers/recorder.py:240-258 | the inner scan for one entry |
| DocumentRanges.BugLines | ucagent/checkers/recorder.py:235-239 | the ascending list of Bug lines |
| DocumentRanges.EntriesAreDisjoint | ucagent/checkers/static_bug.py:170-194 | ranges are ordered and pairwise disjoint |
| DocumentRanges.EntryRangesUnique | ucagent/checkers/static_bug.py:170-194 | those properties determine the ranges |
| ReportGate.PassExplainsFailures | ucagent/checkers/toffee_report.py:2263-2364 | a passing report explains every failed test by a non-zero mark whose first match it is, under a checkpoint it failed with; with the flags on every failed checkpoint carries a non-zero Bug and document and test code have the same checkpoints |
| ReportRules.ReportPassesIff | ucagent/checkers/toffee_report.py:2263-2364 | exactly when a report passes, over its lists: same checkpoints under the flags, and where an analysis is needed every mark fits, every failed test and checkpoint is analysed and the waveform gate passes |
| ReportRules.PassingMarksFit | ucagent/checkers/toffee_report.py:2104-2200 | in a passing report every mark in the prefix has its checkpoint in the tests; with non-zero confidence the first failed test that contains all its parts failed under it, or, in batch mode only, no failed or passed test contains them |
| ReportRules.MarkReads | ucagent/checkers/toffee_report.py:2087-2118 | a mark is read as the checkpoint, label, confidence and test it was made of |
| WaveformGate.CheckReportAndWaveform | ucagent/checkers/toffee_report.py:2263-2364 | the gate, with the waveform gate called in it on the failed tests, passes if and only if all its conditions hold |
| ReportGate.CheckBugTcAnalysis | ucagent/checkers/toffee_report.py:2072-2200 | passes if and only if every mark in the prefix agrees with the report and every failed test is explained |
| ReportGate.ExplainedTests | ucagent/checkers/toffee_report.py:2087-2103 | the failed tests found by the first loop are exactly the explained ones |
| ReportGate.MarkAgrees | ucagent/checkers/toffee_report.py:2109-2138 | the conditions on one mark, if and only if |
| ReportGate.CheckBugCkAnalysis | ucagent/checkers/toffee_report.py:2202-2230 | passes if and only if every failed checkpoint has a non-zero Bug and all marks are well formed |
| ReportGate.GetBugCkList | ucagent/checkers/toffee_report.py:2023-2055 | exactly the checkpoint paths of the non-zero Bugs in the prefix |
| ReportGate.CheckDocStruct | ucagent/checkers/toffee_report.py:2233-2260 | the two inclusions, each under its flag |
| ReportGate.FindMatchingTestCase | ucagent/checkers/toffee_report.py:109-113 | the first name that contains all parts |
| ReportGate.NamedTestIsMatchedIff | ucagent/checkers/toffee_report.py:109-113 | a test named in full is matched as itself if and only if no earlier test contains all its parts |
| ReportGate.ExplainsIff | ucagent/checkers/toffee_report.py:2089-2103 | a mark that names a failed test in full counts for it if and only if its confidence is not zero, the test failed under its checkpoint and no earlier failed test contains all parts of the name |
| ReportGate.LongerNameShadows | ucagent/checkers/toffee_report.py:2089-2103 | consequence: when a failed test whose name extends another comes anywhere before it, no mark that names the shorter one in full explains it |
| DynamicBugLines.RecordsAreExact | ucagent/checkers/toffee_report.py:154-338 | the records list exactly the visible non-zero Bugs of the container, and under each exactly the tests before the next scope tag or container end |
| DynamicBugRules.AcceptedIff | ucagent/checkers/toffee_report.py:154-338 | exactly which documents are accepted: no static Bug tag, one container without a Bug tag before it, and every line of the container in order, tests before the analysis fields included |
| DynamicBugRules.TestsPrecedeAnalysis | ucagent/checkers/toffee_report.py:271-291 | in an accepted document a listed test has a name and no analysis field of its Bug comes before it |
| DynamicBugRules.OneRecordPerLine | ucagent/checkers/toffee_report.py:154-338 | two records stand on different lines |
| DynamicBugLines.RecordPairs | ucagent/checkers/toffee_report.py:154-338 | the listed tests stand on different lines, in order |
| DynamicBugLines.RecordLabels | ucagent/checkers/toffee_report.py:154-338 | each record carries the label of its line and, as its checkpoint, the path of the FG, FC and CK tags in force there: an FC counts only within its FG, a CK only within both |
| DynamicBugs.HeadingHasOneTag | ucagent/util/bug_analysis_contract.py:137-171 | a line with a proper heading carries exactly one tag |
| DynamicBugs.ParseDynamicBugRecords | ucagent/checkers/toffee_report.py:154-338 | the scanning loop against the line-by-line specification, error cases included |
| DynamicBugs.ApplyTags | ucagent/checkers/toffee_report.py:222-314 | the loop over the tags of one line |
| DynamicBugs.FindStaticTag | ucagent/checkers/toffee_report.py:116-151 | rejects if and only if a static Bug tag occurs |
| WaveformGate.ReferencesCorrespond | ucagent/checkers/toffee_report.py:341-637 | WAVEFORM-REF lines of the container correspond one-to-one, in order, to the (Bug, TC) associations, each after its test and before the next |
| WaveformGate.RecordsListTheirBugs | ucagent/checkers/toffee_report.py:341-637 | each central record lists exactly the sorted set of Bugs that reference its test, and at least one: no orphans |
| WaveformRules.BlocksIff | ucagent/checkers/toffee_report.py:341-637 | exactly which documents are accepted and with which records: both containers once, every test followed by its reference, no misplaced line, and records laid out in order whose tests, titles and Bug lists fit the associations |
| WaveformRules.LayoutIff | ucagent/checkers/toffee_report.py:460-637 | the evidence region holds these records if and only if each consists of anchor, heading, YAML block and viewer link with only blank lines between and around |
| Waveform.ParseWaveformBlocks | ucagent/checkers/toffee_report.py:341-637 | the parser against its specification, every rejection included |
| Waveform.CollectAssociations | ucagent/checkers/toffee_report.py:387-430 | associations exist if and only if every tag has a normal form that has one itself, is followed by its reference, and no pair repeats |
| Waveform.CheckPlacement | ucagent/checkers/toffee_report.py:432-458 | accepted if and only if no line mentions a foreign reference or holds waveform data |
| Waveform.ReadBlocks | ucagent/checkers/toffee_report.py:460-637 | the evidence loop accepts exactly well-formed records with distinct labels and matching Bug lists; it terminates |
| WaveformWriter.WrittenRecordsAreRead | ucagent/checkers/toffee_report.py:460-637 | round trip: from records written one after the other the parser reads exactly those records, in order |
| WaveformGate.RecordListsBugIff | ucagent/checkers/toffee_report.py:387-430 | a central record lists a Bug if and only if some test under the Bug has the tag of the record as its normal form |
| WaveformGate.RecordedTagsAreNormal | ucagent/checkers/toffee_report.py:387-430 | when every listed test has a record under its tag as written, all these tags are normal forms: records exist for normal forms only, and normalising never leads back to a tag it has left |
| TagMeaning.NormalizeIff | ucagent/util/bug_analysis_contract.py:207-226 | exactly which texts have a normal form and which: a file, perhaps a class, and a function, none blank, where the file has plain components only and the given path leads to it from every directory, `..` and either slash included |
| TagMeaning.PathIff | ucagent/util/bug_analysis_contract.py:219-225 | a normalised path is a file inside the workspace if and only if it is the plain path to which the given one leads from every directory |
| TagMeaning.NormalizingTwiceIff | ucagent/util/bug_analysis_contract.py:207-226 | exact condition: the normal form is normal again unless its class part ends with a colon that is all of it, or has white space before it, or is followed by a function part that starts with a colon |
| TestTags.NormalizingDescends | ucagent/util/bug_analysis_contract.py:207-226 | normalising leaves a tag alone or makes it shorter, or as long with fewer backslashes |
| TestTags.PermutedIsFixed | ucagent/util/bug_analysis_contract.py:207-226 | a finite set of tags each of which is the normal form of one of them holds normal forms only |
| TestTags.NotIdempotent | ucagent/util/bug_analysis_contract.py:207-226 | normalising is not idempotent: `TC-a.py::t[b : ::c]` becomes `TC-a.py::t[b :::c]`, and that becomes `TC-a.py::t[b:::c]` |
| DocumentWriter.DocumentIsRead | ucagent/checkers/toffee_report.py:154-637 | reading back a whole written document: whatever contract and protocol read its single lines as they are meant, the records are those of the written Bugs and tests, and the central records are returned if and only if no Bug lists a test twice, no test has two records and each record repeats the title of its test and lists exactly the Bugs that reference it |
| WaveformGate.FinalGateIsSound | ucagent/checkers/toffee_report.py:1949-1985 | a passing final gate, for every document, contract and protocol: every visible non-zero Bug has a test, and each of its tests has a confirmed central record that lists the Bug and whose receipt exists and analysed that test |
| GateRules.FinalPassesIff | ucagent/checkers/toffee_report.py:1949-1985 | exactly when the final gate passes for a document: it is well formed, and unless it has no Bug the analysis texts are complete, every Bug has a test, every test is evidenced and no test is shadowed |
| GateRules.FinalPassesByLines | ucagent/checkers/toffee_report.py:1949-1985 | the same over the lines of the document |
| GateRules.WaveformPassesIff | ucagent/checkers/toffee_report.py:1227-1905 | exactly when the waveform gate passes for a document, with the matching of tests spelled out |
| WaveformGate.CheckAllDocumented | ucagent/checkers/toffee_report.py:1949-1985 | the final gate passes if and only if all its conditions hold |
| WaveformGate.CheckWaveformBugAnalysis | ucagent/checkers/toffee_report.py:1227-1905 | the gate passes if and only if all required tests are confirmed and the document is well formed |
| WaveformGate.RequiredWaveformTests | ucagent/checkers/toffee_report.py:640-716 | the required tests, and the refusal of unmapped pairs, if and only if |
| WaveformGate.TestMapExact | ucagent/checkers/toffee_report.py:1908-1946 | the map of documented tests holds a test under a checkpoint if and only if some record with that checkpoint lists it; the names are those listed in document order, each once |
| WaveformGate.GetDocumentedTestMap | ucagent/checkers/toffee_report.py:1908-1946 | refused if and only if a Bug has no test; otherwise the map that holds a test under a checkpoint if and only if some record with that checkpoint lists it |
| DocumentedTests.RefusedIff | ucagent/checkers/toffee_report.py:658-686 | the documented tests cannot all be mapped if and only if some test is read as another documented test, the first one that contains all its parts, which is not documented under its checkpoint |
| DocumentedTests.CompletePassesIff | ucagent/checkers/toffee_report.py:1949-1985 | a document in which nothing is missing passes the final gate if and only if no test is shadowed in that way |
| TwoTests.TwoTestsPassIff | ucagent/checkers/toffee_report.py:109-113 | for every contract and protocol that read the written lines, every analysis text and any two tests under different checkpoints whose records confirm them: the document is complete, and the final gate refuses it exactly when the first name contains all `::`-parts of the second |
| SheetExamples.CompleteDocumentRefused | ucagent/checkers/toffee_report.py:658-686 | a complete document of `a.py::test_ab` and `a.py::test_a`, with confidence notation and record headings as the tools write them, is refused |
| WaveformGate.PassingReportIsProved | ucagent/checkers/toffee_report.py:2263-2364 | a passing report with the waveform gate as it is called there: every documented pair mapped to a failed test has, under its tag as written, a confirmed central record whose receipt analysed the test; the record lists the Bug if and only if some test under the Bug has that tag as its normal form, in particular when the tag is a normal form |
| RawTags.PassesWithoutRecord | ucagent/checkers/toffee_report.py:1265-1269 | for every document in which the tag of one test is read as the tag of another test is written, with one record, under that tag, for the Bug of the first: unless the first test is itself matched to a failed one, the waveform gate of the report passes whatever failed, and no record lists the other Bug |
| SheetExamples.BugWithoutRecordPasses | ucagent/checkers/toffee_report.py:1265-1269 | such a document exists: `a.py::t[b :::c]` failed and is listed under Bug X, `a.py::t[b : ::c]` is listed under Bug Y and has the only record |
| Sections.ParseBugAnalysisSections | ucagent/checkers/toffee_report.py:735-836 | bodies are returned if and only if every title and marker occurs once, adjacent and in canonical order |
| Sections.RenderedSectionsAreRead | ucagent/checkers/toffee_report.py:735-836 | parsing a rendered analysis returns its bodies up to trimming |
| Sections.LayoutUnique | ucagent/checkers/toffee_report.py:735-836 | the layout is unique |
| Sections.MarkerBeforeNextTitle | ucagent/checkers/toffee_report.py:803-836 | a marker always comes before the next title, so bodies do not overlap |
| Registry.RunKeepsInv | ucagent/verify_pdb.py:380-478 | every interleaving of the threads keeps the registry invariant |
| Registry.LiveTokensArePartitioned | ucagent/verify_pdb.py:380-478 | over every interleaving the live tokens are the disjoint union of what the threads hold, each thread ascending |
| Registry.CurrentIsNewest | ucagent/verify_pdb.py:380-419 | the current command is that of the largest live token, and none if and only if nothing is live |
| Registry.StepIsLocal | ucagent/verify_pdb.py:450-467 | a step of one thread does not change what another holds |
| Registry.StepOnOwnTokens | ucagent/verify_pdb.py:450-467 | what a step does to the tokens of its own thread |
| Registry.OthersCannotTouch | ucagent/verify_pdb.py:473-478 | whatever other threads do, aborts included, a thread that takes no step keeps its tokens and entries |
| ThreadAborts.AbortUnderInterference | ucagent/verify_pdb.py:473-478 | whatever the other threads do between the steps of an abort, after as many rounds as the thread has tokens it holds nothing and has no live command, and everybody else is where they would be without it |
| ThreadInterrupts.LeaksIff | ucagent/verify_pdb.py:311-324 | over every interleaving with interrupts a thread has a live command if and only if it holds its token or an interrupt took the token out of its hand, between registering and pushing or between popping and finishing; a token is live and held by nobody if and only if the latter happened |
| ThreadInterrupts.LeakedForever | ucagent/verify_pdb.py:402-419 | a leaked command stays live for ever and is held by nobody, and from then on there always is a current command |
| ThreadInterrupts.AbortAfterInterrupt | ucagent/verify_pdb.py:473-478 | a thread interrupted at any point that then runs its abort loop, whatever the others do or suffer meanwhile: it holds nothing, and its live commands are those it lost before and the one that was in its hand |
| RunningCommands.VerifyPdb.RegisterRunningCommand | ucagent/verify_pdb.py:380-400 | the registration step |
| RunningCommands.VerifyPdb.FinishRunningCommand | ucagent/verify_pdb.py:402-419 | the finishing step |
| RunningCommands.VerifyPdb.PushRunningCommandToken | ucagent/verify_pdb.py:450-455 | the push step |
| RunningCommands.VerifyPdb.PopRunningCommandToken | ucagent/verify_pdb.py:457-467 | the pop step |
| RunningCommands.VerifyPdb.Precmd | ucagent/verify_pdb.py:255-268 | record the command in the transcript outside the TUI, register, then push |
| RunningCommands.VerifyPdb.Postcmd | ucagent/verify_pdb.py:270-272 | pop, then finish, whatever command is on top |
| RunningCommands.VerifyPdb.AbortRunningCommandsForCurrentThread | ucagent/verify_pdb.py:473-478 | removes exactly the entries of the current thread |
| RunningCommands.VerifyPdb.CancelLastRunningCommand | ucagent/verify_pdb.py:297-309 | picks the thread of the newest foreground entry, and none if and only if there is none |
| RunningCommands.CancelHitsOwner | ucagent/verify_pdb.py:297-309 | in every reachable state that thread holds the largest foreground token |
| RunningCommands.RestoresIff | ucagent/verify_pdb.py:255-283 | commands of a thread, nested ones included, leave its stack as they found it if and only if untracked ones run only on an empty stack |
| Console.TranscriptIsFaithful | ucagent/verify_pdb.py:326-378 | rendering all entries shows exactly what a terminal would have shown |
| Console.ReadingOnIff | ucagent/verify_pdb.py:351-378 | an earlier rendering followed by the later entries is the whole rendering if and only if the next recorded write starts its own entry (at a line start, if it is a command) |
| Console.WholeIff | ucagent/verify_pdb.py:351-378 | a count shows the whole transcript if and only if it is not positive or larger than the number of entries, as a count is that was taken before the transcript was cleared |
| Console.LostOutput | ucagent/verify_pdb.py:326-335 | output appended to an entry that was already counted is missing from the later entries |
| Console.Transcript.RecordConsoleOutput | ucagent/verify_pdb.py:326-335 | consecutive output is one entry |
| Console.Transcript.RecordConsoleCommand | ucagent/verify_pdb.py:337-344 | blank commands and the TUI command are not recorded |
| Console.Transcript.RenderConsoleEntriesSince | ucagent/verify_pdb.py:356-378 | the rendering loop, out-of-range start included |
| RetryLoop.FailuresAreBounded | ucagent/verify_pdb.py:1263-1307 | at most max(R, 1) * (1 + G) attempts fail |
| RetryLoop.BoundIsTight | ucagent/verify_pdb.py:1263-1307 | for every R >= 1 and G some run reaches the bound |
| RetryLoop.LoopIff | ucagent/verify_pdb.py:1263-1307 | exactly how the loop ends: success, exhausted, interrupted or still trying, after which attempt and with how many failures |
| RetryLoop.GainIsOverall | ucagent/verify_pdb.py:1286-1300 | for a monotone round counter G is at most its overall increase |
| RetryLoop.DoLoop | ucagent/verify_pdb.py:1263-1307 | the loop against its specification |

## Left out

- Text outside ASCII in numbers: `int()` and `\d` accept other decimal digits, and `int()` limits the number of digits;
  the model reads ASCII digits of any length.
- Files, directories, git, globbing and JSON or YAML decoding: their results are inputs. The search for misplaced
  mapping files is the list `World.strayMaps`; a legacy payload string is decoded by an arbitrary function.
- Hashing: digests and waveform anchors are opaque values, in `SheetExamples` a stand-in. ReferencesCorrespond pairs lines by position and needs no
  assumption on anchors.
- Message texts, diagnostics, suggestions and template data: verdicts, lists and stored values only.
- Aliasing of Python lists: `sync_gen_task` keeps the caller's list object. The model stores values.
- A failed write of a checkpoint file, and a checkpoint that cannot be read.
- LoadExpectedBugs: marks, tag lines and links of the Bug documents are inputs, and so is `str.upper`; the text blocks
  kept for display are not modelled.
- The bug summary file written on stage completion and the synchronisation with Master servers.
- Running the tests in the random-test checker, its continue-fail counter and its message data: the test verdict is an
  input.
- CheckReportAndWaveform: running tests, the missing-coverage message and the caller's post-check are boolean inputs.
- PassingReportIsProved: the marks of the test-bug check and the records of the waveform check are read by two different
  parsers of the same document; that they agree is not modelled.
- Precmd: installing the mirror of the standard output is I/O.
- CheckWaveformBugAnalysis: the comparison of a record with its receipt beyond the test name (window, identity fields,
  viewer payload, current replay) is one arbitrary predicate, and so is the verdict on the eight analysis texts.
- The localised titles: `DynamicBugs.Contract` and `Sections.Field` take them as values.
- Line classes in `DocumentRanges` (Bug tag, other tag or heading, blank) are inputs; the tags of the dynamic document
  are read character by character.
- A KeyboardInterrupt inside an atomic step of the command table, and the clock: `RetryLoop` takes "alive long enough" as
  input.
- Formal, coverage, Markdown and unit-test checkers, the terminal interface, servers, backends, shells and command-line
  options: field checks and plumbing.
