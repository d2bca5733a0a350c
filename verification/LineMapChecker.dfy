/** The line-map batch checker itself (`UnityChipBatchCheckerFileLineMap` of
    ucagent/checkers/file_linemap.py), proved against LineMapSpec. */
module LineMapChecker {
  import opened Text
  import opened Lists
  import opened LineRanges
  import opened TaskTokens
  import opened LineMapFile
  import opened BatchTask
  import opened LineMapSpec

  /** The entries of `_task_errors`, without their message texts. */
  datatype TaskError =
    | SharesMapFile(first: string, second: string)
    | CannotRead(file: string)
    | StrayMaps(files: seq<string>)
    | DuplicateRecord(base: string)
    | UnknownTarget(base: string)
    | AfterGap(base: string)
    | StaleRecord(base: string)

  /** `previous_by_base`: each recorded base with its first record. */
  ghost predicate FirstRecords(m: map<string, string>, recorded: seq<string>)
  {
    forall base :: if base in m then FirstRecord(recorded, base) == Some(m[base])
                   else FirstRecord(recorded, base).None?
  }

  lemma {:induction false} FirstRecordAppend(recorded: seq<string>, t: string, base: string)
    ensures FirstRecord(recorded + [t], base) ==
            if FirstRecord(recorded, base).Some? then FirstRecord(recorded, base)
            else if Base(t) == base then Some(t) else None
    decreases |recorded|
  {
    hide Base;
    if recorded == [] {
      assert recorded + [t] == [t];
    } else {
      assert (recorded + [t])[1..] == recorded[1..] + [t];
      FirstRecordAppend(recorded[1..], t, base);
    }
  }

  lemma DuplicateAppend(recorded: seq<string>, t: string)
    ensures DuplicateRecords(recorded + [t]) <==>
              DuplicateRecords(recorded) || FirstRecord(recorded, Base(t)).Some?
  {
    hide Base, FirstRecord;
    FirstRecordFacts(recorded, Base(t));
    var all := recorded + [t];
    assert all[|recorded|] == t;
    assert forall i :: 0 <= i < |recorded| ==> all[i] == recorded[i];
    if FirstRecord(recorded, Base(t)).Some? {
      var i :| 0 <= i < |recorded| && recorded[i] == FirstRecord(recorded, Base(t)).value;
      assert Base(all[i]) == Base(all[|recorded|]);
    }
  }

  lemma NoRecords()
    ensures FirstRecords(map[], []) && !DuplicateRecords([])
  {
  }

  /** One more recorded task: a known base keeps its first record, a new one is added. */
  lemma FirstRecordsAppend(m: map<string, string>, recorded: seq<string>, t: string)
    requires FirstRecords(m, recorded)
    ensures Base(t) in m <==> FirstRecord(recorded, Base(t)).Some?
    ensures FirstRecords(if Base(t) in m then m else m[Base(t) := t], recorded + [t])
  {
    hide Base, FirstRecord;
    forall b { FirstRecordAppend(recorded, t, b); }
  }

  /** One of the first `n` tasks is not recorded. */
  ghost predicate MissesWithin(s: seq<Status>, n: nat)
    requires n <= |s|
  {
    n > 0 && (MissesWithin(s, n - 1) || s[n - 1].Unrecorded?)
  }

  /** A recorded task comes after an unrecorded one, among the first `n` tasks. */
  ghost predicate GapWithin(s: seq<Status>, n: nat)
    requires n <= |s|
  {
    n > 0 && (GapWithin(s, n - 1) || (!s[n - 1].Unrecorded? && MissesWithin(s, n - 1)))
  }

  lemma GapStart(s: seq<Status>)
    ensures !MissesWithin(s, 0) && !GapWithin(s, 0)
  {
  }

  lemma GapStep(s: seq<Status>, n: nat)
    requires n < |s|
    ensures MissesWithin(s, n + 1) <==> MissesWithin(s, n) || s[n].Unrecorded?
    ensures GapWithin(s, n + 1) <==> GapWithin(s, n) || (!s[n].Unrecorded? && MissesWithin(s, n))
  {
  }

  lemma {:induction false} GapWithinMeaning(s: seq<Status>, n: nat)
    requires n <= |s|
    ensures MissesWithin(s, n) <==> exists i :: 0 <= i < n && s[i].Unrecorded?
    ensures GapWithin(s, n) <==> exists i, j :: 0 <= i < j < n && s[i].Unrecorded? && !s[j].Unrecorded?
  {
    if n > 0 {
      GapWithinMeaning(s, n - 1);
    }
  }

  /** What the dictionary from bases to current tasks holds: the last task with the base. */
  function LastWithBase(tasks: seq<string>, base: string): (r: Option<string>)
    ensures r.Some? ==> r.value in tasks && Base(r.value) == base
    ensures r.None? ==> forall t :: t in tasks ==> Base(t) != base
  {
    if tasks == [] then None
    else if Base(tasks[|tasks| - 1]) == base then Some(tasks[|tasks| - 1])
    else LastWithBase(tasks[..|tasks| - 1], base)
  }

  /** The bases belong to current tasks that can be split. */
  ghost predicate BasesOfTasks(bases: seq<string>, tasks: seq<string>)
  {
    forall base :: base in bases ==> SplitBase(base).Some? && exists t :: t in tasks && Base(t) == base
  }

  // ---------------------------------------------------------------- shared mapping files

  /** The dictionary holds a file for each mapping file of the files so far. */
  ghost predicate SeenFiles(cfg: Config, seen: map<string, string>, files: seq<string>)
  {
    forall m :: if m in seen then seen[m] in files && MapFile(cfg, seen[m]) == m
                else forall f :: f in files ==> MapFile(cfg, f) != m
  }

  ghost predicate SameMapFile(cfg: Config, files: seq<string>)
  {
    exists k, l :: 0 <= k < l < |files| && MapFile(cfg, files[k]) == MapFile(cfg, files[l])
  }

  lemma NothingSeen(cfg: Config, files: seq<string>)
    ensures SeenFiles(cfg, map[], files[..0]) && !SameMapFile(cfg, files[..0])
  {
  }

  lemma NotInFront(files: seq<string>, i: nat)
    requires NoDup(files) && i < |files|
    ensures files[i] !in files[..i]
  {
  }

  lemma OneMoreAll(files: seq<string>)
    ensures files[..|files|] == files
  {
  }

  lemma NextSeen(cfg: Config, seen: map<string, string>, files: seq<string>, f: string)
    requires SeenFiles(cfg, seen, files) && f !in files
    ensures SeenFiles(cfg, seen[MapFile(cfg, f) := f], files + [f])
    ensures MapFile(cfg, f) in seen ==> seen[MapFile(cfg, f)] != f
    ensures SameMapFile(cfg, files + [f]) <==> SameMapFile(cfg, files) || MapFile(cfg, f) in seen
  {
    hide MapFile;
    var all := files + [f];
    assert all[|files|] == f && forall k :: 0 <= k < |files| ==> all[k] == files[k];
    if MapFile(cfg, f) in seen {
      var g := seen[MapFile(cfg, f)];
      var k :| 0 <= k < |files| && files[k] == g;
      assert MapFile(cfg, all[k]) == MapFile(cfg, all[|files|]);
    }
  }

  lemma SameMapFileMeaning(cfg: Config, files: seq<string>)
    ensures SameMapFile(cfg, files) <==> SharedMapFile(files)
  {
    hide MapFile, MapStem;
    forall k, l | 0 <= k < l < |files|
      ensures MapFile(cfg, files[k]) == MapFile(cfg, files[l]) <==> MapStem(files[k]) == MapStem(files[l]) {
      SameMapFileIff(cfg, files[k], files[l]);
    }
  }

  class UnityChipBatchCheckerFileLineMap {
    const cfg: Config
    const batchTask: UnityChipBatchTask
    var taskErrors: seq<TaskError>
    var completedErrors: seq<string>   // bases in _completed_validation_errors
    var sourceFiles: seq<string>
    var isInit: bool
    var finalCks: Option<seq<string>>  // what _save_final_ck_list stored last

    ghost predicate Valid()
      reads this
    {
      batchTask.batchSize == cfg.batchSize
    }

    constructor (cfg: Config, checkpoint: Option<Batch>)
      ensures Valid() && fresh(batchTask) && this.cfg == cfg && !isInit
      ensures batchTask.View() == Batch([], [], [], []) && batchTask.checkpoint == checkpoint
    {
      this.cfg := cfg;
      batchTask := new UnityChipBatchTask(cfg.batchSize, checkpoint);
      taskErrors, completedErrors, sourceFiles := [], [], [];
      isInit, finalCks := false, None;
    }

    method GetAllSourceFiles(w: World) returns (files: seq<string>)
      modifies this`taskErrors
      ensures files == SourceFiles(w)
      ensures old(taskErrors) <= taskErrors
      ensures |taskErrors| > |old(taskErrors)| <==> SharedMapFile(files)
    {
      hide MapFile, MapStem, SortedSet, SeenFiles, SameMapFile, NoDup, SharedMapFile;
      files := SortedSet(w.matched);
      SortedSetFacts(w.matched);
      var seen: map<string, string> := map[];
      NothingSeen(cfg, files);
      for i := 0 to |files|
        invariant old(taskErrors) <= taskErrors
        invariant SeenFiles(cfg, seen, files[..i])
        invariant |taskErrors| > |old(taskErrors)| <==> SameMapFile(cfg, files[..i])
      {
        var mapFile := MapFile(cfg, files[i]);
        OneMore(files, i);
        NotInFront(files, i);
        NextSeen(cfg, seen, files[..i], files[i]);
        if mapFile in seen && seen[mapFile] != files[i] {
          taskErrors := taskErrors + [SharesMapFile(seen[mapFile], files[i])];
        }
        seen := seen[mapFile := files[i]];
      }
      OneMoreAll(files);
      SameMapFileMeaning(cfg, files);
    }

    method GetAllLineBlocks(w: World) returns (tasks: seq<string>)
      modifies this`taskErrors, this`sourceFiles
      ensures sourceFiles == SourceFiles(w)
      ensures tasks == AllTasks(cfg, w)
      ensures old(taskErrors) <= taskErrors
      ensures |taskErrors| > |old(taskErrors)| <==>
                SharedMapFile(sourceFiles) || exists f :: f in w.matched && !IsReadable(w, f)
    {
      hide TasksOf, BlocksOfFiles, AllTasks, SharedMapFile, FileBlocks, SourceFiles;
      sourceFiles := GetAllSourceFiles(w);
      AllTasksFacts(cfg, w);
      ghost var shared := |taskErrors| > |old(taskErrors)|;
      tasks := [];
      SeqAssoc(AllTasks(cfg, w), [], []);
      for i := 0 to |sourceFiles|
        invariant sourceFiles == SourceFiles(w)
        invariant tasks + TasksOf(BlocksOfFiles(cfg, w, sourceFiles[i..])) == AllTasks(cfg, w)
        invariant old(taskErrors) <= taskErrors
        invariant |taskErrors| > |old(taskErrors)| <==>
                    shared || exists k :: 0 <= k < i && !IsReadable(w, sourceFiles[k])
      {
        var file := sourceFiles[i];
        FilesStep(cfg, w, sourceFiles, i, tasks);
        if !IsReadable(w, file) {
          taskErrors := taskErrors + [CannotRead(file)];
          continue;
        }
        var fileTasks := GetFileTasks(file, w.files[file].lines, w.files[file].digest);
        tasks := tasks + fileTasks;
      }
      assert sourceFiles[|sourceFiles|..] == [];
      SeqAssoc(tasks, [], []);
    }

    /** The inner loop of `_get_all_line_blocks`. */
    method GetFileTasks(file: string, lines: seq<string>, digest: Digest) returns (tasks: seq<string>)
      ensures tasks == TasksOf(FileBlocks(cfg, file, lines, digest, 1))
    {
      hide TasksOf, Token, Skippable, FileBlocks;
      tasks := [];
      var start := 1;
      SeqAssoc(TasksOf(FileBlocks(cfg, file, lines, digest, 1)), [], []);
      while start <= |lines|
        invariant start >= 1
        invariant tasks + TasksOf(FileBlocks(cfg, file, lines, digest, start))
               == TasksOf(FileBlocks(cfg, file, lines, digest, 1))
        decreases |lines| + 1 - start
      {
        var last := start + cfg.maxBlockLines - 1;
        var end := if last <= |lines| then last else |lines|;
        FileTasksStep(cfg, file, lines, digest, start, tasks);
        if !Skippable(cfg, lines, start, end) {
          tasks := tasks + [Token(file, start, end, digest)];
        }
        start := start + cfg.maxBlockLines;
      }
      NoBlocks(cfg, file, lines, digest, start);
      SeqAssoc(tasks, [], []);
    }

    method SyncBatchState(sourceTasks: seq<string>, completed: seq<string>)
      requires Valid()
      modifies batchTask`tbdTasks, batchTask`cmpTasks, batchTask`sourceTasks, batchTask`genTasks
      ensures batchTask.View() ==
              Batch(sourceTasks, completed, Take(DropIn(sourceTasks, completed), cfg.batchSize), [])
    {
      var noted := batchTask.SyncSourceTask(sourceTasks, false);
      var _ := batchTask.SyncGenTask(completed, noted);
      var remaining := DropIn(sourceTasks, completed);
      batchTask.tbdTasks := Take(remaining, cfg.batchSize);
      batchTask.cmpTasks := [];
    }

    method ValidateLineBlock(w: World, task: string, cks: seq<string>) returns (r: BlockResult)
      ensures r == Validate(cfg, w, task, cks)
    {
      match SplitBlock(task)
      case None => r := Raises;
      case Some((file, start, end)) =>
        var uncovered;
        r, uncovered := LineMapCheckOneFile(cfg, w, file, start, end, cks);
    }

    /** `_attach_line_block_content`, whose only effect here is the exception for a task that cannot be split. */
    method AttachLineBlockContent(tasks: seq<string>) returns (v: Verdict)
      ensures v == WithContents(tasks)
    {
      hide SplitBlock;
      for i := 0 to |tasks|
        invariant forall k :: 0 <= k < i ==> SplitBlock(tasks[k]).Some?
      {
        if SplitBlock(tasks[i]).None? {
          assert tasks[i] in tasks;
          return Raised;
        }
      }
      v := Failed;
    }

    /** The answer when completed blocks are no longer valid: it shows the blocks in question. */
    method ReportInvalid() returns (v: Verdict)
      requires completedErrors != [] && BasesOfTasks(completedErrors, batchTask.sourceTasks)
      ensures v == Failed
    {
      hide SplitBase, Base;
      var invalidTasks, openTasks: seq<string> := [], batchTask.tbdTasks;
      for i := 0 to |completedErrors|
        invariant i > 0 ==> invalidTasks != []
        invariant forall t :: t in invalidTasks ==> SplitBase(Base(t)).Some?
      {
        assert completedErrors[i] in completedErrors;
        var task := LastWithBase(batchTask.sourceTasks, completedErrors[i]);
        if task.Some? {
          invalidTasks := invalidTasks + [task.value];
        }
      }
      v := AttachLineBlockContent(if invalidTasks != [] then invalidTasks else openTasks);
    }

    /** The first loop of `_refresh_batch_state`: index the recorded tasks by base. */
    method IndexRecords(recorded: seq<string>) returns (previousByBase: map<string, string>)
      modifies this`taskErrors
      ensures FirstRecords(previousByBase, recorded)
      ensures old(taskErrors) <= taskErrors
      ensures |taskErrors| > |old(taskErrors)| <==> DuplicateRecords(recorded)
    {
      hide Base, FirstRecord, FirstRecords, DuplicateRecords;
      previousByBase := map[];
      NoRecords();
      assert recorded[..0] == [] && recorded[..|recorded|] == recorded;
      for i := 0 to |recorded|
        invariant FirstRecords(previousByBase, recorded[..i])
        invariant old(taskErrors) <= taskErrors
        invariant |taskErrors| > |old(taskErrors)| <==> DuplicateRecords(recorded[..i])
      {
        var base := Base(recorded[i]);
        OneMore(recorded, i);
        DuplicateAppend(recorded[..i], recorded[i]);
        FirstRecordsAppend(previousByBase, recorded[..i], recorded[i]);
        if base in previousByBase {
          taskErrors := taskErrors + [DuplicateRecord(base)];
          continue;
        }
        previousByBase := previousByBase[base := recorded[i]];
      }
    }

    /** The loop over recorded bases that match no current target. */
    method ReportUnknown(previousByBase: map<string, string>, recorded: seq<string>, tasks: seq<string>)
      requires FirstRecords(previousByBase, recorded)
      modifies this`taskErrors
      ensures old(taskErrors) <= taskErrors
      ensures |taskErrors| > |old(taskErrors)| <==> UnknownRecord(recorded, tasks)
    {
      hide Base, FirstRecord;
      var currentBases := set t | t in tasks :: Base(t);
      var unknown := previousByBase.Keys - currentBases;
      assert unknown != {} <==> UnknownRecord(recorded, tasks) by {
        if unknown != {} {
          var base :| base in unknown;
          FirstRecordFacts(recorded, base);
          var t := FirstRecord(recorded, base).value;
          assert t in recorded && forall u :: u in tasks ==> Base(u) != Base(t);
        }
        if UnknownRecord(recorded, tasks) {
          var t :| t in recorded && forall u :: u in tasks ==> Base(u) != Base(t);
          FirstRecordFacts(recorded, Base(t));
          assert Base(t) in unknown;
        }
      }
      ghost var all := unknown;
      while unknown != {}
        invariant unknown <= all
        invariant old(taskErrors) <= taskErrors
        invariant |taskErrors| > |old(taskErrors)| <==> unknown < all
      {
        var base :| base in unknown;
        unknown := unknown - {base};
        taskErrors := taskErrors + [UnknownTarget(base)];
      }
    }

    /** The main loop of `_refresh_batch_state`, with its two flags. */
    method ScanProgress(w: World, cks: Option<seq<string>>, tasks: seq<string>,
                        previousByBase: map<string, string>, ghost recorded: seq<string>)
      returns (raised: bool, completed: seq<string>)
      requires FirstRecords(previousByBase, recorded)
      requires completedErrors == []
      modifies this`taskErrors, this`completedErrors
      ensures var s := Statuses(cfg, w, recorded, cks, tasks);
              var p := GoodPrefix(s);
              && (raised <==> p < |s| && s[p].Faulty?)
              && (!raised ==> completed == tasks[..p])
              && (!raised ==> (completedErrors != [] <==> p < |s| && s[p].Broken?))
              && (!raised ==> BasesOfTasks(completedErrors, tasks))
              && (!raised ==> old(taskErrors) <= taskErrors)
              && (!raised ==> (|taskErrors| > |old(taskErrors)| <==> GapWithin(s, |s|) || (p < |s| && s[p].Stale?)))
    {
      hide FirstRecord, Base, DigestOf, Validate, GoodPrefix, Statuses, BasesOfTasks, MissesWithin, GapWithin;
      NoBases(tasks);
      raised, completed := false, [];
      var foundIncomplete, checkpointGap := false, false;
      ghost var s := Statuses(cfg, w, recorded, cks, tasks);
      ghost var p := GoodPrefix(s);
      GapStart(s);
      for i := 0 to |tasks|
        invariant foundIncomplete <==> p < i
        invariant !foundIncomplete ==> completed == tasks[..i]
        invariant foundIncomplete ==> completed == tasks[..p]
        invariant checkpointGap <==> MissesWithin(s, i)
        invariant checkpointGap ==> foundIncomplete
        invariant p < i ==> !s[p].Faulty?
        invariant completedErrors != [] <==> p < i && s[p].Broken?
        invariant BasesOfTasks(completedErrors, tasks)
        invariant old(taskErrors) <= taskErrors
        invariant |taskErrors| > |old(taskErrors)| <==> GapWithin(s, i) || (p < i && s[p].Stale?)
      {
        var task := tasks[i];
        var base := Base(task);
        GapStep(s, i);
        assert s[i] == StatusOf(cfg, w, recorded, cks, task);
        if base !in previousByBase {
          foundIncomplete := true;
          checkpointGap := true;
          continue;
        }
        if foundIncomplete {
          if checkpointGap {
            taskErrors := taskErrors + [AfterGap(base)];
          }
          continue;
        }
        if DigestOf(previousByBase[base]) != DigestOf(task) {
          taskErrors := taskErrors + [StaleRecord(base)];
          foundIncomplete := true;
          continue;
        }
        if cks.Some? {
          var valid := ValidateLineBlock(w, task, cks.value);
          if valid.Raises? {
            return true, completed;
          }
          if valid.Invalid? {
            BaseOfTask(task, tasks, completedErrors, cks.value, w);
            completedErrors := completedErrors + [base];
            foundIncomplete := true;
            continue;
          }
        }
        completed := completed + [task];
        assert tasks[..i + 1] == tasks[..i] + [task];
      }
      assert tasks[..|tasks|] == tasks;
    }

    lemma NoBases(tasks: seq<string>)
      ensures BasesOfTasks([], tasks)
    {
    }

    /** A task that was validated without an exception can be split. */
    lemma BaseOfTask(task: string, tasks: seq<string>, bases: seq<string>, cks: seq<string>, w: World)
      requires task in tasks && BasesOfTasks(bases, tasks) && !Validate(cfg, w, task, cks).Raises?
      ensures BasesOfTasks(bases + [Base(task)], tasks)
    {
      hide Base, SplitBase, BlockStatus;
    }

    /** The first half of `_refresh_batch_state`: current targets and recorded bases. */
    method IndexTargetsAndRecords(w: World) returns (tasks: seq<string>, previousByBase: map<string, string>)
      modifies this`taskErrors, this`sourceFiles
      ensures sourceFiles == SourceFiles(w)
      ensures tasks == AllTasks(cfg, w)
      ensures FirstRecords(previousByBase, batchTask.genTasks)
      ensures taskErrors != [] <==>
                || SharedMapFile(SourceFiles(w)) || (exists f :: f in w.matched && !IsReadable(w, f))
                || DuplicateRecords(batchTask.genTasks) || UnknownRecord(batchTask.genTasks, tasks)
    {
      hide AllTasks, SharedMapFile, DuplicateRecords, UnknownRecord, SourceFiles, FirstRecords;
      taskErrors := [];
      tasks := GetAllLineBlocks(w);
      previousByBase := IndexRecords(batchTask.genTasks);
      ReportUnknown(previousByBase, batchTask.genTasks, tasks);
    }

    /** `_refresh_batch_state`: re-derive everything from the files, and keep only the completed prefix. */
    method RefreshBatchState(w: World, cks: Option<seq<string>>) returns (raised: bool)
      requires Valid()
      modifies this`taskErrors, this`completedErrors, this`sourceFiles
      modifies batchTask`tbdTasks, batchTask`cmpTasks, batchTask`sourceTasks, batchTask`genTasks
      ensures sourceFiles == SourceFiles(w)
      ensures raised <==> StopsAt(cfg, w, old(batchTask.genTasks), cks, Faulty)
      ensures raised ==> batchTask.View() == old(batchTask.View())
      ensures !raised ==> batchTask.View() == Refreshed(cfg, w, old(batchTask.genTasks), cks)
      ensures !raised ==> (taskErrors != [] <==>
                ConfigurationError(w) || ProgressError(cfg, w, old(batchTask.genTasks), cks))
      ensures !raised ==> (completedErrors != [] <==> StopsAt(cfg, w, old(batchTask.genTasks), cks, Broken))
      ensures !raised ==> BasesOfTasks(completedErrors, batchTask.sourceTasks)
    {
      hide AllTasks, SharedMapFile, DuplicateRecords, UnknownRecord, GapInRecords, SourceFiles, FirstRecords,
           Statuses, GoodPrefix, GapWithin, StopsAt, ConfigurationError, ProgressError, Refreshed, BasesOfTasks;
      ghost var recorded := batchTask.genTasks;
      RefreshFacts(cfg, w, recorded, cks);
      completedErrors := [];
      var tasks, previousByBase := IndexTargetsAndRecords(w);
      var completed;
      raised, completed := ScanProgress(w, cks, tasks, previousByBase, recorded);
      if raised {
        return;
      }
      if w.strayMaps != [] {
        taskErrors := taskErrors + [StrayMaps(w.strayMaps)];
      }
      SyncBatchState(tasks, completed);
    }

    method OnInit(w: World) returns (raised: bool)
      requires Valid()
      modifies this, batchTask
      ensures Valid()
      ensures raised ==> batchTask.View() == old(batchTask.View()) && isInit == old(isInit)
      ensures !raised ==> batchTask.View() == Refreshed(cfg, w, old(batchTask.genTasks), w.cks) && isInit
      ensures batchTask.checkpoint == old(batchTask.checkpoint)
    {
      hide StopsAt, ConfigurationError, ProgressError, Refreshed;
      raised := RefreshBatchState(w, w.cks);
      if !raised {
        isInit := true;
      }
    }

    /** `do_check`. */
    method DoCheck(w: World) returns (v: Verdict)
      requires Valid()
      modifies this, batchTask
      ensures Valid() && isInit == old(isInit)
      ensures (v, batchTask.View()) ==
              if old(isInit) then CheckCall(cfg, w, old(batchTask.View())) else (Failed, old(batchTask.View()))
      ensures v == Passed ==> finalCks == w.cks
    {
      hide StopsAt, ConfigurationError, ProgressError, Refreshed, BatchHas, Completed, BasesOfTasks, AllSplit;
      if !isInit {
        return Failed;
      }
      if w.cks.None? {
        v := AttachLineBlockContent(batchTask.tbdTasks);
        return;
      }
      var cks := w.cks.value;
      var raised := RefreshBatchState(w, w.cks);
      if raised {
        return Raised;
      }
      if taskErrors != [] {
        v := AttachLineBlockContent(batchTask.tbdTasks);
        return;
      }
      if completedErrors != [] {
        v := ReportInvalid();
        return;
      }
      if batchTask.sourceTasks == [] {
        if sourceFiles != [] {
          finalCks := Some(cks);
          return Passed;
        }
        return Failed;
      }
      if batchTask.tbdTasks == [] {
        finalCks := Some(cks);
        return Passed;
      }
      var verdict := CheckCurrentBatch(w, cks);
      if verdict == Passed {
        finalCks := Some(cks);
      }
      return verdict;
    }

    /** The rest of `do_check`: validate the open batch and advance. */
    method CheckCurrentBatch(w: World, cks: seq<string>) returns (v: Verdict)
      requires Valid() && batchTask.tbdTasks != []
      modifies batchTask
      ensures (v, batchTask.View()) == CheckBatch(cfg, w, cks, old(batchTask.View()))
    {
      var batch := batchTask.tbdTasks;
      var invalidCurrent := [];
      for i := 0 to |batch|
        invariant batchTask.View() == old(batchTask.View())
        invariant !BatchHas(cfg, w, cks, batch[..i], Raises)
        invariant invalidCurrent != [] <==> BatchHas(cfg, w, cks, batch[..i], Invalid)
      {
        assert batch[..i + 1] == batch[..i] + [batch[i]];
        var valid := ValidateLineBlock(w, batch[i], cks);
        if valid.Raises? {
          assert batch[i] in batch;
          return Raised;
        }
        if valid.Invalid? {
          invalidCurrent := invalidCurrent + [batch[i]];
        }
      }
      assert batch[..|batch|] == batch;
      if invalidCurrent != [] {
        ValidatedSplit(w, cks, batch);
        v := AttachLineBlockContent(batch);
        return;
      }
      var completed := batchTask.genTasks;
      for i := 0 to |batch|
        invariant completed == AppendNew(batchTask.genTasks, batch[..i])
      {
        assert batch[..i + 1][..i] == batch[..i];
        if batch[i] !in completed {
          completed := completed + [batch[i]];
        }
      }
      assert batch[..|batch|] == batch;
      var _ := batchTask.SyncGenTask(completed, false);
      var o := batchTask.DoComplete();
      ValidatedSplit(w, cks, batch);
      v := AttachLineBlockContent(batch);
      if o.AllDone? {
        return Passed;
      }
      v := AttachLineBlockContent(batchTask.tbdTasks);
    }

    lemma ValidatedSplit(w: World, cks: seq<string>, batch: seq<string>)
      requires !BatchHas(cfg, w, cks, batch, Raises)
      ensures AllSplit(batch)
    {
      hide BlockStatus, SplitBlock;
    }
  }

  lemma AllTasksFacts(cfg: Config, w: World)
    ensures AllTasks(cfg, w) == TasksOf(BlocksOfFiles(cfg, w, SourceFiles(w)[0..]))
    ensures TasksOf(BlocksOfFiles(cfg, w, [])) == []
    ensures forall x :: x in SourceFiles(w) <==> x in w.matched
  {
    SortedSetFacts(w.matched);
    assert SourceFiles(w)[0..] == SourceFiles(w);
  }

  /** One iteration over the files: the blocks of file `i` and then those of the later files. */
  lemma FilesStep(cfg: Config, w: World, files: seq<string>, i: nat, tasks: seq<string>)
    requires i < |files|
    ensures tasks + TasksOf(BlocksOfFiles(cfg, w, files[i..])) ==
            (if IsReadable(w, files[i])
             then tasks + TasksOf(FileBlocks(cfg, files[i], w.files[files[i]].lines, w.files[files[i]].digest, 1))
             else tasks)
            + TasksOf(BlocksOfFiles(cfg, w, files[i + 1..]))
  {
    hide FileBlocks, TasksOf;
    var file, rest := files[i], BlocksOfFiles(cfg, w, files[i + 1..]);
    assert files[i..][0] == file && files[i..][1..] == files[i + 1..];
    SeqAssoc(rest, [], []);
    if IsReadable(w, file) {
      var blocks := FileBlocks(cfg, file, w.files[file].lines, w.files[file].digest, 1);
      assert BlocksOfFiles(cfg, w, files[i..]) == blocks + rest;
      hide BlocksOfFiles;
      TasksOfConcat(blocks, rest);
      SeqAssoc(tasks, TasksOf(blocks), TasksOf(rest));
    }
  }

  /** One iteration over a file: the blocks from `start` on are its first block, unless that is
      skipped, and the blocks from the next start on. */
  lemma FileTasksStep(cfg: Config, file: string, lines: seq<string>, digest: Digest, start: nat, tasks: seq<string>)
    requires 1 <= start <= |lines|
    ensures var last := start + cfg.maxBlockLines - 1;
            var end := if last <= |lines| then last else |lines|;
            tasks + TasksOf(FileBlocks(cfg, file, lines, digest, start)) ==
            (if Skippable(cfg, lines, start, end) then tasks else tasks + [Token(file, start, end, digest)])
            + TasksOf(FileBlocks(cfg, file, lines, digest, start + cfg.maxBlockLines))
  {
    hide Token, Skippable, TasksOf;
    var last := start + cfg.maxBlockLines - 1;
    var end := if last <= |lines| then last else |lines|;
    var b := Block(file, start, end, digest);
    var rest := FileBlocks(cfg, file, lines, digest, start + cfg.maxBlockLines);
    hide FileBlocks;
    SeqAssoc(rest, [], []);
    OneTask(b);
    TasksOfConcat([b], rest);
    SeqAssoc(tasks, [TaskOf(b)], TasksOf(rest));
  }

  lemma OneTask(b: Block)
    ensures TasksOf([b]) == [TaskOf(b)]
  {
    hide TaskOf;
  }

  lemma NoBlocks(cfg: Config, file: string, lines: seq<string>, digest: Digest, start: nat)
    requires start > |lines|
    ensures TasksOf(FileBlocks(cfg, file, lines, digest, start)) == []
  {
  }

  lemma {:induction false} TasksOfConcat(a: seq<Block>, b: seq<Block>)
    ensures TasksOf(a + b) == TasksOf(a) + TasksOf(b)
    decreases |a|
  {
    hide TaskOf;
    if a == [] {
      assert a + b == b;
    } else {
      assert (a + b)[1..] == a[1..] + b;
      TasksOfConcat(a[1..], b);
    }
  }

  lemma SameMapFileIff(cfg: Config, f: string, g: string)
    ensures MapFile(cfg, f) == MapFile(cfg, g) <==> MapStem(f) == MapStem(g)
  {
    var prefix := cfg.mapLocation + "/";
    if MapFile(cfg, f) == MapFile(cfg, g) {
      assert |MapStem(f)| == |MapStem(g)|;
      assert MapFile(cfg, f)[|prefix|..|prefix| + |MapStem(f)|] == MapStem(f);
      assert MapFile(cfg, g)[|prefix|..|prefix| + |MapStem(g)|] == MapStem(g);
    }
  }

  /** What a refresh computes, in terms of the statuses of the current tasks. */
  lemma RefreshFacts(cfg: Config, w: World, recorded: seq<string>, cks: Option<seq<string>>)
    ensures var tasks := AllTasks(cfg, w);
            var s := Statuses(cfg, w, recorded, cks, tasks);
            var p := GoodPrefix(s);
            && (forall r :: StopsAt(cfg, w, recorded, cks, r) <==> p < |s| && s[p] == r)
            && Refreshed(cfg, w, recorded, cks) ==
                 Batch(tasks, tasks[..p], Take(DropIn(tasks, tasks[..p]), cfg.batchSize), [])
            && (ProgressError(cfg, w, recorded, cks) <==>
                  || DuplicateRecords(recorded) || UnknownRecord(recorded, tasks)
                  || GapWithin(s, |s|) || (p < |s| && s[p].Stale?))
    ensures ConfigurationError(w) <==>
              || SharedMapFile(SourceFiles(w)) || (exists f :: f in w.matched && !IsReadable(w, f))
              || w.strayMaps != []
  {
    hide AllTasks, SharedMapFile, DuplicateRecords, UnknownRecord, StatusOf, SourceFiles, GoodPrefix, GapWithin;
    hide Take, DropIn;
    GapIsStatusGap(cfg, w, recorded, cks, AllTasks(cfg, w));
  }

  lemma GapIsStatusGap(cfg: Config, w: World, recorded: seq<string>, cks: Option<seq<string>>, tasks: seq<string>)
    ensures var s := Statuses(cfg, w, recorded, cks, tasks);
            GapWithin(s, |s|) <==> GapInRecords(recorded, tasks)
  {
    hide FirstRecord, Base, DigestOf, Validate;
    var s := Statuses(cfg, w, recorded, cks, tasks);
    forall i | 0 <= i < |s| ensures s[i].Unrecorded? <==> FirstRecord(recorded, Base(tasks[i])).None? {
      assert s[i] == StatusOf(cfg, w, recorded, cks, tasks[i]);
    }
    GapWithinMeaning(s, |s|);
  }
}
