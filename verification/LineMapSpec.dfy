/** What one call of the line-map batch checker means, as a function of the world and of the batch
    task's lists (ucagent/checkers/file_linemap.py). The checker class is proved against it. */
module LineMapSpec {
  import opened Text
  import opened Lists
  import opened TaskTokens
  import opened LineMapFile
  import opened BatchTask

  // ---------------------------------------------------------------- line blocks

  datatype Block = Block(file: string, start: nat, end: nat, digest: Digest)

  function TaskOf(b: Block): string
  {
    Token(b.file, b.start, b.end, b.digest)
  }

  function TasksOf(blocks: seq<Block>): (r: seq<string>)
    ensures |r| == |blocks|
  {
    if blocks == [] then [] else [TaskOf(blocks[0])] + TasksOf(blocks[1..])
  }

  lemma {:induction false} TaskAt(blocks: seq<Block>, i: nat)
    requires i < |blocks|
    ensures TasksOf(blocks)[i] == TaskOf(blocks[i])
    decreases |blocks|
  {
    if i > 0 {
      TaskAt(blocks[1..], i - 1);
    }
  }

  /** No line of the block is worth a mapping. */
  predicate Skippable(cfg: Config, lines: seq<string>, start: int, end: int)
    requires 1 <= start && end <= |lines|
  {
    cfg.ignoreBlankLines && forall i :: start - 1 <= i < end ==> IsBlank(lines[i])
  }

  /** The blocks of one file from line `start` on. */
  function FileBlocks(cfg: Config, file: string, lines: seq<string>, digest: Digest, start: nat): seq<Block>
    requires start >= 1
    decreases |lines| + 1 - start
  {
    if start > |lines| then []
    else
      var last := start + cfg.maxBlockLines - 1;
      var end := if last <= |lines| then last else |lines|;
      (if Skippable(cfg, lines, start, end) then [] else [Block(file, start, end, digest)])
      + FileBlocks(cfg, file, lines, digest, start + cfg.maxBlockLines)
  }

  /** `_get_all_source_files`: the matched names, sorted and without repetitions. */
  function SourceFiles(w: World): seq<string>
  {
    SortedSet(w.matched)
  }

  function BlocksOfFiles(cfg: Config, w: World, files: seq<string>): seq<Block>
  {
    if files == [] then []
    else
      (if IsReadable(w, files[0])
       then FileBlocks(cfg, files[0], w.files[files[0]].lines, w.files[files[0]].digest, 1)
       else [])
      + BlocksOfFiles(cfg, w, files[1..])
  }

  function AllBlocks(cfg: Config, w: World): seq<Block>
  {
    BlocksOfFiles(cfg, w, SourceFiles(w))
  }

  function AllTasks(cfg: Config, w: World): seq<string>
  {
    TasksOf(AllBlocks(cfg, w))
  }

  // ---------------------------------------------------------------- configuration errors

  /** Two matched names share one mapping file, whatever its location and suffix. */
  ghost predicate SharedMapFile(files: seq<string>)
  {
    exists i, j :: 0 <= i < j < |files| && MapStem(files[i]) == MapStem(files[j])
  }

  ghost predicate ConfigurationError(w: World)
  {
    || SharedMapFile(SourceFiles(w))
    || (exists f :: f in w.matched && !IsReadable(w, f))
    || w.strayMaps != []
  }

  // ---------------------------------------------------------------- re-validating the progress

  /** The recorded task that counts for a base: the first one. */
  function FirstRecord(recorded: seq<string>, base: string): Option<string>
  {
    if recorded == [] then None
    else if Base(recorded[0]) == base then Some(recorded[0])
    else FirstRecord(recorded[1..], base)
  }

  lemma {:induction false} FirstRecordFacts(recorded: seq<string>, base: string)
    ensures FirstRecord(recorded, base).None? <==> forall t :: t in recorded ==> Base(t) != base
    ensures FirstRecord(recorded, base).Some? ==>
              FirstRecord(recorded, base).value in recorded && Base(FirstRecord(recorded, base).value) == base
    decreases |recorded|
  {
    hide Base;
    if recorded != [] {
      FirstRecordFacts(recorded[1..], base);
    }
  }

  /** `_validate_line_block`. */
  ghost function Validate(cfg: Config, w: World, task: string, cks: seq<string>): BlockResult
  {
    match SplitBlock(task)
    case None => Raises
    case Some((file, start, end)) => BlockStatus(cfg, w, file, start, end, cks)
  }

  datatype Status = Unrecorded | Stale | Broken | Faulty | Good

  /** How a current task stands: not recorded, recorded for another content, recorded but no longer
      covered, recorded but impossible to validate, or completed. Without a CK list nothing is validated. */
  ghost function StatusOf(cfg: Config, w: World, recorded: seq<string>, cks: Option<seq<string>>, task: string): Status
  {
    match FirstRecord(recorded, Base(task))
    case None => Unrecorded
    case Some(record) =>
      if DigestOf(record) != DigestOf(task) then Stale
      else if cks.None? then Good
      else
        match Validate(cfg, w, task, cks.value)
        case Valid => Good
        case Invalid => Broken
        case Raises => Faulty
  }

  ghost function Statuses(cfg: Config, w: World, recorded: seq<string>, cks: Option<seq<string>>, tasks: seq<string>): (r: seq<Status>)
    ensures |r| == |tasks|
    ensures forall i :: 0 <= i < |r| ==> r[i] == StatusOf(cfg, w, recorded, cks, tasks[i])
  {
    seq(|tasks|, i requires 0 <= i < |tasks| => StatusOf(cfg, w, recorded, cks, tasks[i]))
  }

  /** The length of the longest prefix of good statuses. */
  function GoodPrefix(s: seq<Status>): (p: nat)
    ensures p <= |s|
    ensures forall i :: 0 <= i < p ==> s[i].Good?
    ensures p < |s| ==> !s[p].Good?
  {
    if s == [] || !s[0].Good? then 0 else 1 + GoodPrefix(s[1..])
  }

  /** How many current tasks, from the first one on, are completed. */
  ghost function Healed(cfg: Config, w: World, recorded: seq<string>, cks: Option<seq<string>>, tasks: seq<string>): (p: nat)
    ensures p <= |tasks|
  {
    GoodPrefix(Statuses(cfg, w, recorded, cks, tasks))
  }

  ghost predicate DuplicateRecords(recorded: seq<string>)
  {
    exists i, j :: 0 <= i < j < |recorded| && Base(recorded[i]) == Base(recorded[j])
  }

  ghost predicate UnknownRecord(recorded: seq<string>, tasks: seq<string>)
  {
    exists t :: t in recorded && forall u :: u in tasks ==> Base(u) != Base(t)
  }

  ghost predicate GapInRecords(recorded: seq<string>, tasks: seq<string>)
  {
    exists i, j :: 0 <= i < j < |tasks|
      && FirstRecord(recorded, Base(tasks[i])).None? && FirstRecord(recorded, Base(tasks[j])).Some?
  }

  /** The status of the first task that is not completed, if there is one. */
  ghost predicate StopsAt(cfg: Config, w: World, recorded: seq<string>, cks: Option<seq<string>>, status: Status)
  {
    var tasks := AllTasks(cfg, w);
    var p := Healed(cfg, w, recorded, cks, tasks);
    p < |tasks| && StatusOf(cfg, w, recorded, cks, tasks[p]) == status
  }

  ghost predicate ProgressError(cfg: Config, w: World, recorded: seq<string>, cks: Option<seq<string>>)
  {
    || DuplicateRecords(recorded)
    || UnknownRecord(recorded, AllTasks(cfg, w))
    || GapInRecords(recorded, AllTasks(cfg, w))
    || StopsAt(cfg, w, recorded, cks, Stale)
  }

  /** The lists after `_refresh_batch_state`, unless validating raises. */
  ghost function Refreshed(cfg: Config, w: World, recorded: seq<string>, cks: Option<seq<string>>): Batch
  {
    var tasks := AllTasks(cfg, w);
    var completed := tasks[..Healed(cfg, w, recorded, cks, tasks)];
    Batch(tasks, completed, Take(DropIn(tasks, completed), cfg.batchSize), [])
  }

  // ---------------------------------------------------------------- one Check or Complete call

  datatype Verdict = Passed | Failed | Raised

  /** The tasks of the batch that are not listed yet, appended in order. */
  function AppendNew(done: seq<string>, batch: seq<string>): (r: seq<string>)
    ensures forall x :: x in r <==> x in done || x in batch
  {
    if batch == [] then done
    else
      var last := batch[|batch| - 1];
      var r := AppendNew(done, batch[..|batch| - 1]);
      assert batch == batch[..|batch| - 1] + [last];
      if last in r then r else r + [last]
  }

  ghost predicate BatchHas(cfg: Config, w: World, cks: seq<string>, batch: seq<string>, r: BlockResult)
  {
    exists t :: t in batch && Validate(cfg, w, t, cks) == r
  }

  predicate AllSplit(tasks: seq<string>)
  {
    forall t :: t in tasks ==> SplitBlock(t).Some?
  }

  /** A failing answer that shows the contents of the tasks: collecting them raises when a task cannot be split. */
  function WithContents(tasks: seq<string>): Verdict
  {
    if AllSplit(tasks) then Failed else Raised
  }

  /** `do_check` after a refresh without errors on a non-empty task list. */
  ghost function CheckBatch(cfg: Config, w: World, cks: seq<string>, b: Batch): (Verdict, Batch)
  {
    if b.tbd == [] then (Passed, b)
    else if BatchHas(cfg, w, cks, b.tbd, Raises) then (Raised, b)
    else if BatchHas(cfg, w, cks, b.tbd, Invalid) then (Failed, b)
    else
      var (b', o) := Completed(b.(gen := AppendNew(b.gen, b.tbd)), cfg.batchSize);
      (if o.AllDone? then Passed else WithContents(b'.tbd), b')
  }

  /** `do_check` of an initialised checker: the verdict and the lists it leaves behind. */
  ghost function CheckCall(cfg: Config, w: World, b: Batch): (Verdict, Batch)
  {
    match w.cks
    case None => (WithContents(b.tbd), b)
    case Some(cks) =>
      if StopsAt(cfg, w, b.gen, w.cks, Faulty) then (Raised, b)
      else
        var b1 := Refreshed(cfg, w, b.gen, w.cks);
        if ConfigurationError(w) || ProgressError(cfg, w, b.gen, w.cks) then (WithContents(b1.tbd), b1)
        else if StopsAt(cfg, w, b.gen, w.cks, Broken) then (Failed, b1)
        else if b1.source == [] then (if SourceFiles(w) != [] then Passed else Failed, b1)
        else CheckBatch(cfg, w, cks, b1)
  }
}
