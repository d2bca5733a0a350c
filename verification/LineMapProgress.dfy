/** Healing and progress of the line-map batch checker in a fixed world. */
module LineMapProgress {
  import opened Text
  import opened Lists
  import opened TaskTokens
  import opened LineMapFile
  import opened BatchTask
  import opened BatchRuns
  import opened LineMapSpec
  import opened LineMapSoundness

  // ---------------------------------------------------------------- distinct targets

  ghost predicate DistinctBases(tasks: seq<string>)
  {
    forall i, j :: 0 <= i < j < |tasks| ==> Base(tasks[i]) != Base(tasks[j])
  }

  ghost predicate DistinctPlaces(blocks: seq<Block>)
  {
    forall i, j :: 0 <= i < j < |blocks| ==> (blocks[i].file, blocks[i].start) != (blocks[j].file, blocks[j].start)
  }

  lemma {:induction false} FileBlocksDistinct(cfg: Config, file: string, lines: seq<string>, digest: Digest, start: nat)
    requires start >= 1
    ensures DistinctPlaces(FileBlocks(cfg, file, lines, digest, start))
    decreases |lines| + 1 - start
  {
    hide Skippable;
    if start <= |lines| {
      FileBlocksDistinct(cfg, file, lines, digest, start + cfg.maxBlockLines);
      FileBlocksShape(cfg, file, lines, digest, start + cfg.maxBlockLines);
      var rest := FileBlocks(cfg, file, lines, digest, start + cfg.maxBlockLines);
      forall j | 0 <= j < |rest| ensures rest[j].start > start { assert rest[j] in rest; }
    }
  }

  lemma {:induction false} BlocksOfFilesDistinct(cfg: Config, w: World, files: seq<string>)
    requires NoDup(files)
    ensures DistinctPlaces(BlocksOfFiles(cfg, w, files))
    decreases |files|
  {
    hide FileBlocks;
    if files != [] {
      var file, rest := files[0], BlocksOfFiles(cfg, w, files[1..]);
      BlocksOfFilesDistinct(cfg, w, files[1..]);
      if IsReadable(w, file) {
        var own := FileBlocks(cfg, file, w.files[file].lines, w.files[file].digest, 1);
        FileBlocksDistinct(cfg, file, w.files[file].lines, w.files[file].digest, 1);
        FileBlocksShape(cfg, file, w.files[file].lines, w.files[file].digest, 1);
        forall i | 0 <= i < |own| ensures own[i].file == file { assert own[i] in own; }
        forall j | 0 <= j < |rest| ensures rest[j].file != file {
          OtherFilesBlock(cfg, w, files[1..], rest[j]);
        }
      }
    }
  }

  lemma OtherFilesBlock(cfg: Config, w: World, files: seq<string>, b: Block)
    requires b in BlocksOfFiles(cfg, w, files)
    ensures b.file in files && 1 <= b.start <= b.end
  {
    hide FileBlocks;
    BlocksOfFilesMembers(cfg, w, files, b);
    var file :| file in files && BlockOf(cfg, w, file, b);
    FileBlocksShape(cfg, file, w.files[file].lines, w.files[file].digest, 1);
    assert BlockWithin(b, file, w.files[file].lines, w.files[file].digest, 1);
  }

  ghost predicate AllSeparatorFree(names: seq<string>)
  {
    forall f :: f in names ==> SeparatorFree(f)
  }

  /** No file with blocks has the separator in its name. */
  ghost predicate FreeBlocks(cfg: Config, w: World)
  {
    forall b :: b in AllBlocks(cfg, w) ==> SeparatorFree(b.file)
  }

  lemma FreeNames(cfg: Config, w: World)
    requires AllSeparatorFree(w.matched)
    ensures FreeBlocks(cfg, w)
  {
    hide AllBlocks, SeparatorFree, BlockOf;
    forall b | b in AllBlocks(cfg, w) ensures SeparatorFree(b.file) { AllBlocksMembers(cfg, w, b); }
  }

  /** Separator-free names of the files with blocks give every current target its own base. */
  lemma BasesAreDistinct(cfg: Config, w: World)
    requires FreeBlocks(cfg, w)
    ensures DistinctBases(AllTasks(cfg, w))
  {
    hide FileBlocks, BlocksOfFiles, Token, Base, SortedSet;
    SortedSetFacts(w.matched);
    var blocks := AllBlocks(cfg, w);
    BlocksOfFilesDistinct(cfg, w, SourceFiles(w));
    forall i, j | 0 <= i < j < |blocks| ensures Base(TasksOf(blocks)[i]) != Base(TasksOf(blocks)[j]) {
      var a, b := blocks[i], blocks[j];
      TaskAt(blocks, i);
      TaskAt(blocks, j);
      OtherFilesBlock(cfg, w, SourceFiles(w), a);
      OtherFilesBlock(cfg, w, SourceFiles(w), b);
      if Base(TaskOf(a)) == Base(TaskOf(b)) {
        TokenInjective(a.file, a.start, a.end, a.digest, b.file, b.start, b.end, b.digest);
      }
    }
  }

  // ---------------------------------------------------------------- healing

  lemma {:induction false} RecordInPrefix(tasks: seq<string>, p: nat, i: nat)
    requires p <= |tasks| && i < |tasks| && DistinctBases(tasks)
    ensures FirstRecord(tasks[..p], Base(tasks[i])) == if i < p then Some(tasks[i]) else None
  {
    hide Base, FirstRecord;
    FirstRecordFacts(tasks[..p], Base(tasks[i]));
    if i < p {
      assert tasks[..p][i] == tasks[i];
    }
  }

  ghost predicate PrefixValid(cfg: Config, w: World, cks: Option<seq<string>>, tasks: seq<string>, p: nat)
    requires p <= |tasks|
  {
    cks.Some? ==> forall i :: 0 <= i < p ==> Validate(cfg, w, tasks[i], cks.value) == Valid
  }

  lemma {:induction false} GoodPrefixIs(s: seq<Status>, p: nat)
    requires p <= |s| && (forall i :: 0 <= i < p ==> s[i].Good?) && (p < |s| ==> !s[p].Good?)
    ensures GoodPrefix(s) == p
    decreases |s|
  {
    if p > 0 {
      GoodPrefixIs(s[1..], p - 1);
    }
  }

  /** A recorded prefix of valid targets is kept as it is, and raises no complaint. */
  lemma PrefixIsHealed(cfg: Config, w: World, cks: Option<seq<string>>, p: nat)
    requires var tasks := AllTasks(cfg, w); p <= |tasks| && DistinctBases(tasks) && PrefixValid(cfg, w, cks, tasks, p)
    ensures var tasks := AllTasks(cfg, w);
            && Healed(cfg, w, tasks[..p], cks, tasks) == p
            && !ProgressError(cfg, w, tasks[..p], cks)
            && !StopsAt(cfg, w, tasks[..p], cks, Broken) && !StopsAt(cfg, w, tasks[..p], cks, Faulty)
  {
    hide AllTasks, FirstRecord, Base, DigestOf, Validate;
    var tasks := AllTasks(cfg, w);
    var s := Statuses(cfg, w, tasks[..p], cks, tasks);
    forall i | 0 <= i < |tasks| ensures s[i] == if i < p then Good else Unrecorded {
      RecordInPrefix(tasks, p, i);
    }
    GoodPrefixIs(s, p);
    assert !UnknownRecord(tasks[..p], tasks);
    assert !GapInRecords(tasks[..p], tasks) by {
      forall i | 0 <= i < |tasks| ensures FirstRecord(tasks[..p], Base(tasks[i])).Some? <==> i < p {
        RecordInPrefix(tasks, p, i);
      }
    }
  }

  lemma HealedPrefixValid(cfg: Config, w: World, recorded: seq<string>, cks: Option<seq<string>>)
    ensures var tasks := AllTasks(cfg, w); PrefixValid(cfg, w, cks, tasks, Healed(cfg, w, recorded, cks, tasks))
  {
    hide AllTasks, Validate, StatusOf;
    var tasks := AllTasks(cfg, w);
    if cks.Some? {
      forall i | 0 <= i < Healed(cfg, w, recorded, cks, tasks) ensures Validate(cfg, w, tasks[i], cks.value) == Valid {
        HealedAreValid(cfg, w, recorded, cks.value, tasks, i);
      }
    }
  }

  /** A target that a refresh may keep: recorded (its first record counts) for the same content and,
      when the CK list is known, still valid. */
  ghost predicate Keepable(cfg: Config, w: World, recorded: seq<string>, cks: Option<seq<string>>, task: string)
  {
    && (exists i :: 0 <= i < |recorded| && Base(recorded[i]) == Base(task) && DigestOf(recorded[i]) == DigestOf(task)
          && forall k :: 0 <= k < i ==> Base(recorded[k]) != Base(task))
    && (cks.Some? ==> Validate(cfg, w, task, cks.value) == Valid)
  }

  lemma {:induction false} FirstRecordAt(recorded: seq<string>, base: string, i: nat)
    requires i < |recorded| && Base(recorded[i]) == base && forall k :: 0 <= k < i ==> Base(recorded[k]) != base
    ensures FirstRecord(recorded, base) == Some(recorded[i])
    decreases |recorded|
  {
    hide Base;
    if i > 0 {
      assert Base(recorded[0]) != base;
      forall k | 0 <= k < i - 1 ensures Base(recorded[1..][k]) != base {
        assert recorded[1..][k] == recorded[k + 1];
      }
      FirstRecordAt(recorded[1..], base, i - 1);
    }
  }

  lemma {:induction false} FirstRecordIndex(recorded: seq<string>, base: string) returns (i: nat)
    requires FirstRecord(recorded, base).Some?
    ensures i < |recorded| && recorded[i] == FirstRecord(recorded, base).value
    ensures Base(recorded[i]) == base && forall k :: 0 <= k < i ==> Base(recorded[k]) != base
    decreases |recorded|
  {
    hide Base;
    if Base(recorded[0]) == base {
      i := 0;
    } else {
      var j := FirstRecordIndex(recorded[1..], base);
      i := j + 1;
      forall k | 0 <= k < i ensures Base(recorded[k]) != base {
        assert k > 0 ==> recorded[k] == recorded[1..][k - 1];
      }
    }
  }

  lemma GoodIffKeepable(cfg: Config, w: World, recorded: seq<string>, cks: Option<seq<string>>, task: string)
    ensures StatusOf(cfg, w, recorded, cks, task).Good? <==> Keepable(cfg, w, recorded, cks, task)
  {
    hide FirstRecord, Base, DigestOf, Validate;
    if FirstRecord(recorded, Base(task)).Some? {
      var i := FirstRecordIndex(recorded, Base(task));
    }
    if exists i :: 0 <= i < |recorded| && Base(recorded[i]) == Base(task)
        && forall k :: 0 <= k < i ==> Base(recorded[k]) != Base(task) {
      var i :| 0 <= i < |recorded| && Base(recorded[i]) == Base(task)
        && forall k :: 0 <= k < i ==> Base(recorded[k]) != Base(task);
      FirstRecordAt(recorded, Base(task), i);
    }
  }

  /** What a refresh leaves, from any recorded list: the longest prefix of keepable targets, and as the
      batch the next targets in source order. */
  lemma RefreshHeals(cfg: Config, w: World, recorded: seq<string>, cks: Option<seq<string>>)
    requires NoDup(AllTasks(cfg, w))
    ensures var b := Refreshed(cfg, w, recorded, cks);
            && b.source == AllTasks(cfg, w) && b.gen <= b.source && b.cmp == []
            && (forall i :: 0 <= i < |b.gen| ==> Keepable(cfg, w, recorded, cks, b.source[i]))
            && (|b.gen| < |b.source| ==> !Keepable(cfg, w, recorded, cks, b.source[|b.gen|]))
            && b.tbd == Take(b.source[|b.gen|..], cfg.batchSize)
  {
    hide AllTasks, StatusOf, Keepable, Take;
    var tasks := AllTasks(cfg, w);
    var p := Healed(cfg, w, recorded, cks, tasks);
    var s := Statuses(cfg, w, recorded, cks, tasks);
    forall i | 0 <= i < |tasks| ensures s[i].Good? <==> Keepable(cfg, w, recorded, cks, tasks[i]) {
      GoodIffKeepable(cfg, w, recorded, cks, tasks[i]);
    }
    DropPrefix(tasks, p);
  }

  /** Self-healing: one refresh from any recorded list reaches a state that further refreshes keep,
      without progress or validation complaints. */
  lemma RefreshIdempotent(cfg: Config, w: World, recorded: seq<string>, cks: Option<seq<string>>)
    requires DistinctBases(AllTasks(cfg, w))
    ensures var b := Refreshed(cfg, w, recorded, cks);
            && Refreshed(cfg, w, b.gen, cks) == b
            && !ProgressError(cfg, w, b.gen, cks)
            && !StopsAt(cfg, w, b.gen, cks, Broken) && !StopsAt(cfg, w, b.gen, cks, Faulty)
  {
    hide AllTasks, Healed, ProgressError, StopsAt, DistinctBases, PrefixValid;
    HealedPrefixValid(cfg, w, recorded, cks);
    PrefixIsHealed(cfg, w, cks, Healed(cfg, w, recorded, cks, AllTasks(cfg, w)));
  }

  lemma DistinctBasesNoDup(tasks: seq<string>)
    requires DistinctBases(tasks)
    ensures NoDup(tasks)
  {
    hide Base;
  }

  // ---------------------------------------------------------------- progress

  lemma StripTellsApart(cfg: Config, w: World)
    requires FreeBlocks(cfg, w) && TrustedNames(w.matched)
    ensures forall t, u :: t in AllTasks(cfg, w) && u in AllTasks(cfg, w) && Strip(t) == Strip(u) ==> t == u
  {
    hide AllBlocks, Token, Strip, LStrip;
    forall t, u | t in AllTasks(cfg, w) && u in AllTasks(cfg, w) && Strip(t) == Strip(u) ensures t == u {
      var a := TaskHasBlock(AllBlocks(cfg, w), t);
      var b := TaskHasBlock(AllBlocks(cfg, w), u);
      AllBlocksMembers(cfg, w, a);
      AllBlocksMembers(cfg, w, b);
      StripEqualBlocks(a, b);
    }
  }

  ghost predicate EverythingValid(cfg: Config, w: World)
  {
    && w.cks.Some? && !ConfigurationError(w)
    && forall t :: t in AllTasks(cfg, w) ==> Validate(cfg, w, t, w.cks.value) == Valid
  }

  /** A task that cannot be split validates nothing: where everything is valid and no other name reads as a block, the
      files with blocks have separator-free names. */
  lemma ValidIsFree(cfg: Config, w: World)
    requires TrustedNames(w.matched) && EverythingValid(cfg, w)
    ensures FreeBlocks(cfg, w)
  {
    hide AllBlocks, SeparatorFree, BlockOf, Token, SplitBase, ConfigurationError, Base, BlockStatus;
    forall b | b in AllBlocks(cfg, w) ensures SeparatorFree(b.file) {
      AllBlocksMembers(cfg, w, b);
      BlockHasTask(AllBlocks(cfg, w), b);
      UnreadableRaises(cfg, w, b, w.cks.value);
    }
  }

  lemma UnreadableRaises(cfg: Config, w: World, b: Block, cks: seq<string>)
    ensures !SeparatorFree(b.file) && SplitBase(Base(b.file)).None? ==> Validate(cfg, w, TaskOf(b), cks) == Raises
  {
    hide SplitBase, SeparatorFree, Token, Base, BlockStatus;
    if !SeparatorFree(b.file) { CutOffTask(b.file, b.start, b.end, b.digest); }
  }

  /** The base of a task is cut off at a separator inside the name. */
  lemma CutOffTask(f: string, start: nat, end: nat, digest: Digest)
    requires !SeparatorFree(f)
    ensures Base(Token(f, start, end, digest)) == Base(f)
    ensures SplitBase(Base(f)).Some? ==> |SplitBase(Base(f)).value.0| < |f|
  {
    hide SplitBase;
    TokenParts(f, start, end, digest);
  }

  function Min(a: int, b: int): int
  {
    if a <= b then a else b
  }

  /** From a recorded prefix nothing stands in the way of the batch check. */
  lemma CallIsBatchCheck(cfg: Config, w: World, b: Batch, p: nat)
    requires TrustedNames(w.matched) && EverythingValid(cfg, w)
    requires var tasks := AllTasks(cfg, w); tasks != [] && p <= |tasks| && b.gen == tasks[..p]
    ensures var tasks := AllTasks(cfg, w);
            CheckCall(cfg, w, b) == CheckBatch(cfg, w, w.cks.value,
              Batch(tasks, tasks[..p], tasks[p..Min(p + cfg.batchSize, |tasks|)], []))
  {
    hide AllTasks, Validate, Healed, ProgressError, StopsAt, ConfigurationError, DistinctBases, SourceFiles, TrustedNames,
         FreeBlocks, CheckBatch, DropIn;
    var tasks := AllTasks(cfg, w);
    ValidIsFree(cfg, w);
    BasesAreDistinct(cfg, w);
    DistinctBasesNoDup(tasks);
    PrefixIsHealed(cfg, w, w.cks, p);
    DropPrefix(tasks, p);
    assert Take(tasks[p..], cfg.batchSize) == tasks[p..Min(p + cfg.batchSize, |tasks|)];
  }

  // ---------------------------------------------------------------- no exceptions

  lemma TaskSplits(f: string, start: nat, end: nat, digest: Digest)
    requires SeparatorFree(f) && 1 <= start <= end
    ensures SplitBlock(Token(f, start, end, digest)) == Some((f, start, end))
    ensures SplitBlock(Strip(Token(f, start, end, digest))).Some?
  {
    hide Token, SplitBlock, Strip;
    TokenRoundTripIff(f, start, end, digest);
    StripOfToken(f, start, end, digest);
    SeparatorSurvivesStrip(f);
    TokenRoundTripIff(LStrip(f), start, end, digest);
  }

  /** Tasks of separator-free names can be split, stripped or not. */
  lemma CurrentTaskSplits(cfg: Config, w: World, t: string)
    requires FreeBlocks(cfg, w) && t in AllTasks(cfg, w)
    ensures SplitBlock(t).Some? && SplitBlock(Strip(t)).Some?
  {
    hide AllBlocks, Token, SplitBlock, Strip, SeparatorFree, BlockOf;
    var b := TaskHasBlock(AllBlocks(cfg, w), t);
    AllBlocksMembers(cfg, w, b);
    TaskSplits(b.file, b.start, b.end, b.digest);
  }

  /** What is open after `do_complete` was open before, or is a stripped source task. */
  lemma OpenAfterwards(b: Batch, size: int)
    ensures forall t :: t in Completed(b, size).0.tbd ==> t in b.tbd || t in StripAll(b.source)
  {
    hide StripAll, DropIn, AddCompleted;
    OpenedTasks(b, size);
    OpenedTasks(WithCurrentTbd(b, size).(tbd := [], cmp := []), size);
  }

  lemma OpenedTasks(b: Batch, size: int)
    ensures forall t :: t in WithCurrentTbd(b, size).tbd ==> t in b.tbd || t in StripAll(b.source)
    ensures WithCurrentTbd(b, size).source == b.source
  {
    hide StripAll, OnlyIn, Sort;
    var r := OnlyIn(b.source, b.gen);
    OnlyInItems(b.source, b.gen);
    SortItems(r);
    forall t | t in Take(Sort(r), size) ensures t in Sort(r) {
      var i :| 0 <= i < |Take(Sort(r), size)| && Take(Sort(r), size)[i] == t;
      assert Sort(r)[i] == t;
    }
  }

  lemma NextBatchSplits(cfg: Config, w: World, b: Batch)
    requires FreeBlocks(cfg, w) && b.source == AllTasks(cfg, w) && forall t :: t in b.tbd ==> t in b.source
    ensures AllSplit(Completed(b, cfg.batchSize).0.tbd) && AllSplit(b.tbd)
  {
    hide AllTasks, SplitBlock, Strip, Completed, FreeBlocks;
    OpenAfterwards(b, cfg.batchSize);
    forall t | t in StripAll(b.source) ensures SplitBlock(t).Some? {
      var u :| u in b.source && Strip(u) == t;
      CurrentTaskSplits(cfg, w, u);
    }
    forall t | t in b.tbd ensures SplitBlock(t).Some? { CurrentTaskSplits(cfg, w, t); }
  }

  /** Validating a current task of a separator-free name never raises: its block ends inside the file. */
  lemma ValidationNeverRaises(cfg: Config, w: World, t: string, cks: seq<string>)
    requires AllSeparatorFree(w.matched) && t in AllTasks(cfg, w)
    ensures Validate(cfg, w, t, cks) != Raises
  {
    hide AllBlocks, Token, SplitBlock, Strip, SeparatorFree, BlockOf, MapInOrder, BlockCovered;
    var b := TaskHasBlock(AllBlocks(cfg, w), t);
    AllBlocksMembers(cfg, w, b);
    TaskSplits(b.file, b.start, b.end, b.digest);
  }

  /** With separator-free names and a readable CK list no call raises, whatever is recorded. */
  lemma NoCallRaises(cfg: Config, w: World, b: Batch)
    requires AllSeparatorFree(w.matched) && w.cks.Some?
    ensures CheckCall(cfg, w, b).0 != Raised
  {
    hide AllTasks, Validate, SplitBlock, ProgressError, ConfigurationError, SourceFiles, Completed, Healed, DropIn, AllSplit,
      AllSeparatorFree, FirstRecord, Base, DigestOf;
    var tasks, b1 := AllTasks(cfg, w), Refreshed(cfg, w, b.gen, w.cks);
    forall t | t in tasks ensures Validate(cfg, w, t, w.cks.value) != Raises {
      ValidationNeverRaises(cfg, w, t, w.cks.value);
    }
    FreeNames(cfg, w);
    RefreshedOpen(cfg, w, b.gen, w.cks);
    NextBatchSplits(cfg, w, b1);
    NextBatchSplits(cfg, w, b1.(gen := AppendNew(b1.gen, b1.tbd)));
  }

  lemma RefreshedOpen(cfg: Config, w: World, recorded: seq<string>, cks: Option<seq<string>>)
    ensures var b := Refreshed(cfg, w, recorded, cks); b.source == AllTasks(cfg, w) && forall t :: t in b.tbd ==> t in b.source
  {
    hide AllTasks, Healed, DropIn;
    var b := Refreshed(cfg, w, recorded, cks);
    var left := DropIn(b.source, b.gen);
    forall t | t in b.tbd ensures t in b.source {
      var i :| 0 <= i < |b.tbd| && b.tbd[i] == t;
      assert left[i] == t && t in left;
    }
  }

  // ---------------------------------------------------------------- counting calls

  /** One call from a recorded prefix of `p` targets: it records the next batch, and passes exactly when
      nothing is left after it. */
  lemma OneCall(cfg: Config, w: World, b: Batch, p: nat)
    requires TrustedNames(w.matched) && EverythingValid(cfg, w)
    requires var tasks := AllTasks(cfg, w); tasks != [] && p <= |tasks| && b.gen == tasks[..p]
    ensures var tasks := AllTasks(cfg, w);
            var q := Min(p + cfg.batchSize, |tasks|);
            && CheckCall(cfg, w, b).1.gen == tasks[..q]
            && CheckCall(cfg, w, b).0 == if q == |tasks| then Passed else Failed
  {
    hide AllTasks, Validate, Completed, CheckCall, CheckBatch, TrustedNames, ConfigurationError;
    var tasks := AllTasks(cfg, w);
    var q := Min(p + cfg.batchSize, |tasks|);
    CallIsBatchCheck(cfg, w, b, p);
    if p < q {
      BatchCall(cfg, w, p, q);
    } else {
      assert tasks[p..q] == [];
      NothingOpen(cfg, w, w.cks.value, Batch(tasks, tasks[..p], [], []));
    }
  }

  lemma NothingOpen(cfg: Config, w: World, cks: seq<string>, b: Batch)
    requires b.tbd == []
    ensures CheckBatch(cfg, w, cks, b) == (Passed, b)
  {
  }

  lemma SomethingOpen(cfg: Config, w: World, cks: seq<string>, b: Batch)
    requires b.tbd != [] && forall t :: t in b.tbd ==> Validate(cfg, w, t, cks) == Valid
    ensures var (b', o) := Completed(b.(gen := AppendNew(b.gen, b.tbd)), cfg.batchSize);
            CheckBatch(cfg, w, cks, b) == (if o.AllDone? then Passed else WithContents(b'.tbd), b')
  {
    hide Validate, Completed, WithContents, AppendNew;
  }

  /** The call that checks the targets `p..q`. */
  lemma BatchCall(cfg: Config, w: World, p: nat, q: nat)
    requires TrustedNames(w.matched) && EverythingValid(cfg, w) && p < q <= |AllTasks(cfg, w)|
    ensures var tasks := AllTasks(cfg, w);
            var (v, b) := CheckBatch(cfg, w, w.cks.value, Batch(tasks, tasks[..p], tasks[p..q], []));
            b.gen == tasks[..q] && v == if q == |tasks| then Passed else Failed
  {
    hide AllTasks, Validate, DistinctBases, Completed, CheckBatch, TrustedNames, ConfigurationError, Strip, AppendNew, AllSplit,
      FreeBlocks;
    var tasks := AllTasks(cfg, w);
    ValidIsFree(cfg, w);
    BasesAreDistinct(cfg, w);
    DistinctBasesNoDup(tasks);
    assert forall t :: t in tasks[p..q] ==> t in tasks;
    assert tasks[p..q] != [];
    AppendFresh(tasks, p, q);
    StripTellsApart(cfg, w);
    forall t | t in tasks ensures !IsBlank(t) { TasksAreNotBlank(cfg, w, t); }
    CloseBatch(tasks, p, q, cfg.batchSize);
    SomethingOpen(cfg, w, w.cks.value, Batch(tasks, tasks[..p], tasks[p..q], []));
    NextBatchSplits(cfg, w, Batch(tasks, tasks[..q], tasks[p..q], []));
  }

  lemma {:induction false} AppendFresh(tasks: seq<string>, p: nat, q: nat)
    requires NoDup(tasks) && p <= q <= |tasks|
    ensures AppendNew(tasks[..p], tasks[p..q]) == tasks[..q]
    decreases q
  {
    hide AppendNew, NoDup;
    if p < q {
      AppendFresh(tasks, p, q - 1);
      NotInPrefix(tasks, q - 1);
      OneMore(tasks, q - 1);
      SliceOneMore(tasks, p, q - 1);
      AppendOne(tasks[..p], tasks[p..q - 1], tasks[q - 1]);
    } else {
      assert tasks[p..q] == [];
      AppendNothing(tasks[..p]);
    }
  }

  lemma AppendNothing(done: seq<string>)
    ensures AppendNew(done, []) == done
  {
  }

  lemma SliceOneMore(tasks: seq<string>, p: nat, q: nat)
    requires p <= q < |tasks|
    ensures tasks[p..q + 1] == tasks[p..q] + [tasks[q]]
  {
  }

  lemma AppendOne(done: seq<string>, batch: seq<string>, last: string)
    requires last !in AppendNew(done, batch)
    ensures AppendNew(done, batch + [last]) == AppendNew(done, batch) + [last]
  {
    assert (batch + [last])[..|batch|] == batch;
  }

  /** Something is left outside a proper prefix of tasks that differ after stripping. */
  lemma PrefixDoesNotCover(tasks: seq<string>, q: nat)
    requires q < |tasks| && NoDup(tasks) && !IsBlank(tasks[q])
    requires forall t, u :: t in tasks && u in tasks && Strip(t) == Strip(u) ==> t == u
    ensures !CoveredBy(tasks, tasks[..q])
  {
    hide Strip, IsBlank;
    var t := tasks[q];
    assert t in tasks;
    NotInPrefix(tasks, q);
    forall u | u in tasks[..q] ensures Strip(u) != Strip(t) { assert u in tasks; }
  }

  lemma NotInPrefix(tasks: seq<string>, q: nat)
    requires q < |tasks| && NoDup(tasks)
    ensures tasks[q] !in tasks[..q]
  {
  }

  lemma CoversItself(tasks: seq<string>)
    ensures CoveredBy(tasks, tasks)
  {
  }

  /** `do_complete` on a fully generated batch of distinguishable targets. */
  lemma CloseBatch(tasks: seq<string>, p: nat, q: nat, size: int)
    requires p < q <= |tasks| && size >= 1
    requires forall t, u :: t in tasks && u in tasks && Strip(t) == Strip(u) ==> t == u
    requires forall t :: t in tasks ==> !IsBlank(t)
    requires NoDup(tasks)
    ensures var (b, o) := Completed(Batch(tasks, tasks[..q], tasks[p..q], []), size);
            b.gen == tasks[..q] && (o.AllDone? <==> q == |tasks|)
  {
    hide Strip, IsBlank, CoveredBy, Completed, NoDup;
    var b := Batch(tasks, tasks[..q], tasks[p..q], []);
    PassIff(b, size);
    CompletedKeepsGen(b, size);
    SliceInPrefix(tasks, p, q);
    if q == |tasks| {
      assert tasks[..q] == tasks;
      CoversItself(tasks);
    } else {
      assert tasks[q] in tasks;
      PrefixDoesNotCover(tasks, q);
    }
  }

  lemma CompletedKeepsGen(b: Batch, size: int)
    ensures Completed(b, size).0.gen == b.gen
  {
    hide DropIn, KeepIn, AddCompleted;
  }

  lemma SliceInPrefix(tasks: seq<string>, p: nat, q: nat)
    requires p <= q <= |tasks|
    ensures forall t :: t in tasks[p..q] ==> t in tasks[..q]
  {
    forall t | t in tasks[p..q] ensures t in tasks[..q] {
      var i :| 0 <= i < q - p && tasks[p..q][i] == t;
      assert tasks[..q][p + i] == t;
    }
  }

  /** The lists after `k` calls in the same world. */
  ghost function AfterCalls(cfg: Config, w: World, b: Batch, k: nat): Batch
    decreases k
  {
    if k == 0 then b else AfterCalls(cfg, w, CheckCall(cfg, w, b).1, k - 1)
  }

  /** Progress: from a recorded prefix of `p` of `n > 0` valid targets, calls fail until the last one
      of exactly max(1, ceil((n - p) / batch size)) calls, which passes. */
  lemma {:induction false} ExactNumberOfCalls(cfg: Config, w: World, b: Batch, p: nat, k: nat)
    requires TrustedNames(w.matched) && EverythingValid(cfg, w)
    requires var tasks := AllTasks(cfg, w); tasks != [] && p <= |tasks| && b.gen == tasks[..p]
    requires k < CallsNeeded(|AllTasks(cfg, w)| - p, cfg.batchSize)
    ensures CheckCall(cfg, w, AfterCalls(cfg, w, b, k)).0 ==
            if k + 1 == CallsNeeded(|AllTasks(cfg, w)| - p, cfg.batchSize) then Passed else Failed
    decreases k
  {
    hide AllTasks, CheckCall, TrustedNames, EverythingValid;
    var n := |AllTasks(cfg, w)|;
    OneCall(cfg, w, b, p);
    if n - p > cfg.batchSize && k > 0 {
      ExactNumberOfCalls(cfg, w, CheckCall(cfg, w, b).1, p + cfg.batchSize, k - 1);
    }
  }
}
