/** Exactly when a call of the line-map batch checker passes, from any recorded lists and for any names
    (ucagent/checkers/file_linemap.py). */
module LineMapVerdicts {
  import opened Text
  import opened Lists
  import opened LineRanges
  import opened TaskTokens
  import opened LineMapFile
  import opened BatchTask
  import opened LineMapSpec
  import opened LineMapSoundness
  import opened LineMapProgress

  // ---------------------------------------------------------------- worlds without targets

  predicate NeedsMapping(cfg: Config, lines: seq<string>, i: nat)
  {
    i < |lines| && !(cfg.ignoreBlankLines && IsBlank(lines[i]))
  }

  /** Some line of a matched file needs a mapping. */
  ghost predicate HasRequiredLine(cfg: Config, w: World)
  {
    exists file, i: nat :: file in w.matched && IsReadable(w, file) && NeedsMapping(cfg, w.files[file].lines, i)
  }

  /** A block is only made for a line that needs a mapping. */
  lemma BlockHasLine(cfg: Config, file: string, lines: seq<string>, digest: Digest, start: nat) returns (i: nat)
    requires start >= 1 && FileBlocks(cfg, file, lines, digest, start) != []
    ensures NeedsMapping(cfg, lines, i)
    decreases |lines| + 1 - start
  {
    hide IsBlank;
    var last := start + cfg.maxBlockLines - 1;
    var end := if last <= |lines| then last else |lines|;
    if Skippable(cfg, lines, start, end) {
      i := BlockHasLine(cfg, file, lines, digest, start + cfg.maxBlockLines);
    } else if !cfg.ignoreBlankLines {
      i := start - 1;
    } else {
      i :| start - 1 <= i < end && !IsBlank(lines[i]);
    }
  }

  /** There are targets if and only if some line of a matched file needs a mapping. */
  lemma TargetsIff(cfg: Config, w: World)
    ensures AllTasks(cfg, w) != [] <==> HasRequiredLine(cfg, w)
  {
    hide FileBlocks, AllBlocks, IsBlank;
    if AllTasks(cfg, w) != [] {
      var b := AllBlocks(cfg, w)[0];
      assert b in AllBlocks(cfg, w);
      AllBlocksMembers(cfg, w, b);
      var i := BlockHasLine(cfg, b.file, w.files[b.file].lines, w.files[b.file].digest, 1);
    }
    if HasRequiredLine(cfg, w) {
      var file, i: nat :| file in w.matched && IsReadable(w, file) && NeedsMapping(cfg, w.files[file].lines, i);
      var b := LineHasBlock(cfg, file, w.files[file].lines, w.files[file].digest, 1, i + 1);
      AllBlocksMembers(cfg, w, b);
      assert |AllTasks(cfg, w)| == |AllBlocks(cfg, w)|;
    }
  }

  lemma NoTargets(cfg: Config, w: World, recorded: seq<string>, cks: Option<seq<string>>)
    requires AllTasks(cfg, w) == []
    ensures !StopsAt(cfg, w, recorded, cks, Faulty) && !StopsAt(cfg, w, recorded, cks, Broken)
    ensures Refreshed(cfg, w, recorded, cks) == Batch([], [], [], [])
    ensures ProgressError(cfg, w, recorded, cks) <==> recorded != []
  {
    hide AllTasks, Base;
    assert Take(DropIn<string>([], []), cfg.batchSize) == [];
    if recorded != [] {
      assert recorded[0] in recorded;
      assert UnknownRecord(recorded, []);
    }
  }

  lemma SourceFilesIff(w: World)
    ensures SourceFiles(w) != [] <==> w.matched != []
  {
    hide SortedSet;
    SortedSetFacts(w.matched);
    if w.matched != [] { assert w.matched[0] in SortedSet(w.matched); }
    if SourceFiles(w) != [] { assert SourceFiles(w)[0] in w.matched; }
  }

  /** Without targets a call passes if and only if some file is matched, nothing is recorded and nothing is wrong with the
      configuration. So files of ignored blank lines pass, and an empty list of files does not. */
  lemma NoTargetsPassIff(cfg: Config, w: World, b: Batch)
    requires w.cks.Some? && !HasRequiredLine(cfg, w)
    ensures CheckCall(cfg, w, b) ==
            (if w.matched != [] && b.gen == [] && Configured(w) then Passed else Failed, Batch([], [], [], []))
  {
    ConfiguredIff(w);
    hide Configured, AllTasks, Refreshed, ProgressError, StopsAt, ConfigurationError, SourceFiles, HasRequiredLine, CheckBatch;
    TargetsIff(cfg, w);
    NoTargets(cfg, w, b.gen, w.cks);
    SourceFilesIff(w);
  }

  /** No call passes without a matched file. */
  lemma PassNeedsFiles(cfg: Config, w: World, b: Batch)
    requires CheckCall(cfg, w, b).0 == Passed
    ensures w.matched != []
  {
    hide AllTasks, Refreshed, ProgressError, StopsAt, ConfigurationError, CheckCall, IsBlank;
    PassValidates(cfg, w, b);
    if w.matched == [] { NoTargetsPassIff(cfg, w, b); }
  }

  // ---------------------------------------------------------------- tasks are told apart

  /** Different blocks have different tasks, whatever the files are called. */
  lemma TasksNoDup(cfg: Config, w: World)
    ensures NoDup(AllTasks(cfg, w))
  {
    hide FileBlocks, BlocksOfFiles, Token, SortedSet;
    SortedSetFacts(w.matched);
    var blocks := AllBlocks(cfg, w);
    BlocksOfFilesDistinct(cfg, w, SourceFiles(w));
    forall i, j | 0 <= i < j < |blocks| ensures TasksOf(blocks)[i] != TasksOf(blocks)[j] {
      var a, b := blocks[i], blocks[j];
      TaskAt(blocks, i);
      TaskAt(blocks, j);
      OtherFilesBlock(cfg, w, SourceFiles(w), a);
      OtherFilesBlock(cfg, w, SourceFiles(w), b);
      if TaskOf(a) == TaskOf(b) {
        TokenDeterminesParts(a.file, a.start, a.end, a.digest, b.file, b.start, b.end, b.digest);
      }
    }
  }

  // ---------------------------------------------------------------- configuration and records

  /** The matched files are readable and have mapping files of their own, and no mapping file is misplaced. */
  ghost predicate Configured(w: World)
  {
    && w.strayMaps == [] && (forall f :: f in w.matched ==> IsReadable(w, f))
    && forall f, g :: f in w.matched && g in w.matched && f != g ==> MapStem(f) != MapStem(g)
  }

  predicate Flattened(c: char)
  {
    c == '/' || c == '.' || c == '_'
  }

  /** Two names share a mapping file exactly when they differ in slashes, dots and underscores only. */
  lemma {:induction false} SharedStemIff(a: string, b: string)
    ensures MapStem(a) == MapStem(b) <==>
            |a| == |b| && forall i :: 0 <= i < |a| ==> a[i] == b[i] || (Flattened(a[i]) && Flattened(b[i]))
    decreases |a|
  {
    if a != "" && b != "" {
      SharedStemIff(a[1..], b[1..]);
      assert a == [a[0]] + a[1..] && b == [b[0]] + b[1..];
      assert MapStem(a)[1..] == MapStem(a[1..]) && MapStem(b)[1..] == MapStem(b[1..]);
    }
  }

  lemma ConfiguredIff(w: World)
    ensures Configured(w) <==> !ConfigurationError(w)
  {
    hide SortedSet, MapStem;
    SortedSetFacts(w.matched);
    var files := SourceFiles(w);
    if !SharedMapFile(files) {
      forall f, g | f in w.matched && g in w.matched && f != g ensures MapStem(f) != MapStem(g) {
        var i :| 0 <= i < |files| && files[i] == f;
        var j :| 0 <= j < |files| && files[j] == g;
      }
    } else {
      var i, j :| 0 <= i < j < |files| && MapStem(files[i]) == MapStem(files[j]);
      assert files[i] in w.matched && files[j] in w.matched && files[i] != files[j];
    }
  }

  /** A task of the list has this base. */
  ghost predicate RecordedAs(recorded: seq<string>, base: string)
  {
    exists k :: 0 <= k < |recorded| && Base(recorded[k]) == base
  }

  /** Nothing is recorded twice, everything recorded is a target, no target before a recorded one is missing, and the first
      target that does not stay recorded is not recorded for another content. */
  ghost predicate RecordsInOrder(recorded: seq<string>, tasks: seq<string>, p: nat)
    requires p <= |tasks|
  {
    && (forall i, j :: 0 <= i < j < |recorded| ==> Base(recorded[i]) != Base(recorded[j]))
    && (forall k :: 0 <= k < |recorded| ==> RecordedAs(tasks, Base(recorded[k])))
    && (forall i, j :: 0 <= i < j < |tasks| && RecordedAs(recorded, Base(tasks[j])) ==> RecordedAs(recorded, Base(tasks[i])))
    && (p < |tasks| ==>
          forall k :: 0 <= k < |recorded| && Base(recorded[k]) == Base(tasks[p]) ==> DigestOf(recorded[k]) == DigestOf(tasks[p]))
  }

  lemma RecordedIff(recorded: seq<string>, base: string)
    ensures FirstRecord(recorded, base).Some? <==> RecordedAs(recorded, base)
  {
    hide Base;
    FirstRecordFacts(recorded, base);
    if RecordedAs(recorded, base) {
      var k :| 0 <= k < |recorded| && Base(recorded[k]) == base;
      assert recorded[k] in recorded;
    }
  }

  lemma GapIff(recorded: seq<string>, tasks: seq<string>)
    ensures GapInRecords(recorded, tasks) <==>
            !(forall i, j :: 0 <= i < j < |tasks| && RecordedAs(recorded, Base(tasks[j])) ==> RecordedAs(recorded, Base(tasks[i])))
  {
    hide Base, FirstRecord, RecordedAs;
    forall i | 0 <= i < |tasks|
      ensures FirstRecord(recorded, Base(tasks[i])).Some? <==> RecordedAs(recorded, Base(tasks[i])) {
      RecordedIff(recorded, Base(tasks[i]));
    }
  }

  lemma UnknownIff(recorded: seq<string>, tasks: seq<string>)
    ensures UnknownRecord(recorded, tasks) <==> !(forall k :: 0 <= k < |recorded| ==> RecordedAs(tasks, Base(recorded[k])))
  {
    hide Base, FirstRecord, RecordedAs;
    forall t ensures (forall u :: u in tasks ==> Base(u) != Base(t)) <==> !RecordedAs(tasks, Base(t)) {
      RecordedIff(tasks, Base(t));
      FirstRecordFacts(tasks, Base(t));
    }
  }

  /** The first target that does not stay recorded is recorded for another content. */
  lemma StaleIff(cfg: Config, w: World, recorded: seq<string>, cks: Option<seq<string>>, p: nat)
    requires p == Healed(cfg, w, recorded, cks, AllTasks(cfg, w))
    requires forall i, j :: 0 <= i < j < |recorded| ==> Base(recorded[i]) != Base(recorded[j])
    ensures var tasks := AllTasks(cfg, w);
            StopsAt(cfg, w, recorded, cks, Stale) <==>
            p < |tasks| && exists k :: 0 <= k < |recorded| && Base(recorded[k]) == Base(tasks[p])
                                       && DigestOf(recorded[k]) != DigestOf(tasks[p])
  {
    hide AllTasks, Validate, Base, DigestOf, Healed, FirstRecord;
    var tasks := AllTasks(cfg, w);
    if p < |tasks| {
      if FirstRecord(recorded, Base(tasks[p])).Some? {
        var k := FirstRecordIndex(recorded, Base(tasks[p]));
      }
      forall k | 0 <= k < |recorded| && Base(recorded[k]) == Base(tasks[p])
        ensures FirstRecord(recorded, Base(tasks[p])) == Some(recorded[k]) {
        FirstRecordAt(recorded, Base(tasks[p]), k);
      }
    }
  }

  lemma RecordsIff(cfg: Config, w: World, recorded: seq<string>, cks: Option<seq<string>>, p: nat)
    requires p == Healed(cfg, w, recorded, cks, AllTasks(cfg, w))
    ensures !ProgressError(cfg, w, recorded, cks) <==> RecordsInOrder(recorded, AllTasks(cfg, w), p)
  {
    hide AllTasks, Base, DigestOf, Healed, StopsAt, UnknownRecord, GapInRecords, RecordedAs;
    var tasks := AllTasks(cfg, w);
    GapIff(recorded, tasks);
    UnknownIff(recorded, tasks);
    if !DuplicateRecords(recorded) { StaleIff(cfg, w, recorded, cks, p); }
  }

  // ---------------------------------------------------------------- passing calls

  /** The targets `from..to` are all valid. */
  ghost predicate ValidBetween(cfg: Config, w: World, cks: seq<string>, tasks: seq<string>, from: nat, to: nat)
    requires from <= to <= |tasks|
  {
    forall i :: from <= i < to ==> Validate(cfg, w, tasks[i], cks) == Valid
  }

  /** Every target equals one of the first `to` ones up to surrounding blanks. */
  ghost predicate CoveredUpTo(tasks: seq<string>, to: nat)
    requires to <= |tasks|
  {
    forall t :: t in tasks ==> exists i :: 0 <= i < to && Strip(tasks[i]) == Strip(t)
  }

  lemma CoveredIff(tasks: seq<string>, q: nat)
    requires q <= |tasks| && forall t :: t in tasks ==> !IsBlank(t)
    ensures CoveredBy(tasks, tasks[..q]) <==> CoveredUpTo(tasks, q)
  {
    hide Strip;
    assert forall t :: t in tasks ==> !IsBlank(t);
    hide IsBlank;
    forall t | t in tasks ensures Strip(t) in StripAll(tasks[..q]) <==> exists i :: 0 <= i < q && Strip(tasks[i]) == Strip(t) {
      NotBlankStrip(t);
      if exists i :: 0 <= i < q && Strip(tasks[i]) == Strip(t) {
        var i :| 0 <= i < q && Strip(tasks[i]) == Strip(t);
        assert tasks[..q][i] == tasks[i];
      }
      if Strip(t) in StripAll(tasks[..q]) {
        var u :| u in tasks[..q] && Strip(u) == Strip(t);
        var i :| 0 <= i < q && tasks[..q][i] == u;
        assert tasks[i] == u;
      }
    }
  }

  lemma NotBlankStrip(t: string)
    requires !IsBlank(t)
    ensures Strip(t) != ""
  {
  }

  /** When `do_check` reaches the open batch `p..q`. */
  lemma BatchPassesIff(cfg: Config, w: World, cks: seq<string>, tasks: seq<string>, p: nat, q: nat)
    requires p < q <= |tasks| && NoDup(tasks) && forall t :: t in tasks ==> !IsBlank(t)
    ensures CheckBatch(cfg, w, cks, Batch(tasks, tasks[..p], tasks[p..q], [])).0 == Passed <==>
            ValidBetween(cfg, w, cks, tasks, p, q) && CoveredUpTo(tasks, q)
  {
    hide Validate, Completed, CoveredUpTo, AppendNew, IsBlank, CheckBatch, CoveredBy, Strip;
    var b := Batch(tasks, tasks[..p], tasks[p..q], []);
    ValidIff(cfg, w, cks, tasks, p, q);
    if ValidBetween(cfg, w, cks, tasks, p, q) {
      SomethingOpen(cfg, w, cks, b);
      AppendFresh(tasks, p, q);
      PassIff(Batch(tasks, tasks[..q], tasks[p..q], []), cfg.batchSize);
      SliceInPrefix(tasks, p, q);
      CoveredIff(tasks, q);
    } else {
      InvalidFails(cfg, w, cks, b);
    }
  }

  lemma ValidIff(cfg: Config, w: World, cks: seq<string>, tasks: seq<string>, p: nat, q: nat)
    requires p <= q <= |tasks|
    ensures ValidBetween(cfg, w, cks, tasks, p, q) <==> forall t :: t in tasks[p..q] ==> Validate(cfg, w, t, cks) == Valid
  {
    hide Validate;
    if forall t :: t in tasks[p..q] ==> Validate(cfg, w, t, cks) == Valid {
      forall i | p <= i < q ensures Validate(cfg, w, tasks[i], cks) == Valid { assert tasks[p..q][i - p] == tasks[i]; }
    }
  }

  lemma InvalidFails(cfg: Config, w: World, cks: seq<string>, b: Batch)
    requires exists t :: t in b.tbd && Validate(cfg, w, t, cks) != Valid
    ensures CheckBatch(cfg, w, cks, b).0 != Passed
  {
    hide Validate, Completed;
    var t :| t in b.tbd && Validate(cfg, w, t, cks) != Valid;
    assert BatchHas(cfg, w, cks, b.tbd, Raises) || BatchHas(cfg, w, cks, b.tbd, Invalid);
  }

  /** The first target that is not kept stops the call when it is recorded but not valid any more. */
  lemma StoppedIsInvalid(cfg: Config, w: World, b: Batch, p: nat)
    requires w.cks.Some? && p == Healed(cfg, w, b.gen, w.cks, AllTasks(cfg, w))
    requires StopsAt(cfg, w, b.gen, w.cks, Faulty) || StopsAt(cfg, w, b.gen, w.cks, Broken)
    ensures p < |AllTasks(cfg, w)| && Validate(cfg, w, AllTasks(cfg, w)[p], w.cks.value) != Valid
  {
    hide AllTasks, Validate, FirstRecord, Base, DigestOf, Healed;
  }

  /** From any recorded lists, for any names: the targets that stay recorded are the first `p`, and the call passes if and
      only if the CK list is readable, configuration and records are in order, some file is matched, the next targets up to
      the batch size are valid, and every target equals one of those up to `q` but for surrounding blanks. */
  lemma CallPassesIff(cfg: Config, w: World, b: Batch)
    ensures var tasks := AllTasks(cfg, w);
            var p := Healed(cfg, w, b.gen, w.cks, tasks);
            var q := Min(p + cfg.batchSize, |tasks|);
            CheckCall(cfg, w, b).0 == Passed <==>
            && w.cks.Some? && Configured(w) && RecordsInOrder(b.gen, tasks, p) && w.matched != []
            && ValidBetween(cfg, w, w.cks.value, tasks, p, q) && CoveredUpTo(tasks, q)
  {
    hide AllTasks, Validate, Healed, ProgressError, StopsAt, ConfigurationError, SourceFiles, CheckBatch, DropIn, CoveredUpTo,
      NoDup, ValidBetween, IsBlank, Strip, Configured, RecordsInOrder;
    ConfiguredIff(w);
    RecordsIff(cfg, w, b.gen, w.cks, Healed(cfg, w, b.gen, w.cks, AllTasks(cfg, w)));
    var tasks := AllTasks(cfg, w);
    var p := Healed(cfg, w, b.gen, w.cks, tasks);
    var q := Min(p + cfg.batchSize, |tasks|);
    TasksNoDup(cfg, w);
    DropPrefix(tasks, p);
    SourceFilesIff(w);
    TasksNeedFiles(cfg, w);
    assert Take(tasks[p..], cfg.batchSize) == tasks[p..q];
    forall t | t in tasks ensures !IsBlank(t) { TasksAreNotBlank(cfg, w, t); }
    if w.cks.Some? {
      if StopsAt(cfg, w, b.gen, w.cks, Faulty) || StopsAt(cfg, w, b.gen, w.cks, Broken) {
        StoppedIsInvalid(cfg, w, b, p);
        NotAllValid(cfg, w, w.cks.value, tasks, p, q);
      } else if p < q {
        BatchPassesIff(cfg, w, w.cks.value, tasks, p, q);
        assert tasks[p..q] != [];
      } else {
        assert tasks[p..q] == [] && q == |tasks|;
        NothingOpen(cfg, w, w.cks.value, Batch(tasks, tasks[..p], [], []));
        AllAreCovered(cfg, w, w.cks.value, tasks, p);
      }
    }
  }

  lemma NotAllValid(cfg: Config, w: World, cks: seq<string>, tasks: seq<string>, p: nat, q: nat)
    requires p < q <= |tasks| && Validate(cfg, w, tasks[p], cks) != Valid
    ensures !ValidBetween(cfg, w, cks, tasks, p, q)
  {
    hide Validate;
  }

  lemma AllAreCovered(cfg: Config, w: World, cks: seq<string>, tasks: seq<string>, p: nat)
    requires p == |tasks|
    ensures ValidBetween(cfg, w, cks, tasks, p, p) && CoveredUpTo(tasks, p)
  {
    hide Validate, Strip;
  }

  lemma TasksNeedFiles(cfg: Config, w: World)
    ensures AllTasks(cfg, w) != [] ==> w.matched != []
  {
    hide IsBlank;
    TargetsIff(cfg, w);
  }

  /** The first target that does not stay recorded, when it is recorded for the present content: if validating it raises, so
      does the call, and the lists stay as they are; if it is not valid, the call does not pass and the lists are those of
      the refresh. */
  lemma StoppedCall(cfg: Config, w: World, b: Batch, k: nat)
    requires var tasks := AllTasks(cfg, w);
             var p := Healed(cfg, w, b.gen, w.cks, tasks);
             && p < |tasks| && k < |b.gen| && Base(b.gen[k]) == Base(tasks[p]) && DigestOf(b.gen[k]) == DigestOf(tasks[p])
             && forall j :: 0 <= j < k ==> Base(b.gen[j]) != Base(tasks[p])
    ensures w.cks.Some?
    ensures var t := AllTasks(cfg, w)[Healed(cfg, w, b.gen, w.cks, AllTasks(cfg, w))];
            && (Validate(cfg, w, t, w.cks.value) == Raises ==> CheckCall(cfg, w, b) == (Raised, b))
            && (Validate(cfg, w, t, w.cks.value) == Invalid ==>
                  CheckCall(cfg, w, b).0 != Passed && CheckCall(cfg, w, b).1 == Refreshed(cfg, w, b.gen, w.cks))
            && Validate(cfg, w, t, w.cks.value) != Valid
  {
    hide AllTasks, Validate, Base, DigestOf, FirstRecord, Refreshed, ConfigurationError, ProgressError, CheckBatch, SourceFiles,
      WithContents;
    var tasks := AllTasks(cfg, w);
    var p := Healed(cfg, w, b.gen, w.cks, tasks);
    FirstRecordAt(b.gen, Base(tasks[p]), k);
    var s := Statuses(cfg, w, b.gen, w.cks, tasks);
    assert s[p] == StatusOf(cfg, w, b.gen, w.cks, tasks[p]) && !s[p].Good?;
    FailsWithContents(Refreshed(cfg, w, b.gen, w.cks).tbd);
  }

  lemma FailsWithContents(tasks: seq<string>)
    ensures WithContents(tasks) != Passed
  {
  }

  // ---------------------------------------------------------------- what a pass means for one line

  /** Line `n` of the mapping file is a rule for line `i` of the file, counted from zero. */
  predicate MapsLine(cfg: Config, w: World, file: string, n: nat, i: nat)
    requires IsReadable(w, file) && IsReadable(w, MapFile(cfg, file)) && w.cks.Some?
  {
    n < |w.files[MapFile(cfg, file)].lines| &&
    var rule := ParseLine(w.files[MapFile(cfg, file)].lines[n], |w.files[file].lines|, cfg.maxBlockLines);
    && rule.Mapping? && exists s :: s in rule.spans && s.0 <= i + 1 <= s.1
  }

  /** No line of the mapping file is malformed, and every key is a known checkpoint, an IGNORE key, or a MISSMT key where
      those are allowed. */
  predicate RulesInOrder(cfg: Config, w: World, file: string)
    requires IsReadable(w, file) && IsReadable(w, MapFile(cfg, file)) && w.cks.Some?
  {
    forall n :: 0 <= n < |w.files[MapFile(cfg, file)].lines| ==>
      var rule := ParseLine(w.files[MapFile(cfg, file)].lines[n], |w.files[file].lines|, cfg.maxBlockLines);
      && !rule.Rejected?
      && (rule.Mapping? ==>
            rule.key in w.cks.value || "IGNORE/" <= rule.key || ("MISSMT/" <= rule.key && !cfg.mustHaveNoMissMatch))
  }

  /** Some line of the mapping file is a rule for line `i` of the file. */
  ghost predicate HasRule(cfg: Config, w: World, file: string, i: nat)
    requires IsReadable(w, file) && IsReadable(w, MapFile(cfg, file)) && w.cks.Some?
  {
    exists n: nat :: MapsLine(cfg, w, file, n, i)
  }

  lemma CoversIff(cfg: Config, w: World, file: string, i: nat)
    requires IsReadable(w, file) && IsReadable(w, MapFile(cfg, file)) && w.cks.Some?
    ensures MapCovers(MapLines(cfg, w, file), i + 1) <==> HasRule(cfg, w, file, i)
  {
    hide ParseLine, MapFile;
    var rules := MapLines(cfg, w, file);
    if MapCovers(rules, i + 1) {
      var key :| KeyCovers(rules, key, i + 1);
      var n :| 0 <= n < |rules| && rules[n].Mapping? && rules[n].key == key && InSpans(rules[n].spans, i + 1);
      var r :| 0 <= r < |rules[n].spans| && Covers(rules[n].spans[r], i + 1);
      assert rules[n].spans[r] in rules[n].spans;
      assert MapsLine(cfg, w, file, n, i);
    }
    forall n: nat | MapsLine(cfg, w, file, n, i) ensures KeyCovers(rules, rules[n].key, i + 1) {}
  }

  lemma RulesIff(cfg: Config, w: World, file: string)
    requires IsReadable(w, file) && IsReadable(w, MapFile(cfg, file)) && w.cks.Some?
    ensures MapInOrder(cfg, w, file, w.cks.value) <==> RulesInOrder(cfg, w, file)
  {
    hide ParseLine, MapFile;
    var rules := MapLines(cfg, w, file);
    assert forall n :: 0 <= n < |rules| && rules[n].Mapping? ==> HasKey(rules, rules[n].key);
  }

  /** Line `i`, counted from zero, is inside the block and needs a mapping. */
  predicate NeedsRule(cfg: Config, lines: seq<string>, start: nat, end: nat, i: nat)
  {
    i < |lines| && start <= i + 1 <= end && !(cfg.ignoreBlankLines && IsBlank(lines[i]))
  }

  /** Exactly how the validation of one block ends. Nothing is read when the file or its canonical mapping file is not there,
      a malformed line or an unknown key anywhere in the mapping file fails every block of the file, and a block that
      reaches beyond the end of the file raises. */
  lemma BlockStatusIff(cfg: Config, w: World, file: string, start: nat, end: nat)
    requires 1 <= start <= end && w.cks.Some?
    ensures var r := BlockStatus(cfg, w, file, start, end, w.cks.value);
            var ready := IsReadable(w, file) && IsReadable(w, MapFile(cfg, file)) && RulesInOrder(cfg, w, file);
            && (r == Raises <==> ready && end > |w.files[file].lines|)
            && (r == Valid <==> ready && end <= |w.files[file].lines|
                                && forall i: nat :: NeedsRule(cfg, w.files[file].lines, start, end, i) ==> HasRule(cfg, w, file, i))
  {
    hide MapFile, IsBlank, RulesInOrder, MapInOrder, HasRule, MapCovers, BlockCovered;
    if IsReadable(w, file) && IsReadable(w, MapFile(cfg, file)) {
      RulesIff(cfg, w, file);
      forall i: nat
        ensures HasRule(cfg, w, file, i) <==> MapCovers(MapLines(cfg, w, file), i + 1) {
        CoversIff(cfg, w, file, i);
      }
      if end <= |w.files[file].lines| { CoveredFromZero(cfg, w, file, start, end); }
    } else {
      NotInOrder(cfg, w, file);
    }
  }

  lemma NotInOrder(cfg: Config, w: World, file: string)
    requires !IsReadable(w, file) || !IsReadable(w, MapFile(cfg, file))
    ensures forall cks :: !MapInOrder(cfg, w, file, cks)
  {
  }

  /** Counting lines from one and from zero. */
  lemma CoveredFromZero(cfg: Config, w: World, file: string, start: nat, end: nat)
    requires IsReadable(w, file) && IsReadable(w, MapFile(cfg, file)) && 1 <= start && end <= |w.files[file].lines|
    ensures BlockCovered(cfg, w, file, start, end) <==>
            forall i: nat :: NeedsRule(cfg, w.files[file].lines, start, end, i) ==> MapCovers(MapLines(cfg, w, file), i + 1)
  {
    hide MapFile, IsBlank, MapCovers;
    var lines := w.files[file].lines;
    if forall i: nat :: NeedsRule(cfg, lines, start, end, i) ==> MapCovers(MapLines(cfg, w, file), i + 1) {
      forall x | Required(cfg, lines, start, end, x) ensures MapCovers(MapLines(cfg, w, file), x) {
        assert NeedsRule(cfg, lines, start, end, x - 1);
      }
    }
    if BlockCovered(cfg, w, file, start, end) {
      forall i: nat | NeedsRule(cfg, lines, start, end, i) ensures MapCovers(MapLines(cfg, w, file), i + 1) {
        assert Required(cfg, lines, start, end, i + 1);
      }
    }
  }

  /** What a passing call says of one line that needs a mapping, about the texts themselves: the canonical mapping file
      exists and is in order, and one of its lines is a rule whose range contains the line. Names must be trusted. */
  lemma PassingCallMaps(cfg: Config, w: World, b: Batch, file: string, i: nat)
    requires CheckCall(cfg, w, b).0 == Passed && TrustedNames(w.matched) && file in w.matched
    ensures IsReadable(w, file) && w.cks.Some?
    ensures i < |w.files[file].lines| && !(cfg.ignoreBlankLines && IsBlank(w.files[file].lines[i])) ==>
              && IsReadable(w, MapFile(cfg, file)) && RulesInOrder(cfg, w, file)
              && HasRule(cfg, w, file, i)
  {
    hide CheckCall, AllBlocks, ParseLine, MapFile, IsBlank, TrustedNames, KeyKnown;
    PassIsSound(cfg, w, b);
    PassValidates(cfg, w, b);
    assert FileCovered(cfg, w, file);
    var lines := w.files[file].lines;
    if i < |lines| && !(cfg.ignoreBlankLines && IsBlank(lines[i])) {
      assert Required(cfg, lines, 1, |lines|, i + 1);
      var blk := LineHasBlock(cfg, file, lines, w.files[file].digest, 1, i + 1);
      AllBlocksMembers(cfg, w, blk);
      assert MapInOrder(cfg, w, file, w.cks.value);
      RulesIff(cfg, w, file);
      CoversIff(cfg, w, file, i);
    }
  }
}
