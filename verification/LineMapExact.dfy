/** The exact conditions on file names: for which matched names every pass of the line-map batch checker
    can be trusted, and for which names a refresh heals every record. The failing names are shown to
    fail by constructing a world. */
module LineMapExact {
  import opened Text
  import opened Lists
  import opened LineRanges
  import opened TaskTokens
  import opened LineMapFile
  import opened BatchTask
  import opened BatchRuns
  import opened LineMapSpec
  import opened LineMapSoundness
  import opened LineMapProgress

  // ---------------------------------------------------------------- building worlds

  function ZeroDigest(): Digest
  {
    seq(64, _ => '0')
  }

  function Joined(names: seq<string>): string
  {
    if names == [] then "" else names[0] + Joined(names[1..])
  }

  lemma {:induction false} JoinedIsLong(names: seq<string>, f: string)
    requires f in names
    ensures |f| <= |Joined(names)|
    decreases |names|
  {
    if names[0] != f {
      JoinedIsLong(names[1..], f);
    }
  }

  /** One line per block, one block per batch, and mapping files no matched name can equal. */
  function SmallConfig(names: seq<string>): Config
  {
    Options("line_map", Joined(names), 1, 1, true, true)
  }

  lemma MapFileIsLong(names: seq<string>, f: string)
    ensures |MapFile(SmallConfig(names), f)| == 9 + |f| + |Joined(names)|
  {
  }

  function Lines(lines: seq<string>): FileText
  {
    Readable(lines, ZeroDigest())
  }

  /** All matched files are empty, except where `special` says otherwise. */
  function WorldWith(names: seq<string>, special: map<string, FileText>): World
  {
    World(names, (map n | n in names :: Lines([])) + special, [], Some([]))
  }

  function OwnBlocks(cfg: Config, w: World, file: string): seq<Block>
  {
    if IsReadable(w, file) then FileBlocks(cfg, file, w.files[file].lines, w.files[file].digest, 1) else []
  }

  lemma {:induction false} BlocksConcat(cfg: Config, w: World, a: seq<string>, b: seq<string>)
    ensures BlocksOfFiles(cfg, w, a + b) == BlocksOfFiles(cfg, w, a) + BlocksOfFiles(cfg, w, b)
    decreases |a|
  {
    hide FileBlocks;
    if a == [] {
      assert a + b == b;
    } else {
      assert (a + b)[1..] == a[1..] + b;
      BlocksConcat(cfg, w, a[1..], b);
      SeqAssoc(OwnBlocks(cfg, w, a[0]), BlocksOfFiles(cfg, w, a[1..]), BlocksOfFiles(cfg, w, b));
    }
  }

  lemma {:induction false} NoBlocksIn(cfg: Config, w: World, files: seq<string>)
    requires forall f :: f in files ==> OwnBlocks(cfg, w, f) == []
    ensures BlocksOfFiles(cfg, w, files) == []
    decreases |files|
  {
    hide FileBlocks;
    if files != [] {
      assert OwnBlocks(cfg, w, files[0]) == [];
      NoBlocksIn(cfg, w, files[1..]);
    }
  }

  lemma OneFile(cfg: Config, w: World, f: string)
    ensures BlocksOfFiles(cfg, w, [f]) == OwnBlocks(cfg, w, f)
  {
    hide FileBlocks;
    SeqAssoc(OwnBlocks(cfg, w, f), [], []);
  }

  /** Only file `i` of the list has blocks. */
  lemma BlocksOfOne(cfg: Config, w: World, files: seq<string>, i: nat)
    requires i < |files| && forall k :: 0 <= k < |files| && k != i ==> OwnBlocks(cfg, w, files[k]) == []
    ensures BlocksOfFiles(cfg, w, files) == OwnBlocks(cfg, w, files[i])
  {
    hide OwnBlocks, BlocksOfFiles;
    var before, after := files[..i], files[i + 1..];
    assert files == before + ([files[i]] + after);
    BlocksConcat(cfg, w, before, [files[i]] + after);
    BlocksConcat(cfg, w, [files[i]], after);
    NoBlocksIn(cfg, w, before);
    NoBlocksIn(cfg, w, after);
    OneFile(cfg, w, files[i]);
    SeqAssoc(OwnBlocks(cfg, w, files[i]), [], []);
  }

  /** Only files `i` and `j` have blocks. */
  lemma BlocksOfTwo(cfg: Config, w: World, files: seq<string>, i: nat, j: nat)
    requires i < j < |files|
    requires forall k :: 0 <= k < |files| && k != i && k != j ==> OwnBlocks(cfg, w, files[k]) == []
    ensures BlocksOfFiles(cfg, w, files) == OwnBlocks(cfg, w, files[i]) + OwnBlocks(cfg, w, files[j])
  {
    hide OwnBlocks, BlocksOfFiles;
    var before, after := files[..i + 1], files[i + 1..];
    assert files == before + after;
    BlocksConcat(cfg, w, before, after);
    BlocksOfOne(cfg, w, before, i);
    BlocksOfOne(cfg, w, after, j - i - 1);
  }

  lemma XIsNotBlank()
    ensures !IsBlank("x")
  {
    CleanIsStripped("x");
  }

  lemma OneLineBlocks(cfg: Config, w: World, file: string)
    requires cfg.maxBlockLines == 1 && IsReadable(w, file) && w.files[file] == Lines(["x"])
    ensures OwnBlocks(cfg, w, file) == [Block(file, 1, 1, ZeroDigest())]
  {
    XIsNotBlank();
    hide IsBlank;
    var d := ZeroDigest();
    assert FileBlocks(cfg, file, ["x"], d, 2) == [];
    assert !Skippable(cfg, ["x"], 1, 1) by { assert ["x"][0] == "x"; }
    SeqAssoc([Block(file, 1, 1, d)], [], []);
  }

  lemma {:induction false} BlankLinesHaveNoBlocks(cfg: Config, file: string, lines: seq<string>, digest: Digest, start: nat)
    requires cfg.ignoreBlankLines && start >= 1 && forall i :: 0 <= i < |lines| ==> IsBlank(lines[i])
    ensures FileBlocks(cfg, file, lines, digest, start) == []
    decreases |lines| + 1 - start
  {
    hide IsBlank;
    if start <= |lines| {
      BlankLinesHaveNoBlocks(cfg, file, lines, digest, start + cfg.maxBlockLines);
    }
  }

  /** In such a world nothing is wrong with the configuration as long as no mapping file is shared. */
  lemma WorldIsConfigured(names: seq<string>, special: map<string, FileText>)
    requires !SharedMapFile(SortedSet(names)) && forall n :: n in special ==> special[n].Readable?
    ensures !ConfigurationError(WorldWith(names, special))
  {
    hide SharedMapFile, SortedSet;
  }

  // ---------------------------------------------------------------- a first call

  /** With nothing recorded nothing is completed, and there is nothing to complain about. */
  lemma NothingRecorded(cfg: Config, w: World, cks: Option<seq<string>>)
    ensures Healed(cfg, w, [], cks, AllTasks(cfg, w)) == 0
    ensures !ProgressError(cfg, w, [], cks)
    ensures !StopsAt(cfg, w, [], cks, Broken) && !StopsAt(cfg, w, [], cks, Faulty)
  {
    hide AllTasks, Validate, Base, DigestOf;
    var s := Statuses(cfg, w, [], cks, AllTasks(cfg, w));
    assert forall i :: 0 <= i < |s| ==> s[i] == Unrecorded;
    GoodPrefixIs(s, 0);
  }

  /** The first call, with nothing recorded: only the first target is validated, and the call passes when
      every other target looks like it after stripping. */
  lemma FirstCallPasses(cfg: Config, w: World, cks: seq<string>)
    requires cfg.batchSize == 1 && w.cks == Some(cks) && !ConfigurationError(w) && AllTasks(cfg, w) != []
    requires Validate(cfg, w, AllTasks(cfg, w)[0], cks) == Valid
    requires forall t :: t in AllTasks(cfg, w) ==> Strip(t) == Strip(AllTasks(cfg, w)[0])
    ensures CheckCall(cfg, w, Batch([], [], [], [])).0 == Passed
  {
    hide AllTasks, Validate, ConfigurationError, Strip, Healed, ProgressError, StopsAt, SourceFiles, CheckBatch, DropIn;
    var tasks := AllTasks(cfg, w);
    NothingRecorded(cfg, w, w.cks);
    DropSplit([], tasks, []);
    SeqAssoc(tasks, [], []);
    assert tasks[..0] == [] && tasks[..1] == [tasks[0]];
    assert Refreshed(cfg, w, [], w.cks) == Batch(tasks, [], [tasks[0]], []);
    FirstBatchPasses(cfg, w, cks, tasks);
  }

  lemma FirstBatchPasses(cfg: Config, w: World, cks: seq<string>, tasks: seq<string>)
    requires tasks != [] && Validate(cfg, w, tasks[0], cks) == Valid
    requires forall t :: t in tasks ==> Strip(t) == Strip(tasks[0])
    ensures CheckBatch(cfg, w, cks, Batch(tasks, [], [tasks[0]], [])).0 == Passed
  {
    hide Validate, Strip, Completed, CheckBatch, CoveredBy, AppendNew;
    var t := tasks[0];
    AppendFirst(t);
    SomethingOpen(cfg, w, cks, Batch(tasks, [], [t], []));
    PassIff(Batch(tasks, [t], [t], []), cfg.batchSize);
    FirstCoversAll(tasks);
  }

  lemma AppendFirst(t: string)
    ensures AppendNew([], [t]) == [t]
  {
    assert [t][..0] == [] && [] + [t] == [t];
  }

  lemma FirstCoversAll(tasks: seq<string>)
    requires tasks != [] && forall t :: t in tasks ==> Strip(t) == Strip(tasks[0])
    ensures CoveredBy(tasks, [tasks[0]])
  {
    hide Strip;
    assert tasks[0] in [tasks[0]];
    assert !IsBlank(tasks[0]) ==> Strip(tasks[0]) in StripAll([tasks[0]]);
  }

  // ---------------------------------------------------------------- untrusted names really fail

  const RULE_PARTS := ["IGNORE", "FC-a", "CK-b"]

  lemma RuleKey()
    ensures JoinWith(RULE_PARTS, '/') == "IGNORE/FC-a/CK-b"
  {
    assert JoinWith(RULE_PARTS[1..][1..], '/') == "CK-b";
    assert JoinWith(RULE_PARTS[1..], '/') == "FC-a/CK-b";
  }

  lemma RuleSegments()
    ensures PlainSegments(RULE_PARTS)
  {
    PlainText(RULE_PARTS[0]);
    PlainText(RULE_PARTS[1]);
    PlainText(RULE_PARTS[2]);
    hide IsClean;
  }

  lemma PlainText(s: string)
    requires s == "IGNORE" || s == "FC-a" || s == "CK-b"
    ensures IsClean(s) && '/' !in s && ':' !in s && '#' !in s
  {
  }

  lemma RulePartsAreFine()
    ensures PlainSegments(RULE_PARTS) && !IsBlank("r") && JoinWith(RULE_PARTS, '/') == "IGNORE/FC-a/CK-b"
  {
    CleanIsStripped("r");
    RuleKey();
    RuleSegments();
    hide PlainSegments, Strip, JoinWith;
  }

  /** A rule for the given ranges is read back. */
  lemma RuleReads(spans: seq<Span>, count: nat)
    requires spans != [] && forall i :: 0 <= i < |spans| ==> RangeAllowed(spans[i], count, 1)
    ensures ParseLine(RenderLine(RULE_PARTS, spans, "r"), count, 1) == Mapping("IGNORE/FC-a/CK-b", spans)
  {
    hide ParseLine, RenderLine, JoinWith, PlainSegments, Strip;
    RulePartsAreFine();
    ParseOfRendered(RULE_PARTS, spans, "r", count, 1);
    assert forall i :: 0 <= i < |spans| ==> RangeAllowed(spans[i], count, 1);
  }

  const RULE := RenderLine(RULE_PARTS, [(1, 1)], "r")

  lemma RuleParses()
    ensures ParseLine(RULE, 1, 1) == Mapping("IGNORE/FC-a/CK-b", [(1, 1)])
  {
    hide ParseLine, RenderLine;
    RuleReads([(1, 1)], 1);
  }

  /** Two separator-free names that differ only in leading blanks: the second file is never looked at. */
  lemma TwinNamesFail(names: seq<string>, i: nat, j: nat)
    requires var files := SortedSet(names);
             && i < j < |files| && SeparatorFree(files[i]) && SeparatorFree(files[j])
             && LStrip(files[i]) == LStrip(files[j]) && !SharedMapFile(files)
    ensures !SoundFor(names)
  {
    hide SortedSet, SharedMapFile, LStrip, IsReadable, ConfigurationError, OwnBlocks, CheckCall, AllCovered, TaskOf,
         SplitBlock, Validate, BlocksOfFiles;
    var files := SortedSet(names);
    var f, g := files[i], files[j];
    SortedSetFacts(names);
    NotShared(files, i, j);
    assert f in files && g in files;
    var cfg := SmallConfig(names);
    var w := TwinWorld(names, f, g, false);
    WorldIsConfigured(names, TwinTexts(names, f, g, false));
    TwinBlocks(names, i, j, false);
    var bf, bg := Block(f, 1, 1, ZeroDigest()), Block(g, 1, 1, ZeroDigest());
    TwoTasks(cfg, w, bf, bg);
    StripOfTwins(f, g);
    TwinIsValid(names, f, g, false, f);
    FirstCallPasses(cfg, w, []);
    TwinIsUncovered(names, f, g);
    assert g in w.matched;
    NotSound(cfg, w, Batch([], [], [], []), g);
  }

  lemma NotShared(files: seq<string>, i: nat, j: nat)
    requires i < j < |files| && !SharedMapFile(files)
    ensures MapStem(files[i]) != MapStem(files[j])
  {
  }

  /** Every pass with these matched names, in any world and from any state, covers every line. */
  ghost predicate SoundFor(names: seq<string>)
  {
    forall cfg: Config, w: World, b: Batch :: w.matched == names && CheckCall(cfg, w, b).0 == Passed ==> AllCovered(cfg, w)
  }

  lemma NotSound(cfg: Config, w: World, b: Batch, file: string)
    requires CheckCall(cfg, w, b).0 == Passed && file in w.matched && !FileCovered(cfg, w, file)
    ensures !SoundFor(w.matched)
  {
    hide CheckCall, FileCovered;
    assert !AllCovered(cfg, w);
  }

  lemma TwoTasks(cfg: Config, w: World, a: Block, b: Block)
    requires AllBlocks(cfg, w) == [a, b]
    ensures AllTasks(cfg, w) == [TaskOf(a), TaskOf(b)]
  {
    hide TaskOf, AllBlocks;
    assert TasksOf([b]) == [TaskOf(b)];
    assert [a, b][1..] == [b];
    assert TasksOf([a, b]) == [TaskOf(a)] + TasksOf([b]);
  }

  /** Two files of one line; the first one is mapped, the second one only on request. */
  function TwinTexts(names: seq<string>, f: string, g: string, both: bool): map<string, FileText>
  {
    map[f := Lines(["x"]), g := Lines(["x"]), MapFile(SmallConfig(names), f) := Lines([RULE])]
    + if both then map[MapFile(SmallConfig(names), g) := Lines([RULE])] else map[]
  }

  function TwinWorld(names: seq<string>, f: string, g: string, both: bool): World
  {
    WorldWith(names, TwinTexts(names, f, g, both))
  }

  lemma TwinFiles(names: seq<string>, f: string, g: string, both: bool)
    requires f in names && g in names && f != g && MapStem(f) != MapStem(g)
    ensures var w, cfg := TwinWorld(names, f, g, both), SmallConfig(names);
            && IsReadable(w, f) && w.files[f] == Lines(["x"])
            && IsReadable(w, g) && w.files[g] == Lines(["x"])
            && IsReadable(w, MapFile(cfg, f)) && w.files[MapFile(cfg, f)] == Lines([RULE])
            && (IsReadable(w, MapFile(cfg, g)) <==> both) && (both ==> w.files[MapFile(cfg, g)] == Lines([RULE]))
            && (forall n :: n in names && n != f && n != g ==> IsReadable(w, n) && w.files[n] == Lines([]))
  {
    hide RULE, Joined;
    var cfg := SmallConfig(names);
    MapFileIsLong(names, f);
    MapFileIsLong(names, g);
    forall n | n in names ensures n != MapFile(cfg, f) && n != MapFile(cfg, g) {
      JoinedIsLong(names, n);
    }
    StemsTellApart(cfg, f, g);
  }

  lemma StemsTellApart(cfg: Config, f: string, g: string)
    requires MapStem(f) != MapStem(g)
    ensures MapFile(cfg, f) != MapFile(cfg, g)
  {
    var prefix := cfg.mapLocation + "/";
    if |MapStem(f)| == |MapStem(g)| {
      assert MapFile(cfg, f)[|prefix|..|prefix| + |MapStem(f)|] == MapStem(f);
      assert MapFile(cfg, g)[|prefix|..|prefix| + |MapStem(g)|] == MapStem(g);
    }
  }

  lemma TwinBlocks(names: seq<string>, i: nat, j: nat, both: bool)
    requires var files := SortedSet(names); i < j < |files| && !SharedMapFile(files)
    ensures var files := SortedSet(names);
            AllBlocks(SmallConfig(names), TwinWorld(names, files[i], files[j], both)) ==
            [Block(files[i], 1, 1, ZeroDigest()), Block(files[j], 1, 1, ZeroDigest())]
  {
    hide SortedSet, BlocksOfFiles, TwinWorld, SmallConfig, OwnBlocks;
    var files := SortedSet(names);
    SortedSetFacts(names);
    var f, g := files[i], files[j];
    assert f in files && g in files;
    NotShared(files, i, j);
    var cfg, w := SmallConfig(names), TwinWorld(names, f, g, both);
    TwinFiles(names, f, g, both);
    SmallConfigIsSmall(names);
    OneLineBlocks(cfg, w, f);
    OneLineBlocks(cfg, w, g);
    forall k | 0 <= k < |files| && k != i && k != j ensures OwnBlocks(cfg, w, files[k]) == [] {
      assert files[k] in files;
      EmptyFile(cfg, w, files[k]);
    }
    BlocksOfTwo(cfg, w, files, i, j);
    TwinMatched(names, f, g, both);
  }

  lemma TwinMatched(names: seq<string>, f: string, g: string, both: bool)
    ensures TwinWorld(names, f, g, both).matched == names
  {
  }

  lemma SmallConfigIsSmall(names: seq<string>)
    ensures SmallConfig(names).maxBlockLines == 1 && SmallConfig(names).batchSize == 1
    ensures SmallConfig(names).ignoreBlankLines
  {
  }

  lemma EmptyFile(cfg: Config, w: World, file: string)
    requires IsReadable(w, file) && w.files[file] == Lines([])
    ensures OwnBlocks(cfg, w, file) == []
  {
  }

  lemma StripOfTwins(f: string, g: string)
    requires LStrip(f) == LStrip(g)
    ensures Strip(TaskOf(Block(f, 1, 1, ZeroDigest()))) == Strip(TaskOf(Block(g, 1, 1, ZeroDigest())))
  {
    hide Strip, LStrip, Token;
    StripOfToken(f, 1, 1, ZeroDigest());
    StripOfToken(g, 1, 1, ZeroDigest());
  }

  lemma TwinIsValid(names: seq<string>, f: string, g: string, both: bool, h: string)
    requires f in names && g in names && f != g && MapStem(f) != MapStem(g) && SeparatorFree(h)
    requires h == f || (both && h == g)
    ensures Validate(SmallConfig(names), TwinWorld(names, f, g, both), TaskOf(Block(h, 1, 1, ZeroDigest())), []) == Valid
  {
    hide SplitBlock, Token, TwinWorld, SmallConfig, ParseLine, RULE, MapFile;
    var w, cfg := TwinWorld(names, f, g, both), SmallConfig(names);
    TwinFiles(names, f, g, both);
    SmallConfigIsSmall(names);
    TokenRoundTripIff(h, 1, 1, ZeroDigest());
    RuleParses();
    var parsed := MapLines(cfg, w, h);
    assert parsed == [ParseLine(RULE, 1, 1)];
    assert parsed[0].Mapping?;
    assert forall key :: HasKey(parsed, key) ==> key == "IGNORE/FC-a/CK-b" && "IGNORE/" <= key;
    assert Covers(parsed[0].spans[0], 1);
    assert InSpans(parsed[0].spans, 1);
    assert KeyCovers(parsed, "IGNORE/FC-a/CK-b", 1);
    assert BlockStatus(cfg, w, h, 1, 1, []) == Valid;
  }

  lemma TwinIsUncovered(names: seq<string>, f: string, g: string)
    requires f in names && g in names && f != g && MapStem(f) != MapStem(g)
    ensures !FileCovered(SmallConfig(names), TwinWorld(names, f, g, false), g)
  {
    hide TwinWorld, SmallConfig, MapFile, IsBlank;
    TwinFiles(names, f, g, false);
    SmallConfigIsSmall(names);
    XIsNotBlank();
    assert Required(SmallConfig(names), ["x"], 1, 1, 1);
  }

  // ---------------------------------------------------------------- a separator inside a name

  function BlankLines(n: nat): seq<string>
  {
    seq(n, _ => "")
  }

  /** The file with these lines, and a decoy of blank lines with an empty mapping file. */
  function DecoyTexts(names: seq<string>, f: string, lines: seq<string>, decoy: string, end: nat): map<string, FileText>
  {
    map[decoy := Lines(BlankLines(end)), f := Lines(lines), MapFile(SmallConfig(names), decoy) := Lines([])]
  }

  function DecoyWorld(names: seq<string>, f: string, lines: seq<string>, decoy: string, end: nat): World
  {
    WorldWith(names, DecoyTexts(names, f, lines, decoy, end))
  }

  lemma DecoyFiles(names: seq<string>, f: string, lines: seq<string>, decoy: string, end: nat)
    requires f in names && |decoy| < |f|
    ensures var w, cfg := DecoyWorld(names, f, lines, decoy, end), SmallConfig(names);
            && IsReadable(w, f) && w.files[f] == Lines(lines)
            && IsReadable(w, decoy) && w.files[decoy] == Lines(BlankLines(end))
            && IsReadable(w, MapFile(cfg, decoy)) && w.files[MapFile(cfg, decoy)] == Lines([])
            && !IsReadable(w, MapFile(cfg, f))
            && (forall n :: n in names && n != f ==>
                  IsReadable(w, n) && (w.files[n] == Lines([]) || w.files[n] == Lines(BlankLines(end))))
  {
    hide Joined, BlankLines;
    var cfg := SmallConfig(names);
    MapFileIsLong(names, f);
    MapFileIsLong(names, decoy);
    JoinedIsLong(names, f);
    forall n | n in names ensures n != MapFile(cfg, f) && n != MapFile(cfg, decoy) {
      JoinedIsLong(names, n);
    }
  }

  /** All blocks are those of the file. */
  lemma DecoyBlocks(names: seq<string>, i: nat, lines: seq<string>, decoy: string, end: nat)
    requires i < |SortedSet(names)| && |decoy| < |SortedSet(names)[i]|
    ensures var f, cfg := SortedSet(names)[i], SmallConfig(names);
            var w := DecoyWorld(names, f, lines, decoy, end);
            AllBlocks(cfg, w) == OwnBlocks(cfg, w, f)
  {
    hide SortedSet, BlocksOfFiles, DecoyWorld, SmallConfig, OwnBlocks;
    var files := SortedSet(names);
    SortedSetFacts(names);
    var f := files[i];
    assert f in files;
    var cfg, w := SmallConfig(names), DecoyWorld(names, f, lines, decoy, end);
    DecoyFiles(names, f, lines, decoy, end);
    SmallConfigIsSmall(names);
    forall k | 0 <= k < |files| && k != i ensures OwnBlocks(cfg, w, files[k]) == [] {
      assert files[k] in files;
      BlankFile(cfg, w, files[k], end);
    }
    BlocksOfOne(cfg, w, files, i);
    DecoyMatched(names, f, lines, decoy, end);
  }

  lemma DecoyMatched(names: seq<string>, f: string, lines: seq<string>, decoy: string, end: nat)
    ensures DecoyWorld(names, f, lines, decoy, end).matched == names
  {
  }

  lemma BlankFile(cfg: Config, w: World, file: string, end: nat)
    requires cfg.ignoreBlankLines && IsReadable(w, file)
    requires w.files[file] == Lines([]) || w.files[file] == Lines(BlankLines(end))
    ensures OwnBlocks(cfg, w, file) == []
  {
    BlankLinesHaveNoBlocks(cfg, file, w.files[file].lines, w.files[file].digest, 1);
  }

  /** The decoy's blank block needs no mapping at all, so the task counts as valid. */
  lemma DecoyIsValid(names: seq<string>, f: string, lines: seq<string>, decoy: string, start: int, end: nat, b: Block)
    requires f in names && !SeparatorFree(f) && SplitBase(Base(f)) == Some((decoy, start, end)) && b.file == f
    ensures Validate(SmallConfig(names), DecoyWorld(names, f, lines, decoy, end), TaskOf(b), []) == Valid
  {
    hide SplitBase, Base, Token, DecoyWorld, SmallConfig, MapFile;
    var w, cfg := DecoyWorld(names, f, lines, decoy, end), SmallConfig(names);
    CutOffTask(f, b.start, b.end, b.digest);
    DecoyFiles(names, f, lines, decoy, end);
    SmallConfigIsSmall(names);
    DecoyBlockIsValid(cfg, w, decoy, start, end);
  }

  lemma DecoyBlockIsValid(cfg: Config, w: World, decoy: string, start: int, end: nat)
    requires cfg.ignoreBlankLines && 1 <= start <= end
    requires IsReadable(w, decoy) && w.files[decoy] == Lines(BlankLines(end))
    requires IsReadable(w, MapFile(cfg, decoy)) && w.files[MapFile(cfg, decoy)] == Lines([])
    ensures BlockStatus(cfg, w, decoy, start, end, []) == Valid
  {
    hide MapFile;
    assert MapLines(cfg, w, decoy) == [];
    assert MapInOrder(cfg, w, decoy, []);
    assert BlockCovered(cfg, w, decoy, start, end);
  }

  /** A name that reads as `name:start-end` in front of its separator: another file is validated. */
  lemma SeparatorNameFails(names: seq<string>, f: string)
    requires f in names && !SeparatorFree(f) && SplitBase(Base(f)).Some? && !SharedMapFile(SortedSet(names))
    ensures !SoundFor(names)
  {
    hide SortedSet, SharedMapFile, SplitBase, Base, ConfigurationError, CheckCall, AllCovered, TaskOf, Validate,
         BlocksOfFiles, SmallConfig, MapFile, IsBlank, SoundFor, OwnBlocks;
    SortedSetFacts(names);
    var i :| 0 <= i < |SortedSet(names)| && SortedSet(names)[i] == f;
    var (decoy, start, end) := SplitBase(Base(f)).value;
    CutOffTask(f, 1, 1, ZeroDigest());
    var cfg, w, b := SmallConfig(names), DecoyWorld(names, f, ["x"], decoy, end), Block(f, 1, 1, ZeroDigest());
    SmallConfigIsSmall(names);
    WorldIsConfigured(names, DecoyTexts(names, f, ["x"], decoy, end));
    DecoyFiles(names, f, ["x"], decoy, end);
    DecoyBlocks(names, i, ["x"], decoy, end);
    OneLineBlocks(cfg, w, f);
    OneTaskOnly(cfg, w, b);
    DecoyIsValid(names, f, ["x"], decoy, start, end, b);
    FirstCallPasses(cfg, w, []);
    LineNeedsMapping(cfg, w, f);
    NotSound(cfg, w, Batch([], [], [], []), f);
  }

  lemma OneTaskOnly(cfg: Config, w: World, a: Block)
    requires AllBlocks(cfg, w) == [a]
    ensures AllTasks(cfg, w) == [TaskOf(a)]
  {
    hide TaskOf, AllBlocks;
  }

  lemma LineNeedsMapping(cfg: Config, w: World, f: string)
    requires IsReadable(w, f) && w.files[f] == Lines(["x"]) && !IsReadable(w, MapFile(cfg, f))
    ensures !FileCovered(cfg, w, f)
  {
    hide MapFile, IsBlank;
    XIsNotBlank();
    assert Required(cfg, ["x"], 1, 1, 1);
  }

  // ---------------------------------------------------------------- the exact conditions

  /** For which matched names a pass can be trusted: exactly when two of them share a mapping file (then
      no call passes), or when the names are trusted. */
  lemma SoundIff(names: seq<string>)
    ensures SoundFor(names) <==> SharedMapFile(SortedSet(names)) || TrustedNames(names)
  {
    hide CheckCall, AllCovered, SharedMapFile, SortedSet, SplitBase, LStrip, SeparatorFree;
    if SharedMapFile(SortedSet(names)) || TrustedNames(names) {
      forall cfg: Config, w: World, b: Batch | w.matched == names && CheckCall(cfg, w, b).0 == Passed
        ensures AllCovered(cfg, w) {
        PassValidates(cfg, w, b);
        PassIsSound(cfg, w, b);
      }
    } else if exists f :: f in names && !SeparatorFree(f) && SplitBase(Base(f)).Some? {
      var f :| f in names && !SeparatorFree(f) && SplitBase(Base(f)).Some?;
      SeparatorNameFails(names, f);
    } else {
      var f, g :| f in names && g in names && f != g && SeparatorFree(f) && SeparatorFree(g) && LStrip(f) == LStrip(g);
      SortedSetFacts(names);
      var i :| 0 <= i < |SortedSet(names)| && SortedSet(names)[i] == f;
      var j :| 0 <= j < |SortedSet(names)| && SortedSet(names)[j] == g;
      if i < j { TwinNamesFail(names, i, j); } else { TwinNamesFail(names, j, i); }
    }
  }

  /** With these matched names every refresh heals: refreshing again changes nothing and finds no
      progress error. */
  ghost predicate HealsFor(names: seq<string>)
  {
    forall cfg: Config, w: World, recorded: seq<string>, cks: Option<seq<string>> :: w.matched == names ==>
      var b := Refreshed(cfg, w, recorded, cks);
      Refreshed(cfg, w, b.gen, cks) == b && !ProgressError(cfg, w, b.gen, cks)
  }

  function TwoLineWorld(names: seq<string>, f: string): World
  {
    WorldWith(names, map[f := Lines(["x", "x"])])
  }

  lemma TwoLineTasks(names: seq<string>, f: string)
    requires f in names
    ensures AllTasks(SmallConfig(names), TwoLineWorld(names, f)) ==
            [TaskOf(Block(f, 1, 1, ZeroDigest())), TaskOf(Block(f, 2, 2, ZeroDigest()))]
  {
    hide SortedSet, BlocksOfFiles, SmallConfig, OwnBlocks, IsBlank, TaskOf;
    SortedSetFacts(names);
    var files := SortedSet(names);
    var i :| 0 <= i < |files| && files[i] == f;
    var cfg, w := SmallConfig(names), TwoLineWorld(names, f);
    SmallConfigIsSmall(names);
    forall k | 0 <= k < |files| && k != i ensures OwnBlocks(cfg, w, files[k]) == [] {
      assert files[k] in files;
      EmptyFile(cfg, w, files[k]);
    }
    BlocksOfOne(cfg, w, files, i);
    TwoLineBlocks(cfg, w, f);
    TwoTasks(cfg, w, Block(f, 1, 1, ZeroDigest()), Block(f, 2, 2, ZeroDigest()));
  }

  lemma TwoLineBlocks(cfg: Config, w: World, f: string)
    requires cfg.maxBlockLines == 1 && IsReadable(w, f) && w.files[f] == Lines(["x", "x"])
    ensures OwnBlocks(cfg, w, f) == [Block(f, 1, 1, ZeroDigest()), Block(f, 2, 2, ZeroDigest())]
  {
    XIsNotBlank();
    hide IsBlank;
    var d := ZeroDigest();
    var lines := ["x", "x"];
    assert lines[0] == "x" && lines[1] == "x";
    assert FileBlocks(cfg, f, lines, d, 3) == [];
    assert FileBlocks(cfg, f, lines, d, 2) == [Block(f, 2, 2, d)];
  }

  /** Both targets of a file with the separator in its name have the same base but different remainders:
      the second one is reported stale for ever. */
  lemma SeparatorNameNeverHeals(names: seq<string>, f: string)
    requires f in names && !SeparatorFree(f)
    ensures !HealsFor(names)
  {
    hide Token, Base, DigestOf, SmallConfig;
    var d := ZeroDigest();
    var cfg, w := SmallConfig(names), TwoLineWorld(names, f);
    var t1, t2 := TaskOf(Block(f, 1, 1, d)), TaskOf(Block(f, 2, 2, d));
    TwoLineTasks(names, f);
    CutOffTask(f, 1, 1, d);
    CutOffTask(f, 2, 2, d);
    DifferentRemainders(f, d);
    FirstIsKept(cfg, w, t1, t2);
    var b := Refreshed(cfg, w, [t1], None);
    assert w.matched == names && ProgressError(cfg, w, b.gen, None);
  }

  lemma SplitAtSeparator(t: string)
    requires Contains(t, SEPARATOR)
    ensures DigestOf(t).Some? && t == Base(t) + SEPARATOR + DigestOf(t).value
  {
    var i := Find(t, SEPARATOR);
    assert t == t[..i] + t[i..i + |SEPARATOR|] + t[i + |SEPARATOR|..];
  }

  lemma TokenContainsSeparator(f: string, s: nat, e: nat, d: Digest)
    ensures Contains(Token(f, s, e, d), SEPARATOR)
  {
    hide NatText;
    FirstSeparator(f, s, e, d);
  }

  lemma DifferentRemainders(f: string, d: Digest)
    requires !SeparatorFree(f)
    ensures DigestOf(Token(f, 1, 1, d)) != DigestOf(Token(f, 2, 2, d))
  {
    hide Token, DigestOf, Base, Contains;
    var t1, t2 := Token(f, 1, 1, d), Token(f, 2, 2, d);
    CutOffTask(f, 1, 1, d);
    CutOffTask(f, 2, 2, d);
    TokenContainsSeparator(f, 1, 1, d);
    TokenContainsSeparator(f, 2, 2, d);
    SplitAtSeparator(t1);
    SplitAtSeparator(t2);
    if DigestOf(t1) == DigestOf(t2) {
      TokenDeterminesParts(f, 1, 1, d, f, 2, 2, d);
    }
  }

  lemma FirstIsKept(cfg: Config, w: World, t1: string, t2: string)
    requires AllTasks(cfg, w) == [t1, t2] && Base(t1) == Base(t2) && DigestOf(t1) != DigestOf(t2)
    ensures Refreshed(cfg, w, [t1], None).gen == [t1] && ProgressError(cfg, w, [t1], None)
  {
    hide AllTasks, Base, DigestOf, DuplicateRecords, UnknownRecord, GapInRecords, DropIn, Take;
    var s := Statuses(cfg, w, [t1], None, [t1, t2]);
    assert s[0] == StatusOf(cfg, w, [t1], None, t1) == Good;
    assert s[1] == StatusOf(cfg, w, [t1], None, t2) == Stale;
    GoodPrefixIs(s, 1);
    assert [t1, t2][..1] == [t1];
  }

  /** Refreshing heals every record exactly when no matched name contains the separator. */
  lemma HealsIff(names: seq<string>)
    ensures HealsFor(names) <==> AllSeparatorFree(names)
  {
    hide Refreshed, ProgressError, SeparatorFree, StopsAt;
    if AllSeparatorFree(names) {
      forall cfg: Config, w: World, recorded: seq<string>, cks: Option<seq<string>> | w.matched == names
        ensures var b := Refreshed(cfg, w, recorded, cks);
                Refreshed(cfg, w, b.gen, cks) == b && !ProgressError(cfg, w, b.gen, cks) {
        FreeNames(cfg, w);
        BasesAreDistinct(cfg, w);
        RefreshIdempotent(cfg, w, recorded, cks);
      }
    } else {
      var f :| f in names && !SeparatorFree(f);
      SeparatorNameNeverHeals(names, f);
    }
  }

  // ---------------------------------------------------------------- counting calls

  /** Call number `k` after a recorded prefix of `p` valid targets answers as the number of calls says. */
  ghost predicate CallCounts(cfg: Config, w: World, b: Batch, p: nat, k: nat)
  {
    var tasks := AllTasks(cfg, w);
    EverythingValid(cfg, w) && tasks != [] && p <= |tasks| && b.gen == tasks[..p] ==>
      var n := CallsNeeded(|tasks| - p, cfg.batchSize);
      k < n ==> CheckCall(cfg, w, AfterCalls(cfg, w, b, k)).0 == if k + 1 == n then Passed else Failed
  }

  /** With these matched names it always takes exactly that number of calls. */
  ghost predicate CountsFor(names: seq<string>)
  {
    forall cfg: Config, w: World, b: Batch, p: nat, k: nat :: w.matched == names ==> CallCounts(cfg, w, b, p, k)
  }

  lemma BothAreValid(cfg: Config, w: World, t1: string, t2: string)
    requires AllTasks(cfg, w) == [t1, t2] && w.cks.Some? && !ConfigurationError(w)
    requires Validate(cfg, w, t1, w.cks.value) == Valid && Validate(cfg, w, t2, w.cks.value) == Valid
    ensures EverythingValid(cfg, w)
  {
    hide AllTasks, Validate, ConfigurationError;
  }

  /** The second of two targets with the same base is stale, so the call cannot pass. */
  lemma StaleIsReported(cfg: Config, w: World, t1: string, t2: string, b: Batch)
    requires AllTasks(cfg, w) == [t1, t2] && Base(t1) == Base(t2) && DigestOf(t1) != DigestOf(t2)
    requires w.cks.Some? && Validate(cfg, w, t1, w.cks.value) == Valid && b.gen == [t1]
    ensures CheckCall(cfg, w, b).0 != Passed
  {
    hide AllTasks, Base, DigestOf, DuplicateRecords, UnknownRecord, GapInRecords, Refreshed, Validate, CheckBatch,
      ConfigurationError;
    var s := Statuses(cfg, w, [t1], w.cks, [t1, t2]);
    assert s[0] == StatusOf(cfg, w, [t1], w.cks, t1) == Good;
    assert s[1] == StatusOf(cfg, w, [t1], w.cks, t2) == Stale;
    GoodPrefixIs(s, 1);
    assert ProgressError(cfg, w, b.gen, w.cks);
  }

  lemma DoesNotCount(cfg: Config, w: World, b: Batch, p: nat)
    requires !CallCounts(cfg, w, b, p, 0)
    ensures !CountsFor(w.matched)
  {
    hide CallCounts;
  }

  lemma FirstCallCounts(cfg: Config, w: World, b: Batch, p: nat)
    requires EverythingValid(cfg, w) && AllTasks(cfg, w) != [] && p <= |AllTasks(cfg, w)| && b.gen == AllTasks(cfg, w)[..p]
    ensures CallCounts(cfg, w, b, p, 0) <==>
            CheckCall(cfg, w, b).0 == if |AllTasks(cfg, w)| - p <= cfg.batchSize then Passed else Failed
  {
    hide AllTasks, CheckCall, EverythingValid;
    var left := |AllTasks(cfg, w)| - p;
    if left > cfg.batchSize { CallsNeededIsCeiling(left - cfg.batchSize, cfg.batchSize); }
  }

  /** With a name that reads as `name:start-end` in front of its separator the last call is never accepted. */
  lemma SeparatorNameMiscounts(names: seq<string>, f: string)
    requires f in names && !SeparatorFree(f) && SplitBase(Base(f)).Some? && !SharedMapFile(SortedSet(names))
    ensures !CountsFor(names)
  {
    hide SortedSet, SharedMapFile, SplitBase, Base, DigestOf, ConfigurationError, CheckCall, TaskOf, Validate, BlocksOfFiles,
      SmallConfig, MapFile, OwnBlocks, AllTasks, EverythingValid, CallCounts;
    SortedSetFacts(names);
    var i :| 0 <= i < |SortedSet(names)| && SortedSet(names)[i] == f;
    var (decoy, start, end) := SplitBase(Base(f)).value;
    var d := ZeroDigest();
    var b1, b2 := Block(f, 1, 1, d), Block(f, 2, 2, d);
    var lines := ["x", "x"];
    CutOffTask(f, 1, 1, d);
    CutOffTask(f, 2, 2, d);
    var cfg, w := SmallConfig(names), DecoyWorld(names, f, lines, decoy, end);
    SmallConfigIsSmall(names);
    WorldIsConfigured(names, DecoyTexts(names, f, lines, decoy, end));
    DecoyFiles(names, f, lines, decoy, end);
    DecoyBlocks(names, i, lines, decoy, end);
    TwoLineBlocks(cfg, w, f);
    TwoTasks(cfg, w, b1, b2);
    DecoyIsValid(names, f, lines, decoy, start, end, b1);
    DecoyIsValid(names, f, lines, decoy, start, end, b2);
    TasksOfCutOff(f, d);
    BothAreValid(cfg, w, TaskOf(b1), TaskOf(b2));
    var b := Batch([], [TaskOf(b1)], [], []);
    assert [TaskOf(b1), TaskOf(b2)][..1] == b.gen;
    StaleIsReported(cfg, w, TaskOf(b1), TaskOf(b2), b);
    FirstCallCounts(cfg, w, b, 1);
    DoesNotCount(cfg, w, b, 1);
  }

  lemma TasksOfCutOff(f: string, d: Digest)
    requires !SeparatorFree(f)
    ensures var t1, t2 := TaskOf(Block(f, 1, 1, d)), TaskOf(Block(f, 2, 2, d));
            Base(t1) == Base(t2) && DigestOf(t1) != DigestOf(t2)
  {
    hide Token, Base, DigestOf, SplitBase, SeparatorFree;
    CutOffTask(f, 1, 1, d);
    CutOffTask(f, 2, 2, d);
    DifferentRemainders(f, d);
  }

  /** With two names that differ only in leading blanks a call can pass too early. */
  lemma TwinNamesMiscount(names: seq<string>, i: nat, j: nat)
    requires var files := SortedSet(names);
             && i < j < |files| && SeparatorFree(files[i]) && SeparatorFree(files[j])
             && LStrip(files[i]) == LStrip(files[j]) && !SharedMapFile(files)
    ensures !CountsFor(names)
  {
    hide SortedSet, SharedMapFile, LStrip, ConfigurationError, CheckCall, TaskOf, SplitBlock, Validate, BlocksOfFiles,
      SmallConfig, AllTasks, EverythingValid, CallCounts, SeparatorFree;
    var files := SortedSet(names);
    var f, g := files[i], files[j];
    SortedSetFacts(names);
    NotShared(files, i, j);
    assert f in files && g in files;
    var cfg, w := SmallConfig(names), TwinWorld(names, f, g, true);
    SmallConfigIsSmall(names);
    WorldIsConfigured(names, TwinTexts(names, f, g, true));
    TwinBlocks(names, i, j, true);
    var bf, bg := Block(f, 1, 1, ZeroDigest()), Block(g, 1, 1, ZeroDigest());
    TwoTasks(cfg, w, bf, bg);
    StripOfTwins(f, g);
    TwinIsValid(names, f, g, true, f);
    TwinIsValid(names, f, g, true, g);
    BothAreValid(cfg, w, TaskOf(bf), TaskOf(bg));
    FirstCallPasses(cfg, w, []);
    var b := Batch([], [], [], []);
    assert [TaskOf(bf), TaskOf(bg)][..0] == b.gen;
    FirstCallCounts(cfg, w, b, 0);
    DoesNotCount(cfg, w, b, 0);
  }

  lemma SharedCounts(names: seq<string>)
    requires SharedMapFile(SortedSet(names))
    ensures CountsFor(names)
  {
    hide SharedMapFile, SortedSet, CheckCall;
  }

  lemma TrustedCounts(names: seq<string>)
    requires TrustedNames(names)
    ensures CountsFor(names)
  {
    hide TrustedNames, AllTasks, EverythingValid, CheckCall;
    forall cfg: Config, w: World, b: Batch, p: nat, k: nat | w.matched == names ensures CallCounts(cfg, w, b, p, k) {
      var tasks := AllTasks(cfg, w);
      if EverythingValid(cfg, w) && tasks != [] && p <= |tasks| && b.gen == tasks[..p] {
        if k < CallsNeeded(|tasks| - p, cfg.batchSize) { ExactNumberOfCalls(cfg, w, b, p, k); }
      }
    }
  }

  /** For which matched names the number of calls is always max(1, ceil(left / batch size)): exactly those for which a pass
      can be trusted. */
  lemma CountsIff(names: seq<string>)
    ensures CountsFor(names) <==> SharedMapFile(SortedSet(names)) || TrustedNames(names)
  {
    hide CountsFor, SharedMapFile, SortedSet, SplitBase, LStrip, SeparatorFree, Base;
    if SharedMapFile(SortedSet(names)) {
      SharedCounts(names);
    } else if TrustedNames(names) {
      TrustedCounts(names);
    } else if exists f :: f in names && !SeparatorFree(f) && SplitBase(Base(f)).Some? {
      var f :| f in names && !SeparatorFree(f) && SplitBase(Base(f)).Some?;
      SeparatorNameMiscounts(names, f);
    } else {
      var f, g :| f in names && g in names && f != g && SeparatorFree(f) && SeparatorFree(g) && LStrip(f) == LStrip(g);
      SortedSetFacts(names);
      var i :| 0 <= i < |SortedSet(names)| && SortedSet(names)[i] == f;
      var j :| 0 <= j < |SortedSet(names)| && SortedSet(names)[j] == g;
      if i < j { TwinNamesMiscount(names, i, j); } else { TwinNamesMiscount(names, j, i); }
    }
  }
}
