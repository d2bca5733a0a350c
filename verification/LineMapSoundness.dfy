/** Soundness of the line-map batch checker: what a passing call guarantees about the files, from any
    recorded state, and exactly which file names the guarantee depends on. */
module LineMapSoundness {
  import opened Text
  import opened Lists
  import opened LineRanges
  import opened TaskTokens
  import opened LineMapFile
  import opened BatchTask
  import opened LineMapSpec

  // ---------------------------------------------------------------- the guarantee

  /** Every line of a readable file that is not an ignored blank line lies in a range of the file's
      canonical mapping file. */
  ghost predicate FileCovered(cfg: Config, w: World, file: string)
  {
    IsReadable(w, file) &&
    forall x :: Required(cfg, w.files[file].lines, 1, |w.files[file].lines|, x) ==>
      IsReadable(w, MapFile(cfg, file)) && MapCovers(MapLines(cfg, w, file), x)
  }

  ghost predicate AllCovered(cfg: Config, w: World)
  {
    forall file :: file in w.matched ==> FileCovered(cfg, w, file)
  }

  /** The mapping file of every file that yields a block parses and uses known keys only. */
  ghost predicate AllMapsInOrder(cfg: Config, w: World)
  {
    w.cks.Some? && forall b :: b in AllBlocks(cfg, w) ==> MapInOrder(cfg, w, b.file, w.cks.value)
  }

  // ---------------------------------------------------------------- the blocks of a world

  ghost predicate BlockWithin(b: Block, file: string, lines: seq<string>, digest: Digest, start: nat)
  {
    b.file == file && b.digest == digest && start <= b.start <= b.end <= |lines|
  }

  lemma {:induction false} FileBlocksShape(cfg: Config, file: string, lines: seq<string>, digest: Digest, start: nat)
    requires start >= 1
    ensures forall b :: b in FileBlocks(cfg, file, lines, digest, start) ==> BlockWithin(b, file, lines, digest, start)
    decreases |lines| + 1 - start
  {
    hide Skippable;
    if start <= |lines| {
      FileBlocksShape(cfg, file, lines, digest, start + cfg.maxBlockLines);
    }
  }

  /** A required line is inside one of the blocks. */
  lemma {:induction false} LineHasBlock(cfg: Config, file: string, lines: seq<string>, digest: Digest, start: nat, x: int)
    returns (b: Block)
    requires start >= 1 && Required(cfg, lines, start, |lines|, x)
    ensures b in FileBlocks(cfg, file, lines, digest, start)
    ensures b.file == file && 1 <= b.start <= x <= b.end <= |lines|
    decreases |lines| + 1 - start
  {
    hide IsBlank;
    var last := start + cfg.maxBlockLines - 1;
    var end := if last <= |lines| then last else |lines|;
    if x <= end {
      b := Block(file, start, end, digest);
      assert IsBlank(lines[x - 1]) || !Skippable(cfg, lines, start, end);
    } else {
      b := LineHasBlock(cfg, file, lines, digest, start + cfg.maxBlockLines, x);
    }
  }

  ghost predicate BlockOf(cfg: Config, w: World, file: string, b: Block)
  {
    IsReadable(w, file) && b in FileBlocks(cfg, file, w.files[file].lines, w.files[file].digest, 1)
  }

  lemma {:induction false} BlocksOfFilesMembers(cfg: Config, w: World, files: seq<string>, b: Block)
    ensures b in BlocksOfFiles(cfg, w, files) <==> exists file :: file in files && BlockOf(cfg, w, file, b)
    decreases |files|
  {
    hide FileBlocks;
    if files != [] {
      BlocksOfFilesMembers(cfg, w, files[1..], b);
      assert files[0] in files;
      if exists file :: file in files && BlockOf(cfg, w, file, b) {
        var file :| file in files && BlockOf(cfg, w, file, b);
        assert file == files[0] || file in files[1..];
      }
    }
  }

  /** The blocks of a world are exactly the blocks of its matched readable files. */
  lemma AllBlocksMembers(cfg: Config, w: World, b: Block)
    ensures b in AllBlocks(cfg, w) <==> b.file in w.matched && BlockOf(cfg, w, b.file, b)
    ensures b in AllBlocks(cfg, w) ==> 1 <= b.start <= b.end <= |w.files[b.file].lines|
  {
    hide FileBlocks, SortedSet;
    BlocksOfFilesMembers(cfg, w, SourceFiles(w), b);
    SortedSetFacts(w.matched);
    forall file | BlockOf(cfg, w, file, b)
      ensures b.file == file && 1 <= b.start <= b.end <= |w.files[file].lines| {
      FileBlocksShape(cfg, file, w.files[file].lines, w.files[file].digest, 1);
      assert BlockWithin(b, file, w.files[file].lines, w.files[file].digest, 1);
    }
  }

  lemma {:induction false} TaskHasBlock(blocks: seq<Block>, t: string) returns (b: Block)
    requires t in TasksOf(blocks)
    ensures b in blocks && TaskOf(b) == t
    decreases |blocks|
  {
    hide TaskOf;
    if TaskOf(blocks[0]) == t {
      b := blocks[0];
    } else {
      b := TaskHasBlock(blocks[1..], t);
    }
  }

  lemma {:induction false} BlockHasTask(blocks: seq<Block>, b: Block)
    requires b in blocks
    ensures TaskOf(b) in TasksOf(blocks)
    decreases |blocks|
  {
    hide TaskOf;
    if blocks[0] != b {
      BlockHasTask(blocks[1..], b);
    }
  }

  // ---------------------------------------------------------------- names

  ghost predicate SeparatorFree(file: string)
  {
    !Contains(file, SEPARATOR)
  }

  /** The condition on the matched file names under which a pass can be trusted: no two
      separator-free names differ only in leading blanks, and a name that contains the task separator
      does not read as `name:start-end` in front of it. */
  ghost predicate TrustedNames(names: seq<string>)
  {
    && (forall f, g :: f in names && g in names && f != g && SeparatorFree(f) && SeparatorFree(g) ==>
          LStrip(f) != LStrip(g))
    && (forall f :: f in names && !SeparatorFree(f) ==> SplitBase(Base(f)).None?)
  }

  lemma SameSlice(s: string, k: nat, i: nat, n: nat)
    requires k + i + n <= |s|
    ensures s[k..][i..i + n] == s[k + i..k + i + n]
  {
  }

  /** Leading blanks neither hide nor create a separator. */
  lemma SeparatorSurvivesStrip(file: string)
    ensures SeparatorFree(LStrip(file)) <==> SeparatorFree(file)
  {
    hide LStrip, IsSpace;
    LStripFacts(file);
    LStripRemovesSpaces(file);
    var r := LStrip(file);
    var k := |file| - |r|;
    forall i | OccursAt(file, SEPARATOR, i) ensures OccursAt(r, SEPARATOR, i - k) {
      SeparatorStart(file, i);
      assert i >= k;
      SameSlice(file, k, i - k, |SEPARATOR|);
    }
    forall i | OccursAt(r, SEPARATOR, i) ensures OccursAt(file, SEPARATOR, k + i) {
      SameSlice(file, k, i, |SEPARATOR|);
    }
  }

  lemma SeparatorStart(file: string, i: int)
    requires OccursAt(file, SEPARATOR, i)
    ensures file[i] == '@' && !IsSpace(file[i])
  {
    assert file[i..i + |SEPARATOR|][0] == '@';
  }


  lemma {:induction false} LStripRemovesSpaces(s: string)
    ensures |LStrip(s)| <= |s|
    ensures forall i :: 0 <= i < |s| - |LStrip(s)| ==> IsSpace(s[i])
    decreases |s|
  {
    if s != "" && IsSpace(s[0]) {
      LStripRemovesSpaces(s[1..]);
      forall i | 0 <= i < |s| - |LStrip(s)| ensures IsSpace(s[i]) {
        assert i > 0 ==> s[i] == s[1..][i - 1];
      }
    }
  }

  /** A task determines its file, range and digest, whatever the file name contains. */
  lemma TokenDeterminesParts(f: string, s1: nat, e1: nat, d1: Digest, g: string, s2: nat, e2: nat, d2: Digest)
    requires 1 <= s1 <= e1 && 1 <= s2 <= e2
    requires Token(f, s1, e1, d1) == Token(g, s2, e2, d2)
    ensures f == g && s1 == s2 && e1 == e2 && d1 == d2
  {
    hide BlockName;
    var n1, n2 := BlockName(f, s1, e1), BlockName(g, s2, e2);
    TokenByName(f, s1, e1, d1);
    TokenByName(g, s2, e2, d2);
    var t := n1 + SEPARATOR + d1;
    assert t == n2 + SEPARATOR + d2;
    assert |n1| == |n2|;
    assert t[..|n1|] == n1 && t[..|n2|] == n2;
    assert t[|n1| + |SEPARATOR|..] == d1 && t[|n2| + |SEPARATOR|..] == d2;
    SplitOfBlockName(f, s1, e1);
    SplitOfBlockName(g, s2, e2);
  }

  lemma TokenByName(f: string, s: nat, e: nat, d: Digest)
    ensures Token(f, s, e, d) == BlockName(f, s, e) + SEPARATOR + d
  {
    hide NatText;
  }

  /** Two blocks whose tasks agree up to leading blanks differ at most in leading blanks of the file. */
  lemma StripEqualBlocks(a: Block, b: Block)
    requires 1 <= a.start <= a.end && 1 <= b.start <= b.end
    requires Strip(TaskOf(a)) == Strip(TaskOf(b))
    ensures LStrip(a.file) == LStrip(b.file) && a.start == b.start && a.end == b.end && a.digest == b.digest
    ensures SeparatorFree(a.file) <==> SeparatorFree(b.file)
  {
    hide LStrip, Strip;
    StripOfToken(a.file, a.start, a.end, a.digest);
    StripOfToken(b.file, b.start, b.end, b.digest);
    TokenDeterminesParts(LStrip(a.file), a.start, a.end, a.digest, LStrip(b.file), b.start, b.end, b.digest);
    SeparatorSurvivesStrip(a.file);
    SeparatorSurvivesStrip(b.file);
  }

  // ---------------------------------------------------------------- a passing call

  /** Task `t` was validated in this very call. */
  ghost predicate ValidatedLike(cfg: Config, w: World, cks: seq<string>, tasks: seq<string>, t: string)
  {
    exists u :: u in tasks && Strip(u) == Strip(t) && Validate(cfg, w, u, cks) == Valid
  }

  lemma HealedAreValid(cfg: Config, w: World, recorded: seq<string>, cks: seq<string>, tasks: seq<string>, i: nat)
    requires i < Healed(cfg, w, recorded, Some(cks), tasks)
    ensures Validate(cfg, w, tasks[i], cks) == Valid
  {
    hide FirstRecord, Base, DigestOf, Validate, GoodPrefix;
    assert Statuses(cfg, w, recorded, Some(cks), tasks)[i].Good?;
  }

  /** `Take(DropIn(..), size)` is empty only when everything is done. */
  lemma NothingLeft(tasks: seq<string>, done: seq<string>, size: int)
    requires size >= 1 && Take(DropIn(tasks, done), size) == []
    ensures forall t :: t in tasks ==> t in done
  {
    assert DropIn(tasks, done) == [];
    assert forall t :: t in DropIn(tasks, done) <==> t in tasks && t !in done;
  }

  /** A pass means every current task was, up to leading blanks, validated in this call; nothing is
      assumed about the lists the call started from. */
  lemma PassValidates(cfg: Config, w: World, b: Batch)
    requires CheckCall(cfg, w, b).0 == Passed
    ensures w.cks.Some? && !ConfigurationError(w)
    ensures forall t :: t in AllTasks(cfg, w) ==> ValidatedLike(cfg, w, w.cks.value, AllTasks(cfg, w), t)
  {
    hide Validate, AllTasks, ConfigurationError, ProgressError, StopsAt, Healed, SourceFiles, Completed, BatchHas, DropIn, Take, Strip;
    var cks := w.cks.value;
    var tasks := AllTasks(cfg, w);
    var p := Healed(cfg, w, b.gen, w.cks, tasks);
    var b1 := Refreshed(cfg, w, b.gen, w.cks);
    forall t | t in tasks[..p] ensures Validate(cfg, w, t, cks) == Valid {
      var i :| 0 <= i < p && tasks[i] == t;
      HealedAreValid(cfg, w, b.gen, cks, tasks, i);
    }
    if tasks != [] {
      if b1.tbd == [] {
        NothingLeft(tasks, tasks[..p], cfg.batchSize);
      } else {
        PassingBatch(cfg, w, cks, b1, p);
        forall t | t in tasks ensures !IsBlank(t) { TasksAreNotBlank(cfg, w, t); }
      }
    }
  }

  lemma TasksAreNotBlank(cfg: Config, w: World, t: string)
    requires t in AllTasks(cfg, w)
    ensures !IsBlank(t)
  {
    hide AllBlocks, Token, IsBlank;
    var b := TaskHasBlock(AllBlocks(cfg, w), t);
    StripOfToken(b.file, b.start, b.end, b.digest);
  }

  lemma PassingBatch(cfg: Config, w: World, cks: seq<string>, b: Batch, p: nat)
    requires p <= |b.source| && b == Batch(b.source, b.source[..p], Take(DropIn(b.source, b.source[..p]), cfg.batchSize), [])
    requires forall t :: t in b.source[..p] ==> Validate(cfg, w, t, cks) == Valid
    requires b.source != [] && b.tbd != [] && CheckBatch(cfg, w, cks, b).0 == Passed
    ensures forall t :: t in b.source ==> IsBlank(t) || ValidatedLike(cfg, w, cks, b.source, t)
  {
    hide Validate, Completed, Strip;
    var gen := AppendNew(b.gen, b.tbd);
    PassIff(b.(gen := gen), cfg.batchSize);
    assert forall t :: t in b.tbd ==> t in DropIn(b.source, b.source[..p]);
    forall t | t in b.tbd ensures Validate(cfg, w, t, cks) == Valid {
      assert !BatchHas(cfg, w, cks, b.tbd, Raises) && !BatchHas(cfg, w, cks, b.tbd, Invalid);
    }
    forall t | t in b.source && !IsBlank(t) ensures ValidatedLike(cfg, w, cks, b.source, t) {
      assert Strip(t) in StripAll(gen);
      var u :| u in gen && Strip(u) == Strip(t);
      assert u in b.source && Validate(cfg, w, u, cks) == Valid;
    }
  }

  /** With trusted names every current task was validated itself, and its file name is separator-free. */
  lemma PassValidatesEach(cfg: Config, w: World, b: Batch, blk: Block)
    requires CheckCall(cfg, w, b).0 == Passed && TrustedNames(w.matched) && blk in AllBlocks(cfg, w)
    ensures w.cks.Some? && SeparatorFree(blk.file) && Validate(cfg, w, TaskOf(blk), w.cks.value) == Valid
  {
    hide CheckCall, Validate, AllBlocks, LStrip, Strip;
    PassValidates(cfg, w, b);
    BlockHasTask(AllBlocks(cfg, w), blk);
    var u :| u in AllTasks(cfg, w) && Strip(u) == Strip(TaskOf(blk)) && Validate(cfg, w, u, w.cks.value) == Valid;
    var other := TaskHasBlock(AllBlocks(cfg, w), u);
    AllBlocksMembers(cfg, w, blk);
    AllBlocksMembers(cfg, w, other);
    StripEqualBlocks(blk, other);
    ValidIsSeparatorFree(cfg, w, other, w.cks.value);
    assert other == blk;
  }

  lemma ValidIsSeparatorFree(cfg: Config, w: World, b: Block, cks: seq<string>)
    requires TrustedNames(w.matched) && b.file in w.matched && 1 <= b.start <= b.end
    requires Validate(cfg, w, TaskOf(b), cks) == Valid
    ensures SeparatorFree(b.file)
  {
    hide SplitBase, BlockStatus, LStrip;
    TokenParts(b.file, b.start, b.end, b.digest);
    assert !SeparatorFree(b.file) ==> Base(TaskOf(b)) == Base(b.file);
  }

  /** Soundness. If a call passes, then, whatever progress was recorded by earlier calls, restarts or
      edits, every file pattern match is readable, every line that needs a mapping has one, and every
      mapping file behind a block parses and uses known keys only. Names must be trusted. */
  lemma PassIsSound(cfg: Config, w: World, b: Batch)
    requires CheckCall(cfg, w, b).0 == Passed && TrustedNames(w.matched)
    ensures AllCovered(cfg, w) && AllMapsInOrder(cfg, w)
  {
    hide CheckCall, AllBlocks, Validate, TrustedNames, MapLines, MapCovers, MapInOrder;
    PassValidates(cfg, w, b);
    forall file | file in w.matched ensures FileCovered(cfg, w, file) {
      PassCoversFile(cfg, w, b, file);
    }
    forall blk | blk in AllBlocks(cfg, w) ensures MapInOrder(cfg, w, blk.file, w.cks.value) {
      PassValidatesEach(cfg, w, b, blk);
      AllBlocksMembers(cfg, w, blk);
      ValidBlock(cfg, w, blk, w.cks.value);
    }
  }

  lemma PassCoversFile(cfg: Config, w: World, b: Batch, file: string)
    requires CheckCall(cfg, w, b).0 == Passed && TrustedNames(w.matched) && file in w.matched
    ensures FileCovered(cfg, w, file)
  {
    hide CheckCall, AllBlocks, FileBlocks, Validate, TrustedNames, MapLines, MapCovers, IsBlank, SharedMapFile;
    PassValidates(cfg, w, b);
    var lines, digest := w.files[file].lines, w.files[file].digest;
    forall x | Required(cfg, lines, 1, |lines|, x)
      ensures IsReadable(w, MapFile(cfg, file)) && MapCovers(MapLines(cfg, w, file), x) {
      var blk := LineHasBlock(cfg, file, lines, digest, 1, x);
      AllBlocksMembers(cfg, w, blk);
      PassValidatesEach(cfg, w, b, blk);
      ValidBlock(cfg, w, blk, w.cks.value);
      assert Required(cfg, lines, blk.start, blk.end, x);
    }
  }

  /** What a validated block of a separator-free file guarantees. */
  lemma ValidBlock(cfg: Config, w: World, b: Block, cks: seq<string>)
    requires SeparatorFree(b.file) && 1 <= b.start <= b.end
    requires Validate(cfg, w, TaskOf(b), cks) == Valid
    ensures MapInOrder(cfg, w, b.file, cks) && b.end <= |w.files[b.file].lines|
    ensures BlockCovered(cfg, w, b.file, b.start, b.end)
  {
    hide SplitBlock, MapInOrder, BlockCovered, Token;
    TokenRoundTripIff(b.file, b.start, b.end, b.digest);
    assert BlockStatus(cfg, w, b.file, b.start, b.end, cks) == Valid;
  }
}
