/** The batch a closing call announces (ucagent/checkers/base.py) against the batch the next call of the line-map
    checker really checks (ucagent/checkers/file_linemap.py). */
module AnnouncedBatches {
  import opened Text
  import opened Lists
  import opened LineRanges
  import opened TaskTokens
  import opened LineMapFile
  import opened BatchTask
  import opened BatchRuns
  import opened LineMapSpec
  import opened LineMapSoundness
  import opened LineMapProgress
  import opened LineMapExact

  // ---------------------------------------------------------------- what a closing call announces

  function Stripped(s: seq<string>): (r: seq<string>)
    ensures |r| == |s| && forall i :: 0 <= i < |r| ==> r[i] == Strip(s[i])
  {
    Map(s, Strip)
  }

  lemma {:induction false} StripAllOfTasks(s: seq<string>)
    requires forall t :: t in s ==> !IsBlank(t)
    ensures StripAll(s) == Stripped(s)
    decreases |s|
  {
    hide Strip;
    if s != [] {
      assert s[0] in s;
      StripAllOfTasks(s[1..]);
      assert Stripped(s) == [Strip(s[0])] + Stripped(s[1..]);
    }
  }

  lemma UnfinishedTasks(tasks: seq<string>, q: nat)
    requires q <= |tasks| && NoDup(tasks) && forall t :: t in tasks ==> !IsBlank(t)
    requires forall t, u :: t in tasks && u in tasks && Strip(t) == Strip(u) ==> t == u
    ensures Unfinished(Batch(tasks, tasks[..q], [], [])) == Stripped(tasks[q..])
  {
    hide Strip, IsBlank;
    var all := Stripped(tasks);
    StripAllOfTasks(tasks);
    StripAllOfTasks(tasks[..q]);
    assert Stripped(tasks[..q]) == all[..q] && Stripped(tasks[q..]) == all[q..];
    forall i, j | 0 <= i < j < |all| ensures all[i] != all[j] {
      assert tasks[i] in tasks && tasks[j] in tasks;
    }
    DropPrefix(all, q);
  }

  lemma ClosingOpens(tasks: seq<string>, p: nat, q: nat, size: int)
    requires p < q < |tasks| && size >= 0
    ensures var (b, o) := Completed(Batch(tasks, tasks[..q], tasks[p..q], []), size);
            b.tbd == WithCurrentTbd(Batch(tasks, tasks[..q], [], []), size).tbd
  {
    hide WithCurrentTbd;
    var b := Batch(tasks, tasks[..q], tasks[p..q], []);
    StaysOpen(b, size);
    var cmp := AddCompleted([], b.tbd, b.gen);
    forall t | t in b.tbd ensures t in b.gen {
      var i :| 0 <= i < |b.tbd| && b.tbd[i] == t;
      assert tasks[..q][p + i] == t;
    }
    if DropIn(b.tbd, cmp) != [] {
      assert DropIn(b.tbd, cmp)[0] in DropIn(b.tbd, cmp);
    }
  }

  lemma StaysOpen(b: Batch, size: int)
    requires b.tbd != []
    ensures WithCurrentTbd(b, size) == b
  {
  }

  /** The call that checks the targets `p..q` and leaves some: the batch it announces are the first stripped remaining
      targets in string order, the batch the next call checks are the first remaining targets in source order. */
  lemma CallAnnounces(cfg: Config, w: World, b: Batch, p: nat)
    requires TrustedNames(w.matched) && EverythingValid(cfg, w)
    requires var tasks := AllTasks(cfg, w); p + cfg.batchSize < |tasks| && b.gen == tasks[..p]
    ensures var left := AllTasks(cfg, w)[p + cfg.batchSize..];
            var (verdict, after) := CheckCall(cfg, w, b);
            && verdict == Failed && after.tbd == Take(Sort(Stripped(left)), cfg.batchSize)
            && Refreshed(cfg, w, after.gen, w.cks).tbd == Take(left, cfg.batchSize)
  {
    hide AllTasks, Validate, CheckCall, TrustedNames, ConfigurationError, Strip, AppendNew, Stripped, Completed,
      WithCurrentTbd, Sort, Refreshed, StripAll, Unfinished;
    var tasks := AllTasks(cfg, w);
    var q := p + cfg.batchSize;
    CallIsBatchCheck(cfg, w, b, p);
    OneCall(cfg, w, b, p);
    ValidIsFree(cfg, w);
    BasesAreDistinct(cfg, w);
    DistinctBasesNoDup(tasks);
    AppendFresh(tasks, p, q);
    StripTellsApart(cfg, w);
    forall t | t in tasks ensures !IsBlank(t) { TasksAreNotBlank(cfg, w, t); }
    assert forall t :: t in tasks[p..q] ==> t in tasks;
    assert tasks[p..q] != [];
    ClosingOpens(tasks, p, q, cfg.batchSize);
    UnfinishedTasks(tasks, q);
    AnnouncedBatch(Batch(tasks, tasks[..q], [], []), cfg.batchSize);
    NextIsInOrder(cfg, w, q);
  }

  lemma NextIsInOrder(cfg: Config, w: World, q: nat)
    requires TrustedNames(w.matched) && EverythingValid(cfg, w) && q <= |AllTasks(cfg, w)|
    ensures Refreshed(cfg, w, AllTasks(cfg, w)[..q], w.cks).tbd == Take(AllTasks(cfg, w)[q..], cfg.batchSize)
  {
    hide AllTasks, Validate, ConfigurationError, Healed, DistinctBases, DropIn;
    var tasks := AllTasks(cfg, w);
    ValidIsFree(cfg, w);
    BasesAreDistinct(cfg, w);
    DistinctBasesNoDup(tasks);
    PrefixIsHealed(cfg, w, w.cks, q);
    DropPrefix(tasks, q);
  }

  // ---------------------------------------------------------------- when the two batches agree

  lemma StrippedPrefix(r: seq<string>, k: nat)
    requires k <= |r|
    ensures r[..k] == Stripped(r)[..k] <==> forall i :: 0 <= i < k ==> Strip(r[i]) == r[i]
  {
    hide Strip;
    if r[..k] == Stripped(r)[..k] {
      forall i | 0 <= i < k ensures Strip(r[i]) == r[i] {
        assert r[..k][i] == Stripped(r)[..k][i];
      }
    }
  }

  lemma SortedStripAgreesIff(r: seq<string>, k: nat)
    requires k <= |r|
    ensures |Sort(Stripped(r))| == |r|
    ensures Sort(Stripped(r))[..k] == r[..k] <==>
            FirstAreLeast(Stripped(r), k) && forall i :: 0 <= i < k ==> Strip(r[i]) == r[i]
  {
    hide Strip, Sort, FirstAreLeast, Stripped;
    var s := Stripped(r);
    SortTakeAgreesIff(s, k);
    SortItems(s);
    StrippedPrefix(r, k);
    if Sort(s)[..k] == r[..k] {
      forall i | 0 <= i < k ensures Strip(r[i]) == r[i] {
        assert r[i] == r[..k][i] == Sort(s)[..k][i] == Sort(s)[i];
        assert r[i] in Sort(s);
        var j :| 0 <= j < |s| && s[j] == r[i];
        StripIsClean(r[j]);
      }
    }
  }

  /** In a run of the line-map checker: the batch a closing call announces is the batch the next call checks if and only
      if the names of its targets need no stripping, are in ascending order and exceed no later target. */
  lemma AnnouncedIsCheckedIff(cfg: Config, w: World, b: Batch, p: nat)
    requires TrustedNames(w.matched) && EverythingValid(cfg, w)
    requires var tasks := AllTasks(cfg, w); p + cfg.batchSize < |tasks| && b.gen == tasks[..p]
    ensures var left := AllTasks(cfg, w)[p + cfg.batchSize..];
            var k := Min(cfg.batchSize, |left|);
            var after := CheckCall(cfg, w, b).1;
            after.tbd == Refreshed(cfg, w, after.gen, w.cks).tbd <==>
            FirstAreLeast(Stripped(left), k) && forall i :: 0 <= i < k ==> Strip(left[i]) == left[i]
  {
    hide AllTasks, CheckCall, TrustedNames, EverythingValid, Strip, Stripped, Sort, Refreshed, FirstAreLeast;
    var left := AllTasks(cfg, w)[p + cfg.batchSize..];
    CallAnnounces(cfg, w, b, p);
    SortedStripAgreesIff(left, Min(cfg.batchSize, |left|));
  }

  // ---------------------------------------------------------------- a file with ten one-line blocks

  lemma LeqOfFront(front: string, x: string, y: string)
    ensures Leq(front + x, front + y) == Leq(x, y)
    decreases |front|
  {
    if front == "" {
      assert front + x == x && front + y == y;
    } else {
      assert (front + x)[1..] == front[1..] + x && (front + y)[1..] == front[1..] + y;
      LeqOfFront(front[1..], x, y);
    }
  }

  lemma SecondDecides(x: string, y: string)
    requires |x| >= 2 && |y| >= 2 && x[0] == y[0] && y[1] < x[1]
    ensures !Leq(x, y)
  {
    assert x[1..][0] == x[1] && y[1..][0] == y[1];
  }

  /** `f:10-10...` sorts before `f:n-n...` for every other one-digit n but 1. */
  lemma TenIsEarly(file: string, n: nat, digest: Digest)
    requires 2 <= n <= 9
    ensures !Leq(Token(file, n, n, digest), Token(file, 10, 10, digest))
  {
    var x := ":" + NatText(n) + "-" + NatText(n) + SEPARATOR + digest;
    var y := ":" + NatText(10) + "-" + NatText(10) + SEPARATOR + digest;
    assert NatText(n) == [('0' as int + n) as char];
    assert NatText(10) == NatText(1) + "0" && NatText(1) == "1";
    hide NatText, Leq;
    assert x[1] == NatText(n)[0] && y[1] == NatText(10)[0];
    assert Token(file, n, n, digest) == file + x && Token(file, 10, 10, digest) == file + y;
    LeqOfFront(file, x, y);
    SecondDecides(x, y);
  }

  lemma {:induction false} BlocksOfLines(cfg: Config, file: string, lines: seq<string>, digest: Digest, start: nat)
    requires cfg.maxBlockLines == 1 && 1 <= start <= |lines| + 1 && forall l :: l in lines ==> !IsBlank(l)
    ensures var blocks := FileBlocks(cfg, file, lines, digest, start);
            && |blocks| == |lines| + 1 - start
            && forall i :: 0 <= i < |blocks| ==> blocks[i] == Block(file, start + i, start + i, digest)
    decreases |lines| + 1 - start
  {
    hide IsBlank;
    if start <= |lines| {
      assert lines[start - 1] in lines;
      assert !Skippable(cfg, lines, start, start);
      BlocksOfLines(cfg, file, lines, digest, start + 1);
    }
  }

  lemma OneName(f: string)
    ensures SortedSet([f]) == [f]
  {
    assert [f][1..] == [];
    assert Distinct([f]) == [f];
    assert Sort([]) == [];
  }

  lemma TasksOfOneFile(cfg: Config, w: World, f: string)
    requires cfg.maxBlockLines == 1 && w.matched == [f] && IsReadable(w, f)
    requires forall l :: l in w.files[f].lines ==> !IsBlank(l)
    ensures var tasks := AllTasks(cfg, w);
            && |tasks| == |w.files[f].lines|
            && forall i :: 0 <= i < |tasks| ==> tasks[i] == Token(f, i + 1, i + 1, w.files[f].digest)
  {
    hide SortedSet, FileBlocks, Token, IsBlank;
    OneName(f);
    OneFile(cfg, w, f);
    BlocksOfLines(cfg, f, w.files[f].lines, w.files[f].digest, 1);
    var blocks := AllBlocks(cfg, w);
    forall i | 0 <= i < |blocks| ensures AllTasks(cfg, w)[i] == Token(f, i + 1, i + 1, w.files[f].digest) {
      TaskAt(blocks, i);
    }
  }

  lemma NotLeast(s: seq<string>, k: nat, j: nat)
    requires k >= 1 && 0 < j < |s| && !Leq(s[0], s[j])
    ensures !FirstAreLeast(s, k)
  {
    hide Leq;
  }

  /** One file of at least ten non-blank lines, one line per block, at most eight blocks per batch: the first call
      announces another batch than the second call checks. */
  lemma TenBlocksDisagree(cfg: Config, w: World, f: string)
    requires cfg.maxBlockLines == 1 && cfg.batchSize <= 8 && w.matched == [f] && SeparatorFree(f)
    requires EverythingValid(cfg, w) && IsReadable(w, f) && |w.files[f].lines| >= 10
    requires forall l :: l in w.files[f].lines ==> !IsBlank(l)
    ensures var (verdict, after) := CheckCall(cfg, w, Batch([], [], [], []));
            verdict == Failed && after.tbd != Refreshed(cfg, w, after.gen, w.cks).tbd
  {
    hide AllTasks, CheckCall, EverythingValid, Strip, Refreshed, FirstAreLeast, Token, IsBlank, SeparatorFree, LStrip, Sort,
      TrustedNames, Leq;
    OnlyName(f);
    TasksOfOneFile(cfg, w, f);
    var tasks, q, d := AllTasks(cfg, w), cfg.batchSize, w.files[f].digest;
    CallAnnounces(cfg, w, Batch([], [], [], []), 0);
    AnnouncedIsCheckedIff(cfg, w, Batch([], [], [], []), 0);
    var left := tasks[q..];
    assert left[0] == tasks[q] && left[9 - q] == tasks[9];
    StripOfToken(f, q + 1, q + 1, d);
    StripOfToken(f, 10, 10, d);
    TenIsEarly(LStrip(f), q + 1, d);
    NotLeast(Stripped(left), Min(q, |left|), 9 - q);
  }

  lemma OnlyName(f: string)
    requires SeparatorFree(f)
    ensures TrustedNames([f])
  {
  }

  // ---------------------------------------------------------------- such a world

  function TenLines(): seq<string>
  {
    seq(10, _ => "x")
  }

  function TenSpans(): seq<Span>
  {
    seq(10, i requires 0 <= i < 10 => (i + 1, i + 1))
  }

  const TEN_RULE := RenderLine(RULE_PARTS, TenSpans(), "r")

  /** The file, and its mapping file. */
  function TenLineTexts(f: string): map<string, FileText>
  {
    map[f := Readable(TenLines(), ZeroDigest()), MapFile(SmallConfig([f]), f) := Readable([TEN_RULE], ZeroDigest())]
  }

  function TenLineWorld(f: string): World
  {
    WorldWith([f], TenLineTexts(f))
  }

  lemma TenRuleParses()
    ensures ParseLine(TEN_RULE, 10, 1) == Mapping("IGNORE/FC-a/CK-b", TenSpans())
  {
    hide ParseLine, RenderLine;
    RuleReads(TenSpans(), 10);
  }

  lemma TenLineFiles(f: string)
    ensures var w, cfg := TenLineWorld(f), SmallConfig([f]);
            && w.matched == [f] && w.cks == Some([]) && w.strayMaps == []
            && IsReadable(w, f) && w.files[f] == Readable(TenLines(), ZeroDigest())
            && IsReadable(w, MapFile(cfg, f)) && w.files[MapFile(cfg, f)] == Readable([TEN_RULE], ZeroDigest())
  {
    hide TEN_RULE, Joined, TenLines;
    MapFileIsLong([f], f);
  }

  lemma TenLinesAreValid(f: string)
    requires SeparatorFree(f)
    ensures EverythingValid(SmallConfig([f]), TenLineWorld(f))
  {
    hide SplitBlock, Token, TenLineWorld, SmallConfig, ParseLine, TEN_RULE, MapFile, AllTasks, ConfigurationError, BlockStatus,
      IsBlank, TenLines;
    var w, cfg := TenLineWorld(f), SmallConfig([f]);
    TenLineFiles(f);
    SmallConfigIsSmall([f]);
    TenConfigured(f);
    XIsNotBlank();
    assert forall l :: l in TenLines() ==> l == "x" by { TenAreX(); }
    TasksOfOneFile(cfg, w, f);
    forall t | t in AllTasks(cfg, w) ensures Validate(cfg, w, t, []) == Valid {
      var i :| 0 <= i < |AllTasks(cfg, w)| && AllTasks(cfg, w)[i] == t;
      TenAreX();
      TokenRoundTripIff(f, i + 1, i + 1, ZeroDigest());
      TenLineIsValid(f, i + 1);
    }
  }

  lemma TenAreX()
    ensures |TenLines()| == 10 && forall l :: l in TenLines() ==> l == "x"
  {
  }

  lemma TenConfigured(f: string)
    ensures !ConfigurationError(TenLineWorld(f))
  {
    hide TEN_RULE, TenLines, MapFile, Joined;
    OneName(f);
    WorldIsConfigured([f], TenLineTexts(f));
  }

  lemma TenLineIsValid(f: string, x: nat)
    requires 1 <= x <= 10
    ensures BlockStatus(SmallConfig([f]), TenLineWorld(f), f, x, x, []) == Valid
  {
    hide TenLineWorld, SmallConfig, ParseLine, TEN_RULE, MapFile, TenLines, IsBlank;
    var w, cfg := TenLineWorld(f), SmallConfig([f]);
    TenLineFiles(f);
    SmallConfigIsSmall([f]);
    TenAreX();
    TenRuleParses();
    var parsed := MapLines(cfg, w, f);
    assert parsed == [ParseLine(TEN_RULE, 10, 1)];
    assert parsed[0].Mapping?;
    assert forall key :: HasKey(parsed, key) ==> key == "IGNORE/FC-a/CK-b" && "IGNORE/" <= key;
    assert Covers(parsed[0].spans[x - 1], x);
    assert InSpans(parsed[0].spans, x);
    assert KeyCovers(parsed, "IGNORE/FC-a/CK-b", x);
    assert BlockStatus(cfg, w, f, x, x, []) == Valid;
  }

  /** For every name without the separator there is such a file. */
  lemma AnnouncedIsNotChecked(f: string)
    requires SeparatorFree(f)
    ensures var cfg, w := SmallConfig([f]), TenLineWorld(f);
            var (verdict, after) := CheckCall(cfg, w, Batch([], [], [], []));
            verdict == Failed && after.tbd != Refreshed(cfg, w, after.gen, w.cks).tbd
  {
    hide TenLineWorld, SmallConfig, TEN_RULE, MapFile, CheckCall, Refreshed, EverythingValid, SeparatorFree, IsBlank,
      TenLines;
    TenLineFiles(f);
    TenAreX();
    XIsNotBlank();
    SmallConfigIsSmall([f]);
    TenLinesAreValid(f);
    TenBlocksDisagree(SmallConfig([f]), TenLineWorld(f), f);
  }
}
