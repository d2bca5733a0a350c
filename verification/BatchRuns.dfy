/** Properties of the batch task over whole runs, for any client. */
module BatchRuns {
  import opened Text
  import opened Lists
  import opened BatchTask

  // ---------------------------------------------------------------- source changes

  /** `sync_source_task` filters against the list it is about to drop, so on a consistent batch it
      removes nothing: the open batch stays inside the new source list exactly when it already was. */
  lemma SyncKeepsBatchIff(b: Batch, tasks: seq<string>, noted: bool)
    requires SubsetOf(b.tbd, b.source)
    ensures SubsetOf(SyncedSource(b, tasks, noted).tbd, tasks) <==> SubsetOf(b.tbd, tasks)
  {
    assert forall x :: x in KeepIn(b.tbd, b.source) <==> x in b.tbd;
  }

  /** A deleted task can therefore stay in the open batch. */
  lemma SyncCanKeepDeletedTask()
    ensures exists b: Batch, tasks ::
              SubsetOf(b.tbd, b.source) && !SubsetOf(SyncedSource(b, tasks, false).tbd, tasks)
  {
    var b, tasks := Batch(["a"], [], ["a"], []), ["b"];
    assert "a" in b.tbd && "a" !in tasks;
    SyncKeepsBatchIff(b, tasks, false);
    assert SubsetOf(b.tbd, b.source) && !SubsetOf(SyncedSource(b, tasks, false).tbd, tasks);
  }

  /** One more `update_tbd_and_cmp` after the assignment restores cmp <= tbd <= source. */
  lemma SyncThenUpdate(b: Batch, tasks: seq<string>, noted: bool)
    ensures var u := Updated(SyncedSource(b, tasks, noted));
            SubsetOf(u.cmp, u.tbd) && SubsetOf(u.tbd, u.source) && u.source == tasks && u.gen == b.gen
  {
  }

  /** What `sync_source_task` keeps: when the caller noted a change, or one list has a name that the other lacks up to
      surrounding blanks, the batch keeps exactly its tasks of the old source list, and the finished tasks those of them;
      otherwise both stay as they are. */
  lemma SyncFiltersIff(b: Batch, tasks: seq<string>, noted: bool, t: string)
    ensures var s := SyncedSource(b, tasks, noted);
            var filters := noted || !CoveredBy(b.source, tasks) || !CoveredBy(tasks, b.source);
            && s.source == tasks && s.gen == b.gen
            && (t in s.tbd <==> t in b.tbd && (filters ==> t in b.source))
            && (t in s.cmp <==> t in b.cmp && (filters ==> t in b.tbd && t in b.source))
            && (!filters ==> s.tbd == b.tbd && s.cmp == b.cmp)
  {
    EmptyDiff(b.source, tasks);
    EmptyDiff(tasks, b.source);
    hide OnlyIn, CoveredBy;
  }

  /** The open batch when `do_complete` looks at it. */
  function OpenBatch(b: Batch, size: int): seq<string>
  {
    WithCurrentTbd(b, size).tbd
  }

  /** Exactly how `do_complete` ends, and which lists it leaves. */
  lemma CompleteIff(b: Batch, size: int)
    requires size >= 1 && b.source != []
    ensures var (b', o) := Completed(b, size);
            var open := OpenBatch(b, size);
            var finished := forall t :: t in open ==> t in b.cmp || t in b.gen;
            && b'.source == b.source && b'.gen == b.gen && o != NoSource
            && (o == Inconsistent <==> open == [] && !(CoveredBy(b.source, b.gen) && CoveredBy(b.gen, b.source)))
            && (o == AllDone(false) <==> open == [] && CoveredBy(b.source, b.gen) && CoveredBy(b.gen, b.source))
            && (o == Incomplete <==> open != [] && !finished)
            && (o == NextBatch <==> open != [] && finished && !CoveredBy(b.source, b.gen))
            && (o == AllDone(true) <==> open != [] && finished && CoveredBy(b.source, b.gen))
            && (open == [] ==> b'.tbd == [] && b'.cmp == b.cmp)
            && (o == Incomplete ==> b'.tbd == open && forall t :: t in b'.cmp <==> t in b.cmp || (t in open && t in b.gen))
            && (Closes(o) ==> b'.cmp == [] && b'.tbd == OpenBatch(b.(tbd := []), size))
  {
    hide OnlyIn, CoveredBy, Sort, Take;
    EmptyDiff(b.source, b.gen);
    EmptyDiff(b.gen, b.source);
    NothingAnnouncedIff(b, size);
    var open := OpenBatch(b, size);
    var cmp := AddCompleted(b.cmp, open, b.gen);
    assert DropIn(open, cmp) == [] <==> forall t :: t in open ==> t in cmp by {
      assert DropIn(open, cmp) != [] ==> DropIn(open, cmp)[0] in DropIn(open, cmp);
    }
  }

  lemma NothingAnnouncedIff(b: Batch, size: int)
    requires size >= 1
    ensures Take(Sort(OnlyIn(b.source, b.gen)), size) == [] <==> OnlyIn(b.source, b.gen) == []
  {
    hide OnlyIn;
    SortItems(OnlyIn(b.source, b.gen));
  }

  // ---------------------------------------------------------------- which batch is announced

  lemma TakeSplits<T>(s: seq<T>, k: nat)
    requires k <= |s|
    ensures s == s[..k] + s[k..]
    ensures multiset(s) == multiset(s[..k]) + multiset(s[k..])
  {
    assert s == s[..k] + s[k..];
  }

  ghost predicate FirstAreLeast(r: seq<string>, k: nat)
  {
    forall i, j :: 0 <= i < j < |r| && i < k ==> Leq(r[i], r[j])
  }

  /** Sort-then-take picks the same `k` tasks as taking them in list order exactly when those tasks
      are in ascending order and none of them exceeds a later one. */
  lemma SortTakeAgreesIff(r: seq<string>, k: nat)
    requires k <= |r|
    ensures |Sort(r)| == |r|
    ensures Sort(r)[..k] == r[..k] <==> FirstAreLeast(r, k)
  {
    SortItems(r);
    if Sort(r)[..k] == r[..k] { AgreeingPrefixIsLeast(r, k); }
    if FirstAreLeast(r, k) { LeastPrefixAgrees(r, k); }
  }

  /** What is left behind an equal prefix of two arrangements of the same items. */
  lemma SameTails(r: seq<string>, s: seq<string>, k: nat)
    requires multiset(s) == multiset(r) && k <= |r| == |s| && s[..k] == r[..k]
    ensures forall j :: k <= j < |r| ==> exists m :: k <= m < |s| && s[m] == r[j]
  {
    TakeSplits(s, k);
    TakeSplits(r, k);
    assert multiset(s[k..]) == multiset(s) - multiset(s[..k]);
    assert multiset(r[k..]) == multiset(r) - multiset(r[..k]);
    SameItems(s[k..], r[k..]);
    forall j | k <= j < |r| ensures exists m :: k <= m < |s| && s[m] == r[j] {
      assert r[k..][j - k] in s[k..];
      var m :| 0 <= m < |s[k..]| && s[k..][m] == r[j];
      assert s[k + m] == r[j];
    }
  }

  lemma AgreeingPrefixIsLeast(r: seq<string>, k: nat)
    requires k <= |r| == |Sort(r)| && Sort(r)[..k] == r[..k]
    ensures FirstAreLeast(r, k)
  {
    SortIsSorted(r);
    SortIsPermutation(r);
    hide Sort, Leq;
    var s := Sort(r);
    SameTails(r, s, k);
    forall i, j | 0 <= i < j < |r| && i < k ensures Leq(r[i], r[j]) {
      assert r[i] == r[..k][i] == s[..k][i] == s[i];
      if j < k {
        assert r[j] == r[..k][j] == s[..k][j] == s[j];
      } else {
        var m :| k <= m < |s| && s[m] == r[j];
      }
    }
  }

  lemma LeastPrefixAgrees(r: seq<string>, k: nat)
    requires k <= |r| == |Sort(r)| && FirstAreLeast(r, k)
    ensures Sort(r)[..k] == r[..k]
  {
    var tail := Sort(r[k..]);
    SortIsSorted(r[k..]);
    SortIsPermutation(r[k..]);
    SortItems(r[k..]);
    SortIsSorted(r);
    SortIsPermutation(r);
    hide Sort, Leq;
    SortedConcat(r, k, tail);
    TakeSplits(r, k);
    SortedUnique(Sort(r), r[..k] + tail);
  }

  lemma SortedConcat(r: seq<string>, k: nat, tail: seq<string>)
    requires k <= |r| && FirstAreLeast(r, k) && Sorted(tail) && forall x :: x in tail <==> x in r[k..]
    ensures Sorted(r[..k] + tail)
  {
    hide Leq;
    var u := r[..k] + tail;
    forall i, j | 0 <= i < j < |u| ensures Leq(u[i], u[j]) {
      if i < k <= j {
        assert tail[j - k] in r[k..];
        var m :| 0 <= m < |r[k..]| && r[k..][m] == u[j];
        assert r[k + m] == u[j];
      }
    }
  }

  /** The names that count as unfinished: stripped, not blank, and not among the stripped results; a name that
      occurs several times up to blanks counts that often. */
  function Unfinished(b: Batch): (r: seq<string>)
    ensures forall t :: t in r <==> t in StripAll(b.source) && t !in StripAll(b.gen)
  {
    DropIn(StripAll(b.source), StripAll(b.gen))
  }

  /** Sorting before or after dropping makes no difference to the announced list. */
  lemma {:induction false} DropCounts(s: seq<string>, t: seq<string>, x: string)
    ensures multiset(DropIn(s, t))[x] == if x in t then 0 else multiset(s)[x]
    decreases |s|
  {
    if s != [] {
      DropCounts(s[1..], t, x);
      assert s == [s[0]] + s[1..];
    }
  }

  lemma OnlyInIsUnfinished(a: seq<string>, c: seq<string>)
    ensures Sort(OnlyIn(a, c)) == OnlyIn(a, c) == Sort(DropIn(StripAll(a), StripAll(c)))
  {
    var s, t := StripAll(a), StripAll(c);
    SortIsPermutation(s);
    SortItems(t);
    forall x ensures multiset(OnlyIn(a, c))[x] == multiset(DropIn(s, t))[x] {
      DropCounts(Sort(s), Sort(t), x);
      DropCounts(s, t, x);
    }
    SortOfPermutation(OnlyIn(a, c), DropIn(s, t));
    SortIsSorted(s);
    DropInSorted(Sort(s), Sort(t));
    SortIsSorted(OnlyIn(a, c));
    SortIsPermutation(OnlyIn(a, c));
    SortedUnique(Sort(OnlyIn(a, c)), OnlyIn(a, c));
  }

  /** `get_str_array_diff` keeps the order of what is left, stripped, if and only if that is in string order already. */
  lemma DiffKeepsOrderIff(a: seq<string>, c: seq<string>)
    ensures var left := DropIn(StripAll(a), StripAll(c)); OnlyIn(a, c) == left <==> Sorted(left)
    ensures AllClean(a) && AllClean(c) ==> (OnlyIn(a, c) == DropIn(a, c) <==> Sorted(DropIn(a, c)))
  {
    var left := DropIn(StripAll(a), StripAll(c));
    OnlyInIsUnfinished(a, c);
    SortIsSorted(left);
    SortIsPermutation(left);
    if Sorted(left) { SortedUnique(Sort(left), left); }
    if AllClean(a) && AllClean(c) {
      StripAllOfClean(a);
      StripAllOfClean(c);
    }
  }

  lemma DiffReorders()
    ensures OnlyIn(["b", "a"], []) == ["a", "b"] && DropIn(["b", "a"], []) == ["b", "a"]
  {
    CleanIsStripped("a");
    CleanIsStripped("b");
    hide Strip;
    assert ["b", "a"][1..] == ["a"] && ["a"][1..] == [];
    assert StripAll(["a"]) == ["a"];
    assert StripAll(["b", "a"]) == ["b", "a"] && StripAll([]) == [];
    OnlyInIsUnfinished(["b", "a"], []);
    SortTwo();
  }

  lemma SortTwo()
    ensures Sort(["b", "a"]) == ["a", "b"] && DropIn(["b", "a"], []) == ["b", "a"]
  {
    assert ["b", "a"][1..] == ["a"] && ["a"][1..] == [];
    assert Sort(["a"]) == ["a"];
    assert !Leq("b", "a");
  }

  lemma {:induction false} DropInSorted(s: seq<string>, t: seq<string>)
    requires Sorted(s)
    ensures Sorted(DropIn(s, t))
    decreases |s|
  {
    hide Leq;
    if s != [] {
      DropInSorted(s[1..], t);
      forall x | x in DropIn(s[1..], t) ensures Leq(s[0], x) {
        var i :| 0 <= i < |s| - 1 && s[1..][i] == x;
        assert s[i + 1] == x;
      }
    }
  }

  /** The announced batch is the first min(size, unfinished) unfinished names in string order. */
  lemma AnnouncedBatch(b: Batch, size: nat)
    requires b.tbd == [] && b.source != []
    ensures var tbd := WithCurrentTbd(b, size).tbd;
            && tbd == Take(Sort(Unfinished(b)), size)
            && (forall t :: t in tbd ==> t in Unfinished(b))
            && |tbd| == if size <= |Unfinished(b)| then size else |Unfinished(b)|
  {
    OnlyInIsUnfinished(b.source, b.gen);
    SortItems(Unfinished(b));
    var tbd := Take(Sort(Unfinished(b)), size);
    assert forall t :: t in tbd ==> t in Sort(Unfinished(b));
  }

  /** No two unfinished names agree up to surrounding blanks, and each is in the source as it is announced. */
  ghost predicate Announceable(b: Batch)
  {
    NoDup(Unfinished(b)) && SubsetOf(Unfinished(b), b.source)
  }

  ghost predicate GoodAnnouncement(b: Batch, size: nat)
  {
    var tbd := WithCurrentTbd(b, size).tbd;
    NoDup(tbd) && SubsetOf(tbd, b.source)
  }

  /** Announced batches are duplicate-free choices of source tasks, whatever the batch size, exactly when the
      unfinished names can be announced as they are. */
  lemma AnnouncedBatchIff(b: Batch)
    requires b.tbd == [] && b.source != []
    ensures (forall size: nat :: GoodAnnouncement(b, size)) <==> Announceable(b)
  {
    hide WithCurrentTbd, Sort, Unfinished;
    var all := Unfinished(b);
    SortItems(all);
    SortNoDup(all);
    if forall size: nat :: GoodAnnouncement(b, size) {
      assert GoodAnnouncement(b, |all|);
      AnnouncedBatch(b, |all|);
    }
    if Announceable(b) {
      forall size: nat ensures GoodAnnouncement(b, size) {
        AnnouncedBatch(b, size);
        forall t | t in Take(Sort(all), size) ensures t in b.source { assert t in Sort(all); }
      }
    }
  }

  lemma BlanksAroundA()
    ensures StripAll([" a", "a "]) == ["a", "a"]
  {
    StripOfFront(" ", "a");
    assert " " + "a" == " a";
    assert Strip(" a") == "a" by { assert LStrip(" ") == ""; }
    assert Strip("a ") == "a" by { assert LStrip("a ") == "a "; assert "a "[..1] == "a"; }
    hide Strip;
    assert [" a", "a "][1..] == ["a "] && ["a "][1..] == [];
    assert StripAll(["a "]) == ["a"];
  }

  /** Two source names that differ only in blanks: the announced batch is outside the source and has a repetition. */
  lemma AnnouncedOutsideSource()
    ensures var b := Batch([" a", "a "], [], [], []);
            WithCurrentTbd(b, 2).tbd == ["a", "a"] && "a" !in b.source && NoDup(b.source) && !Announceable(b)
  {
    hide WithCurrentTbd, Sort, Strip, Take;
    var b := Batch([" a", "a "], [], [], []);
    BlanksAroundA();
    TwoLeft("a");
    assert StripAll(b.gen) == [];
    AnnouncedBatch(b, 2);
    assert |" a"| == 2 && |"a "| == 2 && |"a"| == 1;
    assert b.source[0] == " a" && b.source[1] == "a " && " a"[0] != "a "[0];
  }

  lemma TwoLeft(a: string)
    ensures DropIn([a, a], []) == [a, a] && Take(Sort([a, a]), 2) == [a, a] && !NoDup([a, a])
  {
    assert [a, a][1..] == [a] && [a][1..] == [];
    LeqTotal(a, a);
    assert Sort([a]) == [a];
    assert [a, a][0] == [a, a][1];
  }

  /** On clean duplicate-free names the unfinished names are the source tasks without a result, in source order. */
  lemma UnfinishedOfClean(b: Batch)
    requires AllClean(b.source) && AllClean(b.gen)
    ensures Unfinished(b) == DropIn(b.source, b.gen)
    ensures NoDup(b.source) ==> Announceable(b)
  {
    StripAllOfClean(b.source);
    StripAllOfClean(b.gen);
    if NoDup(b.source) { DropInNoDup(b.source, b.gen); }
  }

  /** On clean names: the batch that `update_current_tbd` announces is the batch that taking unfinished tasks in source
      order would give if and only if the first unfinished tasks are in ascending order and exceed no later one. */
  lemma AnnouncedIsNextIff(b: Batch, size: nat)
    requires b.tbd == [] && b.source != [] && AllClean(b.source) && AllClean(b.gen)
    ensures var left := DropIn(b.source, b.gen);
            WithCurrentTbd(b, size).tbd == Take(left, size) <==>
            FirstAreLeast(left, if size <= |left| then size else |left|)
  {
    hide WithCurrentTbd, Sort, Unfinished, AllClean, DropIn, FirstAreLeast;
    var left := DropIn(b.source, b.gen);
    AnnouncedBatch(b, size);
    UnfinishedOfClean(b);
    SortTakeAgreesIff(left, if size <= |left| then size else |left|);
    SortItems(left);
  }

  lemma SortOfPermutation(s: seq<string>, t: seq<string>)
    requires multiset(s) == multiset(t)
    ensures Sort(s) == Sort(t)
  {
    SortIsSorted(s);
    SortIsSorted(t);
    SortIsPermutation(s);
    SortIsPermutation(t);
    SortedUnique(Sort(s), Sort(t));
  }

  // ---------------------------------------------------------------- closing batches

  datatype Step =
    | SyncSource(tasks: seq<string>, noted: bool)
    | SyncGen(tasks: seq<string>)
    | Complete

  function After(b: Batch, size: int, step: Step): Batch
  {
    match step
    case SyncSource(tasks, noted) => SyncedSource(b, tasks, noted)
    case SyncGen(tasks) => b.(gen := tasks)
    case Complete => Completed(b, size).0
  }

  /** The state after a run, and how many batches `do_complete` closed in it. */
  function Run(b: Batch, size: int, steps: seq<Step>): (Batch, nat)
    decreases |steps|
  {
    if steps == [] then (b, 0)
    else
      var (end, closed) := Run(After(b, size, steps[0]), size, steps[1..]);
      (end, closed + if steps[0].Complete? && Closes(Completed(b, size).1) then 1 else 0)
  }

  /** The source list never changes and no finished task is lost. */
  ghost predicate Steady(b: Batch, size: int, steps: seq<Step>)
    decreases |steps|
  {
    steps == [] ||
    (&& (match steps[0]
         case SyncSource(tasks, _) => tasks == b.source
         case SyncGen(tasks) => SubsetOf(b.gen, tasks)
         case Complete => true)
     && Steady(After(b, size, steps[0]), size, steps[1..]))
  }

  /** The tasks a batch may still have to be closed for: unfinished names and the open batch. */
  function Pending(b: Batch): set<string>
  {
    (set t | t in Unfinished(b)) + (set t | t in b.tbd)
  }

  lemma CurrentTbdIsUnfinished(b: Batch, size: int)
    requires b.tbd == []
    ensures Pending(WithCurrentTbd(b, size)) == Pending(b)
    ensures forall t :: t in WithCurrentTbd(b, size).tbd ==> t in Unfinished(b)
  {
    OnlyInItems(b.source, b.gen);
    SortItems(OnlyIn(b.source, b.gen));
    var b' := WithCurrentTbd(b, size);
    assert forall t :: t in b'.tbd ==> t in Sort(OnlyIn(b.source, b.gen));
    assert Unfinished(b') == Unfinished(b);
  }

  /** A task that is in the result is not an unfinished name. */
  lemma FinishedIsNotPending(b: Batch, t: string)
    requires t in b.gen
    ensures t !in Unfinished(b)
  {
    if t in StripAll(b.source) {
      var y :| y in b.source && Strip(y) == t;
      StripIsClean(y);
      assert t in StripAll(b.gen);
    }
  }

  lemma CompletePending(b: Batch, size: int)
    requires SubsetOf(b.cmp, b.gen)
    ensures var (b', o) := Completed(b, size);
            && SubsetOf(b'.cmp, b'.gen)
            && Pending(b') <= Pending(b)
            && (Closes(o) ==> Pending(b') < Pending(b))
  {
    if b.source != [] {
      if b.tbd == [] { CurrentTbdIsUnfinished(b, size); }
      var b1 := WithCurrentTbd(b, size);
      if b1.tbd != [] {
        var cmp := AddCompleted(b1.cmp, b1.tbd, b1.gen);
        if DropIn(b1.tbd, cmp) == [] {
          var t := b1.tbd[0];
          assert t in cmp by { assert t !in DropIn(b1.tbd, cmp); }
          var b2 := b1.(tbd := [], cmp := []);
          CurrentTbdIsUnfinished(b2, size);
          FinishedIsNotPending(b2, t);
          assert t in Pending(b1) && t !in Pending(b2);
        }
      }
    }
  }

  lemma ProperSubsetSize<T>(a: set<T>, b: set<T>)
    requires a <= b
    ensures |a| <= |b| && (a < b ==> |a| < |b|)
  {
    assert b == a + (b - a);
    assert |b| == |a| + |b - a|;
    if a < b {
      var x :| x in b && x !in a;
      assert x in b - a;
    }
  }

  /** A run with a fixed source and no lost results closes at most as many batches as there were unfinished names
      (and left-over tasks of the open batch) when it started. */
  lemma {:induction false} ClosedBatchesBound(b: Batch, size: int, steps: seq<Step>)
    requires SubsetOf(b.cmp, b.gen) && Steady(b, size, steps)
    ensures Run(b, size, steps).1 <= |Pending(b)|
    decreases |steps|
  {
    if steps != [] {
      var b' := After(b, size, steps[0]);
      if steps[0].Complete? { CompletePending(b, size); }
      assert Pending(b') <= Pending(b);
      ProperSubsetSize(Pending(b'), Pending(b));
      ClosedBatchesBound(b', size, steps[1..]);
    }
  }

  /** In any run whatsoever, a True verdict means the goal is covered by the result. */
  lemma {:induction false} PassMeansCovered(b: Batch, size: int, steps: seq<Step>)
    requires size >= 1 && Completed(Run(b, size, steps).0, size).1.AllDone?
    ensures var end := Run(b, size, steps).0; CoveredBy(end.source, end.gen)
    ensures var end := Run(b, size, steps).0;
            AllClean(end.source) && AllClean(end.gen) ==> SubsetOf(end.source, end.gen)
  {
    var end := Run(b, size, steps).0;
    PassIff(end, size);
    if AllClean(end.source) && AllClean(end.gen) {
      CoveredByClean(end.source, end.gen);
    }
  }

  // ---------------------------------------------------------------- counting calls

  /** How many calls `left` unfinished targets take; CallsNeededIsCeiling says what number that is. */
  function CallsNeeded(left: nat, size: int): nat
    requires size >= 1
  {
    if left <= size then 1 else 1 + CallsNeeded(left - size, size)
  }

  /** max(1, ceil(left / size)). */
  lemma {:induction false} CallsNeededIsCeiling(left: nat, size: int)
    requires size >= 1
    ensures var n := CallsNeeded(left, size);
            n >= 1 && left <= n * size && (n > 1 ==> (n - 1) * size < left)
  {
    if left > size {
      CallsNeededIsCeiling(left - size, size);
      var m := CallsNeeded(left - size, size);
      assert (m + 1) * size == m * size + size;
      assert m > 1 ==> m * size == (m - 1) * size + size;
    }
  }
}
