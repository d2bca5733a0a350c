/** The batch task of ucagent/checkers/base.py: four task lists that hand out unfinished
    tasks batch by batch and survive a restart through a checkpoint. */
module BatchTask {
  import opened Text
  import opened Lists

  // ---------------------------------------------------------------- comparing task lists

  /** `[s.strip() for s in list if s and s.strip()]`. */
  function StripAll(s: seq<string>): (r: seq<string>)
    ensures forall x :: x in r <==> x != "" && exists y :: y in s && Strip(y) == x
  {
    if s == [] then []
    else if IsBlank(s[0]) then StripAll(s[1..])
    else [Strip(s[0])] + StripAll(s[1..])
  }

  /** The first list of `get_str_array_diff(a, b)`: sorted, compared after stripping. */
  function OnlyIn(a: seq<string>, b: seq<string>): seq<string>
  {
    DropIn(Sort(StripAll(a)), Sort(StripAll(b)))
  }

  lemma OnlyInItems(a: seq<string>, b: seq<string>)
    ensures forall x :: x in OnlyIn(a, b) <==> x in StripAll(a) && x !in StripAll(b)
  {
    SortItems(StripAll(a));
    SortItems(StripAll(b));
  }

  /** Every item of `a` is, up to surrounding blanks, blank or an item of `b`. */
  ghost predicate CoveredBy(a: seq<string>, b: seq<string>)
  {
    forall x :: x in a ==> IsBlank(x) || Strip(x) in StripAll(b)
  }

  lemma EmptyDiff(a: seq<string>, b: seq<string>)
    ensures OnlyIn(a, b) == [] <==> CoveredBy(a, b)
  {
    OnlyInItems(a, b);
    assert OnlyIn(a, b) != [] ==> OnlyIn(a, b)[0] in OnlyIn(a, b);
    if !CoveredBy(a, b) {
      var x :| x in a && !IsBlank(x) && Strip(x) !in StripAll(b);
      assert Strip(x) in StripAll(a);
      assert Strip(x) in OnlyIn(a, b);
    }
  }

  ghost predicate AllClean(s: seq<string>)
  {
    forall x :: x in s ==> IsClean(x)
  }

  lemma {:induction false} StripAllOfClean(s: seq<string>)
    requires AllClean(s)
    ensures StripAll(s) == s
    decreases |s|
  {
    if s != [] {
      CleanIsStripped(s[0]);
      StripAllOfClean(s[1..]);
    }
  }

  /** On clean task names, covering is inclusion. */
  lemma CoveredByClean(a: seq<string>, b: seq<string>)
    requires AllClean(a) && AllClean(b)
    ensures CoveredBy(a, b) <==> SubsetOf(a, b)
  {
    StripAllOfClean(b);
    forall x | x in a ensures Strip(x) == x && !IsBlank(x) { CleanIsStripped(x); }
  }

  // ---------------------------------------------------------------- the abstract state

  datatype Batch = Batch(source: seq<string>, gen: seq<string>, tbd: seq<string>, cmp: seq<string>)

  /** How one `do_complete` ends. Only `AllDone` is a True verdict; `closed` says that the
      call closed a batch (its `savepoint_file`) rather than finding none open. */
  datatype Outcome =
    | NoSource          // the method's own assertion fails
    | Inconsistent      // no batch left, but goal and result differ
    | Incomplete        // some task of the open batch is not generated yet
    | NextBatch         // batch closed, another one is open
    | AllDone(closed: bool)

  predicate Closes(o: Outcome)
  {
    o.NextBatch? || (o.AllDone? && o.closed)
  }

  /** `update_tbd_and_cmp`. */
  function Updated(b: Batch): Batch
  {
    var tbd := KeepIn(b.tbd, b.source);
    b.(tbd := tbd, cmp := KeepIn(b.cmp, tbd))
  }

  predicate Differs(a: seq<string>, b: seq<string>)
  {
    OnlyIn(a, b) != [] || OnlyIn(b, a) != []
  }

  /** `sync_source_task`: the lists are filtered against the source list that is about to be
      replaced, and only when there is something to note. */
  function SyncedSource(b: Batch, tasks: seq<string>, noted: bool): Batch
  {
    (if noted || Differs(b.source, tasks) then Updated(b) else b).(source := tasks)
  }

  /** `update_current_tbd`: an open batch is never replaced. */
  function WithCurrentTbd(b: Batch, size: int): Batch
  {
    if b.tbd != [] || b.source == [] then b
    else b.(tbd := Take(Sort(OnlyIn(b.source, b.gen)), size))
  }

  function AddCompleted(cmp: seq<string>, tbd: seq<string>, gen: seq<string>): (r: seq<string>)
    ensures forall x :: x in r <==> x in cmp || (x in tbd && x in gen)
  {
    if tbd == [] then cmp
    else
      var last := tbd[|tbd| - 1];
      var r := AddCompleted(cmp, tbd[..|tbd| - 1], gen);
      assert tbd == tbd[..|tbd| - 1] + [last];
      if last in gen && last !in r then r + [last] else r
  }

  /** `do_complete`: the new lists and the outcome. */
  function Completed(b: Batch, size: int): (Batch, Outcome)
  {
    if b.source == [] then (b, NoSource)
    else
      var b1 := WithCurrentTbd(b, size);
      if b1.tbd == [] then
        (b1, if Differs(b1.source, b1.gen) then Inconsistent else AllDone(false))
      else
        var cmp := AddCompleted(b1.cmp, b1.tbd, b1.gen);
        if DropIn(b1.tbd, cmp) != [] then (b1.(cmp := cmp), Incomplete)
        else
          var b2 := WithCurrentTbd(b1.(tbd := [], cmp := []), size);
          (b2, if b2.tbd == [] then AllDone(true) else NextBatch)
  }

  // ---------------------------------------------------------------- the class

  /** `list.remove(x)` for an item that is present. */
  function RemoveFirst(s: seq<string>, x: string): seq<string>
  {
    if s == [] then [] else if s[0] == x then s[1..] else [s[0]] + RemoveFirst(s[1..], x)
  }

  /** Removing the first rejected item removes exactly the head of the rejected list. */
  lemma {:induction false} RemoveFirstRejected(s: seq<string>, t: seq<string>)
    requires DropIn(s, t) != []
    ensures var r := RemoveFirst(s, DropIn(s, t)[0]);
            DropIn(r, t) == DropIn(s, t)[1..] && KeepIn(r, t) == KeepIn(s, t)
    decreases |s|
  {
    if s[0] in t {
      RemoveFirstRejected(s[1..], t);
      var r := RemoveFirst(s[1..], DropIn(s, t)[0]);
      assert ([s[0]] + r)[1..] == r;
    }
  }

  lemma NothingYet(t: seq<string>)
    ensures DropIn([], t) == []
  {
  }

  lemma {:induction false} NothingRejected(s: seq<string>, t: seq<string>)
    requires DropIn(s, t) == []
    ensures KeepIn(s, t) == s
    decreases |s|
  {
    if s != [] {
      NothingRejected(s[1..], t);
    }
  }

  class UnityChipBatchTask {
    const batchSize: int
    var tbdTasks: seq<string>
    var cmpTasks: seq<string>
    var sourceTasks: seq<string>
    var genTasks: seq<string>
    var checkpoint: Option<Batch>  // the contents of the checkpoint file

    ghost function View(): Batch
      reads this
    {
      Batch(sourceTasks, genTasks, tbdTasks, cmpTasks)
    }

    constructor (batchSize: int, checkpoint: Option<Batch>)
      ensures this.batchSize == batchSize && this.checkpoint == checkpoint
      ensures View() == Batch([], [], [], [])
    {
      this.batchSize := batchSize;
      tbdTasks, cmpTasks, sourceTasks, genTasks := [], [], [], [];
      this.checkpoint := checkpoint;
    }

    method SavePoint()
      modifies this`checkpoint
      ensures checkpoint == Some(View())
    {
      checkpoint := Some(Batch(sourceTasks, genTasks, tbdTasks, cmpTasks));
    }

    method LoadPoint() returns (loaded: bool)
      modifies this`sourceTasks, this`genTasks, this`tbdTasks, this`cmpTasks
      ensures loaded == checkpoint.Some?
      ensures View() == if loaded then checkpoint.value else old(View())
    {
      match checkpoint
      case None => loaded := false;
      case Some(data) =>
        sourceTasks, genTasks, tbdTasks, cmpTasks := data.source, data.gen, data.tbd, data.cmp;
        loaded := true;
    }

    method UpdateTbdFromSource()
      modifies this`tbdTasks
      ensures tbdTasks == KeepIn(old(tbdTasks), sourceTasks)
    {
      hide DropIn, KeepIn, RemoveFirst;
      NothingYet(sourceTasks);
      assert tbdTasks[..0] == [];
      var tasksToRemove := [];
      for i := 0 to |tbdTasks|
        invariant tbdTasks == old(tbdTasks)
        invariant tasksToRemove == DropIn(tbdTasks[..i], sourceTasks)
      {
        DropInAppend(tbdTasks[..i], tbdTasks[i], sourceTasks);
        assert tbdTasks[..i] + [tbdTasks[i]] == tbdTasks[..i + 1];
        if tbdTasks[i] !in sourceTasks {
          tasksToRemove := tasksToRemove + [tbdTasks[i]];
        }
      }
      assert tbdTasks[..|tbdTasks|] == tbdTasks;
      assert tasksToRemove[0..] == tasksToRemove;
      for i := 0 to |tasksToRemove|
        invariant DropIn(tbdTasks, sourceTasks) == tasksToRemove[i..]
        invariant KeepIn(tbdTasks, sourceTasks) == KeepIn(old(tbdTasks), sourceTasks)
      {
        RemoveFirstRejected(tbdTasks, sourceTasks);
        tbdTasks := RemoveFirst(tbdTasks, tasksToRemove[i]);
      }
      NothingRejected(tbdTasks, sourceTasks);
    }

    method UpdateCmpFromTbd() returns (tasksToRemove: seq<string>)
      modifies this`cmpTasks
      ensures cmpTasks == KeepIn(old(cmpTasks), tbdTasks)
      ensures tasksToRemove == DropIn(old(cmpTasks), tbdTasks)
    {
      hide DropIn, KeepIn, RemoveFirst;
      NothingYet(tbdTasks);
      assert cmpTasks[..0] == [];
      tasksToRemove := [];
      for i := 0 to |cmpTasks|
        invariant cmpTasks == old(cmpTasks)
        invariant tasksToRemove == DropIn(cmpTasks[..i], tbdTasks)
      {
        DropInAppend(cmpTasks[..i], cmpTasks[i], tbdTasks);
        assert cmpTasks[..i] + [cmpTasks[i]] == cmpTasks[..i + 1];
        if cmpTasks[i] !in tbdTasks {
          tasksToRemove := tasksToRemove + [cmpTasks[i]];
        }
      }
      assert cmpTasks[..|cmpTasks|] == cmpTasks;
      assert tasksToRemove[0..] == tasksToRemove;
      for i := 0 to |tasksToRemove|
        invariant DropIn(cmpTasks, tbdTasks) == tasksToRemove[i..]
        invariant KeepIn(cmpTasks, tbdTasks) == KeepIn(old(cmpTasks), tbdTasks)
      {
        RemoveFirstRejected(cmpTasks, tbdTasks);
        cmpTasks := RemoveFirst(cmpTasks, tasksToRemove[i]);
      }
      NothingRejected(cmpTasks, tbdTasks);
    }

    method UpdateTbdAndCmp()
      modifies this`tbdTasks, this`cmpTasks
      ensures View() == Updated(old(View()))
    {
      UpdateTbdFromSource();
      var _ := UpdateCmpFromTbd();
    }

    method UpdateCurrentTbd() returns (noMore: bool)
      modifies this`tbdTasks
      ensures View() == WithCurrentTbd(old(View()), batchSize)
      ensures noMore <==> tbdTasks == []
    {
      if |tbdTasks| > 0 {
        return false;
      }
      if |sourceTasks| > 0 {
        var remaining := Sort(OnlyIn(sourceTasks, genTasks));
        tbdTasks := Take(remaining, batchSize);
      }
      return |tbdTasks| == 0;
    }

    /** `noted`: the caller's note list is not empty when the call starts or ends. */
    method SyncSourceTask(tasks: seq<string>, noted: bool) returns (noted': bool)
      modifies this`tbdTasks, this`cmpTasks, this`sourceTasks
      ensures View() == SyncedSource(old(View()), tasks, noted)
      ensures noted' <==> noted || Differs(old(sourceTasks), tasks)
    {
      var deleted, added := OnlyIn(sourceTasks, tasks), OnlyIn(tasks, sourceTasks);
      noted' := noted || deleted != [] || added != [];
      if noted' {
        UpdateTbdAndCmp();
      }
      sourceTasks := tasks;
    }

    method SyncGenTask(tasks: seq<string>, noted: bool) returns (noted': bool)
      modifies this`genTasks
      ensures genTasks == tasks
      ensures noted' <==> noted || Differs(old(genTasks), tasks)
    {
      var deleted, added := OnlyIn(genTasks, tasks), OnlyIn(tasks, genTasks);
      noted' := noted || deleted != [] || added != [];
      genTasks := tasks;
    }

    /** The loop of `do_complete` that moves the generated tasks of the batch to `cmp`. */
    method MarkCompleted()
      modifies this`cmpTasks
      ensures cmpTasks == AddCompleted(old(cmpTasks), tbdTasks, genTasks)
    {
      for i := 0 to |tbdTasks|
        invariant cmpTasks == AddCompleted(old(cmpTasks), tbdTasks[..i], genTasks)
      {
        var task := tbdTasks[i];
        assert tbdTasks[..i + 1][..i] == tbdTasks[..i];
        if task in genTasks && task !in cmpTasks {
          cmpTasks := cmpTasks + [task];
        }
      }
      assert tbdTasks[..|tbdTasks|] == tbdTasks;
    }

    /** The loop of `do_complete` that lists the tasks of the batch that are still open. */
    method RemainingInBatch() returns (remaining: seq<string>)
      ensures remaining == DropIn(tbdTasks, cmpTasks)
    {
      hide DropIn;
      NothingYet(cmpTasks);
      assert tbdTasks[..0] == [];
      remaining := [];
      for i := 0 to |tbdTasks|
        invariant remaining == DropIn(tbdTasks[..i], cmpTasks)
      {
        DropInAppend(tbdTasks[..i], tbdTasks[i], cmpTasks);
        assert tbdTasks[..i] + [tbdTasks[i]] == tbdTasks[..i + 1];
        if tbdTasks[i] !in cmpTasks {
          remaining := remaining + [tbdTasks[i]];
        }
      }
      assert tbdTasks[..|tbdTasks|] == tbdTasks;
    }

    /** The end of `do_complete`: reset the batch, save, and open the next one. */
    method CloseBatch() returns (noMore: bool)
      modifies this`tbdTasks, this`cmpTasks, this`checkpoint
      ensures View() == WithCurrentTbd(old(View()).(tbd := [], cmp := []), batchSize)
      ensures checkpoint == Some(Batch(sourceTasks, genTasks, [], []))
      ensures noMore <==> tbdTasks == []
    {
      tbdTasks := [];
      cmpTasks := [];
      SavePoint();
      noMore := UpdateCurrentTbd();
    }

    method DoComplete() returns (o: Outcome)
      modifies this`tbdTasks, this`cmpTasks, this`checkpoint
      ensures (View(), o) == Completed(old(View()), batchSize)
      ensures Closes(o) ==> checkpoint == Some(Batch(sourceTasks, genTasks, [], []))
      ensures !Closes(o) ==> checkpoint == old(checkpoint)
    {
      hide WithCurrentTbd, DropIn, AddCompleted, OnlyIn;
      if |sourceTasks| == 0 {
        return NoSource;
      }
      var noMore := UpdateCurrentTbd();
      ghost var b1 := View();
      assert b1 == WithCurrentTbd(old(View()), batchSize);
      if noMore {
        var missing, extra := OnlyIn(sourceTasks, genTasks), OnlyIn(genTasks, sourceTasks);
        if missing != [] || extra != [] {
          return Inconsistent;
        }
        return AllDone(false);
      }
      MarkCompleted();
      var remaining := RemainingInBatch();
      if remaining != [] {
        return Incomplete;
      }
      noMore := CloseBatch();
      o := if noMore then AllDone(true) else NextBatch;
    }
  }

  // ---------------------------------------------------------------- what a verdict means

  /** When exactly `do_complete` answers True: the goal is covered by the result, the open batch
      (if any) is finished, and with no open batch the result has nothing extra. */
  lemma PassIff(b: Batch, size: int)
    requires size >= 1
    ensures Completed(b, size).1.AllDone? <==>
              && b.source != []
              && CoveredBy(b.source, b.gen)
              && (if b.tbd == [] then CoveredBy(b.gen, b.source)
                  else forall t :: t in b.tbd ==> t in b.cmp || t in b.gen)
  {
    EmptyDiff(b.source, b.gen);
    EmptyDiff(b.gen, b.source);
    SortItems(OnlyIn(b.source, b.gen));
    var b1 := WithCurrentTbd(b, size);
    if b.source != [] && b1.tbd != [] {
      var cmp := AddCompleted(b1.cmp, b1.tbd, b1.gen);
      assert DropIn(b1.tbd, cmp) == [] <==> forall t :: t in b1.tbd ==> t in cmp by {
        if DropIn(b1.tbd, cmp) != [] { assert DropIn(b1.tbd, cmp)[0] in DropIn(b1.tbd, cmp); }
      }
    }
  }
}
