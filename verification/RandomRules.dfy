/** Exactly how one call for random test-case records ends and what it records, and how many calls finish a document
    (ucagent/checkers/unity_test_random.py). */
module RandomRules {
  import opened Text
  import opened Lists
  import opened BatchTask
  import opened BatchRuns
  import opened RandomCases

  // ---------------------------------------------------------------- the submitted keys

  /** Some key of the argument is this text up to surrounding blanks. */
  ghost predicate HasKey(keys: seq<Option<string>>, x: string)
  {
    exists i :: 0 <= i < |keys| && keys[i].Some? && Strip(keys[i].value) == x
  }

  lemma {:induction false} ParsedKeysIff(keys: seq<Option<string>>, x: string)
    ensures x in ParsedKeys(keys) <==> x != "" && HasKey(keys, x)
    ensures NoDup(ParsedKeys(keys))
    decreases |keys|
  {
    hide Strip;
    if keys != [] {
      var rest := keys[..|keys| - 1];
      ParsedKeysIff(rest, x);
      assert HasKey(keys, x) <==> HasKey(rest, x) || (keys[|rest|].Some? && Strip(keys[|rest|].value) == x) by {
        assert forall i :: 0 <= i < |rest| ==> rest[i] == keys[i];
      }
    }
  }

  // ---------------------------------------------------------------- the lists before the keys are looked at

  /** What is finished: what was finished or has a record, as far as the document still has it. */
  lemma PreparedGenIff(b: Batch, recorded: seq<string>, doc: seq<string>, size: int, ck: string)
    ensures ck in Prepared(b, recorded, doc, size).gen <==> ck in doc && (ck in b.gen || ck in recorded)
  {
    hide WithCurrentTbd, SyncedSource, Updated;
    var u := Updated(SyncedSource(b, doc, false));
    KeepsSource(u.(gen := KeepIn(u.gen, doc)), size);
    var s := SyncedWithDoc(b, doc, size);
    KeepsSource(s.(gen := AppendAllowed(KeepIn(s.gen, doc), recorded, doc)), size);
    SyncKeepsGen(b, doc);
  }

  lemma {:induction false} KeepTwice<T(!new)>(s: seq<T>, t: seq<T>, u: seq<T>)
    requires SubsetOf(s, t)
    ensures KeepIn(KeepIn(s, t), u) == KeepIn(s, u) && KeepIn(s, t) == s
    decreases |s|
  {
    if s != [] {
      assert forall x :: x in s[1..] ==> x in s;
      KeepTwice(s[1..], t, u);
      assert s == [s[0]] + s[1..];
    }
  }

  lemma KeptBatch(b: Batch, doc: seq<string>)
    requires SubsetOf(b.tbd, b.source)
    ensures Updated(SyncedSource(b, doc, false)).tbd == KeepIn(b.tbd, doc)
  {
    KeepTwice(b.tbd, b.source, doc);
    hide Differs;
  }

  /** The unfinished checkpoints of a clean document. */
  lemma OpenedBatch(source: seq<string>, gen: seq<string>, size: nat)
    requires AllClean(source) && AllClean(gen) && source != []
    ensures WithCurrentTbd(Batch(source, gen, [], []), size).tbd == Take(Sort(DropIn(source, gen)), size)
  {
    hide WithCurrentTbd, Sort, DropIn;
    AnnouncedBatch(Batch(source, gen, [], []), size);
    UnfinishedOfClean(Batch(source, gen, [], []));
  }

  lemma {:induction false} DropSame<T(!new)>(s: seq<T>, t: seq<T>, u: seq<T>)
    requires forall x :: x in s ==> (x in t <==> x in u)
    ensures DropIn(s, t) == DropIn(s, u)
    decreases |s|
  {
    if s != [] {
      assert s[0] in s && forall x :: x in s[1..] ==> x in s;
      DropSame(s[1..], t, u);
    }
  }

  lemma TbdOnly(b: Batch, size: nat)
    requires b.tbd == []
    ensures WithCurrentTbd(b, size).tbd == WithCurrentTbd(Batch(b.source, b.gen, [], []), size).tbd
  {
  }

  lemma StaysOpen(b: Batch, size: nat)
    requires b.tbd != []
    ensures WithCurrentTbd(b, size) == b
  {
  }

  lemma NothingToOpen(source: seq<string>, gen: seq<string>, size: nat)
    requires size >= 1 && Take(Sort(DropIn(source, gen)), size) == []
    ensures DropIn(source, gen) == []
  {
    SortItems(DropIn(source, gen));
  }

  lemma MoreLeavesNothing(source: seq<string>, gen: seq<string>, more: seq<string>)
    requires DropIn(source, gen) == [] && SubsetOf(gen, more)
    ensures DropIn(source, more) == []
  {
    DropNoneIff(source, gen);
    DropNoneIff(source, more);
  }

  /** The open batch: what is left of the old one in the document, and when nothing is left the first unfinished
      checkpoints in string order. */
  lemma PreparedBatch(b: Batch, recorded: seq<string>, doc: seq<string>, size: nat)
    requires AllClean(doc) && doc != [] && size >= 1 && SubsetOf(b.tbd, b.source)
    ensures var kept := KeepIn(b.tbd, doc);
            Prepared(b, recorded, doc, size).tbd ==
            if kept != [] then kept else Take(Sort(DropIn(doc, b.gen)), size)
  {
    hide WithCurrentTbd, Updated, SyncedSource, KeepIn, Sort, DropIn, Take, AppendAllowed;
    KeptBatch(b, doc);
    SyncKeepsGen(b, doc);
    SyncThenUpdate(b, doc, false);
    var kept := KeepIn(b.tbd, doc);
    var u := Updated(SyncedSource(b, doc, false));
    var u' := u.(gen := KeepIn(u.gen, doc));
    var s := SyncedWithDoc(b, doc, size);
    KeepsSource(u', size);
    var s' := s.(gen := AppendAllowed(KeepIn(s.gen, doc), recorded, doc));
    if kept != [] {
      StaysOpen(u', size);
      StaysOpen(s', size);
    } else {
      TbdOnly(u', size);
      OpenedBatch(doc, u'.gen, size);
      DropSame(doc, u'.gen, b.gen);
      if s.tbd != [] {
        StaysOpen(s', size);
      } else {
        NothingToOpen(doc, b.gen, size);
        MoreLeavesNothing(doc, u'.gen, s'.gen);
        TbdOnly(s', size);
        OpenedBatch(doc, s'.gen, size);
        NothingTaken(size);
      }
    }
  }

  lemma NothingTaken(size: nat)
    ensures Take(Sort([]), size) == []
  {
  }

  // ---------------------------------------------------------------- how a call ends

  /** Some submitted key is not in the document, or is not in the open batch. */
  ghost predicate Misses(keys: seq<string>, doc: seq<string>, batch: seq<string>)
  {
    exists k :: k in keys && (k !in doc || (batch != [] && k !in batch))
  }

  /** No submitted key is in the open batch, although something of it is unfinished. */
  ghost predicate NoProgress(keys: seq<string>, p: Batch)
  {
    (forall k :: k in keys ==> k !in p.tbd) && exists t :: t in p.tbd && t !in p.gen
  }

  lemma DropNoneIff<T(!new)>(s: seq<T>, t: seq<T>)
    ensures DropIn(s, t) == [] <==> forall x :: x in s ==> x in t
  {
    assert DropIn(s, t) != [] ==> DropIn(s, t)[0] in DropIn(s, t);
  }

  lemma KeepNoneIff<T(!new)>(s: seq<T>, t: seq<T>)
    ensures KeepIn(s, t) == [] <==> forall x :: x in s ==> x !in t
  {
    assert KeepIn(s, t) != [] ==> KeepIn(s, t)[0] in KeepIn(s, t);
  }

  /** Exactly how a call ends. */
  lemma OutcomeIff(b: Batch, recorded: seq<string>, size: int, doc: seq<string>, g: Generated, testsPass: bool)
    ensures var o, p, keys := Call(b, recorded, size, Some(doc), g, testsPass).0, Prepared(b, recorded, doc, size), KeysOf(g);
            && o != DocError
            && (o == ArgumentError <==> g.NotAnObject?)
            && (o == OutsideBatch <==> !g.NotAnObject? && Misses(keys, doc, p.tbd))
            && (o == NothingNew <==> !g.NotAnObject? && !Misses(keys, doc, p.tbd) && NoProgress(keys, p))
            && (o == TestsFailed <==>
                  !g.NotAnObject? && !Misses(keys, doc, p.tbd) && !NoProgress(keys, p) && !testsPass)
  {
    hide Prepared, KeepIn, DropIn, AppendAllowed, Completed, ParsedKeys;
    var p, keys := Prepared(b, recorded, doc, size), KeysOf(g);
    DropNoneIff(keys, doc);
    DropNoneIff(KeepIn(keys, doc), p.tbd);
    DropNoneIff(p.tbd, p.gen);
    KeepNoneIff(keys, p.tbd);
  }

  predicate ActedOn(o: RandomCases.Outcome)
  {
    o.TestsFailed? || o.Done?
  }

  /** What a call records: when it is acted on, exactly the submitted checkpoints of the open batch on top of what was
      recorded, and they count as finished whatever the tests say; otherwise nothing. */
  lemma RecordedIff(b: Batch, recorded: seq<string>, size: int, doc: seq<string>, g: Generated, testsPass: bool, ck: string)
    ensures var (o, b', recorded') := Call(b, recorded, size, Some(doc), g, testsPass);
            var p := Prepared(b, recorded, doc, size);
            var added := ActedOn(o) && ck in KeysOf(g) && ck in p.tbd;
            && (ck in recorded' <==> ck in recorded || added)
            && (ck in b'.gen <==> ck in p.gen || added)
  {
    hide Prepared, DropIn, Completed, ParsedKeys;
    var p := Prepared(b, recorded, doc, size);
    var valid := KeepIn(KeysOf(g), p.tbd);
    CompletedGen(p.(gen := AppendAllowed(p.gen, valid, valid)), size);
  }

  // ---------------------------------------------------------------- closing the open batch

  /** `do_complete` on an open batch that is finished. */
  lemma ClosesFinished(q: Batch, size: nat)
    requires AllClean(q.source) && AllClean(q.gen) && q.source != [] && q.tbd != [] && size >= 1
    requires forall t :: t in q.tbd ==> t in q.gen
    ensures var (b, o) := Completed(q, size);
            && Closes(o) && (o.AllDone? <==> SubsetOf(q.source, q.gen))
            && b.source == q.source && b.gen == q.gen && b.cmp == [] && b.tbd == Take(Sort(DropIn(q.source, q.gen)), size)
  {
    hide WithCurrentTbd, Sort, DropIn, Take;
    StaysOpen(q, size);
    var cmp := AddCompleted(q.cmp, q.tbd, q.gen);
    DropNoneIff(q.tbd, cmp);
    var b1 := q.(tbd := [], cmp := []);
    KeepsSource(b1, size);
    TbdOnly(b1, size);
    OpenedBatch(q.source, q.gen, size);
    DropNoneIff(q.source, q.gen);
    OpenedNothing(q.source, q.gen, size);
    CmpStays(b1, size);
  }

  lemma CmpStays(b: Batch, size: int)
    ensures WithCurrentTbd(b, size).cmp == b.cmp
  {
  }

  lemma OpenedNothing(source: seq<string>, gen: seq<string>, size: nat)
    requires size >= 1
    ensures Take(Sort(DropIn(source, gen)), size) == [] <==> DropIn(source, gen) == []
  {
    SortItems(DropIn(source, gen));
  }

  /** Handing in exactly the open batch, with passing tests, closes it; the call passes if and only if nothing else of the
      document is unfinished, and otherwise the next unfinished checkpoints in string order are open. */
  lemma FullBatchCloses(b: Batch, recorded: seq<string>, size: nat, doc: seq<string>, g: Generated)
    requires AllClean(doc) && doc != [] && size >= 1 && !g.NotAnObject?
    requires var p := Prepared(b, recorded, doc, size); p.tbd != [] && forall ck :: ck in KeysOf(g) <==> ck in p.tbd
    ensures var p := Prepared(b, recorded, doc, size);
            var (o, b', recorded') := Call(b, recorded, size, Some(doc), g, true);
            && o.Done? && Closes(o.o)
            && (o.o.AllDone? <==> forall ck :: ck in doc ==> ck in p.gen || ck in p.tbd)
            && b'.source == doc && b'.cmp == [] && b'.tbd == Take(Sort(DropIn(doc, b'.gen)), size)
  {
    hide Prepared, KeepIn, DropIn, AppendAllowed, Completed, ParsedKeys, Sort, Take;
    var p := Prepared(b, recorded, doc, size);
    PreparedIsNested(b, recorded, doc, size);
    OutcomeIff(b, recorded, size, doc, g, true);
    var valid := KeepIn(KeysOf(g), p.tbd);
    var q := p.(gen := AppendAllowed(p.gen, valid, valid));
    assert p.tbd[0] in p.tbd;
    assert forall x :: x in p.gen ==> x in doc;
    assert AllClean(q.gen);
    ClosesFinished(q, size);
  }

  // ---------------------------------------------------------------- how many calls finish a document

  /** The whole open batch. */
  function Submit(batch: seq<string>): Generated
  {
    Keys(Map(batch, (t: string) => Some(t)))
  }

  lemma SubmitsBatch(batch: seq<string>, ck: string)
    requires AllClean(batch)
    ensures ck in KeysOf(Submit(batch)) <==> ck in batch
  {
    hide Strip;
    var keys := Submit(batch).keys;
    ParsedKeysIff(keys, ck);
    forall i | 0 <= i < |batch| ensures Strip(keys[i].value) == batch[i] && batch[i] != "" {
      assert batch[i] in batch;
      CleanIsStripped(batch[i]);
    }
  }

  /** One call that hands in its open batch, with passing tests. */
  function FullCall(b: Batch, recorded: seq<string>, size: int, doc: seq<string>): (RandomCases.Outcome, Batch, seq<string>)
  {
    Call(b, recorded, size, Some(doc), Submit(Prepared(b, recorded, doc, size).tbd), true)
  }

  /** A state between such calls: what has a record is finished, and the open batch, if there is one, is the next. */
  ghost predicate Underway(b: Batch, recorded: seq<string>, doc: seq<string>, size: nat)
  {
    && SubsetOf(b.tbd, b.source) && SubsetOf(b.gen, doc) && (forall ck :: ck in doc && ck in recorded ==> ck in b.gen)
    && (b.tbd == [] || b.tbd == Take(Sort(DropIn(doc, b.gen)), size))
  }

  /** Nothing is open at the start. */
  lemma StartIsUnderway(doc: seq<string>, size: nat)
    ensures Underway(Batch([], [], [], []), [], doc, size)
  {
  }

  lemma {:induction false} DropCount<T(!new)>(s: seq<T>, t: seq<T>)
    requires NoDup(s) && NoDup(t) && SubsetOf(t, s)
    ensures |DropIn(s, t)| == |s| - |t|
  {
    KeepAll(s, t);
    KeepNoDup(s, t);
    NoDupFits(KeepIn(s, t), t);
    NoDupFits(t, KeepIn(s, t));
  }

  lemma {:induction false} DropInTwoSteps<T(!new)>(s: seq<T>, t: seq<T>, u: seq<T>, both: seq<T>)
    requires forall x :: x in both <==> x in t || x in u
    ensures DropIn(s, both) == DropIn(DropIn(s, t), u)
    decreases |s|
  {
    if s != [] {
      DropInTwoSteps(s[1..], t, u, both);
    }
  }

  lemma FirstOfSorted(left: seq<string>, size: nat)
    requires NoDup(left)
    ensures var batch := Take(Sort(left), size);
            NoDup(batch) && SubsetOf(batch, left) && |batch| == if size <= |left| then size else |left|
  {
    SortItems(left);
    SortNoDup(left);
    var batch := Take(Sort(left), size);
    assert forall i :: 0 <= i < |batch| ==> batch[i] == Sort(left)[i];
  }

  /** The open batch of such a state is the next one. */
  lemma UnderwayBatch(b: Batch, recorded: seq<string>, doc: seq<string>, size: nat)
    requires AllClean(doc) && doc != [] && size >= 1 && NoDup(doc) && Underway(b, recorded, doc, size)
    ensures var p := Prepared(b, recorded, doc, size);
            && p.tbd == Take(Sort(DropIn(doc, b.gen)), size) && forall ck :: ck in p.gen <==> ck in b.gen
  {
    hide Prepared, Sort, Take, KeepIn;
    PreparedBatch(b, recorded, doc, size);
    forall ck ensures ck in Prepared(b, recorded, doc, size).gen <==> ck in b.gen {
      PreparedGenIff(b, recorded, doc, size, ck);
    }
    DropInNoDup(doc, b.gen);
    FirstOfSorted(DropIn(doc, b.gen), size);
    if b.tbd != [] {
      assert SubsetOf(b.tbd, doc);
      KeepTwice(b.tbd, doc, doc);
    } else {
      NothingKept(doc);
    }
  }

  lemma NothingKept(doc: seq<string>)
    ensures KeepIn([], doc) == []
  {
  }

  /** One call takes one batch off what is left, and passes when that was all. */
  lemma OneFullCall(b: Batch, recorded: seq<string>, doc: seq<string>, size: nat)
    requires AllClean(doc) && NoDup(doc) && size >= 1 && Underway(b, recorded, doc, size) && DropIn(doc, b.gen) != []
    ensures var left := |DropIn(doc, b.gen)|;
            var (o, b', recorded') := FullCall(b, recorded, size, doc);
            && o.Done? && (Passes(o) <==> left <= size)
            && Underway(b', recorded', doc, size)
            && |DropIn(doc, b'.gen)| == if left <= size then 0 else left - size
  {
    hide Prepared, Sort, Take, KeepIn, Call, ParsedKeys;
    assert DropIn(doc, b.gen)[0] in DropIn(doc, b.gen);
    var p, left := Prepared(b, recorded, doc, size), DropIn(doc, b.gen);
    var (o, b', recorded') := FullCall(b, recorded, size, doc);
    UnderwayBatch(b, recorded, doc, size);
    DropInNoDup(doc, b.gen);
    FirstOfSorted(left, size);
    forall ck ensures ck in KeysOf(Submit(p.tbd)) <==> ck in p.tbd { SubmitsBatch(p.tbd, ck); }
    FullBatchCloses(b, recorded, size, doc, Submit(p.tbd));
    forall ck ensures (ck in recorded' <==> ck in recorded || ck in p.tbd) && (ck in b'.gen <==> ck in b.gen || ck in p.tbd) {
      RecordedIff(b, recorded, size, doc, Submit(p.tbd), true, ck);
    }
    DropInTwoSteps(doc, b.gen, p.tbd, b'.gen);
    DropCount(left, p.tbd);
    DropNoneIff(doc, b'.gen);
    NextIsInside(doc, b'.gen, size);
  }

  lemma NextIsInside(doc: seq<string>, gen: seq<string>, size: nat)
    ensures SubsetOf(Take(Sort(DropIn(doc, gen)), size), doc)
  {
    SortItems(DropIn(doc, gen));
    var batch := Take(Sort(DropIn(doc, gen)), size);
    assert forall i :: 0 <= i < |batch| ==> batch[i] == Sort(DropIn(doc, gen))[i];
  }

  /** The lists and records after `k` such calls. */
  function AfterFullCalls(b: Batch, recorded: seq<string>, size: int, doc: seq<string>, k: nat): (Batch, seq<string>)
    decreases k
  {
    if k == 0 then (b, recorded)
    else
      var (o, b', recorded') := FullCall(b, recorded, size, doc);
      AfterFullCalls(b', recorded', size, doc, k - 1)
  }

  /** Handing in each open batch finishes a clean document without repetitions after exactly max(1, ceil(left / size))
      calls: all of them are acted on, and only the last one passes. */
  lemma {:induction false} ExactNumberOfFullCalls(b: Batch, recorded: seq<string>, doc: seq<string>, size: nat, k: nat)
    requires AllClean(doc) && NoDup(doc) && size >= 1 && Underway(b, recorded, doc, size) && DropIn(doc, b.gen) != []
    requires k < CallsNeeded(|DropIn(doc, b.gen)|, size)
    ensures var (b', recorded') := AfterFullCalls(b, recorded, size, doc, k);
            var o := FullCall(b', recorded', size, doc).0;
            o.Done? && (Passes(o) <==> k + 1 == CallsNeeded(|DropIn(doc, b.gen)|, size))
    decreases k
  {
    hide FullCall, Underway, DropIn;
    var left := |DropIn(doc, b.gen)|;
    OneFullCall(b, recorded, doc, size);
    if k > 0 {
      var (o, b', recorded') := FullCall(b, recorded, size, doc);
      ExactNumberOfFullCalls(b', recorded', doc, size, k - 1);
    } else if left > size {
      CallsNeededIsCeiling(left - size, size);
    }
  }
}
