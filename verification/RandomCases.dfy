/** The second client of the batch task: random test-case records for the checkpoints of a document
    that may change between calls (ucagent/checkers/unity_test_random.py). */
module RandomCases {
  import opened Text
  import opened Lists
  import opened BatchTask
  import opened BatchRuns

  /** The `generated` argument: absent, not an object, or the keys of the object (None is a null key). */
  datatype Generated = Absent | NotAnObject | Keys(keys: seq<Option<string>>)

  /** `_parse_generated_arg`: stripped, non-empty keys, each once. */
  function ParsedKeys(keys: seq<Option<string>>): (r: seq<string>)
    ensures forall x :: x in r ==> x != "" && exists k :: k in keys && k.Some? && Strip(k.value) == x
  {
    if keys == [] then []
    else
      var last := keys[|keys| - 1];
      var r := ParsedKeys(keys[..|keys| - 1]);
      if last.None? || IsBlank(last.value) || Strip(last.value) in r then r else r + [Strip(last.value)]
  }

  function KeysOf(g: Generated): seq<string>
  {
    if g.Keys? then ParsedKeys(g.keys) else []
  }

  /** `sync_source_task`, `update_tbd_and_cmp`, the filter on `gen` and `update_current_tbd`. */
  function SyncedWithDoc(b: Batch, doc: seq<string>, size: int): Batch
  {
    var u := Updated(SyncedSource(b, doc, false));
    WithCurrentTbd(u.(gen := KeepIn(u.gen, doc)), size)
  }

  /** The items of `more` that are in `allowed`, appended to `done` unless already there. */
  function AppendAllowed(done: seq<string>, more: seq<string>, allowed: seq<string>): (r: seq<string>)
    ensures forall x :: x in r <==> x in done || (x in more && x in allowed)
  {
    if more == [] then done
    else
      var last := more[|more| - 1];
      var r := AppendAllowed(done, more[..|more| - 1], allowed);
      assert more == more[..|more| - 1] + [last];
      if last in allowed && last !in r then r + [last] else r
  }

  datatype Outcome = DocError | ArgumentError | OutsideBatch | NothingNew | TestsFailed | Done(o: BatchTask.Outcome)

  predicate Passes(o: Outcome)
  {
    o.Done? && o.o.AllDone?
  }

  /** The lists before the submitted keys are looked at. */
  function Prepared(b: Batch, recorded: seq<string>, doc: seq<string>, size: int): Batch
  {
    var s := SyncedWithDoc(b, doc, size);
    WithCurrentTbd(s.(gen := AppendAllowed(KeepIn(s.gen, doc), recorded, doc)), size)
  }

  /** `do_check`: the outcome, the batch task's lists and the recorded checkpoints afterwards. */
  function Call(b: Batch, recorded: seq<string>, size: int, doc: Option<seq<string>>, g: Generated, testsPass: bool)
    : (Outcome, Batch, seq<string>)
  {
    if doc.None? then (DocError, b, recorded)
    else
      var p := Prepared(b, recorded, doc.value, size);
      var keys := KeysOf(g);
      if g.NotAnObject? then (ArgumentError, p, recorded)
      else if DropIn(keys, doc.value) != [] || (p.tbd != [] && DropIn(KeepIn(keys, doc.value), p.tbd) != [])
      then (OutsideBatch, p, recorded)
      else
        var valid := KeepIn(keys, p.tbd);
        if valid == [] && DropIn(p.tbd, p.gen) != [] then (NothingNew, p, recorded)
        else
          var recorded' := AppendAllowed(recorded, valid, valid);
          var q := p.(gen := AppendAllowed(p.gen, valid, valid));
          if !testsPass then (TestsFailed, q, recorded')
          else
            var (q', o) := Completed(q, size);
            (Done(o), q', recorded')
  }

  class RandomTestCasesChecker {
    const batchTask: UnityChipBatchTask
    var randomResult: seq<string>  // the keys of random_result, in insertion order

    constructor (batchSize: int, checkpoint: Option<Batch>, saved: seq<string>)
      ensures fresh(batchTask) && batchTask.batchSize == batchSize && randomResult == saved
      ensures batchTask.View() == Batch([], [], [], [])
    {
      batchTask := new UnityChipBatchTask(batchSize, checkpoint);
      randomResult := saved;
    }

    method SyncSourceFromDoc(doc: seq<string>)
      modifies batchTask`tbdTasks, batchTask`cmpTasks, batchTask`sourceTasks, batchTask`genTasks
      ensures batchTask.View() == SyncedWithDoc(old(batchTask.View()), doc, batchTask.batchSize)
    {
      hide SyncedSource, Updated, WithCurrentTbd, Differs;
      var _ := batchTask.SyncSourceTask(doc, false);
      batchTask.UpdateTbdAndCmp();
      batchTask.genTasks := KeepIn(batchTask.genTasks, doc);
      var _ := batchTask.UpdateCurrentTbd();
    }

    method AppendLoop(done: seq<string>, more: seq<string>, allowed: seq<string>) returns (r: seq<string>)
      ensures r == AppendAllowed(done, more, allowed)
    {
      r := done;
      for i := 0 to |more|
        invariant r == AppendAllowed(done, more[..i], allowed)
      {
        assert more[..i + 1][..i] == more[..i];
        if more[i] in allowed && more[i] !in r {
          r := r + [more[i]];
        }
      }
      assert more[..|more|] == more;
    }

    method DoCheck(doc: Option<seq<string>>, generated: Generated, testsPass: bool) returns (o: Outcome)
      modifies this, batchTask
      ensures (o, batchTask.View(), randomResult) ==
              Call(old(batchTask.View()), old(randomResult), batchTask.batchSize, doc, generated, testsPass)
    {
      hide SyncedWithDoc, WithCurrentTbd, KeepIn, DropIn, AppendAllowed, ParsedKeys, Completed, Differs, Closes;
      if doc.None? {
        return DocError;
      }
      var current := doc.value;
      SyncSourceFromDoc(current);
      var completed := AppendLoop(KeepIn(batchTask.genTasks, current), randomResult, current);
      var noted := batchTask.SyncGenTask(completed, false);
      var _ := batchTask.UpdateCurrentTbd();
      var batch := batchTask.tbdTasks;
      if generated.NotAnObject? {
        return ArgumentError;
      }
      var keys := KeysOf(generated);
      var unknown := DropIn(keys, current);
      var outOfBatch := DropIn(KeepIn(keys, current), batch);
      if unknown != [] || (outOfBatch != [] && batch != []) {
        return OutsideBatch;
      }
      var valid := KeepIn(keys, batch);
      if valid == [] && DropIn(batch, completed) != [] {
        return NothingNew;
      }
      randomResult := AppendLoop(randomResult, valid, valid);
      completed := AppendLoop(completed, valid, valid);
      var _ := batchTask.SyncGenTask(completed, noted);
      if !testsPass {
        return TestsFailed;
      }
      var r := batchTask.DoComplete();
      return Done(r);
    }
  }

  // ---------------------------------------------------------------- what every call keeps

  /** The order among the lists: cmp within tbd within source, and gen within source. */
  ghost predicate Nested(b: Batch)
  {
    SubsetOf(b.cmp, b.tbd) && SubsetOf(b.tbd, b.source) && SubsetOf(b.gen, b.source)
  }

  lemma NextTbdIsNested(b: Batch, size: int)
    requires Nested(b) && AllClean(b.source)
    ensures Nested(WithCurrentTbd(b, size))
  {
    if b.tbd == [] {
      CurrentTbdIsUnfinished(b, size);
      StripAllOfClean(b.source);
    }
  }

  /** After synchronising with the document, whatever the lists were, they are nested in it. */
  lemma SyncIsNested(b: Batch, doc: seq<string>, size: int)
    requires AllClean(doc)
    ensures var s := SyncedWithDoc(b, doc, size); Nested(s) && s.source == doc
  {
    hide WithCurrentTbd, KeepIn, Updated, SyncedSource;
    SyncThenUpdate(b, doc, false);
    var u := Updated(SyncedSource(b, doc, false));
    var u' := u.(gen := KeepIn(u.gen, doc));
    NextTbdIsNested(u', size);
    KeepsSource(u', size);
  }

  lemma KeepsSource(b: Batch, size: int)
    ensures WithCurrentTbd(b, size).source == b.source && WithCurrentTbd(b, size).gen == b.gen
  {
  }

  lemma PreparedIsNested(b: Batch, recorded: seq<string>, doc: seq<string>, size: int)
    requires AllClean(doc)
    ensures var p := Prepared(b, recorded, doc, size); Nested(p) && p.source == doc
  {
    hide WithCurrentTbd, KeepIn, SyncedWithDoc, AppendAllowed;
    SyncIsNested(b, doc, size);
    var s := SyncedWithDoc(b, doc, size);
    var s' := s.(gen := AppendAllowed(KeepIn(s.gen, doc), recorded, doc));
    NextTbdIsNested(s', size);
    KeepsSource(s', size);
  }

  lemma CompletedIsNested(b: Batch, size: int)
    requires Nested(b) && AllClean(b.source)
    ensures Nested(Completed(b, size).0) && Completed(b, size).0.source == b.source && Completed(b, size).0.gen == b.gen
  {
    hide WithCurrentTbd, DropIn, AddCompleted;
    NextTbdIsNested(b, size);
    KeepsSource(b, size);
    var b1 := WithCurrentTbd(b, size);
    var b2 := b1.(tbd := [], cmp := []);
    NextTbdIsNested(b2, size);
    KeepsSource(b2, size);
  }

  /** Every call with a readable document ends nested in that document, however the document was edited
      since the last call and whatever the verdict; recorded checkpoints are never lost. */
  lemma CallKeepsNesting(b: Batch, recorded: seq<string>, size: int, doc: seq<string>, g: Generated, testsPass: bool)
    requires AllClean(doc)
    ensures var (o, b', recorded') := Call(b, recorded, size, Some(doc), g, testsPass);
            Nested(b') && b'.source == doc && SubsetOf(recorded, recorded')
  {
    hide Prepared, KeepIn, DropIn, AppendAllowed, Completed, ParsedKeys;
    PreparedIsNested(b, recorded, doc, size);
    var p := Prepared(b, recorded, doc, size);
    var valid := KeepIn(KeysOf(g), p.tbd);
    var q := p.(gen := AppendAllowed(p.gen, valid, valid));
    CompletedIsNested(q, size);
  }

  lemma PreparedGen(b: Batch, recorded: seq<string>, doc: seq<string>, size: int)
    ensures SubsetOf(Prepared(b, recorded, doc, size).gen, b.gen + recorded)
  {
    hide WithCurrentTbd, SyncedSource, Updated;
    var u := Updated(SyncedSource(b, doc, false));
    KeepsSource(u.(gen := KeepIn(u.gen, doc)), size);
    var s := SyncedWithDoc(b, doc, size);
    KeepsSource(s.(gen := AppendAllowed(KeepIn(s.gen, doc), recorded, doc)), size);
    SyncKeepsGen(b, doc);
  }

  lemma SyncKeepsGen(b: Batch, doc: seq<string>)
    ensures Updated(SyncedSource(b, doc, false)).gen == b.gen
  {
  }

  /** Whatever counts as finished after a call has a stored record, or counted as finished before. */
  lemma FinishedAreRecorded(b: Batch, recorded: seq<string>, size: int, doc: Option<seq<string>>, g: Generated,
                            testsPass: bool)
    ensures var (o, b', recorded') := Call(b, recorded, size, doc, g, testsPass);
            && SubsetOf(b'.gen, b.gen + recorded')
            && (SubsetOf(b.gen, recorded) ==> SubsetOf(b'.gen, recorded'))
  {
    hide Prepared, KeepIn, DropIn, AppendAllowed, Completed, ParsedKeys;
    if doc.Some? {
      PreparedGen(b, recorded, doc.value, size);
      var p := Prepared(b, recorded, doc.value, size);
      var valid := KeepIn(KeysOf(g), p.tbd);
      CompletedGen(p.(gen := AppendAllowed(p.gen, valid, valid)), size);
    }
  }

  lemma CompletedGen(b: Batch, size: int)
    ensures Completed(b, size).0.gen == b.gen
  {
    hide DropIn, AddCompleted;
  }

  /** A True verdict means the finished checkpoints are exactly those of the current document; each of them has a stored
      record, unless it already counted as finished without one. */
  lemma PassMeansDocument(b: Batch, recorded: seq<string>, size: int, doc: seq<string>, g: Generated, testsPass: bool)
    requires AllClean(doc) && size >= 1
    requires Passes(Call(b, recorded, size, Some(doc), g, testsPass).0)
    ensures var (o, b', recorded') := Call(b, recorded, size, Some(doc), g, testsPass);
            && testsPass && (forall ck :: ck in b'.gen <==> ck in doc)
            && (forall ck :: ck in doc ==> ck in recorded' || ck in b.gen)
            && (SubsetOf(b.gen, recorded) ==> SubsetOf(doc, recorded'))
  {
    hide Prepared, KeepIn, DropIn, AppendAllowed, Completed, ParsedKeys;
    FinishedAreRecorded(b, recorded, size, Some(doc), g, testsPass);
    PreparedIsNested(b, recorded, doc, size);
    var p := Prepared(b, recorded, doc, size);
    var valid := KeepIn(KeysOf(g), p.tbd);
    var q := p.(gen := AppendAllowed(p.gen, valid, valid));
    CompletedIsNested(q, size);
    PassIff(q, size);
    assert AllClean(q.gen);
    CoveredByClean(q.source, q.gen);
  }

  /** Only submitted checkpoints of the open batch and checkpoints recorded before can become finished. */
  lemma NothingElseIsRecorded(b: Batch, recorded: seq<string>, size: int, doc: seq<string>, g: Generated, testsPass: bool)
    ensures var (o, b', recorded') := Call(b, recorded, size, Some(doc), g, testsPass);
            forall ck :: ck in recorded' && ck !in recorded ==> ck in KeysOf(g) && ck in Prepared(b, recorded, doc, size).tbd
  {
    hide Prepared, DropIn, Completed, ParsedKeys;
  }
}
