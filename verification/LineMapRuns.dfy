/** Whole histories of the line-map checker: calls in changing worlds, with restarts from any saved lists in
    between (ucagent/checkers/file_linemap.py). */
module LineMapRuns {
  import opened Text
  import opened Lists
  import opened LineMapFile
  import opened BatchTask
  import opened LineMapSpec
  import opened LineMapSoundness
  import opened LineMapProgress

  /** A Check or Complete call in the world as it is then, or a restart, which loads some saved lists and
      refreshes them in the world as it is then. */
  datatype Event = Call(w: World) | Restart(w: World, saved: Batch)

  /** The lists after one event. A refresh that raises keeps the lists it started from. */
  ghost function Next(cfg: Config, b: Batch, e: Event): Batch
  {
    match e
    case Call(w) => CheckCall(cfg, w, b).1
    case Restart(w, saved) =>
      if StopsAt(cfg, w, saved.gen, w.cks, Faulty) then saved else Refreshed(cfg, w, saved.gen, w.cks)
  }

  /** The lists after the first `n` events. */
  ghost function StateAt(cfg: Config, b: Batch, events: seq<Event>, n: nat): Batch
    requires n <= |events|
  {
    if n == 0 then b else Next(cfg, StateAt(cfg, b, events, n - 1), events[n - 1])
  }

  ghost predicate PassesAt(cfg: Config, b: Batch, events: seq<Event>, i: nat)
  {
    i < |events| && events[i].Call? && CheckCall(cfg, events[i].w, StateAt(cfg, b, events, i)).0 == Passed
  }

  /** Soundness over every history: whenever a call passes, every line that needs a mapping has one in the world of
      that call, whatever calls, edits and restarts came before. */
  lemma EveryPassIsSound(cfg: Config, b: Batch, events: seq<Event>, i: nat)
    requires PassesAt(cfg, b, events, i) && TrustedNames(events[i].w.matched)
    ensures AllCovered(cfg, events[i].w) && AllMapsInOrder(cfg, events[i].w)
  {
    hide CheckCall, AllCovered, AllMapsInOrder, TrustedNames, StateAt;
    PassIsSound(cfg, events[i].w, StateAt(cfg, b, events, i));
  }

  // ---------------------------------------------------------------- what a call leaves recorded

  lemma RefreshedShape(cfg: Config, w: World, recorded: seq<string>, cks: Option<seq<string>>) returns (p: nat)
    requires AllSeparatorFree(w.matched)
    ensures var tasks := AllTasks(cfg, w);
            var b := Refreshed(cfg, w, recorded, cks);
            && NoDup(tasks) && p <= |tasks| && b.source == tasks && b.gen == tasks[..p]
            && b.tbd == tasks[p..Min(p + cfg.batchSize, |tasks|)]
            && PrefixValid(cfg, w, cks, tasks, p)
  {
    hide AllTasks, Healed, AllSeparatorFree, DistinctBases, NoDup, PrefixValid;
    var tasks := AllTasks(cfg, w);
    p := Healed(cfg, w, recorded, cks, tasks);
    FreeNames(cfg, w);
    BasesAreDistinct(cfg, w);
    DistinctBasesNoDup(tasks);
    DropPrefix(tasks, p);
    HealedPrefixValid(cfg, w, recorded, cks);
    assert Take(tasks[p..], cfg.batchSize) == tasks[p..Min(p + cfg.batchSize, |tasks|)];
  }

  lemma BatchIsValid(cfg: Config, w: World, cks: seq<string>, tasks: seq<string>, p: nat, q: nat)
    requires p <= q <= |tasks| && PrefixValid(cfg, w, Some(cks), tasks, p)
    requires !BatchHas(cfg, w, cks, tasks[p..q], Raises) && !BatchHas(cfg, w, cks, tasks[p..q], Invalid)
    ensures PrefixValid(cfg, w, Some(cks), tasks, q)
  {
    hide Validate;
    forall i | p <= i < q ensures Validate(cfg, w, tasks[i], cks) == Valid {
      assert tasks[p..q][i - p] == tasks[i] && tasks[i] in tasks[p..q];
    }
  }

  lemma BatchCheckRecords(cfg: Config, w: World, cks: seq<string>, b: Batch, tasks: seq<string>, p: nat) returns (q: nat)
    requires NoDup(tasks) && p <= |tasks| && b.source == tasks && b.gen == tasks[..p]
    requires b.tbd == tasks[p..Min(p + cfg.batchSize, |tasks|)] && PrefixValid(cfg, w, Some(cks), tasks, p)
    ensures q <= |tasks| && CheckBatch(cfg, w, cks, b).1.gen == tasks[..q] && PrefixValid(cfg, w, Some(cks), tasks, q)
  {
    hide Validate, Completed, PrefixValid, BatchHas, NoDup, AppendNew;
    q := p;
    if b.tbd != [] && !BatchHas(cfg, w, cks, b.tbd, Raises) && !BatchHas(cfg, w, cks, b.tbd, Invalid) {
      q := Min(p + cfg.batchSize, |tasks|);
      BatchIsValid(cfg, w, cks, tasks, p, q);
      AppendFresh(tasks, p, q);
      CompletedKeepsGen(b.(gen := AppendNew(b.gen, b.tbd)), cfg.batchSize);
    }
  }

  /** The prefix invariant: a call that is acted on leaves, from any recorded list whatsoever, a prefix of the current
      targets recorded in source order, and each of them is valid. */
  lemma CallRecordsPrefix(cfg: Config, w: World, b: Batch) returns (q: nat)
    requires AllSeparatorFree(w.matched) && w.cks.Some? && !StopsAt(cfg, w, b.gen, w.cks, Faulty)
    ensures var tasks := AllTasks(cfg, w);
            q <= |tasks| && CheckCall(cfg, w, b).1.gen == tasks[..q] && PrefixValid(cfg, w, w.cks, tasks, q)
  {
    hide AllTasks, StopsAt, ProgressError, ConfigurationError, CheckBatch, SourceFiles, Refreshed, NoDup, PrefixValid,
      AllSeparatorFree;
    q := RefreshedShape(cfg, w, b.gen, w.cks);
    var b1 := Refreshed(cfg, w, b.gen, w.cks);
    if !ConfigurationError(w) && !ProgressError(cfg, w, b.gen, w.cks) && !StopsAt(cfg, w, b.gen, w.cks, Broken) && b1.source != [] {
      q := BatchCheckRecords(cfg, w, w.cks.value, b1, AllTasks(cfg, w), q);
    }
  }

  /** A restart loses nothing: saving the lists a call left, loading them in the same world and refreshing records the
      same targets again, without progress or validation errors. */
  lemma RestartLosesNothing(cfg: Config, w: World, b: Batch, other: Batch)
    requires AllSeparatorFree(w.matched) && w.cks.Some? && !StopsAt(cfg, w, b.gen, w.cks, Faulty)
    ensures var saved := CheckCall(cfg, w, b).1;
            && Next(cfg, other, Restart(w, saved)).gen == saved.gen
            && !ProgressError(cfg, w, saved.gen, w.cks)
            && !StopsAt(cfg, w, saved.gen, w.cks, Broken) && !StopsAt(cfg, w, saved.gen, w.cks, Faulty)
  {
    hide AllTasks, StopsAt, ProgressError, PrefixValid, AllSeparatorFree, DistinctBases, CheckCall, Healed;
    var q := CallRecordsPrefix(cfg, w, b);
    FreeNames(cfg, w);
    BasesAreDistinct(cfg, w);
    PrefixIsHealed(cfg, w, w.cks, q);
  }
}
