/** Aborting the commands of one thread while the other threads go on (ucagent/verify_pdb.py). */
module ThreadAborts {
  import opened Text
  import opened Lists
  import opened Registry
  import opened RunningCommands

  /** The steps of one thread. */
  function OwnSteps(steps: seq<Step>, thread: int): seq<Step>
  {
    if steps == [] then []
    else (if steps[0].thread == thread then [steps[0]] else []) + OwnSteps(steps[1..], thread)
  }

  /** The steps of all other threads. */
  function OtherSteps(steps: seq<Step>, thread: int): seq<Step>
  {
    if steps == [] then []
    else (if steps[0].thread == thread then [] else [steps[0]]) + OtherSteps(steps[1..], thread)
  }

  /** `k` rounds of the abort loop: pop a token, finish it. */
  function AbortLoop(thread: int, k: nat): seq<Step>
  {
    if k == 0 then [] else [Pop(thread), Finish(thread)] + AbortLoop(thread, k - 1)
  }

  // ---------------------------------------------------------------- what the other threads see

  /** The two machines differ in the tokens and entries of `thread` only. */
  ghost predicate SameForOthers(m: Machine, n: Machine, thread: int)
  {
    && m.r.lastToken == n.r.lastToken
    && OthersOf(m.r.running, thread) == OthersOf(n.r.running, thread)
    && forall u :: u != thread ==> SameFor(m, n, u)
  }

  predicate SameFor(m: Machine, n: Machine, u: int)
  {
    && StackOf(m.r, u) == StackOf(n.r, u)
    && (u in m.hands <==> u in n.hands) && (u in m.hands ==> m.hands[u] == n.hands[u])
  }

  lemma {:induction false} FiltersCommute(running: seq<Entry>, thread: int, token: nat)
    ensures OthersOf(Without(running, token), thread) == Without(OthersOf(running, thread), token)
    decreases |running|
  {
    if running != [] {
      FiltersCommute(running[1..], thread, token);
    }
  }

  lemma {:induction false} OthersAppend(running: seq<Entry>, e: Entry, thread: int)
    requires e.thread != thread
    ensures OthersOf(running + [e], thread) == OthersOf(running, thread) + [e]
    decreases |running|
  {
    if running == [] {
      assert running + [e] == [e];
    } else {
      assert (running + [e])[1..] == running[1..] + [e];
      OthersAppend(running[1..], e, thread);
    }
  }

  /** Only the stack and the hand of the stepping thread change. */
  lemma StepMovesOnly(m: Machine, step: Step, u: int)
    requires u != step.thread
    ensures SameFor(Next(m, step), m, u)
  {
    hide Strip, IsBlank, Without, Newest;
  }

  lemma SteppingThread(m: Machine, n: Machine, step: Step)
    requires SameFor(m, n, step.thread) && m.r.lastToken == n.r.lastToken
    ensures SameFor(Next(m, step), Next(n, step), step.thread)
    ensures Next(m, step).r.lastToken == Next(n, step).r.lastToken
  {
    hide Strip, IsBlank, Without, Newest;
  }

  lemma SteppingTable(m: Machine, n: Machine, step: Step, thread: int)
    requires SameForOthers(m, n, thread) && step.thread != thread
    ensures OthersOf(Next(m, step).r.running, thread) == OthersOf(Next(n, step).r.running, thread)
  {
    hide Strip, IsBlank, Without, Newest, OthersOf, StackOf;
    var t := step.thread;
    assert SameFor(m, n, t);
    match step
    case Register(_, line, _, foreground) =>
      var e := Entry(m.r.lastToken + 1, Strip(line), t, foreground);
      OthersAppend(m.r.running, e, thread);
      OthersAppend(n.r.running, e, thread);
    case Push(_) =>
    case Pop(_) => PopKeepsTable(m, step); PopKeepsTable(n, step);
    case Finish(_) =>
      if t in m.hands {
        FiltersCommute(m.r.running, thread, m.hands[t].token);
        FiltersCommute(n.r.running, thread, n.hands[t].token);
      }
  }

  lemma PopKeepsTable(m: Machine, step: Step)
    requires step.Pop?
    ensures Next(m, step).r.running == m.r.running && Next(m, step).r.lastToken == m.r.lastToken
  {
    hide StackOf;
  }

  /** A step of another thread does the same to both machines. */
  lemma OtherStep(m: Machine, n: Machine, step: Step, thread: int)
    requires SameForOthers(m, n, thread) && step.thread != thread
    ensures SameForOthers(Next(m, step), Next(n, step), thread)
  {
    assert SameFor(m, n, step.thread);
    hide Next, OthersOf, StackOf;
    SteppingTable(m, n, step, thread);
    SteppingThread(m, n, step);
    forall u | u != thread ensures SameFor(Next(m, step), Next(n, step), u) {
      if u != step.thread {
        StepMovesOnly(m, step, u);
        StepMovesOnly(n, step, u);
        assert SameFor(m, n, u);
      }
    }
  }

  /** Popping and finishing own tokens is invisible to the others. */
  lemma OwnStep(m: Machine, step: Step)
    requires Inv(m) && (step.Pop? || step.Finish?)
    ensures SameForOthers(Next(m, step), m, step.thread)
  {
    var t, m' := step.thread, Next(m, step);
    if step.Finish? && t in m.hands && m.hands[t].ToFinish? {
      var k := m.hands[t].token;
      assert HoldsLive(m, t) && k in Held(m, t);
      assert m'.r.running == Without(m.r.running, k) && m'.r.lastToken == m.r.lastToken;
      hide Held, Without, OthersOf, Next;
      var own :| own in m.r.running && own.token == k && own.thread == t;
      forall e | e in m.r.running && e.token == k ensures e.thread == t {
        SameTokenSameEntry(m.r.running, e, own);
      }
      OthersWithout(m.r.running, t, k);
    } else {
      assert m'.r.running == m.r.running && m'.r.lastToken == m.r.lastToken;
    }
    hide Inv, Next, OthersOf;
    forall u | u != t ensures SameFor(m', m, u) { StepMovesOnly(m, step, u); }
  }

  lemma SameTransitive(a: Machine, b: Machine, c: Machine, thread: int)
    requires SameForOthers(a, b, thread) && SameForOthers(b, c, thread)
    ensures SameForOthers(a, c, thread)
  {
    hide StackOf, OthersOf;
    forall u | u != thread ensures SameFor(a, c, u) {
      assert SameFor(a, b, u) && SameFor(b, c, u);
    }
  }

  lemma StepKeepsInv(m: Machine, step: Step)
    requires Inv(m)
    ensures Inv(Next(m, step))
  {
    hide Inv, Next;
    RunKeepsInv(m, [step]);
    OneStepRun(m, step);
  }

  lemma OneStepRun(m: Machine, step: Step)
    ensures Run(m, [step]) == Next(m, step)
  {
    hide Next;
    assert [step][1..] == [];
    assert Run(Next(m, step), []) == Next(m, step);
  }

  /** Without the pops and finishes of `thread` the others would end up in the same state. */
  lemma {:induction false} OthersUnaffected(m: Machine, n: Machine, steps: seq<Step>, thread: int)
    requires Inv(m) && SameForOthers(m, n, thread)
    requires forall i :: 0 <= i < |steps| && steps[i].thread == thread ==> steps[i].Pop? || steps[i].Finish?
    ensures SameForOthers(Run(m, steps), Run(n, OtherSteps(steps, thread)), thread)
    decreases |steps|
  {
    hide Inv, Next, SameForOthers;
    if steps != [] {
      var step, rest := steps[0], OtherSteps(steps[1..], thread);
      StepKeepsInv(m, step);
      if step.thread == thread {
        OwnStep(m, step);
        SameTransitive(Next(m, step), m, n, thread);
        OthersUnaffected(Next(m, step), n, steps[1..], thread);
        SeqAssoc(rest, [], []);
      } else {
        OtherStep(m, n, step, thread);
        OthersUnaffected(Next(m, step), Next(n, step), steps[1..], thread);
        assert ([step] + rest)[1..] == rest;
      }
    }
  }

  // ---------------------------------------------------------------- what the thread itself is left with

  /** The steps the thread still takes: `k` rounds, after finishing the round it is in the middle of. */
  function StillToDo(thread: int, inRound: bool, k: nat): seq<Step>
  {
    (if inRound then [Finish(thread)] else []) + AbortLoop(thread, k)
  }

  /** There are enough rounds left. */
  predicate Enough(m: Machine, thread: int, inRound: bool, k: nat)
  {
    && |StackOf(m.r, thread)| <= k
    && (thread in m.hands ==> inRound && m.hands[thread].ToFinish?)
  }

  lemma NextToDo(thread: int, inRound: bool, k: nat)
    ensures !inRound && k == 0 ==> StillToDo(thread, inRound, k) == []
    ensures !inRound && k > 0 ==> StillToDo(thread, inRound, k) == [Pop(thread)] + StillToDo(thread, true, k - 1)
    ensures inRound ==> StillToDo(thread, inRound, k) == [Finish(thread)] + StillToDo(thread, false, k)
  {
    SeqAssoc(AbortLoop(thread, k), [], []);
    if k > 0 {
      SeqAssoc([Pop(thread)], [Finish(thread)], AbortLoop(thread, k - 1));
      assert [Pop(thread), Finish(thread)] == [Pop(thread)] + [Finish(thread)];
    }
  }

  lemma OwnMove(m: Machine, thread: int, inRound: bool, k: nat)
    requires Enough(m, thread, inRound, k) && (inRound || k > 0)
    ensures if inRound then Enough(Next(m, Finish(thread)), thread, false, k)
            else Enough(Next(m, Pop(thread)), thread, true, k - 1)
  {
    hide Without, Newest;
  }

  lemma OthersMove(m: Machine, step: Step, thread: int, inRound: bool, k: nat)
    requires Enough(m, thread, inRound, k) && step.thread != thread
    ensures Enough(Next(m, step), thread, inRound, k)
  {
    hide Next, StackOf;
    StepMovesOnly(m, step, thread);
  }

  lemma {:induction false} Drains(m: Machine, steps: seq<Step>, thread: int, inRound: bool, k: nat)
    requires Enough(m, thread, inRound, k) && OwnSteps(steps, thread) == StillToDo(thread, inRound, k)
    ensures StackOf(Run(m, steps).r, thread) == [] && thread !in Run(m, steps).hands
    decreases |steps|
  {
    hide Next, StillToDo;
    NextToDo(thread, inRound, k);
    if steps != [] {
      var rest := OwnSteps(steps[1..], thread);
      if steps[0].thread != thread {
        SeqAssoc(rest, [], []);
        OthersMove(m, steps[0], thread, inRound, k);
        Drains(Next(m, steps[0]), steps[1..], thread, inRound, k);
      } else {
        assert ([steps[0]] + rest)[0] == steps[0] && ([steps[0]] + rest)[1..] == rest;
        assert inRound || k > 0;
        OwnMove(m, thread, inRound, k);
        Drains(Next(m, steps[0]), steps[1..], thread, !inRound, if inRound then k else k - 1);
      }
    }
  }

  lemma {:induction false} LoopSteps(thread: int, k: nat)
    ensures forall s :: s in AbortLoop(thread, k) ==> s.Pop? || s.Finish?
    decreases k
  {
    if k > 0 {
      LoopSteps(thread, k - 1);
    }
  }

  lemma {:induction false} OwnStepsOccur(steps: seq<Step>, thread: int, i: nat)
    requires i < |steps| && steps[i].thread == thread
    ensures steps[i] in OwnSteps(steps, thread)
    decreases |steps|
  {
    if i > 0 {
      OwnStepsOccur(steps[1..], thread, i - 1);
    }
  }

  /** Whatever the other threads do between the steps of the abort loop: after as many rounds as the thread has tokens on
      its stack, it holds nothing and has no live command, and everybody else is exactly where they would be without it. */
  lemma AbortUnderInterference(m: Machine, steps: seq<Step>, thread: int, k: nat)
    requires Inv(m) && thread !in m.hands && |StackOf(m.r, thread)| <= k
    requires OwnSteps(steps, thread) == AbortLoop(thread, k)
    ensures var end, others := Run(m, steps), Run(m, OtherSteps(steps, thread));
            && Inv(end) && Held(end, thread) == []
            && end.r.running == OthersOf(others.r.running, thread) && end.r.lastToken == others.r.lastToken
            && (forall u :: u != thread ==> Held(end, u) == Held(others, u))
            && end.r.current == Newest(end.r.running)
  {
    hide Inv, Run, Newest, OthersOf, OwnSteps, OtherSteps;
    var end, others := Run(m, steps), Run(m, OtherSteps(steps, thread));
    RunKeepsInv(m, steps);
    SeqAssoc(AbortLoop(thread, k), [], []);
    Drains(m, steps, thread, false, k);
    forall i | 0 <= i < |steps| && steps[i].thread == thread ensures steps[i].Pop? || steps[i].Finish? {
      OwnStepsOccur(steps, thread, i);
      LoopSteps(thread, k);
    }
    OthersUnaffected(m, m, steps, thread);
    NothingLeftOf(end, thread);
    CurrentOfInv(end);
    forall u | u != thread ensures Held(end, u) == Held(others, u) {
      assert SameFor(end, others, u);
    }
  }
}
