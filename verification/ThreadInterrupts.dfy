/** Interrupts that fall between two atomic steps of a thread, and the commands they leave behind (ucagent/verify_pdb.py). */
module ThreadInterrupts {
  import opened Text
  import opened Lists
  import opened Registry
  import opened ThreadAborts

  /** A step of some thread, or the KeyboardInterrupt that `request_thread_interrupt` raises in a thread. */
  datatype Event = Do(step: Step) | Interrupt(of: int)

  function ThreadOf(e: Event): int
  {
    match e
    case Do(step) => step.thread
    case Interrupt(thread) => thread
  }

  /** An interrupt makes the thread leave what it was doing: a token it has registered is not pushed any more, and one it
      has popped is not finished. */
  function Occur(m: Machine, e: Event): Machine
  {
    match e
    case Do(step) => Next(m, step)
    case Interrupt(thread) => m.(hands := m.hands - {thread})
  }

  function RunEvents(m: Machine, events: seq<Event>): Machine
    decreases |events|
  {
    if events == [] then m else RunEvents(Occur(m, events[0]), events[1..])
  }

  /** What an event takes out of a hand for good: the thread and the token. */
  function DroppedBy(m: Machine, e: Event): set<(int, nat)>
  {
    if e.Interrupt? && e.of in m.hands then {(e.of, m.hands[e.of].token)} else {}
  }

  function Dropped(m: Machine, events: seq<Event>): set<(int, nat)>
    decreases |events|
  {
    if events == [] then {} else DroppedBy(m, events[0]) + Dropped(Occur(m, events[0]), events[1..])
  }

  // ---------------------------------------------------------------- the machine without the lost commands

  function Kept(running: seq<Entry>, lost: set<(int, nat)>): seq<Entry>
  {
    if running == [] then []
    else if (running[0].thread, running[0].token) in lost then Kept(running[1..], lost)
    else [running[0]] + Kept(running[1..], lost)
  }

  function Erase(m: Machine, lost: set<(int, nat)>): Machine
  {
    var running := Kept(m.r.running, lost);
    m.(r := m.r.(running := running, current := Newest(running)))
  }

  /** Without the lost commands the invariant of the uninterrupted machine holds; the lost ones are all still live. */
  ghost predicate LeakInv(m: Machine, lost: set<(int, nat)>)
  {
    && TokensAscend(m.r.running) && Inv(Erase(m, lost)) && m.r.current == Newest(m.r.running)
    && forall t, k: nat :: (t, k) in lost ==> LiveFor(m.r.running, t, k) && k <= m.r.lastToken
  }

  lemma {:induction false} KeptItems(running: seq<Entry>, lost: set<(int, nat)>, e: Entry)
    ensures e in Kept(running, lost) <==> e in running && (e.thread, e.token) !in lost
    decreases |running|
  {
    if running != [] {
      KeptItems(running[1..], lost, e);
    }
  }

  lemma {:induction false} KeptAppend(running: seq<Entry>, lost: set<(int, nat)>, e: Entry)
    requires (e.thread, e.token) !in lost
    ensures Kept(running + [e], lost) == Kept(running, lost) + [e]
    decreases |running|
  {
    if running == [] {
      assert running + [e] == [e];
    } else {
      assert (running + [e])[1..] == running[1..] + [e];
      KeptAppend(running[1..], lost, e);
    }
  }

  lemma {:induction false} KeptWithout(running: seq<Entry>, lost: set<(int, nat)>, token: nat)
    ensures Kept(Without(running, token), lost) == Without(Kept(running, lost), token)
    decreases |running|
  {
    if running != [] {
      KeptWithout(running[1..], lost, token);
    }
  }

  /** Losing one more command is finishing it in the machine without the lost ones. */
  lemma {:induction false} LosingOneMore(running: seq<Entry>, lost: set<(int, nat)>, t: int, k: nat)
    requires forall i :: 0 <= i < |running| && running[i].token == k ==> running[i].thread == t
    ensures Kept(running, lost + {(t, k)}) == Without(Kept(running, lost), k)
    decreases |running|
  {
    if running != [] {
      LosingOneMore(running[1..], lost, t, k);
    }
  }

  lemma ErasedHolds(m: Machine, lost: set<(int, nat)>, thread: int)
    ensures Held(Erase(m, lost), thread) == Held(m, thread)
  {
  }

  /** A held token is live for its holder, and is not lost. */
  lemma HeldIsKept(m: Machine, lost: set<(int, nat)>, thread: int, k: nat)
    requires LeakInv(m, lost) && k in Held(m, thread)
    ensures LiveFor(m.r.running, thread, k) && forall t :: (t, k) !in lost
  {
    hide Held, Kept, Newest, StackOf;
    ErasedHolds(m, lost, thread);
    assert HoldsLive(Erase(m, lost), thread);
    var f :| f in Kept(m.r.running, lost) && f.token == k && f.thread == thread;
    KeptItems(m.r.running, lost, f);
    forall t ensures (t, k) !in lost {
      if (t, k) in lost {
        var e :| e in m.r.running && e.token == k && e.thread == t;
        SameTokenSameEntry(m.r.running, e, f);
      }
    }
  }

  // ---------------------------------------------------------------- every event keeps the invariant

  /** Erasing the lost commands before or after a step makes no difference. */
  lemma EraseCommutes(m: Machine, lost: set<(int, nat)>, step: Step)
    requires forall t, k: nat :: (t, k) in lost ==> k <= m.r.lastToken
    requires m.r.current == Newest(m.r.running)
    ensures Erase(Next(m, step), lost) == Next(Erase(m, lost), step)
  {
    hide Strip, IsBlank, Without, Newest, Kept, StackOf;
    match step
    case Register(t, line, opensTui, foreground) =>
      var e := Entry(m.r.lastToken + 1, Strip(line), t, foreground);
      KeptAppend(m.r.running, lost, e);
      NewestIsLast(Kept(m.r.running, lost), e);
    case Push(_) => MoveCommutes(m, lost, step);
    case Pop(_) => MoveCommutes(m, lost, step);
    case Finish(t) =>
      if t in m.hands { KeptWithout(m.r.running, lost, m.hands[t].token); }
  }

  lemma MoveCommutes(m: Machine, lost: set<(int, nat)>, step: Step)
    requires step.Push? || step.Pop?
    ensures Erase(Next(m, step), lost) == Next(Erase(m, lost), step)
  {
    hide Newest, Kept;
  }

  lemma TableAfter(m: Machine, step: Step)
    ensures var r := Next(m, step).r;
            || (r.running == m.r.running && r.lastToken == m.r.lastToken && r.current == m.r.current)
            || (exists e: Entry :: r.running == m.r.running + [e] && e.token == r.lastToken == m.r.lastToken + 1
                                   && r.current == Some(e.command))
            || (step.Finish? && step.thread in m.hands && r.running == Without(m.r.running, m.hands[step.thread].token)
                && r.lastToken == m.r.lastToken && r.current == Newest(r.running))
  {
    hide Strip, IsBlank, Without, Newest, StackOf;
    match step
    case Register(t, line, opensTui, foreground) =>
      var e := Entry(m.r.lastToken + 1, Strip(line), t, foreground);
      assert Next(m, step).r.running == m.r.running || Next(m, step).r.running == m.r.running + [e];
    case Push(_) =>
    case Pop(_) =>
    case Finish(_) =>
  }

  lemma HandIsHeld(m: Machine, t: int)
    requires t in m.hands
    ensures m.hands[t].token in Held(m, t)
  {
  }

  lemma LastTokenBounds(m: Machine, lost: set<(int, nat)>, e: Entry)
    requires LeakInv(m, lost) && e in m.r.running
    ensures e.token <= m.r.lastToken
  {
    hide Held, Kept, Newest, HoldsLive;
    KeptItems(m.r.running, lost, e);
    if (e.thread, e.token) !in lost { assert e in Erase(m, lost).r.running; }
  }

  /** The table stays in order, the current command the newest, and the lost commands live. */
  lemma StepKeepsTable(m: Machine, lost: set<(int, nat)>, step: Step)
    requires LeakInv(m, lost)
    ensures var r := Next(m, step).r;
            && TokensAscend(r.running) && r.current == Newest(r.running)
            && forall t, k: nat :: (t, k) in lost ==> LiveFor(r.running, t, k) && k <= r.lastToken
  {
    hide Next, Held, Kept, Newest, Inv, Without, StackOf, Erase;
    var r := Next(m, step).r;
    TableAfter(m, step);
    if e: Entry :| r.running == m.r.running + [e] && e.token == r.lastToken == m.r.lastToken + 1 && r.current == Some(e.command) {
      forall f | f in m.r.running ensures f.token <= m.r.lastToken { LastTokenBounds(m, lost, f); }
      AscendsAfter(m.r.running, m.r.lastToken, e);
      NewestIsLast(m.r.running, e);
      forall t, k | (t, k) in lost ensures LiveFor(r.running, t, k) { LiveInMore(m.r.running, e, t, k); }
    } else if r.running != m.r.running {
      var token := m.hands[step.thread].token;
      HandIsHeld(m, step.thread);
      HeldIsKept(m, lost, step.thread, token);
      WithoutFacts(m.r.running, token);
      forall t, k | (t, k) in lost ensures LiveFor(r.running, t, k) { LiveWithout(m.r.running, token, t, k); }
    }
  }

  lemma LiveInMore(running: seq<Entry>, e: Entry, t: int, k: nat)
    requires LiveFor(running, t, k)
    ensures LiveFor(running + [e], t, k)
  {
    var f :| f in running && f.token == k && f.thread == t;
    assert f in running + [e];
  }

  lemma LiveWithout(running: seq<Entry>, token: nat, t: int, k: nat)
    requires LiveFor(running, t, k) && k != token
    ensures LiveFor(Without(running, token), t, k)
  {
    hide Without;
    var f :| f in running && f.token == k && f.thread == t;
    WithoutItem(running, token, f);
  }

  lemma StepKeepsLeakInv(m: Machine, lost: set<(int, nat)>, step: Step)
    requires LeakInv(m, lost)
    ensures LeakInv(Next(m, step), lost)
  {
    hide Next, Erase, Inv, Newest, TokensAscend, LiveFor;
    EraseCommutes(m, lost, step);
    StepKeepsInv(Erase(m, lost), step);
    StepKeepsTable(m, lost, step);
  }

  /** The invariant does not tell a registered token from a popped one. */
  lemma AnyHand(m: Machine, t: int, k: nat)
    requires Inv(m) && t in m.hands && m.hands[t].token == k
    ensures Inv(m.(hands := m.hands[t := ToFinish(k)]))
  {
    hide Newest, TokensAscend, NoEmptyStacks, StackOf;
    var n := m.(hands := m.hands[t := ToFinish(k)]);
    forall u ensures Held(n, u) == Held(m, u) {}
    hide Held;
    forall u ensures HoldsLive(n, u) { assert HoldsLive(m, u); }
  }

  lemma InterruptKeepsLeakInv(m: Machine, lost: set<(int, nat)>, t: int)
    requires LeakInv(m, lost)
    ensures LeakInv(Occur(m, Interrupt(t)), lost + DroppedBy(m, Interrupt(t)))
  {
    hide Inv, Newest, TokensAscend, LiveFor, Kept, Held, StackOf, Without;
    var m' := Occur(m, Interrupt(t));
    if t in m.hands {
      var k := m.hands[t].token;
      HandIsHeld(m, t);
      HeldIsKept(m, lost, t, k);
      OneOwner(m.r.running, t, k);
      LosingOneMore(m.r.running, lost, t, k);
      var n := Erase(m, lost);
      var n' := n.(hands := n.hands[t := ToFinish(k)]);
      AnyHand(n, t, k);
      StepKeepsInv(n', Finish(t));
      assert n'.hands - {t} == m.hands - {t};
      assert Next(n', Finish(t)) == Erase(m', lost + {(t, k)});
      LiveIsBounded(m, lost, t, k);
    } else {
      assert m.hands - {t} == m.hands;
      assert m' == m && lost + {} == lost;
    }
  }

  lemma LiveIsBounded(m: Machine, lost: set<(int, nat)>, t: int, k: nat)
    requires LeakInv(m, lost) && LiveFor(m.r.running, t, k)
    ensures k <= m.r.lastToken
  {
    hide Erase, Inv, Newest;
    var e :| e in m.r.running && e.token == k && e.thread == t;
    LastTokenBounds(m, lost, e);
  }

  lemma OneOwner(running: seq<Entry>, t: int, k: nat)
    requires TokensAscend(running) && LiveFor(running, t, k)
    ensures forall i :: 0 <= i < |running| && running[i].token == k ==> running[i].thread == t
  {
    var own :| own in running && own.token == k && own.thread == t;
    forall i | 0 <= i < |running| && running[i].token == k ensures running[i].thread == t {
      SameTokenSameEntry(running, running[i], own);
    }
  }

  lemma {:induction false} EventsKeepLeakInv(m: Machine, lost: set<(int, nat)>, events: seq<Event>)
    requires LeakInv(m, lost)
    ensures LeakInv(RunEvents(m, events), lost + Dropped(m, events))
    decreases |events|
  {
    hide LeakInv, Next;
    if events == [] {
      assert lost + {} == lost;
    } else {
      var e := events[0];
      match e {
        case Do(step) =>
          StepKeepsLeakInv(m, lost, step);
          assert lost + DroppedBy(m, e) == lost;
        case Interrupt(t) => InterruptKeepsLeakInv(m, lost, t);
      }
      EventsKeepLeakInv(Occur(m, e), lost + DroppedBy(m, e), events[1..]);
      assert lost + (DroppedBy(m, e) + Dropped(Occur(m, e), events[1..])) ==
             (lost + DroppedBy(m, e)) + Dropped(Occur(m, e), events[1..]);
    }
  }

  lemma StartHasNoLeaks()
    ensures LeakInv(START, {})
  {
    StartIsFine();
    assert Erase(START, {}) == START;
  }

  // ---------------------------------------------------------------- which commands are left behind

  /** What is live is what is held and, beside it, what is lost. */
  lemma LeakInvPartitions(m: Machine, lost: set<(int, nat)>, t: int, k: nat)
    requires LeakInv(m, lost)
    ensures LiveFor(m.r.running, t, k) <==> k in Held(m, t) || (t, k) in lost
    ensures (t, k) in lost ==> !IsHeld(m, k)
  {
    hide Held, Kept, Newest, Inv, StackOf;
    if (t, k) in lost && IsHeld(m, k) {
      var u :| k in Held(m, u);
      HeldIsKept(m, lost, u, k);
      assert false;
    }
    if k in Held(m, t) { HeldIsKept(m, lost, t, k); }
    if LiveFor(m.r.running, t, k) && (t, k) !in lost {
      var e :| e in m.r.running && e.token == k && e.thread == t;
      KeptItems(m.r.running, lost, e);
      ErasedIsHeld(m, lost, e);
    }
  }

  lemma ErasedIsHeld(m: Machine, lost: set<(int, nat)>, e: Entry)
    requires LeakInv(m, lost) && e in Kept(m.r.running, lost)
    ensures e.token in Held(m, e.thread)
  {
    hide Held, Kept, Newest, HoldsLive;
    ErasedHolds(m, lost, e.thread);
    assert e in Erase(m, lost).r.running;
  }

  /** Over all interleavings with interrupts: a thread has a live command if and only if it holds its token or an interrupt
      took it out of the thread's hand. So a token leaks, live and held by nobody, if and only if an interrupt found it in a
      hand: between registering and pushing, or between popping and finishing. */
  lemma LeaksIff(events: seq<Event>)
    ensures var m, lost := RunEvents(START, events), Dropped(START, events);
            && (forall t, k: nat :: LiveFor(m.r.running, t, k) <==> k in Held(m, t) || (t, k) in lost)
            && (forall t, k: nat :: (t, k) in lost ==> !IsHeld(m, k))
            && (forall k: nat :: IsLive(m, k) && !IsHeld(m, k) <==> exists t :: (t, k) in lost)
            && (forall a, b, k :: k in Held(m, a) && k in Held(m, b) ==> a == b)
            && m.r.current == Newest(m.r.running)
  {
    hide LeakInv, RunEvents, Dropped, LiveFor, Held;
    StartHasNoLeaks();
    EventsKeepLeakInv(START, {}, events);
    var m, lost := RunEvents(START, events), Dropped(START, events);
    assert {} + lost == lost;
    forall t, k: nat ensures (LiveFor(m.r.running, t, k) <==> k in Held(m, t) || (t, k) in lost)
                        && ((t, k) in lost ==> !IsHeld(m, k)) {
      LeakInvPartitions(m, lost, t, k);
    }
    forall k: nat ensures IsLive(m, k) <==> exists t :: LiveFor(m.r.running, t, k) { LiveForSomebody(m, k); }
    LeakInvHolds(m, lost);
  }

  lemma LiveForSomebody(m: Machine, k: nat)
    ensures IsLive(m, k) <==> exists t :: LiveFor(m.r.running, t, k)
  {
    if IsLive(m, k) {
      var e :| e in m.r.running && e.token == k;
      assert LiveFor(m.r.running, e.thread, k);
    }
  }

  lemma LeakInvHolds(m: Machine, lost: set<(int, nat)>)
    requires LeakInv(m, lost)
    ensures m.r.current == Newest(m.r.running)
    ensures forall a, b, k :: k in Held(m, a) && k in Held(m, b) ==> a == b
  {
    hide Inv, Held, Kept, Newest;
    InvPartitions(Erase(m, lost));
    forall t ensures Held(Erase(m, lost), t) == Held(m, t) { ErasedHolds(m, lost, t); }
  }

  lemma {:induction false} RunInParts(m: Machine, a: seq<Event>, b: seq<Event>)
    ensures RunEvents(m, a + b) == RunEvents(RunEvents(m, a), b)
    ensures Dropped(m, a + b) == Dropped(m, a) + Dropped(RunEvents(m, a), b)
    decreases |a|
  {
    hide Occur, DroppedBy;
    if a == [] {
      assert a + b == b;
    } else {
      assert (a + b)[1..] == a[1..] + b;
      RunInParts(Occur(m, a[0]), a[1..], b);
    }
  }

  /** A leaked command stays live, whatever happens afterwards. */
  lemma LeakedForever(before: seq<Event>, after: seq<Event>, t: int, k: nat)
    requires (t, k) in Dropped(START, before)
    ensures LiveFor(RunEvents(START, before + after).r.running, t, k) && !IsHeld(RunEvents(START, before + after), k)
    ensures RunEvents(START, before + after).r.current.Some?
  {
    hide RunEvents, Dropped, IsHeld;
    RunInParts(START, before, after);
    LeaksIff(before + after);
  }

  // ---------------------------------------------------------------- the abort loop of an interrupted thread

  function OwnEvents(events: seq<Event>, thread: int): seq<Event>
  {
    if events == [] then []
    else if ThreadOf(events[0]) == thread then [events[0]] + OwnEvents(events[1..], thread)
    else OwnEvents(events[1..], thread)
  }

  function AsEvents(steps: seq<Step>): (r: seq<Event>)
    ensures |r| == |steps| && forall i :: 0 <= i < |r| ==> r[i] == Do(steps[i])
  {
    Map(steps, (s: Step) => Do(s))
  }

  lemma OtherEvent(m: Machine, e: Event, thread: int)
    requires ThreadOf(e) != thread
    ensures SameFor(Occur(m, e), m, thread) && forall k: nat :: (thread, k) !in DroppedBy(m, e)
  {
    hide Next;
    if e.Do? { StepMovesOnly(m, e.step, thread); }
  }

  lemma {:induction false} AllDrains(m: Machine, events: seq<Event>, thread: int, inRound: bool, k: nat)
    requires Enough(m, thread, inRound, k) && OwnEvents(events, thread) == AsEvents(StillToDo(thread, inRound, k))
    ensures Held(RunEvents(m, events), thread) == []
    ensures forall j: nat :: (thread, j) !in Dropped(m, events)
    decreases |events|
  {
    hide Next, StillToDo, StackOf, DroppedBy, Occur;
    NextToDo(thread, inRound, k);
    if events == [] {
      assert StillToDo(thread, inRound, k) == [];
      NothingToDo(m, thread, inRound, k);
    } else {
      var e, rest := events[0], OwnEvents(events[1..], thread);
      if ThreadOf(e) != thread {
        OtherEvent(m, e, thread);
        AllDrains(Occur(m, e), events[1..], thread, inRound, k);
      } else {
        var todo := StillToDo(thread, inRound, k);
        assert ([e] + rest)[0] == e && ([e] + rest)[1..] == rest;
        assert e == Do(todo[0]) && rest == AsEvents(todo[1..]);
        OwnMove(m, thread, inRound, k);
        DoneStep(m, todo[0]);
        assert todo[1..] == StillToDo(thread, !inRound, if inRound then k else k - 1);
        AllDrains(Occur(m, e), events[1..], thread, !inRound, if inRound then k else k - 1);
      }
    }
  }

  lemma DoneStep(m: Machine, step: Step)
    ensures Occur(m, Do(step)) == Next(m, step) && DroppedBy(m, Do(step)) == {}
  {
  }

  lemma NothingToDo(m: Machine, thread: int, inRound: bool, k: nat)
    requires Enough(m, thread, inRound, k) && StillToDo(thread, inRound, k) == []
    ensures Held(m, thread) == []
  {
    NextToDo(thread, inRound, k);
  }

  /** An interrupted thread that then drains its stack. */
  lemma {:induction false} InterruptThenDrain(m: Machine, events: seq<Event>, thread: int, k: nat)
    requires |StackOf(m.r, thread)| <= k
    requires OwnEvents(events, thread) == [Interrupt(thread)] + AsEvents(AbortLoop(thread, k))
    ensures Held(RunEvents(m, events), thread) == []
    ensures forall j: nat :: (thread, j) in Dropped(m, events) <==> thread in m.hands && m.hands[thread].token == j
    decreases |events|
  {
    hide Next, StackOf, AbortLoop;
    var e, rest := events[0], OwnEvents(events[1..], thread);
    if ThreadOf(e) != thread {
      OtherEvent(m, e, thread);
      InterruptThenDrain(Occur(m, e), events[1..], thread, k);
    } else {
      assert ([e] + rest)[0] == e && ([e] + rest)[1..] == rest;
      SeqAssoc(AbortLoop(thread, k), [], []);
      AllDrains(Occur(m, e), events[1..], thread, false, k);
    }
  }

  /** A thread that is interrupted at any point and then runs its abort loop, whatever the others do meanwhile: it holds
      nothing, and the commands it still has in the table are those it lost before and the one that was in its hand. */
  lemma AbortAfterInterrupt(before: seq<Event>, events: seq<Event>, thread: int, k: nat)
    requires |StackOf(RunEvents(START, before).r, thread)| <= k
    requires OwnEvents(events, thread) == [Interrupt(thread)] + AsEvents(AbortLoop(thread, k))
    ensures var m, end := RunEvents(START, before), RunEvents(START, before + events);
            && Held(end, thread) == []
            && forall j: nat :: LiveFor(end.r.running, thread, j) <==>
                           (thread, j) in Dropped(START, before) || (thread in m.hands && m.hands[thread].token == j)
  {
    hide RunEvents, Dropped, LiveFor, Held, OwnEvents, AbortLoop, AsEvents, StackOf;
    var m := RunEvents(START, before);
    RunInParts(START, before, events);
    InterruptThenDrain(m, events, thread, k);
    LeaksIff(before + events);
  }
}
