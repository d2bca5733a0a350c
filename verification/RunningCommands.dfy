/** The debugger object that owns the running-command registry (ucagent/verify_pdb.py): its methods take
    the registry's steps, and the commands of one thread nest. */
module RunningCommands {
  import opened Text
  import opened Registry
  import Console

  /** The entries that do not belong to `thread`. */
  function OthersOf(running: seq<Entry>, thread: int): seq<Entry>
  {
    if running == [] then []
    else if running[0].thread == thread then OthersOf(running[1..], thread)
    else [running[0]] + OthersOf(running[1..], thread)
  }

  /** Entry `i` is the newest foreground command. */
  ghost predicate LastForeground(running: seq<Entry>, i: int)
  {
    && 0 <= i < |running| && running[i].foreground
    && forall k :: i < k < |running| ==> !running[k].foreground
  }

  class VerifyPdb {
    var runningCommands: seq<Entry>
    var runningCommandSeq: nat
    var currentCmd: Option<string>
    var stacks: map<int, seq<nat>>  // _running_commands_local, per thread
    var inTui: bool
    const console: Console.Transcript

    ghost function View(): Registry
      reads this
    {
      Registry(runningCommands, runningCommandSeq, currentCmd, stacks)
    }

    constructor ()
      ensures View() == START.r && !inTui && fresh(console) && console.Valid() && console.entries == []
    {
      runningCommands, runningCommandSeq, currentCmd, stacks, inTui := [], 0, None, map[], false;
      console := new Console.Transcript();
    }

    method RegisterRunningCommand(thread: int, line: string, opensTui: bool, foreground: bool) returns (token: Option<nat>)
      modifies this`runningCommands, this`runningCommandSeq, this`currentCmd
      ensures token == if Ignored(line, opensTui) then None else Some(old(runningCommandSeq) + 1)
      ensures View() == if token.None? then old(View()) else Registered(old(View()), thread, line, foreground)
    {
      var command := Strip(line);
      if command == "" || opensTui {
        return None;
      }
      runningCommandSeq := runningCommandSeq + 1;
      runningCommands := runningCommands + [Entry(runningCommandSeq, command, thread, foreground)];
      currentCmd := Some(command);
      return Some(runningCommandSeq);
    }

    method PushRunningCommandToken(thread: int, token: nat)
      modifies this`stacks
      ensures View() == WithStack(old(View()), thread, StackOf(old(View()), thread) + [token])
    {
      var stack := if thread in stacks then stacks[thread] else [];
      stack := stack + [token];
      stacks := stacks[thread := stack];
    }

    method PopRunningCommandToken(thread: int) returns (token: Option<nat>)
      modifies this`stacks
      ensures var stack := StackOf(old(View()), thread);
              if stack == [] then token.None? && View() == old(View())
              else token == Some(stack[|stack| - 1]) && View() == WithStack(old(View()), thread, stack[..|stack| - 1])
    {
      if thread !in stacks || stacks[thread] == [] {
        return None;
      }
      var stack := stacks[thread];
      token := Some(stack[|stack| - 1]);
      stack := stack[..|stack| - 1];
      if stack != [] {
        stacks := stacks[thread := stack];
      } else {
        stacks := stacks - {thread};
      }
    }

    method FinishRunningCommand(token: Option<nat>)
      modifies this`runningCommands, this`currentCmd
      ensures View() == if token.None? then old(View()) else Finished(old(View()), token.value)
    {
      if token.None? {
        return;
      }
      runningCommands := Without(runningCommands, token.value);
      if runningCommands != [] {
        currentCmd := Some(runningCommands[|runningCommands| - 1].command);
      } else {
        currentCmd := None;
      }
    }

    /** `precmd` records the command in the transcript, outside the TUI, and is the two steps Register and Push of its
        thread. */
    method Precmd(thread: int, line: string, opensTui: bool, foreground: bool)
      requires console.Valid()
      modifies this`runningCommands, this`runningCommandSeq, this`currentCmd, this`stacks, console
      ensures console.Valid()
      ensures console.entries ==
              if inTui then old(console.entries) else Console.Recorded(old(console.entries), Console.Cmd(line, opensTui))
      ensures View() == Run(Machine(old(View()), map[]), [Register(thread, line, opensTui, foreground), Push(thread)]).r
    {
      RunTwo(Machine(View(), map[]), Register(thread, line, opensTui, foreground), Push(thread));
      hide Run, Strip;
      var command := Strip(line);
      if !inTui && command != "" && !opensTui {
        console.RecordConsoleCommand(command, opensTui);
        StrippedTwice(line);
      }
      var token := RegisterRunningCommand(thread, line, opensTui, foreground);
      if token.Some? {
        PushRunningCommandToken(thread, token.value);
      }
    }

    /** `postcmd` is the two steps Pop and Finish of its thread, whatever command it belongs to. */
    method Postcmd(thread: int)
      modifies this
      ensures View() == Run(Machine(old(View()), map[]), [Pop(thread), Finish(thread)]).r
    {
      RunTwo(Machine(View(), map[]), Pop(thread), Finish(thread));
      hide Run, Finished;
      var token := PopRunningCommandToken(thread);
      FinishRunningCommand(token);
    }

    /** `_abort_running_commands_for_current_thread`: exactly the thread's own commands go, and the current
        command is again the newest live one. `hands` are the other threads in the middle of a step. */
    method AbortRunningCommandsForCurrentThread(thread: int, ghost hands: map<int, Hand>)
      requires thread !in hands && Inv(Machine(View(), hands))
      modifies this
      ensures Inv(Machine(View(), hands))
      ensures runningCommands == OthersOf(old(runningCommands), thread)
      ensures stacks == old(stacks) - {thread} && runningCommandSeq == old(runningCommandSeq)
      ensures currentCmd == Newest(runningCommands)
    {
      hide Inv, Next, Newest, OthersOf, Without;
      while true
        invariant Inv(Machine(View(), hands))
        invariant OthersOf(runningCommands, thread) == OthersOf(old(runningCommands), thread)
        invariant stacks - {thread} == old(stacks) - {thread} && runningCommandSeq == old(runningCommandSeq)
        decreases |StackOf(View(), thread)|
      {
        ghost var before := Machine(View(), hands);
        var token := PopRunningCommandToken(thread);
        if token.None? {
          NothingLeftOf(before, thread);
          break;
        }
        FinishRunningCommand(token);
        PopAndFinish(before, thread, token.value);
        assert Machine(View(), hands) == AfterPopAndFinish(before, thread);
      }
      NoEmptyStack(Machine(View(), hands), thread);
      CurrentOfInv(Machine(View(), hands));
    }

    /** `cancel_last_running_command`, up to the interrupt it sends: the thread of the newest foreground
        command. */
    method CancelLastRunningCommand() returns (target: Option<int>)
      ensures target.None? <==> forall e :: e in runningCommands ==> !e.foreground
      ensures target.Some? ==>
                exists i :: LastForeground(runningCommands, i) && target == Some(runningCommands[i].thread)
    {
      var i := |runningCommands|;
      while i > 0
        invariant 0 <= i <= |runningCommands|
        invariant forall k :: i <= k < |runningCommands| ==> !runningCommands[k].foreground
      {
        i := i - 1;
        if runningCommands[i].foreground {
          assert runningCommands[i] in runningCommands;
          return Some(runningCommands[i].thread);
        }
      }
      return None;
    }
  }

  lemma StrippedTwice(line: string)
    ensures Strip(Strip(line)) == Strip(line)
  {
    StripIsClean(line);
  }

  lemma RunTwo(m: Machine, a: Step, b: Step)
    ensures Run(m, [a, b]) == Next(Next(m, a), b)
  {
    hide Next;
    assert [a, b][1..] == [b] && [b][1..] == [];
    var m1 := Next(m, a);
    assert Run(m, [a, b]) == Run(m1, [b]);
    assert Run(m1, [b]) == Run(Next(m1, b), []);
  }

  function AfterPopAndFinish(m: Machine, thread: int): Machine
  {
    Next(Next(m, Pop(thread)), Finish(thread))
  }

  lemma NoEmptyStack(m: Machine, thread: int)
    requires Inv(m) && StackOf(m.r, thread) == []
    ensures m.r.stacks == m.r.stacks - {thread}
  {
  }

  lemma CurrentOfInv(m: Machine)
    requires Inv(m)
    ensures m.r.current == Newest(m.r.running)
  {
  }

  /** With an empty stack and nothing in its hand, a thread has no live command. */
  lemma NothingLeftOf(m: Machine, thread: int)
    requires Inv(m) && thread !in m.hands && StackOf(m.r, thread) == []
    ensures OthersOf(m.r.running, thread) == m.r.running
  {
    assert Held(m, thread) == [];
    forall i | 0 <= i < |m.r.running| ensures m.r.running[i].thread != thread {
      assert m.r.running[i] in m.r.running;
    }
    AllOthers(m.r.running, thread);
  }

  lemma {:induction false} AllOthers(running: seq<Entry>, thread: int)
    requires forall i :: 0 <= i < |running| ==> running[i].thread != thread
    ensures OthersOf(running, thread) == running
    decreases |running|
  {
    if running != [] {
      AllOthers(running[1..], thread);
    }
  }

  lemma PopAndFinish(m: Machine, thread: int, token: nat)
    requires Inv(m) && thread !in m.hands
    requires var stack := StackOf(m.r, thread); stack != [] && token == stack[|stack| - 1]
    ensures var m' := AfterPopAndFinish(m, thread);
            && Inv(m') && m'.hands == m.hands
            && m'.r == Finished(WithStack(m.r, thread, StackOf(m.r, thread)[..|StackOf(m.r, thread)| - 1]), token)
            && OthersOf(m'.r.running, thread) == OthersOf(m.r.running, thread)
  {
    var m1 := Next(m, Pop(thread));
    var m2 := Next(m1, Finish(thread));
    assert m1.hands - {thread} == m.hands;
    assert m2.r.running == Without(m.r.running, token);
    assert token in Held(m, thread);
    hide Next, Without, Held;
    MoveKeepsInv(m, Pop(thread));
    if m2 != m1 { FinishKeepsInv(m1, Finish(thread)); }
    assert HoldsLive(m, thread);
    var own :| own in m.r.running && own.token == token && own.thread == thread;
    forall e | e in m.r.running && e.token == token ensures e.thread == thread {
      SameTokenSameEntry(m.r.running, e, own);
    }
    OthersWithout(m.r.running, thread, token);
  }

  lemma {:induction false} OthersWithout(running: seq<Entry>, thread: int, token: nat)
    requires forall e :: e in running && e.token == token ==> e.thread == thread
    ensures OthersOf(Without(running, token), thread) == OthersOf(running, thread)
    decreases |running|
  {
    if running != [] {
      OthersWithout(running[1..], thread, token);
      assert running[0] in running;
    }
  }

  /** In every reachable state, the thread that `cancel` interrupts holds the largest foreground token. */
  lemma CancelHitsOwner(steps: seq<Step>, i: nat)
    requires LastForeground(Run(START, steps).r.running, i)
    ensures var m := Run(START, steps); var e := m.r.running[i];
            && e.token in Held(m, e.thread)
            && forall f :: f in m.r.running && f.foreground ==> f.token <= e.token
  {
    hide Run, Held, HoldsLive;
    StartIsFine();
    RunKeepsInv(START, steps);
    var running := Run(START, steps).r.running;
    assert running[i] in running;
    forall f | f in running && f.foreground ensures f.token <= running[i].token {
      var k :| 0 <= k < |running| && running[k] == f;
    }
  }

  // ---------------------------------------------------------------- nested commands of one thread

  /** A command with the commands it executes itself, in order. */
  datatype Nested = Nested(line: string, opensTui: bool, foreground: bool, inner: seq<Nested>)

  predicate Tracked(n: Nested)
  {
    !Ignored(n.line, n.opensTui)
  }

  /** The steps of `execute_command` in one thread. */
  function StepsOf(n: Nested, thread: int): seq<Step>
    decreases n, 1
  {
    [Register(thread, n.line, n.opensTui, n.foreground), Push(thread)] + StepsOfAll(n.inner, thread)
    + [Pop(thread), Finish(thread)]
  }

  function StepsOfAll(ns: seq<Nested>, thread: int): seq<Step>
    decreases ns, 0
  {
    if ns == [] then [] else StepsOf(ns[0], thread) + StepsOfAll(ns[1..], thread)
  }

  lemma {:induction false} RunConcat(m: Machine, a: seq<Step>, b: seq<Step>)
    ensures Run(m, a + b) == Run(Run(m, a), b)
    decreases |a|
  {
    hide Next;
    if a == [] {
      assert a + b == b;
    } else {
      assert (a + b)[1..] == a[1..] + b;
      RunConcat(Next(m, a[0]), a[1..], b);
    }
  }

  /** `postcmd` always pops, even for a command that was not tracked: a command that is not tracked may only
      run while its thread has nothing on its stack. */
  predicate Disciplined(n: Nested, empty: bool)
    decreases n, 1
  {
    (Tracked(n) || empty) && DisciplinedAll(n.inner, empty && !Tracked(n))
  }

  predicate DisciplinedAll(ns: seq<Nested>, empty: bool)
    decreases ns, 0
  {
    ns == [] || (Disciplined(ns[0], empty) && DisciplinedAll(ns[1..], empty))
  }

  function Entered(m: Machine, n: Nested, thread: int): Machine
  {
    Run(m, [Register(thread, n.line, n.opensTui, n.foreground), Push(thread)])
  }

  /** Every command, nested ones included, leaves its thread's stack as it found it. */
  ghost predicate Restores(m: Machine, n: Nested, thread: int)
    decreases n, 1
  {
    && StackOf(Run(m, StepsOf(n, thread)).r, thread) == StackOf(m.r, thread)
    && RestoresAll(Entered(m, n, thread), n.inner, thread)
  }

  ghost predicate RestoresAll(m: Machine, ns: seq<Nested>, thread: int)
    decreases ns, 0
  {
    ns == [] || (Restores(m, ns[0], thread) && RestoresAll(Run(m, StepsOf(ns[0], thread)), ns[1..], thread))
  }

  lemma EnterEffect(m: Machine, n: Nested, thread: int)
    requires thread !in m.hands
    ensures var e := Entered(m, n, thread);
            && e.hands == m.hands
            && StackOf(e.r, thread) == StackOf(m.r, thread) + (if Tracked(n) then [m.r.lastToken + 1] else [])
  {
    hide Strip, IsBlank, Run;
    RunTwo(m, Register(thread, n.line, n.opensTui, n.foreground), Push(thread));
    var m1 := Next(m, Register(thread, n.line, n.opensTui, n.foreground));
    assert m1.hands - {thread} == m.hands;
  }

  lemma LeaveEffect(m: Machine, thread: int)
    requires thread !in m.hands
    ensures var e := Run(m, [Pop(thread), Finish(thread)]); var s := StackOf(m.r, thread);
            e.hands == m.hands && StackOf(e.r, thread) == if s == [] then [] else s[..|s| - 1]
  {
    hide Run, Without, Newest;
    RunTwo(m, Pop(thread), Finish(thread));
    var m1 := Next(m, Pop(thread));
    assert m1.hands - {thread} == m.hands;
  }

  lemma StepsSplit(m: Machine, n: Nested, thread: int)
    ensures Run(m, StepsOf(n, thread)) ==
            Run(Run(Entered(m, n, thread), StepsOfAll(n.inner, thread)), [Pop(thread), Finish(thread)])
  {
    hide Run, StepsOfAll;
    var enter, body := [Register(thread, n.line, n.opensTui, n.foreground), Push(thread)], StepsOfAll(n.inner, thread);
    RunConcat(m, enter + body, [Pop(thread), Finish(thread)]);
    RunConcat(m, enter, body);
  }

  /** A disciplined command gives its thread's stack back, at every level. */
  lemma {:induction false} DisciplineRestores(m: Machine, n: Nested, thread: int)
    requires thread !in m.hands && Disciplined(n, StackOf(m.r, thread) == [])
    ensures Restores(m, n, thread) && thread !in Run(m, StepsOf(n, thread)).hands
    decreases n, 1
  {
    hide Run, Ignored, StackOf, Entered, StepsOf, StepsOfAll;
    EnterEffect(m, n, thread);
    DisciplineRestoresAll(Entered(m, n, thread), n.inner, thread);
    LeaveEffect(Run(Entered(m, n, thread), StepsOfAll(n.inner, thread)), thread);
    StepsSplit(m, n, thread);
  }

  lemma {:induction false} DisciplineRestoresAll(m: Machine, ns: seq<Nested>, thread: int)
    requires thread !in m.hands && DisciplinedAll(ns, StackOf(m.r, thread) == [])
    ensures RestoresAll(m, ns, thread)
    ensures var e := Run(m, StepsOfAll(ns, thread)); thread !in e.hands && StackOf(e.r, thread) == StackOf(m.r, thread)
    decreases ns, 0
  {
    hide Ignored, StackOf, StepsOf, Next;
    if ns != [] {
      DisciplineRestores(m, ns[0], thread);
      DisciplineRestoresAll(Run(m, StepsOf(ns[0], thread)), ns[1..], thread);
      RunConcat(m, StepsOf(ns[0], thread), StepsOfAll(ns[1..], thread));
    }
  }

  /** A command that restores the stack at every level is disciplined: an untracked command inside a tracked
      one takes a token that is not its own. */
  lemma {:induction false} RestoringIsDisciplined(m: Machine, n: Nested, thread: int)
    requires thread !in m.hands && Restores(m, n, thread)
    ensures Disciplined(n, StackOf(m.r, thread) == []) && thread !in Run(m, StepsOf(n, thread)).hands
    decreases n, 1
  {
    hide Run, Ignored, StackOf, Entered, StepsOf, StepsOfAll;
    EnterEffect(m, n, thread);
    RestoringIsDisciplinedAll(Entered(m, n, thread), n.inner, thread);
    LeaveEffect(Run(Entered(m, n, thread), StepsOfAll(n.inner, thread)), thread);
    StepsSplit(m, n, thread);
  }

  lemma {:induction false} RestoringIsDisciplinedAll(m: Machine, ns: seq<Nested>, thread: int)
    requires thread !in m.hands && RestoresAll(m, ns, thread)
    ensures DisciplinedAll(ns, StackOf(m.r, thread) == [])
    ensures var e := Run(m, StepsOfAll(ns, thread)); thread !in e.hands && StackOf(e.r, thread) == StackOf(m.r, thread)
    decreases ns, 0
  {
    hide Ignored, StackOf, StepsOf, Next;
    if ns != [] {
      RestoringIsDisciplined(m, ns[0], thread);
      assert StackOf(Run(m, StepsOf(ns[0], thread)).r, thread) == StackOf(m.r, thread);
      RestoringIsDisciplinedAll(Run(m, StepsOf(ns[0], thread)), ns[1..], thread);
      RunConcat(m, StepsOf(ns[0], thread), StepsOfAll(ns[1..], thread));
    }
  }

  /** Exactly the disciplined commands give back the stack at every level. */
  lemma RestoresIff(m: Machine, n: Nested, thread: int)
    requires thread !in m.hands
    ensures Restores(m, n, thread) <==> Disciplined(n, StackOf(m.r, thread) == [])
  {
    hide Restores, Disciplined, StackOf;
    if Restores(m, n, thread) { RestoringIsDisciplined(m, n, thread); }
    if Disciplined(n, StackOf(m.r, thread) == []) { DisciplineRestores(m, n, thread); }
  }
}
