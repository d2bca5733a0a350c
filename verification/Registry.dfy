/** The running-command registry of ucagent/verify_pdb.py: one ordered table of live commands shared by
    all threads, and one private stack of tokens per thread. */
module Registry {
  import opened Text

  /** One value of `_running_commands`; the table is ordered by insertion. */
  datatype Entry = Entry(token: nat, command: string, thread: int, foreground: bool)

  datatype Registry = Registry(running: seq<Entry>, lastToken: nat, current: Option<string>, stacks: map<int, seq<nat>>)

  function StackOf(r: Registry, thread: int): seq<nat>
  {
    if thread in r.stacks then r.stacks[thread] else []
  }

  /** The thread-local attribute is deleted when the stack becomes empty. */
  function WithStack(r: Registry, thread: int, stack: seq<nat>): Registry
  {
    r.(stacks := if stack == [] then r.stacks - {thread} else r.stacks[thread := stack])
  }

  /** A command that `_register_running_command` ignores: blank, or the one that opens the TUI. */
  predicate Ignored(line: string, opensTui: bool)
  {
    IsBlank(line) || opensTui
  }

  /** `_register_running_command` for a command that is tracked. */
  function Registered(r: Registry, thread: int, line: string, foreground: bool): Registry
  {
    var token := r.lastToken + 1;
    r.(running := r.running + [Entry(token, Strip(line), thread, foreground)],
       lastToken := token, current := Some(Strip(line)))
  }

  /** `OrderedDict.pop(token, None)`. */
  function Without(running: seq<Entry>, token: nat): seq<Entry>
  {
    if running == [] then []
    else if running[0].token == token then Without(running[1..], token)
    else [running[0]] + Without(running[1..], token)
  }

  /** The command of the last entry of the table. */
  function Newest(running: seq<Entry>): Option<string>
  {
    if running == [] then None else Some(running[|running| - 1].command)
  }

  /** `_finish_running_command` of a token. */
  function Finished(r: Registry, token: nat): Registry
  {
    var running := Without(r.running, token);
    r.(running := running, current := Newest(running))
  }

  // ---------------------------------------------------------------- threads interleaved step by step

  /** What a thread holds between two of its atomic steps: a registered token it has not pushed yet, or a
      popped token it has not finished yet. */
  datatype Hand = ToPush(token: nat) | ToFinish(token: nat)

  datatype Machine = Machine(r: Registry, hands: map<int, Hand>)

  /** The atomic steps. Registering and finishing run under the lock; pushing and popping touch only the
      thread's own stack. A step that is not enabled changes nothing. */
  datatype Step =
    | Register(thread: int, line: string, opensTui: bool, foreground: bool)
    | Push(thread: int)
    | Pop(thread: int)
    | Finish(thread: int)

  function Next(m: Machine, step: Step): Machine
  {
    var t := step.thread;
    match step
    case Register(_, line, opensTui, foreground) =>
      if t in m.hands || Ignored(line, opensTui) then m
      else Machine(Registered(m.r, t, line, foreground), m.hands[t := ToPush(m.r.lastToken + 1)])
    case Push(_) =>
      if t !in m.hands || m.hands[t].ToFinish? then m
      else Machine(WithStack(m.r, t, StackOf(m.r, t) + [m.hands[t].token]), m.hands - {t})
    case Pop(_) =>
      var stack := StackOf(m.r, t);
      if t in m.hands || stack == [] then m
      else Machine(WithStack(m.r, t, stack[..|stack| - 1]), m.hands[t := ToFinish(stack[|stack| - 1])])
    case Finish(_) =>
      if t !in m.hands || m.hands[t].ToPush? then m
      else Machine(Finished(m.r, m.hands[t].token), m.hands - {t})
  }

  function Run(m: Machine, steps: seq<Step>): Machine
    decreases |steps|
  {
    if steps == [] then m else Run(Next(m, steps[0]), steps[1..])
  }

  const START := Machine(Registry([], 0, None, map[]), map[])

  // ---------------------------------------------------------------- the invariant

  /** All tokens a thread answers for: its stack and, on top, the one in its hand. */
  function Held(m: Machine, thread: int): seq<nat>
  {
    StackOf(m.r, thread) + (if thread in m.hands then [m.hands[thread].token] else [])
  }

  ghost predicate Ascending(s: seq<nat>)
  {
    forall i, j :: 0 <= i < j < |s| ==> s[i] < s[j]
  }

  ghost predicate TokensAscend(running: seq<Entry>)
  {
    forall i, j :: 0 <= i < j < |running| ==> running[i].token < running[j].token
  }

  /** Token `k` is the token of a live command of the thread. */
  ghost predicate LiveFor(running: seq<Entry>, thread: int, k: nat)
  {
    exists e :: e in running && e.token == k && e.thread == thread
  }

  ghost predicate HoldsLive(m: Machine, thread: int)
  {
    Ascending(Held(m, thread)) && forall k :: k in Held(m, thread) ==> LiveFor(m.r.running, thread, k)
  }

  ghost predicate NoEmptyStacks(r: Registry)
  {
    forall thread :: thread in r.stacks ==> r.stacks[thread] != []
  }

  /** The live tokens are the disjoint union of what the threads hold; tokens are handed out in ascending
      order, and the current command is the newest live one. */
  ghost predicate Inv(m: Machine)
  {
    && TokensAscend(m.r.running)
    && (forall e :: e in m.r.running ==> 1 <= e.token <= m.r.lastToken && e.token in Held(m, e.thread))
    && (forall thread :: HoldsLive(m, thread))
    && NoEmptyStacks(m.r)
    && m.r.current == Newest(m.r.running)
  }

  lemma {:induction false} WithoutItem(running: seq<Entry>, token: nat, e: Entry)
    ensures e in Without(running, token) <==> e in running && e.token != token
    decreases |running|
  {
    if running != [] {
      WithoutItem(running[1..], token, e);
    }
  }

  lemma {:induction false} WithoutAscends(running: seq<Entry>, token: nat)
    requires TokensAscend(running)
    ensures TokensAscend(Without(running, token))
    decreases |running|
  {
    if running != [] {
      WithoutAscends(running[1..], token);
      var rest := Without(running[1..], token);
      forall j | 0 <= j < |rest| ensures rest[j].token > running[0].token {
        WithoutItem(running[1..], token, rest[j]);
      }
    }
  }

  lemma WithoutFacts(running: seq<Entry>, token: nat)
    requires TokensAscend(running)
    ensures TokensAscend(Without(running, token))
    ensures forall e :: e in Without(running, token) <==> e in running && e.token != token
  {
    hide Without;
    WithoutAscends(running, token);
    forall e { WithoutItem(running, token, e); }
  }

  /** Live tokens belong to one entry only. */
  lemma SameTokenSameEntry(running: seq<Entry>, e: Entry, f: Entry)
    requires TokensAscend(running) && e in running && f in running && e.token == f.token
    ensures e == f
  {
    var i :| 0 <= i < |running| && running[i] == e;
    var j :| 0 <= j < |running| && running[j] == f;
    assert i == j;
  }

  /** A step of one thread does not change what another thread holds. */
  lemma StepIsLocal(m: Machine, step: Step, thread: int)
    requires thread != step.thread
    ensures Held(Next(m, step), thread) == Held(m, thread)
  {
    hide Strip;
  }

  lemma StackIs(r: Registry, thread: int, stack: seq<nat>)
    ensures StackOf(WithStack(r, thread, stack), thread) == stack
    ensures WithStack(r, thread, stack).running == r.running && WithStack(r, thread, stack).lastToken == r.lastToken
    ensures WithStack(r, thread, stack).current == r.current
  {
  }

  lemma RegisterOnOwn(m: Machine, step: Step)
    requires step.Register? && Next(m, step) != m
    ensures Held(Next(m, step), step.thread) == Held(m, step.thread) + [m.r.lastToken + 1]
  {
    hide Strip, IsBlank;
    var stack := StackOf(m.r, step.thread);
    assert stack + [] == stack;
  }

  lemma PushOnOwn(m: Machine, step: Step)
    requires step.Push?
    ensures Held(Next(m, step), step.thread) == Held(m, step.thread)
  {
    var t := step.thread;
    if t in m.hands && m.hands[t].ToPush? {
      hide StackOf, WithStack;
      var stack := StackOf(m.r, t) + [m.hands[t].token];
      StackIs(m.r, t, stack);
      assert stack + [] == stack;
    }
  }

  lemma PopOnOwn(m: Machine, step: Step)
    requires step.Pop?
    ensures Held(Next(m, step), step.thread) == Held(m, step.thread)
  {
    var t := step.thread;
    var stack := StackOf(m.r, t);
    if t !in m.hands && stack != [] {
      hide StackOf, WithStack;
      StackIs(m.r, t, stack[..|stack| - 1]);
      assert stack == stack[..|stack| - 1] + [stack[|stack| - 1]] && stack + [] == stack;
    }
  }

  lemma FinishOnOwn(m: Machine, step: Step)
    requires step.Finish?
    ensures var t := step.thread;
            if Next(m, step) == m then true
            else Held(m, t) != [] && Held(Next(m, step), t) == Held(m, t)[..|Held(m, t)| - 1]
  {
    hide Without, Newest;
    var stack := StackOf(m.r, step.thread);
    assert stack + [] == stack;
  }

  /** What a step does to the tokens of its own thread: registering adds a fresh one on top, finishing
      takes the top one away, and the other steps only move it between hand and stack. */
  lemma StepOnOwnTokens(m: Machine, step: Step)
    ensures var t := step.thread; var m' := Next(m, step);
            if m' != m && step.Register? then
              Held(m', t) == Held(m, t) + [m.r.lastToken + 1]
            else if m' != m && step.Finish? then
              Held(m, t) != [] && Held(m', t) == Held(m, t)[..|Held(m, t)| - 1]
            else Held(m', t) == Held(m, t)
  {
    hide Next, Held;
    if Next(m, step) != m {
      match step
      case Register(_, _, _, _) => RegisterOnOwn(m, step);
      case Push(_) => PushOnOwn(m, step);
      case Pop(_) => PopOnOwn(m, step);
      case Finish(_) => FinishOnOwn(m, step);
    }
  }

  lemma AscendingAppend(s: seq<nat>, k: nat)
    requires Ascending(s) && forall x :: x in s ==> x < k
    ensures Ascending(s + [k])
  {
    forall i | 0 <= i < |s| ensures s[i] < k { assert s[i] in s; }
  }

  /** After registering entry `e`, what each thread holds is live. */
  lemma RegisterLeavesLive(m: Machine, m': Machine, step: Step, e: Entry, thread: int)
    requires Inv(m) && m' == Next(m, step)
    requires m'.r.running == m.r.running + [e] && e.token == m.r.lastToken + 1 && e.thread == step.thread
    requires Held(m', step.thread) == Held(m, step.thread) + [e.token]
    ensures HoldsLive(m', thread)
  {
    hide Next, Held, Newest;
    assert HoldsLive(m, thread);
    assert m'.r.running[|m.r.running|] == e;
    forall k | k in Held(m, thread) ensures LiveFor(m'.r.running, thread, k) && k < e.token {
      var f :| f in m.r.running && f.token == k && f.thread == thread;
      assert f in m'.r.running;
    }
    if thread != step.thread {
      StepIsLocal(m, step, thread);
    } else {
      assert LiveFor(m'.r.running, thread, e.token);
      AscendingAppend(Held(m, thread), e.token);
    }
  }

  lemma StacksStayFull(m: Machine, step: Step)
    requires NoEmptyStacks(m.r)
    ensures NoEmptyStacks(Next(m, step).r)
  {
    hide Strip, IsBlank, Without, Newest;
  }

  /** What registering does to the shared table. */
  lemma RegisterEffect(m: Machine, step: Step) returns (e: Entry)
    requires step.Register? && Next(m, step) != m
    ensures e.token == m.r.lastToken + 1 && e.thread == step.thread
    ensures var r := Next(m, step).r;
            r.running == m.r.running + [e] && r.lastToken == e.token && r.current == Some(e.command)
  {
    hide Strip, IsBlank;
    e := Entry(m.r.lastToken + 1, Strip(step.line), step.thread, step.foreground);
  }

  lemma RegisterKeepsInv(m: Machine, step: Step)
    requires Inv(m) && step.Register? && Next(m, step) != m
    ensures Inv(Next(m, step))
  {
    hide Next, Held, StackOf, HoldsLive;
    var t, m' := step.thread, Next(m, step);
    var e := RegisterEffect(m, step);
    StacksStayFull(m, step);
    StepOnOwnTokens(m, step);
    forall thread ensures HoldsLive(m', thread) {
      RegisterLeavesLive(m, m', step, e, thread);
    }
    forall f | f in m'.r.running ensures 1 <= f.token <= m'.r.lastToken && f.token in Held(m', f.thread) {
      if f != e && f.thread != t { StepIsLocal(m, step, f.thread); }
    }
    AscendsAfter(m.r.running, m.r.lastToken, e);
    NewestIsLast(m.r.running, e);
  }

  lemma AscendsAfter(running: seq<Entry>, last: nat, e: Entry)
    requires TokensAscend(running) && (forall f :: f in running ==> f.token <= last) && e.token > last
    ensures TokensAscend(running + [e])
  {
    forall i | 0 <= i < |running| ensures running[i].token < e.token { assert running[i] in running; }
  }

  lemma NewestIsLast(running: seq<Entry>, e: Entry)
    ensures Newest(running + [e]) == Some(e.command)
  {
  }

  /** What finishing does to the shared table. */
  lemma FinishEffect(m: Machine, step: Step) returns (k: nat)
    requires step.Finish? && Next(m, step) != m
    ensures var r := Next(m, step).r;
            r.running == Without(m.r.running, k) && r.lastToken == m.r.lastToken && r.current == Newest(r.running)
    ensures Held(m, step.thread) != [] && Held(m, step.thread)[|Held(m, step.thread)| - 1] == k
  {
    hide Without, Newest;
    k := m.hands[step.thread].token;
  }

  lemma FinishKeepsInv(m: Machine, step: Step)
    requires Inv(m) && step.Finish? && Next(m, step) != m
    ensures Inv(Next(m, step))
  {
    hide Next, Held, StackOf, Without, Newest, HoldsLive;
    var t, m' := step.thread, Next(m, step);
    var k := FinishEffect(m, step);
    WithoutFacts(m.r.running, k);
    StacksStayFull(m, step);
    StepOnOwnTokens(m, step);
    forall thread ensures HoldsLive(m', thread) {
      FinishLeavesLive(m, m', step, k, thread);
    }
    forall f | f in m'.r.running ensures 1 <= f.token <= m'.r.lastToken && f.token in Held(m', f.thread) {
      if f.thread != t {
        StepIsLocal(m, step, f.thread);
      } else {
        AllButLast(Held(m, t), f.token);
      }
    }
  }

  lemma AllButLast(s: seq<nat>, x: nat)
    requires s != [] && x in s && x != s[|s| - 1]
    ensures x in s[..|s| - 1]
  {
    var i :| 0 <= i < |s| && s[i] == x;
    assert s[..|s| - 1][i] == x;
  }

  /** After finishing token `k`, what each thread still holds is still live. */
  lemma FinishLeavesLive(m: Machine, m': Machine, step: Step, k: nat, thread: int)
    requires Inv(m) && m' == Next(m, step)
    requires Held(m, step.thread) != [] && Held(m, step.thread)[|Held(m, step.thread)| - 1] == k
    requires forall e :: e in m'.r.running <==> e in m.r.running && e.token != k
    requires Held(m', step.thread) == Held(m, step.thread)[..|Held(m, step.thread)| - 1]
    ensures HoldsLive(m', thread)
  {
    hide Next, Held, Newest;
    var t := step.thread;
    assert HoldsLive(m, thread) && HoldsLive(m, t);
    if thread != t { StepIsLocal(m, step, thread); }
    assert k in Held(m, t);
    var own :| own in m.r.running && own.token == k && own.thread == t;
    forall j | j in Held(m', thread) ensures LiveFor(m'.r.running, thread, j) {
      assert j in Held(m, thread);
      var e :| e in m.r.running && e.token == j && e.thread == thread;
      if e.token == k { SameTokenSameEntry(m.r.running, e, own); }
      assert e in m'.r.running;
    }
  }

  lemma MoveEffect(m: Machine, step: Step)
    requires step.Push? || step.Pop?
    ensures var r := Next(m, step).r;
            r.running == m.r.running && r.lastToken == m.r.lastToken && r.current == m.r.current
  {
    hide StackOf;
  }

  lemma SameHeldLive(m: Machine, m': Machine, thread: int)
    requires HoldsLive(m, thread) && Held(m', thread) == Held(m, thread) && m'.r.running == m.r.running
    ensures HoldsLive(m', thread)
  {
    hide Held, LiveFor;
  }

  lemma MoveKeepsInv(m: Machine, step: Step)
    requires Inv(m) && (step.Push? || step.Pop?)
    ensures Inv(Next(m, step))
  {
    hide Next, Held, StackOf, HoldsLive, Newest, TokensAscend;
    var m' := Next(m, step);
    MoveEffect(m, step);
    StacksStayFull(m, step);
    StepOnOwnTokens(m, step);
    forall thread ensures Held(m', thread) == Held(m, thread) {
      if thread != step.thread { StepIsLocal(m, step, thread); }
    }
    forall thread ensures HoldsLive(m', thread) { SameHeldLive(m, m', thread); }
  }

  /** Every interleaving of the threads' steps keeps the invariant. */
  lemma {:induction false} RunKeepsInv(m: Machine, steps: seq<Step>)
    requires Inv(m)
    ensures Inv(Run(m, steps))
    decreases |steps|
  {
    hide Inv, Next;
    if steps != [] {
      if Next(m, steps[0]) != m {
        match steps[0]
        case Register(_, _, _, _) => RegisterKeepsInv(m, steps[0]);
        case Push(_) => MoveKeepsInv(m, steps[0]);
        case Pop(_) => MoveKeepsInv(m, steps[0]);
        case Finish(_) => FinishKeepsInv(m, steps[0]);
      }
      RunKeepsInv(Next(m, steps[0]), steps[1..]);
    }
  }

  ghost predicate IsLive(m: Machine, k: nat)
  {
    exists e :: e in m.r.running && e.token == k
  }

  ghost predicate IsHeld(m: Machine, k: nat)
  {
    exists thread :: k in Held(m, thread)
  }

  lemma InvPartitions(m: Machine)
    requires Inv(m)
    ensures forall k :: IsLive(m, k) <==> IsHeld(m, k)
    ensures forall a, b, k :: k in Held(m, a) && k in Held(m, b) ==> a == b
    ensures forall thread :: Ascending(Held(m, thread))
  {
    hide Held;
    forall k ensures IsLive(m, k) <==> IsHeld(m, k) {
      if IsHeld(m, k) {
        var thread :| k in Held(m, thread);
        assert HoldsLive(m, thread);
      }
    }
    forall a, b, k | k in Held(m, a) && k in Held(m, b) ensures a == b {
      assert HoldsLive(m, a) && HoldsLive(m, b);
      var e :| e in m.r.running && e.token == k && e.thread == a;
      var f :| f in m.r.running && f.token == k && f.thread == b;
      SameTokenSameEntry(m.r.running, e, f);
    }
    forall thread ensures Ascending(Held(m, thread)) { assert HoldsLive(m, thread); }
  }

  /** Over every interleaving from the start: a token is live exactly when some thread holds it, no two
      threads hold the same token, and each thread's tokens ascend. */
  lemma LiveTokensArePartitioned(steps: seq<Step>)
    ensures var m := Run(START, steps);
            && (forall k :: IsLive(m, k) <==> IsHeld(m, k))
            && (forall a, b, k :: k in Held(m, a) && k in Held(m, b) ==> a == b)
            && (forall thread :: Ascending(Held(m, thread)))
  {
    hide Run, Held, Inv, IsLive, IsHeld, Ascending;
    StartIsFine();
    RunKeepsInv(START, steps);
    InvPartitions(Run(START, steps));
  }

  lemma StartIsFine()
    ensures Inv(START)
  {
  }

  ghost predicate IsNewest(running: seq<Entry>, e: Entry)
  {
    forall f :: f in running ==> f.token <= e.token
  }

  /** The current command is the one with the largest live token, and there is none exactly when nothing
      is live. */
  lemma CurrentIsNewest(steps: seq<Step>)
    ensures var r := Run(START, steps).r;
            && (r.current.None? <==> r.running == [])
            && (r.current.Some? ==>
                  exists e :: e in r.running && r.current == Some(e.command) && IsNewest(r.running, e))
  {
    hide Run;
    StartIsFine();
    RunKeepsInv(START, steps);
    var r := Run(START, steps).r;
    if r.running != [] {
      var e := r.running[|r.running| - 1];
      forall f | f in r.running ensures f.token <= e.token {
        var i :| 0 <= i < |r.running| && r.running[i] == f;
      }
      assert e in r.running;
    }
  }

  /** Whatever the other threads do, including aborting all their commands, a thread that takes no step
      keeps its tokens and their entries. */
  lemma {:induction false} OthersCannotTouch(m: Machine, steps: seq<Step>, thread: int)
    requires Inv(m) && forall i :: 0 <= i < |steps| ==> steps[i].thread != thread
    ensures Held(Run(m, steps), thread) == Held(m, thread)
    ensures forall e: Entry :: e.thread == thread ==> (e in Run(m, steps).r.running <==> e in m.r.running)
    decreases |steps|
  {
    hide Inv, Next, Held;
    if steps != [] {
      StepIsLocal(m, steps[0], thread);
      EntriesAreLocal(m, steps[0], thread);
      RunKeepsInv(m, [steps[0]]);
      assert [steps[0]][1..] == [];
      assert Run(m, [steps[0]]) == Next(m, steps[0]);
      OthersCannotTouch(Next(m, steps[0]), steps[1..], thread);
    }
  }

  lemma EntriesAreLocal(m: Machine, step: Step, thread: int)
    requires Inv(m) && step.thread != thread
    ensures forall e: Entry :: e.thread == thread ==> (e in Next(m, step).r.running <==> e in m.r.running)
  {
    hide Strip, IsBlank;
    var t := step.thread;
    if step.Finish? && t in m.hands {
      var k := m.hands[t].token;
      WithoutFacts(m.r.running, k);
      assert HoldsLive(m, t) && k in Held(m, t);
      var own :| own in m.r.running && own.token == k && own.thread == t;
      forall e | e in m.r.running && e.thread == thread ensures e.token != k {
        if e.token == k { SameTokenSameEntry(m.r.running, e, own); }
      }
    }
  }
}
