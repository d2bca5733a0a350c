/** The retry loop `do_loop` of ucagent/verify_pdb.py, over an arbitrary sequence of attempts. */
module RetryLoop {
  import opened Text

  /** One attempt as the loop sees it: whether `run_loop` returns, the agent's `invoke_round` before and
      after (None when it is not an integer), whether the attempt lasted longer than `loop_alive_time`,
      and whether the agent is broken off afterwards. */
  datatype Attempt = Attempt(succeeds: bool, before: Option<int>, after: Option<int>, longEnough: bool, broken: bool)

  /** How the loop ends; StillTrying when the attempts run out first. */
  datatype Ending = Finished | Exhausted | Interrupted | StillTrying

  predicate MadeProgress(a: Attempt)
  {
    a.before.Some? && a.after.Some? && a.after.value > a.before.value
  }

  predicate Resets(a: Attempt)
  {
    MadeProgress(a) && a.longEnough
  }

  /** The number of failing attempts and the ending, with `tryCount` retries left. */
  function Loop(maxRetry: int, tryCount: int, attempts: seq<Attempt>): (nat, Ending)
    decreases |attempts|
  {
    if attempts == [] then (0, StillTrying)
    else if attempts[0].succeeds then (0, Finished)
    else
      var left := if Resets(attempts[0]) then maxRetry else tryCount - 1;
      if left <= 0 then (1, Exhausted)
      else if attempts[0].broken then (1, Interrupted)
      else
        var (failures, ending) := Loop(maxRetry, left, attempts[1..]);
        (failures + 1, ending)
  }

  method DoLoop(maxRetry: int, attempts: seq<Attempt>) returns (failures: nat, ending: Ending)
    ensures (failures, ending) == Loop(maxRetry, maxRetry, attempts)
  {
    var tryCount := maxRetry;
    failures := 0;
    var i := 0;
    while true
      invariant 0 <= i <= |attempts| && failures == i
      invariant var rest := Loop(maxRetry, tryCount, attempts[i..]);
                Loop(maxRetry, maxRetry, attempts) == (failures + rest.0, rest.1)
      decreases |attempts| - i
    {
      if i == |attempts| {
        return failures, StillTrying;
      }
      assert attempts[i..][0] == attempts[i] && attempts[i..][1..] == attempts[i + 1..];
      if attempts[i].succeeds {
        return failures, Finished;
      }
      failures := failures + 1;
      tryCount := tryCount - 1;
      if MadeProgress(attempts[i]) && attempts[i].longEnough {
        tryCount := maxRetry;
      }
      if tryCount <= 0 {
        return failures, Exhausted;
      }
      if attempts[i].broken {
        return failures, Interrupted;
      }
      i := i + 1;
    }
  }

  // ---------------------------------------------------------------- exactly how the loop ends

  /** The attempt finished a round and lasted long enough. */
  predicate GainsRound(a: Attempt)
  {
    a.longEnough && a.before.Some? && a.after.Some? && a.before.value < a.after.value
  }

  /** How many of the first `n` attempts came after the last one of them that gained a round. */
  function SinceReset(attempts: seq<Attempt>, n: nat): nat
    requires n <= |attempts|
  {
    if n == 0 || GainsRound(attempts[n - 1]) then 0 else SinceReset(attempts, n - 1) + 1
  }

  /** Attempt `i` fails, retries are left after it, and it is not broken off. */
  predicate GoesOn(maxRetry: int, attempts: seq<Attempt>, i: nat)
    requires i < |attempts|
  {
    !attempts[i].succeeds && SinceReset(attempts, i + 1) < maxRetry && !attempts[i].broken
  }

  /** The first `n` attempts go on and then the loop ends: the attempts run out, the next one succeeds, no retries are left
      after it, or it is broken off. */
  predicate EndsAfter(maxRetry: int, attempts: seq<Attempt>, n: nat, failures: nat, ending: Ending)
  {
    && n <= |attempts| && (forall i :: 0 <= i < n ==> GoesOn(maxRetry, attempts, i))
    && match ending
       case StillTrying => n == |attempts| && failures == n
       case Finished => n < |attempts| && attempts[n].succeeds && failures == n
       case Exhausted =>
         n < |attempts| && !attempts[n].succeeds && SinceReset(attempts, n + 1) >= maxRetry && failures == n + 1
       case Interrupted =>
         && n < |attempts| && !attempts[n].succeeds && SinceReset(attempts, n + 1) < maxRetry && attempts[n].broken
         && failures == n + 1
  }

  lemma {:induction false} EndOfRest(maxRetry: int, attempts: seq<Attempt>, n: nat) returns (end: nat)
    requires n <= |attempts| && forall i :: 0 <= i < n ==> GoesOn(maxRetry, attempts, i)
    ensures var (failures, ending) := Loop(maxRetry, maxRetry - SinceReset(attempts, n), attempts[n..]);
            EndsAfter(maxRetry, attempts, end, n + failures, ending)
    decreases |attempts| - n
  {
    end := n;
    if n < |attempts| {
      assert attempts[n..][0] == attempts[n] && attempts[n..][1..] == attempts[n + 1..];
      if GoesOn(maxRetry, attempts, n) { end := EndOfRest(maxRetry, attempts, n + 1); }
    }
  }

  lemma LastDoesNotGoOn(maxRetry: int, attempts: seq<Attempt>, n: nat, failures: nat, ending: Ending)
    requires EndsAfter(maxRetry, attempts, n, failures, ending)
    ensures n < |attempts| ==> !GoesOn(maxRetry, attempts, n)
  {
    hide SinceReset;
  }

  lemma EndsOnce(maxRetry: int, attempts: seq<Attempt>, m: nat, f: nat, e: Ending, n: nat, g: nat, d: Ending)
    requires EndsAfter(maxRetry, attempts, m, f, e) && EndsAfter(maxRetry, attempts, n, g, d)
    ensures m == n && f == g && e == d
  {
    hide SinceReset, GoesOn;
    LastDoesNotGoOn(maxRetry, attempts, m, f, e);
    LastDoesNotGoOn(maxRetry, attempts, n, g, d);
  }

  /** Exactly how the loop ends: after which attempts, with how many failures and why. */
  lemma LoopIff(maxRetry: int, attempts: seq<Attempt>, failures: nat, ending: Ending)
    ensures Loop(maxRetry, maxRetry, attempts) == (failures, ending) <==>
            exists n: nat :: EndsAfter(maxRetry, attempts, n, failures, ending)
  {
    hide Loop, EndsAfter;
    assert attempts[0..] == attempts && SinceReset(attempts, 0) == 0;
    var end := EndOfRest(maxRetry, attempts, 0);
    var (f, e) := Loop(maxRetry, maxRetry, attempts);
    forall n: nat | EndsAfter(maxRetry, attempts, n, failures, ending) ensures (f, e) == (failures, ending) {
      EndsOnce(maxRetry, attempts, end, f, e, n, failures, ending);
    }
  }

  /** The total increase of `invoke_round` over the attempts. */
  function Gain(attempts: seq<Attempt>): nat
  {
    if attempts == [] then 0
    else (if MadeProgress(attempts[0]) then attempts[0].after.value - attempts[0].before.value else 0)
         + Gain(attempts[1..])
  }

  function Max(a: int, b: int): int
  {
    if a >= b then a else b
  }

  /** At most max(R, 1) * (1 + G) attempts fail, because the count is only reset by an attempt that made
      strict progress. */
  lemma FailuresAreBounded(maxRetry: int, attempts: seq<Attempt>)
    ensures Loop(maxRetry, maxRetry, attempts).0 <= Max(maxRetry, 1) * (1 + Gain(attempts))
  {
    if maxRetry >= 1 {
      BoundedFrom(maxRetry, maxRetry, attempts);
      assert maxRetry + maxRetry * Gain(attempts) == maxRetry * (1 + Gain(attempts));
    } else {
      assert Loop(maxRetry, maxRetry, attempts).0 <= 1;
    }
  }

  lemma {:induction false} BoundedFrom(maxRetry: int, tryCount: int, attempts: seq<Attempt>)
    requires 1 <= tryCount <= maxRetry
    ensures Loop(maxRetry, tryCount, attempts).0 <= tryCount + maxRetry * Gain(attempts)
    decreases |attempts|
  {
    if attempts != [] {
      var g, rest := Gain(attempts), Gain(attempts[1..]);
      var left := if Resets(attempts[0]) then maxRetry else tryCount - 1;
      if left >= 1 { BoundedFrom(maxRetry, left, attempts[1..]); }
      MulMonotone(maxRetry, rest, g);
      if Resets(attempts[0]) {
        MulMonotone(maxRetry, rest + 1, g);
        assert maxRetry * (rest + 1) == maxRetry * rest + maxRetry;
      }
    }
  }

  lemma MulMonotone(k: int, a: nat, b: nat)
    requires k >= 0 && a <= b
    ensures 0 <= k * a <= k * b
  {
    assert k * b == k * a + k * (b - a);
  }

  /** When `invoke_round` never decreases, the gain is at most its last value minus its first. */
  ghost predicate Monotone(attempts: seq<Attempt>)
  {
    && (forall i :: 0 <= i < |attempts| ==>
          attempts[i].before.Some? && attempts[i].after.Some? && attempts[i].before.value <= attempts[i].after.value)
    && (forall i :: 0 <= i < |attempts| - 1 ==> attempts[i].after.value <= attempts[i + 1].before.value)
  }

  lemma {:induction false} GainIsOverall(attempts: seq<Attempt>)
    requires attempts != [] && Monotone(attempts)
    ensures Gain(attempts) <= attempts[|attempts| - 1].after.value - attempts[0].before.value
    decreases |attempts|
  {
    if |attempts| > 1 {
      var tail := attempts[1..];
      assert forall i :: 0 <= i < |tail| ==> tail[i] == attempts[i + 1];
      assert tail[|tail| - 1] == attempts[|attempts| - 1];
      GainIsOverall(tail);
      assert attempts[0].after.value <= attempts[1].before.value;
    } else {
      assert attempts[1..] == [];
    }
  }

  // ---------------------------------------------------------------- the bound is reached

  const STUCK := Attempt(false, Some(0), Some(0), true, false)
  const STEPPED := Attempt(false, Some(0), Some(1), true, false)

  function Stuck(n: nat): seq<Attempt>
  {
    seq(n, _ => STUCK)
  }

  /** `g` times maxRetry - 1 stuck attempts and one that gains a round, and maxRetry stuck ones. */
  function WorstCase(maxRetry: nat, g: nat): seq<Attempt>
    requires maxRetry >= 1
  {
    if g == 0 then Stuck(maxRetry) else Stuck(maxRetry - 1) + ([STEPPED] + WorstCase(maxRetry, g - 1))
  }

  lemma {:induction false} StuckAttempts(maxRetry: int, tryCount: int, n: nat, rest: seq<Attempt>)
    requires n < tryCount
    ensures Gain(Stuck(n) + rest) == Gain(rest)
    ensures Loop(maxRetry, tryCount, Stuck(n) + rest).0 == n + Loop(maxRetry, tryCount - n, rest).0
    ensures Loop(maxRetry, tryCount, Stuck(n) + rest).1 == Loop(maxRetry, tryCount - n, rest).1
    decreases n
  {
    var all := Stuck(n) + rest;
    if n == 0 {
      assert all == rest;
    } else {
      assert all[0] == STUCK;
      assert all[1..] == Stuck(n - 1) + rest;
      StuckAttempts(maxRetry, tryCount - 1, n - 1, rest);
    }
  }

  /** For every R >= 1 and every gain G some run fails exactly R * (1 + G) times before it gives up. */
  lemma {:induction false} BoundIsTight(maxRetry: nat, g: nat)
    requires maxRetry >= 1
    ensures var w := WorstCase(maxRetry, g);
            Gain(w) == g && Loop(maxRetry, maxRetry, w) == (maxRetry * (1 + g), Exhausted)
    decreases g
  {
    var w := WorstCase(maxRetry, g);
    if g == 0 {
      assert w == Stuck(maxRetry - 1) + [STUCK];
      StuckAttempts(maxRetry, maxRetry, maxRetry - 1, [STUCK]);
      assert [STUCK][1..] == [];
      assert Loop(maxRetry, 1, [STUCK]) == (1, Exhausted);
    } else {
      var rest := WorstCase(maxRetry, g - 1);
      StuckAttempts(maxRetry, maxRetry, maxRetry - 1, [STEPPED] + rest);
      assert ([STEPPED] + rest)[0] == STEPPED && ([STEPPED] + rest)[1..] == rest;
      BoundIsTight(maxRetry, g - 1);
      assert maxRetry * (1 + g) == maxRetry * g + maxRetry;
    }
  }
}
