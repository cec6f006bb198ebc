/** Whole lifetimes of a task: every interleaving ends, and each callback has then run once. */
module TaskFinishRuns {
  import opened Wrappers
  import opened TaskFinish

  predicate Legal(s: State, steps: seq<nat>)
    decreases steps
  {
    steps == [] || (Enabled(s, steps[0]) && Legal(Next(s, steps[0]), steps[1..]))
  }

  function After(s: State, steps: seq<nat>): State
    requires Legal(s, steps)
    decreases steps
  {
    if steps == [] then s else After(Next(s, steps[0]), steps[1..])
  }

  predicate Lifetime(pc: seq<Pc>, steps: seq<nat>) {
    (forall t :: 0 <= t < |pc| ==> Fresh(pc[t])) && Legal(Start(pc), steps)
  }

  lemma {:induction false} RunKeeps(s: State, steps: seq<nat>)
    requires Inv(s) && Legal(s, steps)
    ensures Inv(After(s, steps)) && |After(s, steps).pc| == |s.pc|
    decreases steps
  {
    if steps != [] {
      StepKeeps(s, steps[0]);
      RunKeeps(Next(s, steps[0]), steps[1..]);
    }
  }

  // ---------- Exactly once ----------

  predicate Quiet(s: State) {
    forall t :: 0 <= t < |s.pc| ==> Ended(s.pc[t])
  }

  function Invocations(s: State, callback: nat): nat {
    Times(s.heldCalls, callback) + Times(s.directCalls, callback)
  }

  lemma {:induction false} ReversedTimes(callbacks: seq<nat>, winner: nat, c: nat)
    requires forall i, j :: 0 <= i < j < |callbacks| ==> callbacks[i] != callbacks[j]
    ensures Times(Reversed(callbacks, winner), c) == if c in callbacks then 1 else 0
  {
    if callbacks != [] {
      ReversedTimes(callbacks[1..], winner, c);
      TimesAppend(Reversed(callbacks[1..], winner), Entry(callbacks[0], Some(winner)), c);
      assert callbacks == [callbacks[0]] + callbacks[1..];
    }
  }

  /** The held callbacks the winner has been through so far. */
  function Passed(s: State): seq<nat>
    requires Progressing(s)
  {
    match Stage(s)
    case Calling(left) => s.registered[left..]
    case FinishUnlock => s.registered
    case Won => s.registered
    case _ => []
  }

  lemma InvocationsCounted(s: State, c: nat)
    requires Inv(s) && c < |s.pc|
    ensures Invocations(s, c) == if c in Passed(s) || CalledDirectly(s.pc[c]) then 1 else 0
  {
    if s.winner.Some? {
      ReversedTimes(Passed(s), s.winner.value, c);
    }
    assert Times(s.directCalls, c) == if CalledDirectly(s.pc[c]) then 1 else 0;
    assert c in Passed(s) ==> c in s.registered;
  }

  /** At every moment of every interleaving no callback has been invoked twice, and none before a `Finish` won. */
  lemma AtMostOnce(pc: seq<Pc>, steps: seq<nat>, c: nat)
    requires Lifetime(pc, steps) && c < |pc|
    ensures var e := After(Start(pc), steps);
      Invocations(e, c) <= 1 && (e.winner == None ==> Invocations(e, c) == 0)
  {
    RunKeeps(Start(pc), steps);
    InvocationsCounted(After(Start(pc), steps), c);
  }

  /** The swap has one winner, whose result is the one stored. */
  lemma OneFinishTakesEffect(pc: seq<Pc>, steps: seq<nat>, t: nat, u: nat)
    requires Lifetime(pc, steps) && t < |pc| && u < |pc|
    ensures var e := After(Start(pc), steps);
      && |e.pc| == |pc|
      && (Winning(e.pc[t]) && Winning(e.pc[u]) ==> t == u)
      && (e.pc[t] == Won ==> e.result == Some(t))
      && (e.result == None || (e.result == e.winner && e.winner.value < |pc| && Winning(e.pc[e.winner.value])))
  {
    RunKeeps(Start(pc), steps);
  }

  lemma {:induction false} KindsKept(s: State, steps: seq<nat>, t: nat)
    requires Legal(s, steps) && t < |s.pc|
    ensures var e := After(s, steps); t < |e.pc| && Finishing(e.pc[t]) == Finishing(s.pc[t])
    decreases steps
  {
    if steps != [] {
      KindKept(s, steps[0], t);
      KindsKept(Next(s, steps[0]), steps[1..], t);
    }
  }

  lemma QuietUnlocked(e: State)
    requires Inv(e) && Quiet(e)
    ensures e.lock == None && (e.finished ==> Stage(e) == Won)
  {
    assert e.lock.Some? ==> Locking(e.pc[e.lock.value]);
    assert e.finished ==> Winning(e.pc[e.winner.value]);
  }

  lemma QuietCallback(e: State, c: nat)
    requires Inv(e) && Quiet(e) && c < |e.pc| && !Finishing(e.pc[c])
    ensures if e.finished then Invocations(e, c) == 1 else c in e.onFinish && Invocations(e, c) == 0
  {
    QuietUnlocked(e);
    InvocationsCounted(e, c);
    assert e.pc[c].Registered?;
    assert CalledDirectly(e.pc[c]) ==> Times(e.directCalls, c) == 1;
  }

  /** What a task is left with once every call has returned. */
  predicate Settled(e: State) {
    if e.finished then
      && e.winner.Some? && e.result == e.winner && e.onFinish == []
      && e.heldCalls == Reversed(e.registered, e.winner.value)
      && (forall c :: 0 <= c < |e.pc| && !Finishing(e.pc[c]) ==> Invocations(e, c) == 1)
    else
      && e.onFinish == e.registered
      && (forall c :: 0 <= c < |e.pc| ==> c in e.onFinish && Invocations(e, c) == 0)
  }

  lemma QuietSettled(e: State)
    requires Inv(e) && Quiet(e)
    ensures Settled(e) && (e.finished <==> exists f :: 0 <= f < |e.pc| && Finishing(e.pc[f]))
  {
    QuietUnlocked(e);
    forall c | 0 <= c < |e.pc| && !Finishing(e.pc[c])
      ensures if e.finished then Invocations(e, c) == 1 else c in e.onFinish && Invocations(e, c) == 0
    {
      QuietCallback(e, c);
    }
    if e.finished {
      assert Finishing(e.pc[e.winner.value]);
    }
  }

  /**
   * Once every call has returned: if anybody called `Finish`, each registered callback has been invoked exactly
   * once, those held at the finish in reverse order of registration with the stored result; if nobody did, each is
   * still held, in order, and none has been invoked.
   */
  lemma ExactlyOnce(pc: seq<Pc>, steps: seq<nat>)
    requires Lifetime(pc, steps) && Quiet(After(Start(pc), steps))
    ensures var e := After(Start(pc), steps);
      && |e.pc| == |pc| && (forall c :: 0 <= c < |pc| ==> Finishing(e.pc[c]) == (pc[c] == FinishSwap))
      && (e.finished <==> exists f :: 0 <= f < |pc| && Finishing(e.pc[f]))
      && Settled(e)
  {
    RunKeeps(Start(pc), steps);
    QuietSettled(After(Start(pc), steps));
    forall c | 0 <= c < |pc|
      ensures Finishing(After(Start(pc), steps).pc[c]) == (pc[c] == FinishSwap)
    {
      KindsKept(Start(pc), steps, c);
    }
  }

  // ---------- Every interleaving ends ----------

  /** While any call has not returned, some thread can go on. */
  lemma NeverStuck(s: State, t: nat)
    requires Inv(s) && t < |s.pc| && !Ended(s.pc[t])
    ensures exists u :: Enabled(s, u)
  {
    if s.lock.Some? {
      assert Locking(s.pc[s.lock.value]);
      assert Enabled(s, s.lock.value);
    } else {
      assert Enabled(s, t);
    }
  }

  /** An upper bound on the steps a thread has left, among `n` threads. */
  function Left(pc: Pc, n: nat): nat {
    match pc
    case FinishSwap => n + 6
    case FinishLock => n + 5
    case FinishStore => n + 4
    case Calling(left) => left + 3
    case FinishUnlock => 2
    case RegCheck => 6
    case RegLock => 5
    case RegRecheck => 4
    case RegAppend => 3
    case RegCallLocked => 3
    case RegUnlock(_) => 2
    case RegCall => 1
    case _ => 0
  }

  function Measure(pc: seq<Pc>, n: nat): nat {
    if pc == [] then 0 else Left(pc[0], n) + Measure(pc[1..], n)
  }

  lemma {:induction false} MeasureUpdate(pc: seq<Pc>, n: nat, t: nat, p: Pc)
    requires t < |pc|
    ensures Measure(pc[t := p], n) + Left(pc[t], n) == Measure(pc, n) + Left(p, n)
  {
    if t == 0 {
      assert pc[t := p][1..] == pc[1..];
    } else {
      MeasureUpdate(pc[1..], n, t - 1, p);
      assert pc[t := p][1..] == pc[1..][t - 1 := p];
    }
  }

  lemma {:induction false} DistinctBounded(xs: seq<nat>, n: nat)
    requires forall i :: 0 <= i < |xs| ==> xs[i] < n
    requires forall i, j :: 0 <= i < j < |xs| ==> xs[i] != xs[j]
    ensures |xs| <= n
    decreases n
  {
    if xs != [] {
      assert xs[0] < n;
      if k :| 0 <= k < |xs| && xs[k] == n - 1 {
        DistinctBounded(xs[..k] + xs[k + 1..], n - 1);
      } else {
        DistinctBounded(xs, n - 1);
      }
    }
  }

  lemma LeftDrops(s: State, t: nat)
    requires Enabled(s, t) && |s.onFinish| <= |s.pc|
    requires s.pc[t].Calling? ==> s.pc[t].left <= |s.onFinish|
    ensures |Next(s, t).pc| == |s.pc| && Next(s, t).pc == s.pc[t := Next(s, t).pc[t]]
    ensures Left(Next(s, t).pc[t], |s.pc|) < Left(s.pc[t], |s.pc|)
  {
  }

  lemma StepDescends(s: State, t: nat)
    requires Inv(s) && Enabled(s, t)
    ensures Measure(Next(s, t).pc, |s.pc|) < Measure(s.pc, |s.pc|)
  {
    forall i | 0 <= i < |s.registered|
      ensures s.registered[i] < |s.pc|
    {
      assert s.registered[i] in s.registered;
    }
    DistinctBounded(s.registered, |s.pc|);
    assert s.pc[t].Calling? ==> Winning(s.pc[t]) && Stage(s) == s.pc[t];
    LeftDrops(s, t);
    MeasureUpdate(s.pc, |s.pc|, t, Next(s, t).pc[t]);
  }

  /** No interleaving is longer than the steps its threads have to take. */
  lemma {:induction false} RunsEnd(s: State, steps: seq<nat>)
    requires Inv(s) && Legal(s, steps)
    ensures |steps| <= Measure(s.pc, |s.pc|)
    decreases steps
  {
    if steps != [] {
      StepKeeps(s, steps[0]);
      StepDescends(s, steps[0]);
      RunsEnd(Next(s, steps[0]), steps[1..]);
    }
  }

  /** A lifetime that cannot be extended has settled. */
  lemma LifetimesSettle(pc: seq<Pc>, steps: seq<nat>)
    requires Lifetime(pc, steps)
    requires forall u :: !Enabled(After(Start(pc), steps), u)
    ensures Settled(After(Start(pc), steps)) && |steps| <= Measure(pc, |pc|)
  {
    RunKeeps(Start(pc), steps);
    RunsEnd(Start(pc), steps);
    var e := After(Start(pc), steps);
    forall t | 0 <= t < |e.pc|
      ensures Ended(e.pc[t])
    {
      if !Ended(e.pc[t]) {
        NeverStuck(e, t);
      }
    }
    QuietSettled(e);
  }

  // ---------- The result a late callback sees ----------

  /** A callback called by its own thread sees the result exactly when the winner has stored it. */
  lemma DirectCallResult(s: State, t: nat)
    requires Inv(s) && Enabled(s, t) && (s.pc[t] == RegCall || s.pc[t] == RegCallLocked)
    ensures s.winner.Some?
    ensures Next(s, t).directCalls
         == s.directCalls + [Entry(t, if Stage(s) == FinishLock || Stage(s) == FinishStore then None else s.winner)]
  {
    assert Winning(s.pc[s.winner.value]);
  }

  /** A callback registered between the swap and the store is called without the result. */
  lemma LateCallbackSeesNoResult()
    ensures exists steps ::
      && Lifetime([FinishSwap, RegCheck], steps)
      && After(Start([FinishSwap, RegCheck]), steps).finished
      && After(Start([FinishSwap, RegCheck]), steps).directCalls == [Entry(1, None)]
  {
    var s0 := Start([FinishSwap, RegCheck]);
    var s1 := s0.(finished := true, winner := Some(0), pc := [FinishLock, RegCheck]);
    var s2 := s1.(pc := [FinishLock, RegCall]);
    var s3 := s2.(pc := [FinishLock, Registered(false)], directCalls := [Entry(1, None)]);
    assert s1 == Next(s0, 0) && s2 == Next(s1, 1) && s3 == Next(s2, 1);
    var steps := [0] + ([1] + ([1] + []));
    Extend(s2, s3, 1, []);
    Extend(s1, s2, 1, [1] + []);
    Extend(s0, s1, 0, [1] + ([1] + []));
    assert After(s0, steps) == s3;
  }

  lemma Extend(s: State, n: State, t: nat, rest: seq<nat>)
    requires Enabled(s, t) && n == Next(s, t) && Legal(n, rest)
    ensures Legal(s, [t] + rest) && After(s, [t] + rest) == After(n, rest)
  {
    assert ([t] + rest)[1..] == rest;
  }
}
