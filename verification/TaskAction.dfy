/** A task object with its calls run one after another, and the steps such calls are made of. */
module TaskAction {
  import opened Wrappers
  import opened TaskFinish
  import opened TaskFinishRuns

  /** The fields of a task that `Finish` and `InitOnFinish` share. */
  datatype Fields = Fields(finished: bool, result: Option<nat>, onFinish: seq<nat>)

  /** What an uninterrupted `Finish` makes of the fields, and the callbacks it invokes. */
  function FinishEffect(f: Fields, result: nat): (Fields, seq<Entry>) {
    if f.finished then (f, []) else (Fields(true, Some(result), []), Reversed(f.onFinish, result))
  }

  /** What an uninterrupted `InitOnFinish` makes of the fields, and the callbacks it invokes. */
  function RegisterEffect(f: Fields, callback: nat): (Fields, seq<Entry>) {
    if f.finished then (f, [Entry(callback, f.result)]) else (f.(onFinish := f.onFinish + [callback]), [])
  }

  // ---------- The object ----------

  class Task {
    var finished: bool
    var result: Option<nat>
    var onFinish: seq<nat>
    var invoked: seq<Entry>

    ghost function View(): Fields
      reads this
    {
      Fields(finished, result, onFinish)
    }

    constructor ()
      ensures View() == Fields(false, None, []) && invoked == []
    {
      finished, result, onFinish, invoked := false, None, [], [];
    }

    /** Only the first call counts: it stores its result and invokes what is held, the last one first. */
    method Finish(result: nat)
      modifies this
      ensures View() == FinishEffect(old(View()), result).0
      ensures invoked == old(invoked) + FinishEffect(old(View()), result).1
    {
      if finished {
        return;
      }
      finished := true;
      this.result := Some(result);
      var index := |onFinish|;
      assert onFinish[index..] == [];
      while index > 0
        invariant 0 <= index <= |onFinish| && onFinish == old(onFinish) && finished && this.result == Some(result)
        invariant invoked == old(invoked) + Reversed(onFinish[index..], result)
      {
        index := index - 1;
        assert onFinish[index..][1..] == onFinish[index + 1..];
        invoked := invoked + [Entry(onFinish[index], this.result)];
      }
      assert onFinish[0..] == onFinish;
      onFinish := [];
    }

    /** Invoked at once on a finished task, held otherwise. */
    method InitOnFinish(callback: nat)
      modifies this
      ensures View() == RegisterEffect(old(View()), callback).0
      ensures invoked == old(invoked) + RegisterEffect(old(View()), callback).1
    {
      if finished {
        invoked := invoked + [Entry(callback, result)];
      } else {
        onFinish := onFinish + [callback];
      }
    }
  }

  // ---------- The same calls as steps of one thread ----------

  function FieldsOf(s: State): Fields {
    Fields(s.finished, s.result, s.onFinish)
  }

  /** A run in which only thread `t` moves. */
  predicate Alone(s: State, steps: seq<nat>, t: nat) {
    Legal(s, steps) && forall i :: 0 <= i < |steps| ==> steps[i] == t
  }

  lemma StepFirst(s: State, t: nat, rest: seq<nat>)
    requires Enabled(s, t) && Alone(Next(s, t), rest, t)
    ensures Alone(s, [t] + rest, t) && After(s, [t] + rest) == After(Next(s, t), rest)
  {
    Extend(s, Next(s, t), t, rest);
  }

  lemma ReversedLast(callbacks: seq<nat>, c: nat, winner: nat)
    ensures Reversed(callbacks + [c], winner) == [Entry(c, Some(winner))] + Reversed(callbacks, winner)
  {
  }

  /** The end of a winning `Finish`: the list is cleared and the lock released. */
  lemma ClearAlone(s: State, t: nat)
    requires t < |s.pc| && s.pc[t] == Calling(0)
    ensures Alone(s, [t, t], t) && After(s, [t, t]) == s.(onFinish := [], lock := None, pc := s.pc[t := Won])
  {
    var s1 := Next(s, t);
    assert Next(s1, t).pc == s.pc[t := Won];
    assert [t, t] == [t] + ([t] + []);
    StepFirst(s1, t, []);
    StepFirst(s, t, [t] + []);
  }

  lemma CallOnce(s: State, t: nat, left: nat)
    requires t < |s.pc| && s.pc[t] == Calling(left) && 0 < left <= |s.onFinish|
    ensures Enabled(s, t)
    ensures Next(s, t) == s.(pc := s.pc[t := Calling(left - 1)],
                             heldCalls := s.heldCalls + [Entry(s.onFinish[left - 1], s.result)])
  {
  }

  /** From the call loop on: everything below `left` is invoked, the list cleared and the lock released. */
  lemma {:induction false} CallsAlone(s: State, t: nat, left: nat) returns (steps: seq<nat>)
    requires t < |s.pc| && s.pc[t] == Calling(left) && left <= |s.onFinish| && s.result == Some(t)
    ensures Alone(s, steps, t)
    ensures After(s, steps) == s.(onFinish := [], lock := None, pc := s.pc[t := Won],
                                  heldCalls := s.heldCalls + Reversed(s.onFinish[..left], t))
    decreases left
  {
    if left == 0 {
      ClearAlone(s, t);
      steps := [t, t];
      assert s.heldCalls + [] == s.heldCalls;
    } else {
      CallOnce(s, t, left);
      var s1 := Next(s, t);
      var rest := CallsAlone(s1, t, left - 1);
      StepFirst(s, t, rest);
      steps := [t] + rest;
      ReversedLast(s.onFinish[..left - 1], s.onFinish[left - 1], t);
      assert s.onFinish[..left] == s.onFinish[..left - 1] + [s.onFinish[left - 1]];
      assert s1.pc[t := Won] == s.pc[t := Won];
      assert s1.heldCalls + Reversed(s.onFinish[..left - 1], t) == s.heldCalls + Reversed(s.onFinish[..left], t);
    }
  }

  /** A `Finish` that nobody interrupts does to the machine what the method does to the object. */
  lemma FinishAlone(s: State, t: nat) returns (steps: seq<nat>)
    requires t < |s.pc| && s.pc[t] == FinishSwap && s.lock == None
    ensures Alone(s, steps, t)
    ensures var e, effect := After(s, steps), FinishEffect(FieldsOf(s), t);
            && FieldsOf(e) == effect.0 && e.heldCalls == s.heldCalls + effect.1 && e.directCalls == s.directCalls
            && e.lock == None && e.pc == s.pc[t := if s.finished then Lost else Won]
  {
    if s.finished {
      StepFirst(s, t, []);
      steps := [t] + [];
    } else {
      var s1 := Next(s, t);
      var s2 := Next(s1, t);
      var s3 := Next(s2, t);
      var rest := CallsAlone(s3, t, |s.onFinish|);
      StepFirst(s2, t, rest);
      StepFirst(s1, t, [t] + rest);
      StepFirst(s, t, [t] + ([t] + rest));
      steps := [t] + ([t] + ([t] + rest));
      assert s.onFinish[..|s.onFinish|] == s.onFinish;
      assert s3.pc[t := Won] == s.pc[t := Won];
    }
  }

  /** The second half of a registration that found the flag unset twice. */
  lemma HoldAlone(s: State, t: nat)
    requires t < |s.pc| && s.pc[t] == RegAppend
    ensures Alone(s, [t, t], t)
    ensures After(s, [t, t]) == s.(onFinish := s.onFinish + [t], registered := s.registered + [t], lock := None,
                                   pc := s.pc[t := Registered(true)])
  {
    var s1 := Next(s, t);
    assert Next(s1, t).pc == s.pc[t := Registered(true)];
    assert [t, t] == [t] + ([t] + []);
    StepFirst(s1, t, []);
    StepFirst(s, t, [t] + []);
  }

  /** The first half, up to the append. */
  lemma LockAlone(s: State, t: nat, rest: seq<nat>)
    requires t < |s.pc| && s.pc[t] == RegCheck && s.lock == None && !s.finished
    requires Alone(s.(lock := Some(t), pc := s.pc[t := RegAppend]), rest, t)
    ensures Alone(s, [t] + ([t] + ([t] + rest)), t)
    ensures After(s, [t] + ([t] + ([t] + rest))) == After(s.(lock := Some(t), pc := s.pc[t := RegAppend]), rest)
  {
    var s1 := s.(pc := s.pc[t := RegLock]);
    var s2 := s.(lock := Some(t), pc := s.pc[t := RegRecheck]);
    assert Next(s, t) == s1 && Next(s1, t) == s2;
    assert Next(s2, t) == s.(lock := Some(t), pc := s.pc[t := RegAppend]);
    StepFirst(s2, t, rest);
    StepFirst(s1, t, [t] + rest);
    StepFirst(s, t, [t] + ([t] + rest));
  }

  /** The registration of a callback with a finished task. */
  lemma CallAlone(s: State, t: nat)
    requires t < |s.pc| && s.pc[t] == RegCheck && s.finished
    ensures Alone(s, [t, t], t)
    ensures After(s, [t, t]) == s.(directCalls := s.directCalls + [Entry(t, s.result)], pc := s.pc[t := Registered(false)])
  {
    var s1 := Next(s, t);
    assert Next(s1, t).pc == s.pc[t := Registered(false)];
    assert [t, t] == [t] + ([t] + []);
    StepFirst(s1, t, []);
    StepFirst(s, t, [t] + []);
  }

  /** Likewise for `InitOnFinish`. */
  lemma RegisterAlone(s: State, t: nat) returns (steps: seq<nat>)
    requires t < |s.pc| && s.pc[t] == RegCheck && s.lock == None
    ensures Alone(s, steps, t)
    ensures var e, effect := After(s, steps), RegisterEffect(FieldsOf(s), t);
            && FieldsOf(e) == effect.0 && e.directCalls == s.directCalls + effect.1 && e.heldCalls == s.heldCalls
            && e.lock == None && e.pc == s.pc[t := Registered(!s.finished)]
  {
    if s.finished {
      CallAlone(s, t);
      steps := [t, t];
    } else {
      var s3 := s.(lock := Some(t), pc := s.pc[t := RegAppend]);
      HoldAlone(s3, t);
      LockAlone(s, t, [t, t]);
      steps := [t] + ([t] + ([t] + [t, t]));
      assert s3.pc[t := Registered(true)] == s.pc[t := Registered(true)];
    }
  }
}
