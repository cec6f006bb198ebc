/**
 * One shard of the tracer with writers and a flush that overlap. A writer reads which bank is active and only later
 * locks that bank to add its call; a flush clears the inactive bank, makes it the active one, and later harvests the
 * other. Each of these is a step, and a call goes by the number of its writer.
 */
module TracerSteps {

  /** How far a flush has come with the shard. */
  datatype Flusher = Resting | Cleared | Swapped

  /**
   * `loaded` are the writers that hold the index of a bank. `recorded`, `dropped` and `late` are history: the calls
   * added, those that a clear threw away, and those added to a bank after its harvest and before its next clear.
   */
  datatype State = State(
    active: nat, banks: seq<seq<nat>>, flusher: Flusher, loaded: map<nat, nat>,
    outputs: seq<seq<nat>>, recorded: seq<nat>, dropped: seq<nat>, late: set<nat>)

  datatype Step = Load(w: nat) | Add(w: nat) | Clear | Swap | Harvest

  const START: State := State(0, [[], []], Resting, map[], [], [], [], {})

  predicate Shaped(s: State) {
    s.active < 2 && |s.banks| == 2 && forall w :: w in s.loaded ==> s.loaded[w] < 2
  }

  predicate Enabled(s: State, step: Step) {
    match step
    case Load(w) => w !in s.loaded && w !in s.recorded
    case Add(w) => w in s.loaded
    case Clear => s.flusher == Resting
    case Swap => s.flusher == Cleared
    case Harvest => s.flusher == Swapped
  }

  /** The bank has been harvested and not been cleared again. */
  predicate Retired(s: State, i: nat) {
    s.flusher == Resting && i != s.active
  }

  function Next(s: State, step: Step): State
    requires Shaped(s) && Enabled(s, step)
  {
    var other := 1 - s.active;
    match step
    case Load(w) => s.(loaded := s.loaded[w := s.active])
    case Add(w) =>
      var i := s.loaded[w];
      s.(banks := s.banks[i := s.banks[i] + [w]], loaded := s.loaded - {w}, recorded := s.recorded + [w],
         late := if Retired(s, i) then s.late + {w} else s.late)
    case Clear => s.(banks := s.banks[other := []], dropped := s.dropped + s.banks[other], flusher := Cleared)
    case Swap => s.(active := other, flusher := Swapped)
    case Harvest => s.(banks := s.banks[other := []], outputs := s.outputs + [s.banks[other]], flusher := Resting)
  }

  function Flat(outputs: seq<seq<nat>>): seq<nat> {
    if outputs == [] then [] else Flat(outputs[..|outputs| - 1]) + outputs[|outputs| - 1]
  }

  // ---------- What every step keeps ----------

  /** No call is recorded twice, and none whose writer has not added it. */
  predicate Once(s: State) {
    && (forall i, j :: 0 <= i < j < |s.recorded| ==> s.recorded[i] != s.recorded[j])
    && (forall w :: w in s.recorded ==> w !in s.loaded)
  }

  /** Every recorded call is in one of the banks, in one output, or dropped. */
  predicate Conserved(s: State)
    requires Shaped(s)
  {
    multiset(s.recorded)
    == multiset(s.banks[0]) + multiset(s.banks[1]) + multiset(Flat(s.outputs)) + multiset(s.dropped)
  }

  predicate AllIn(late: set<nat>, calls: seq<nat>) {
    forall w :: w in calls ==> w in late
  }

  predicate NoneIn(late: set<nat>, calls: seq<nat>) {
    forall w :: w in calls ==> w !in late
  }

  /** Late calls are in the retired bank or dropped, all others are not. */
  predicate Sorted(s: State)
    requires Shaped(s)
  {
    && NoneIn(s.late, s.banks[s.active]) && NoneIn(s.late, Flat(s.outputs)) && AllIn(s.late, s.dropped)
    && (if s.flusher == Resting then AllIn(s.late, s.banks[1 - s.active]) else NoneIn(s.late, s.banks[1 - s.active]))
    && forall w :: w in s.late ==> w in s.recorded
  }

  predicate Inv(s: State) {
    Shaped(s) && Once(s) && Conserved(s) && Sorted(s)
  }

  lemma FlatNext(outputs: seq<seq<nat>>, calls: seq<nat>)
    ensures Flat(outputs + [calls]) == Flat(outputs) + calls
  {
    assert (outputs + [calls])[..|outputs|] == outputs;
  }

  lemma AddConserves(s: State, w: nat)
    requires Shaped(s) && Conserved(s) && w in s.loaded
    ensures Conserved(Next(s, Add(w)))
  {
    var i := s.loaded[w];
    assert multiset(s.banks[i] + [w]) == multiset(s.banks[i]) + multiset{w};
    assert multiset(s.recorded + [w]) == multiset(s.recorded) + multiset{w};
  }

  lemma FlushConserves(s: State, step: Step)
    requires Shaped(s) && Conserved(s) && Enabled(s, step) && !step.Add?
    ensures Conserved(Next(s, step))
  {
    FlatNext(s.outputs, s.banks[1 - s.active]);
  }

  lemma ConservedKept(s: State, step: Step)
    requires Shaped(s) && Conserved(s) && Enabled(s, step)
    ensures Conserved(Next(s, step))
  {
    if step.Add? {
      AddConserves(s, step.w);
    } else {
      FlushConserves(s, step);
    }
  }

  lemma OnceKept(s: State, step: Step)
    requires Shaped(s) && Once(s) && Enabled(s, step)
    ensures Once(Next(s, step))
  {
  }

  /** A call that was not recorded is nowhere. */
  lemma Nowhere(s: State, w: nat)
    requires Shaped(s) && Conserved(s) && w !in s.recorded
    ensures w !in s.banks[0] && w !in s.banks[1] && w !in Flat(s.outputs) && w !in s.dropped
  {
    assert w !in multiset(s.recorded);
    assert w !in multiset(s.banks[0]) && w !in multiset(s.banks[1]);
    assert w !in multiset(Flat(s.outputs)) && w !in multiset(s.dropped);
  }

  lemma AddSorted(s: State, w: nat)
    requires Shaped(s) && Sorted(s) && w in s.loaded
    requires w !in s.banks[0] && w !in s.banks[1] && w !in Flat(s.outputs) && w !in s.dropped && w !in s.late
    ensures Sorted(Next(s, Add(w)))
  {
  }

  lemma Together(late: set<nat>, a: seq<nat>, b: seq<nat>)
    ensures AllIn(late, a) && AllIn(late, b) ==> AllIn(late, a + b)
    ensures NoneIn(late, a) && NoneIn(late, b) ==> NoneIn(late, a + b)
  {
  }

  lemma FlushSorted(s: State, step: Step)
    requires Shaped(s) && Sorted(s) && Enabled(s, step) && !step.Add?
    ensures Sorted(Next(s, step))
  {
    var other := s.banks[1 - s.active];
    match step
    case Clear => Together(s.late, s.dropped, other);
    case Harvest => {
      FlatNext(s.outputs, other);
      Together(s.late, Flat(s.outputs), other);
    }
    case _ =>
  }

  lemma SortedKept(s: State, step: Step)
    requires Inv(s) && Enabled(s, step)
    ensures Sorted(Next(s, step))
  {
    if step.Add? {
      Nowhere(s, step.w);
      AddSorted(s, step.w);
    } else {
      FlushSorted(s, step);
    }
  }

  lemma StepKeeps(s: State, step: Step)
    requires Inv(s) && Enabled(s, step)
    ensures Inv(Next(s, step))
  {
    ConservedKept(s, step);
    OnceKept(s, step);
    SortedKept(s, step);
  }

  // ---------- Runs ----------

  predicate Legal(s: State, steps: seq<Step>)
    requires Shaped(s)
    decreases steps
  {
    steps == [] || (Enabled(s, steps[0]) && Legal(Next(s, steps[0]), steps[1..]))
  }

  function After(s: State, steps: seq<Step>): (e: State)
    requires Shaped(s) && Legal(s, steps)
    ensures Shaped(e)
    decreases steps
  {
    if steps == [] then s else After(Next(s, steps[0]), steps[1..])
  }

  lemma {:induction false} RunKeeps(s: State, steps: seq<Step>)
    requires Inv(s) && Legal(s, steps)
    ensures Inv(After(s, steps))
    decreases steps
  {
    if steps != [] {
      StepKeeps(s, steps[0]);
      RunKeeps(Next(s, steps[0]), steps[1..]);
    }
  }

  lemma {:induction false} Distinct(calls: seq<nat>, w: nat)
    requires forall i, j :: 0 <= i < j < |calls| ==> calls[i] != calls[j]
    ensures multiset(calls)[w] == if w in calls then 1 else 0
  {
    if calls != [] {
      Distinct(calls[1..], w);
      assert calls == [calls[0]] + calls[1..];
    }
  }

  /** How often a call has been reported. */
  function Reported(s: State, w: nat): nat {
    multiset(Flat(s.outputs))[w]
  }

  /** At every moment of every interleaving no call has been reported twice, and no late call at all. */
  lemma AtMostOnce(steps: seq<Step>, w: nat)
    requires Legal(START, steps)
    ensures var e := After(START, steps); Reported(e, w) <= 1 && (w in e.late ==> Reported(e, w) == 0)
  {
    RunKeeps(START, steps);
    var e := After(START, steps);
    Distinct(e.recorded, w);
    assert multiset(e.recorded)[w] >= multiset(Flat(e.outputs))[w];
    if w in Flat(e.outputs) {
      assert w !in e.late;
    }
  }

  const FLUSH: seq<Step> := [Clear, Swap, Harvest]

  lemma FlushAlone(s: State)
    requires Shaped(s) && s.flusher == Resting
    ensures Legal(s, FLUSH)
    ensures After(s, FLUSH) == s.(active := 1 - s.active, banks := [[], []],
                                  outputs := s.outputs + [s.banks[s.active]], dropped := s.dropped + s.banks[1 - s.active])
  {
    var s1 := Next(s, Clear);
    var s2 := Next(s1, Swap);
    var s3 := Next(s2, Harvest);
    assert FLUSH[1..] == [Swap, Harvest] && FLUSH[1..][1..] == [Harvest] && FLUSH[1..][1..][1..] == [];
    assert s3.banks == [[], []];
  }

  /**
   * Once a flush has gone through undisturbed, a recorded call has been reported exactly once if it was not late,
   * and never if it was: it was added to a bank that had been harvested and not yet cleared again.
   */
  lemma CountedExactly(steps: seq<Step>, w: nat)
    requires Legal(START, steps) && After(START, steps).flusher == Resting && w in After(START, steps).recorded
    ensures var s := After(START, steps);
      Legal(s, FLUSH) && Reported(After(s, FLUSH), w) == if w in s.late then 0 else 1
  {
    RunKeeps(START, steps);
    var s := After(START, steps);
    FlushAlone(s);
    RunKeeps(s, FLUSH);
    var e := After(s, FLUSH);
    Distinct(e.recorded, w);
    if w in s.late {
      assert w !in Flat(e.outputs);
    } else {
      assert w !in e.dropped;
    }
  }

  // ---------- Who is late ----------

  predicate NoHarvest(steps: seq<Step>) {
    forall i :: 0 <= i < |steps| ==> steps[i] != Harvest
  }

  lemma {:induction false} RestingUnswapped(s: State, steps: seq<Step>, w: nat)
    requires Shaped(s) && Legal(s, steps) && NoHarvest(steps) && w in s.loaded && Add(w) !in steps
    ensures var e := After(s, steps);
      && w in e.loaded && e.loaded[w] == s.loaded[w]
      && (e.flusher == Resting ==> s.flusher == Resting && e.active == s.active)
    decreases steps
  {
    if steps != [] {
      assert steps[0] in steps && steps[0] != Add(w);
      RestingUnswapped(Next(s, steps[0]), steps[1..], w);
    }
  }

  /** A call is late only if a whole harvest has come between its writer's look at the index and its lock. */
  lemma LateIsOvertaken(s: State, w: nat, steps: seq<Step>)
    requires Inv(s) && Enabled(s, Load(w))
    requires Legal(Next(s, Load(w)), steps) && NoHarvest(steps) && Add(w) !in steps
    ensures var e := After(Next(s, Load(w)), steps); Enabled(e, Add(w)) && w !in Next(e, Add(w)).late
  {
    StepKeeps(s, Load(w));
    RestingUnswapped(Next(s, Load(w)), steps, w);
    RunKeeps(Next(s, Load(w)), steps);
    var e := After(Next(s, Load(w)), steps);
    assert w !in e.late;
  }

  lemma Extend(s: State, step: Step, rest: seq<Step>)
    requires Shaped(s) && Enabled(s, step) && Legal(Next(s, step), rest)
    ensures Legal(s, [step] + rest) && After(s, [step] + rest) == After(Next(s, step), rest)
  {
    assert ([step] + rest)[1..] == rest;
  }

  /** The shard after a writer was overtaken by a whole flush and then added its call. */
  const OVERTAKEN: State := State(1, [[0], []], Resting, map[], [[]], [0], [], {0})

  lemma Overtaking(rest: seq<Step>)
    requires Legal(OVERTAKEN, rest)
    ensures var steps := [Load(0)] + ([Clear] + ([Swap] + ([Harvest] + ([Add(0)] + rest))));
      Legal(START, steps) && After(START, steps) == After(OVERTAKEN, rest)
  {
    var s1 := START.(loaded := map[0 := 0]);
    var s2 := s1.(flusher := Cleared);
    var s3 := s2.(active := 1, flusher := Swapped);
    var s4 := s3.(outputs := [[]], flusher := Resting);
    var n := Next(s4, Add(0));
    assert n.banks == [[0], []] && n.loaded == map[] && n.recorded == [0] && n.late == {0};
    Extend(s4, Add(0), rest);
    assert Next(s3, Harvest) == s4;
    Extend(s3, Harvest, [Add(0)] + rest);
    assert Next(s2, Swap) == s3;
    Extend(s2, Swap, [Harvest] + ([Add(0)] + rest));
    assert Next(s1, Clear) == s2;
    Extend(s1, Clear, [Swap] + ([Harvest] + ([Add(0)] + rest)));
    assert Next(START, Load(0)) == s1;
    Extend(START, Load(0), [Clear] + ([Swap] + ([Harvest] + ([Add(0)] + rest))));
  }

  /** A writer overtaken by a flush: its call is recorded, thrown away by the next flush, and never reported. */
  lemma OvertakenCallIsLost() returns (steps: seq<Step>)
    ensures Legal(START, steps)
    ensures var e := After(START, steps);
      e.recorded == [0] && e.dropped == [0] && Reported(e, 0) == 0 && e.flusher == Resting
  {
    FlushAlone(OVERTAKEN);
    Overtaking(FLUSH);
    steps := [Load(0)] + ([Clear] + ([Swap] + ([Harvest] + ([Add(0)] + FLUSH))));
    assert After(START, steps).late == {0};
    AtMostOnce(steps, 0);
  }
}
