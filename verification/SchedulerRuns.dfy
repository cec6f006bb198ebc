/** Whole runs of the scheduler: where they start, that they end, and what they have done by then. */
module SchedulerRuns {
  import opened Scheduler

  // ---------- The start ----------

  /** The accounts below `k` that worker `w` owns, in order. */
  function OwnedList(c: Config, w: nat, k: nat): (r: seq<nat>)
    requires c.Valid()
  {
    if k == 0 then []
    else if c.Owner(k - 1) == w then OwnedList(c, w, k - 1) + [k - 1]
    else OwnedList(c, w, k - 1)
  }

  /** The tokens put into the channel of `w` in `b` passes over all accounts. */
  function Filled(c: Config, w: nat, b: nat): (r: seq<nat>)
    requires c.Valid()
  {
    if b == 0 then [] else Filled(c, w, b - 1) + OwnedList(c, w, c.users)
  }

  lemma {:induction false} OwnedOnce(c: Config, w: nat, k: nat, a: nat)
    requires c.Valid()
    ensures multiset(OwnedList(c, w, k))[a] == if a < k && c.Owner(a) == w then 1 else 0
  {
    if k > 0 {
      OwnedOnce(c, w, k - 1, a);
      if c.Owner(k - 1) == w {
        AppendCount(OwnedList(c, w, k - 1), k - 1, a);
      }
    }
  }

  lemma {:induction false} FilledTimes(c: Config, w: nat, b: nat, a: nat)
    requires c.Valid()
    ensures multiset(Filled(c, w, b))[a] == if a < c.users && c.Owner(a) == w then b else 0
  {
    if b > 0 {
      FilledTimes(c, w, b - 1, a);
      OwnedOnce(c, w, c.users, a);
    }
  }

  function Start(c: Config): (s: State)
    requires c.Valid()
    ensures s.Shaped(c)
  {
    State(seq(c.users, _ => Account(0, 0, c.batch, 0)),
          seq(c.workers, (w: nat) => Worker(Filled(c, w, c.batch), 0, false, false)))
  }

  lemma StartCounted(c: Config, w: nat)
    requires c.Valid() && w < c.workers
    ensures Counted(c, Start(c), w)
  {
    var s := Start(c);
    forall x | x in s.workers[w].channel
      ensures x < c.users && c.Owner(x) == w
    {
      FilledTimes(c, w, c.batch, x);
      assert multiset(s.workers[w].channel)[x] > 0;
    }
    SumOwnedLe(c, w, Runs(s), _ => 0, c.users);
    SumOwnedLe(c, w, _ => 0, Runs(s), c.users);
    SumOwnedConstant(c, w, 0, c.users);
    SumOwnedConstant(c, w, c.runTime, c.users);
    OwnsSome(c, w);
  }

  lemma StartInv(c: Config)
    requires c.Valid()
    ensures Inv(c, Start(c))
  {
    forall a | 0 <= a < c.users
      ensures Conserved(c, Start(c), a)
    {
      FilledTimes(c, c.Owner(a), c.batch, a);
    }
    forall w | 0 <= w < c.workers
      ensures Counted(c, Start(c), w)
    {
      StartCounted(c, w);
    }
  }

  lemma OwnsSome(c: Config, w: nat)
    requires c.Valid() && w < c.workers
    ensures c.runTime * OwnedBelow(c, w, c.users) > 0
  {
    assert c.users / c.workers >= 1;
  }

  // ---------- Runs ----------

  /** Every step of the list is enabled when its turn comes. */
  ghost predicate Legal(c: Config, s: State, steps: seq<Step>)
    requires Inv(c, s)
    decreases |steps|
  {
    steps == [] ||
    (Enabled(c, s, steps[0]) &&
     (StepKeeps(c, s, steps[0]); Legal(c, Next(c, s, steps[0]), steps[1..])))
  }

  ghost function After(c: Config, s: State, steps: seq<Step>): (r: State)
    requires Inv(c, s) && Legal(c, s, steps)
    ensures Inv(c, r)
    decreases |steps|
  {
    if steps == [] then s
    else
      StepKeeps(c, s, steps[0]);
      After(c, Next(c, s, steps[0]), steps[1..])
  }

  /** A run of a case from its filled channels on. */
  ghost predicate RunOf(c: Config, steps: seq<Step>) {
    c.Valid() && (StartInv(c); Legal(c, Start(c), steps))
  }

  ghost function EndOf(c: Config, steps: seq<Step>): (r: State)
    requires RunOf(c, steps)
    ensures Inv(c, r)
  {
    StartInv(c);
    After(c, Start(c), steps)
  }

  // ---------- Runs end ----------

  /** What an account can still cause: three steps per run to come, two per flying task, one per pending token. */
  function Ahead(c: Config, s: State): nat -> int {
    (a: nat) => if a < |s.accounts|
                then 3 * (c.runTime - s.accounts[a].runs) + 2 * s.accounts[a].flying + s.accounts[a].pending
                else 0
  }

  function Active(workers: seq<Worker>): nat {
    if workers == [] then 0
    else Active(workers[..|workers| - 1]) + if workers[|workers| - 1].left then 0 else 1
  }

  lemma {:induction false} ActiveUpdate(workers: seq<Worker>, w: nat, x: Worker)
    requires w < |workers|
    ensures Active(workers[w := x])
            == Active(workers) - (if workers[w].left then 0 else 1) + if x.left then 0 else 1
  {
    var n := |workers| - 1;
    if w == n {
      assert workers[w := x][..n] == workers[..n];
    } else {
      assert workers[w := x][..n] == workers[..n][w := x];
      ActiveUpdate(workers[..n], w, x);
    }
  }

  /** All accounts under one owner, to sum over everybody. */
  function Everyone(c: Config): Config {
    c.(workers := 1)
  }

  function Measure(c: Config, s: State): int
    requires c.Valid()
  {
    SumOwned(Everyone(c), 0, Ahead(c, s), c.users) + Active(s.workers)
  }

  lemma StepDescends(c: Config, s: State, t: Step)
    requires Inv(c, s) && Enabled(c, s, t)
    ensures t.Dispatch? ==> s.workers[t.w].channel[0] < c.users
    ensures Measure(c, Next(c, s, t)) < Measure(c, s)
  {
    StepKeeps(c, s, t);
    var u := Next(c, s, t);
    var all, f, g := Everyone(c), Ahead(c, s), Ahead(c, u);
    if t.Break? {
      ActiveUpdate(s.workers, t.w, u.workers[t.w]);
      SumOwnedLe(all, 0, g, f, c.users);
    } else {
      var a := if t.Dispatch? then s.workers[t.w].channel[0] else t.a;
      var w := if t.Dispatch? then t.w else c.Owner(t.a);
      if t.Claim? {
        assert u.workers == s.workers;
      } else {
        ActiveUpdate(s.workers, w, u.workers[w]);
      }
      SumOwnedBump(all, 0, f, g, a, c.users);
    }
  }

  lemma MeasureNatural(c: Config, s: State)
    requires Inv(c, s)
    ensures Measure(c, s) >= 0
  {
    forall a: nat | a < c.users
      ensures Ahead(c, s)(a) >= 0
    {
      LiveTokensBounded(c, s, a);
    }
    SumOwnedLe(Everyone(c), 0, _ => 0, Ahead(c, s), c.users);
    SumOwnedConstant(Everyone(c), 0, 0, c.users);
  }

  lemma {:induction false} RunDescends(c: Config, s: State, steps: seq<Step>)
    requires Inv(c, s) && Legal(c, s, steps)
    ensures Measure(c, After(c, s, steps)) + |steps| <= Measure(c, s)
    decreases |steps|
  {
    if steps != [] {
      StepKeeps(c, s, steps[0]);
      StepDescends(c, s, steps[0]);
      RunDescends(c, Next(c, s, steps[0]), steps[1..]);
    }
  }

  /** Every run, in every interleaving, is finite: at most three steps per run plus one per worker. */
  lemma RunsEnd(c: Config, steps: seq<Step>)
    requires RunOf(c, steps)
    ensures |steps| <= 3 * c.runTime * c.users + c.workers
  {
    StartInv(c);
    var s := Start(c);
    RunDescends(c, s, steps);
    MeasureNatural(c, After(c, s, steps));
    SumOwnedLe(Everyone(c), 0, Ahead(c, s), _ => 3 * c.runTime, c.users);
    SumOwnedConstant(Everyone(c), 0, 3 * c.runTime, c.users);
    OneOwner(c);
    ActiveBounded(s.workers);
  }

  lemma OneOwner(c: Config)
    requires c.Valid()
    ensures OwnedBelow(Everyone(c), 0, c.users) == c.users
  {
  }

  lemma {:induction false} ActiveBounded(workers: seq<Worker>)
    ensures Active(workers) <= |workers|
  {
    if workers != [] {
      ActiveBounded(workers[..|workers| - 1]);
    }
  }

  // ---------- What a finished run has done ----------

  lemma {:induction false} NobodyBroken(c: Config, s: State, steps: seq<Step>)
    requires Inv(c, s) && Legal(c, s, steps)
    requires forall t :: t in steps ==> !t.Break?
    requires forall w :: 0 <= w < c.workers ==> !s.workers[w].broken
    ensures forall w :: 0 <= w < c.workers ==> !After(c, s, steps).workers[w].broken
    decreases |steps|
  {
    if steps != [] {
      StepKeeps(c, s, steps[0]);
      assert steps[0] in steps;
      NobodyBroken(c, Next(c, s, steps[0]), steps[1..]);
    }
  }

  /** A run that is not broken off and can go no further has run every account exactly `runTime` times. */
  lemma ExactRuns(c: Config, steps: seq<Step>, a: nat)
    requires RunOf(c, steps) && Quiet(c, EndOf(c, steps)) && a < c.users
    requires forall t :: t in steps ==> !t.Break?
    ensures var s := EndOf(c, steps);
            s.accounts[a].runs == c.runTime && s.accounts[a].Finished() == c.runTime && s.workers[c.Owner(a)].left
  {
    StartInv(c);
    NobodyBroken(c, Start(c), steps);
    QuietMeansDone(c, EndOf(c, steps), a);
  }
}
