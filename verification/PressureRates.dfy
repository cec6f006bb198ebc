/**
 * What the pressure controller does to the rate over whole runs of rounds, in numbers: how fast it climbs, where it
 * holds, how far it cuts, and when it tries again.
 */
module PressureRates {
  import opened Pressure

  /** `rate`, multiplied by `x` for `n` times. */
  function Compound(rate: real, x: real, n: nat): real
    decreases n
  {
    if n == 0 then rate else Compound(rate * x, x, n - 1)
  }

  function Larger(x: real, y: real): (m: real)
    ensures m >= x && m >= y && (m == x || m == y)
  {
    if x >= y then x else y
  }

  // ---------- Kinds of rounds ----------

  /** Enough samples to decide, against a known baseline. */
  predicate Measured(c: Control, r: Round) {
    |r.samples| >= 3 && c.baselineP50 > 0.0
  }

  function Raw(c: Control, r: Round): real
    requires Measured(c, r)
  {
    Median(r.samples) / c.baselineP50
  }

  /** The smoothed ratio once the round is taken in. */
  function Felt(c: Control, r: Round): real
    requires Measured(c, r)
  {
    0.3 * Raw(c, r) + 0.7 * c.smoothedRatio
  }

  /** The pending calls grew by more than half a second's worth and exceed one and a half. */
  predicate PilingUp(c: Control, r: Round) {
    && (r.pending - c.lastPending) as real > 0.5 * c.currentQPS
    && r.pending as real > 1.5 * c.currentQPS
  }

  /** Cutting the rate to whole calls makes no difference to that. */
  lemma GrowingMeans(c: Control, r: Round)
    ensures PendingGrowing(c, r.pending) <==> PilingUp(c, r)
  {
  }

  predicate Critical(c: Control, r: Round) {
    Measured(c, r) && Raw(c, r) >= 2.5
  }

  predicate Healthy(c: Control, r: Round) {
    Measured(c, r) && Raw(c, r) < 2.5 && Felt(c, r) < 1.2 && !PilingUp(c, r)
  }

  predicate Marginal(c: Control, r: Round) {
    Measured(c, r) && Raw(c, r) < 2.5 && 1.2 <= Felt(c, r) < 1.5 && !PilingUp(c, r)
  }

  predicate Strained(c: Control, r: Round) {
    Measured(c, r) && Raw(c, r) < 2.5 && (Felt(c, r) >= 1.5 || PilingUp(c, r))
  }

  /** Slow start looks at the unsmoothed ratio, and at the pending calls themselves. */
  predicate Easy(c: Control, r: Round) {
    Measured(c, r) && Raw(c, r) < 1.5 && !PilingUp(c, r) && r.pending as real + 1.0 <= 2.0 * c.currentQPS
  }

  /** Each round is of the kind in the state it meets. */
  ghost predicate Throughout(c: Control, rounds: seq<Round>, kind: (Control, Round) -> bool)
    requires Inv(c)
    decreases |rounds|
  {
    rounds != [] ==>
      && Positive(rounds[0]) && kind(c, rounds[0])
      && (DetectKeeps(c, rounds[0]); Throughout(Detect(c, rounds[0]), rounds[1..], kind))
  }

  lemma {:induction false} AllPositive(c: Control, rounds: seq<Round>, kind: (Control, Round) -> bool)
    requires Inv(c) && Throughout(c, rounds, kind)
    ensures forall r :: r in rounds ==> Positive(r)
    decreases |rounds|
  {
    if rounds != [] {
      DetectKeeps(c, rounds[0]);
      AllPositive(Detect(c, rounds[0]), rounds[1..], kind);
    }
  }

  /** The controller after a run of rounds of one kind. */
  ghost function AfterAll(c: Control, rounds: seq<Round>, kind: (Control, Round) -> bool): (d: Control)
    requires Inv(c) && Throughout(c, rounds, kind)
    ensures Inv(d)
  {
    AllPositive(c, rounds, kind);
    After(c, rounds)
  }

  lemma AfterFirst(c: Control, rounds: seq<Round>, kind: (Control, Round) -> bool)
    requires Inv(c) && Throughout(c, rounds, kind) && rounds != []
    ensures Positive(rounds[0]) && kind(c, rounds[0]) && Inv(Detect(c, rounds[0]))
    ensures Throughout(Detect(c, rounds[0]), rounds[1..], kind)
    ensures AfterAll(c, rounds, kind) == AfterAll(Detect(c, rounds[0]), rounds[1..], kind)
  {
    DetectKeeps(c, rounds[0]);
    AllPositive(c, rounds, kind);
  }

  // ---------- One round ----------

  /** Rounds of fewer than three samples change nothing; any other remembers the pending calls. */
  lemma PendingRemembered(c: Control, r: Round)
    requires Inv(c) && Positive(r)
    ensures |r.samples| < 3 ==> Detect(c, r) == c
    ensures |r.samples| >= 3 && c.phase != Disabled ==> Detect(c, r).lastPending == r.pending
  {
    DetectKeeps(c, r);
  }

  lemma EasyRound(c: Control, r: Round)
    requires Inv(c) && c.phase == SlowStart && Positive(r) && Easy(c, r)
    ensures var d := Detect(c, r);
            d.phase == SlowStart && d.warnStreak == 0 && d.safeQPS == c.currentQPS && d.currentQPS == 1.3 * c.currentQPS
  {
    GrowingMeans(c, r);
  }

  /** A signal in slow start: neither easy nor critical. */
  predicate Signal(c: Control, r: Round) {
    Measured(c, r) && Raw(c, r) < 2.5 && !Easy(c, r)
  }

  /** One signal only holds the rate; a second in a row goes back to the safe rate and on to probing. */
  lemma SignalRound(c: Control, r: Round)
    requires Inv(c) && c.phase == SlowStart && Positive(r) && Signal(c, r)
    ensures var d := Detect(c, r);
            && d.safeQPS == c.safeQPS
            && (c.warnStreak == 0 ==> d.phase == SlowStart && d.currentQPS == c.currentQPS && d.warnStreak == 1)
            && (c.warnStreak == 1 ==> d.phase == Probing && d.currentQPS == c.safeQPS && d.stableCount == 0)
  {
    GrowingMeans(c, r);
  }

  lemma HealthyProbe(c: Control, r: Round)
    requires Inv(c) && c.phase == Probing && Positive(r) && Healthy(c, r)
    ensures var d := Detect(c, r);
            && d.phase == Probing && d.safeQPS == c.currentQPS && d.stableCount == 0
            && d.currentQPS == c.currentQPS + Larger(10.0, 0.02 * c.currentQPS)
  {
    GrowingMeans(c, r);
  }

  lemma MarginalProbe(c: Control, r: Round)
    requires Inv(c) && c.phase == Probing && Positive(r) && Marginal(c, r)
    ensures var d := Detect(c, r);
            && d.currentQPS == d.safeQPS == c.currentQPS && d.stableCount == c.stableCount + 1
            && d.phase == (if c.stableCount + 1 >= 5 then Steady else Probing)
            && (d.phase == Steady ==> d.steadyCounter == 0 && !d.probingUp)
  {
    GrowingMeans(c, r);
  }

  /** The rate is on trial only between a probe up and its verdict. */
  predicate Holding(c: Control) {
    c.phase == Probing || (c.phase == Steady && !c.probingUp)
  }

  lemma StrainedRound(c: Control, r: Round)
    requires Inv(c) && Holding(c) && Positive(r) && Strained(c, r)
    ensures var d := Detect(c, r);
            && Holding(d) && d.phase == c.phase && d.safeQPS == c.safeQPS && (d.phase == Probing ==> d.stableCount == 0)
            && d.currentQPS == Larger(0.95 * c.currentQPS, 0.8 * c.safeQPS)
  {
    GrowingMeans(c, r);
  }

  /** A critical round cuts to 85%, but not below half the safe rate or ten, and waits for three rounds. */
  lemma CriticalCut(c: Control, r: Round)
    requires Inv(c) && (c.phase == SlowStart || c.phase == Probing || c.phase == Steady)
    requires Positive(r) && Critical(c, r)
    ensures var d := Detect(c, r);
            && d.phase == Backoff && d.backoffWait == 3 && d.safeQPS == c.safeQPS
            && d.currentQPS == Larger(0.85 * c.currentQPS, Larger(0.5 * c.safeQPS, 10.0))
  {
    ObservedKeeps(c, r);
  }

  // ---------- Runs ----------

  /** Slow start multiplies the rate by 1.3 per round, and the safe rate follows one round behind. */
  lemma {:induction false} SlowStartGrows(c: Control, rounds: seq<Round>)
    requires Inv(c) && c.phase == SlowStart && Throughout(c, rounds, Easy)
    ensures var d, n := AfterAll(c, rounds, Easy), |rounds|;
            && d.phase == SlowStart && d.currentQPS == Compound(c.currentQPS, 1.3, n)
            && (n > 0 ==> d.safeQPS * 1.3 == d.currentQPS)
    decreases |rounds|
  {
    if rounds != [] {
      AfterFirst(c, rounds, Easy);
      EasyRound(c, rounds[0]);
      SlowStartGrows(Detect(c, rounds[0]), rounds[1..]);
    }
  }

  /** Probing adds 2% per healthy round, but at least ten: ten each time up to 500, and 2% of any rate from there on. */
  lemma {:induction false} ProbingClimbs(c: Control, rounds: seq<Round>)
    requires Inv(c) && c.phase == Probing && Throughout(c, rounds, Healthy)
    ensures var d, n := AfterAll(c, rounds, Healthy), |rounds|;
            && d.phase == Probing && d.currentQPS >= c.currentQPS + 10.0 * n as real
            && (c.currentQPS + 10.0 * n as real <= 510.0 ==> d.currentQPS == c.currentQPS + 10.0 * n as real)
            && (c.currentQPS >= 500.0 ==> d.currentQPS == Compound(c.currentQPS, 1.02, n))
            && (n > 0 ==> d.currentQPS == d.safeQPS + Larger(10.0, 0.02 * d.safeQPS))
    decreases |rounds|
  {
    if rounds != [] {
      AfterFirst(c, rounds, Healthy);
      HealthyProbe(c, rounds[0]);
      ProbingClimbs(Detect(c, rounds[0]), rounds[1..]);
    }
  }

  /** Such rounds as a caller sees them: latencies near the baseline and few calls pending keep every round healthy. */
  lemma {:induction false} LightLoadIsHealthy(c: Control, rounds: seq<Round>)
    requires Inv(c) && c.phase == Probing && c.smoothedRatio < 1.2
    requires forall r :: r in rounds ==>
               Positive(r) && Measured(c, r) && Raw(c, r) < 1.2 && r.pending as real <= 1.5 * c.currentQPS
    ensures Throughout(c, rounds, Healthy)
    decreases |rounds|
  {
    if rounds != [] {
      assert rounds[0] in rounds;
      DetectKeeps(c, rounds[0]);
      DetectSmooths(c, rounds[0]);
      HealthyProbe(c, rounds[0]);
      LightLoadIsHealthy(Detect(c, rounds[0]), rounds[1..]);
    }
  }

  /** Marginal rounds hold the rate and make it the safe one; the fifth in a row ends the probing. */
  lemma {:induction false} ProbingSettles(c: Control, rounds: seq<Round>)
    requires Inv(c) && c.phase == Probing && c.stableCount + |rounds| <= 5
    requires Throughout(c, rounds, Marginal)
    ensures var d, n := AfterAll(c, rounds, Marginal), |rounds|;
            && d.currentQPS == c.currentQPS && (n > 0 ==> d.safeQPS == c.currentQPS)
            && d.phase == (if c.stableCount + n == 5 then Steady else Probing)
    decreases |rounds|
  {
    if rounds != [] {
      AfterFirst(c, rounds, Marginal);
      MarginalProbe(c, rounds[0]);
      if |rounds| > 1 {
        ProbingSettles(Detect(c, rounds[0]), rounds[1..]);
      }
    }
  }

  /** Strained rounds take 5% each, down to four fifths of the safe rate, which stays. */
  lemma {:induction false} StrainEasesOff(c: Control, rounds: seq<Round>)
    requires Inv(c) && Holding(c) && rounds != [] && Throughout(c, rounds, Strained)
    ensures var d, n := AfterAll(c, rounds, Strained), |rounds|;
            && d.phase == c.phase && d.safeQPS == c.safeQPS
            && d.currentQPS == Larger(Compound(c.currentQPS, 0.95, n), 0.8 * c.safeQPS)
    decreases |rounds|
  {
    AfterFirst(c, rounds, Strained);
    StrainedRound(c, rounds[0]);
    var d, n := Detect(c, rounds[0]), |rounds|;
    if n > 1 {
      StrainEasesOff(d, rounds[1..]);
      EasedTwice(0.95 * c.currentQPS, 0.8 * c.safeQPS, n - 1);
    }
  }

  lemma {:induction false} StaysBelow(rate: real, floor: real, n: nat)
    requires floor >= 0.0 && rate <= floor
    ensures Compound(rate, 0.95, n) <= floor
    decreases n
  {
    if n > 0 {
      StaysBelow(rate * 0.95, floor, n - 1);
    }
  }

  /** Taking 5% off a rate that was lifted to the floor ends at the floor. */
  lemma EasedTwice(rate: real, floor: real, n: nat)
    requires floor >= 0.0
    ensures Larger(Compound(Larger(rate, floor), 0.95, n), floor) == Larger(Compound(rate, 0.95, n), floor)
  {
    StaysBelow(floor, floor, n);
    if rate <= floor {
      StaysBelow(rate, floor, n);
    }
  }

  /** Easing off raises the rate exactly when it stands below four fifths of the safe rate. */
  lemma StrainRaises(c: Control, r: Round)
    requires Inv(c) && Holding(c) && Positive(r) && Strained(c, r)
    ensures Detect(c, r).currentQPS > c.currentQPS <==> c.currentQPS < 0.8 * c.safeQPS
  {
    StrainedRound(c, r);
  }

  /** Three rounds of enough samples, as a backoff waits for. */
  ghost predicate Cools(rounds: seq<Round>) {
    |rounds| == 3 && forall r :: r in rounds ==> Positive(r) && |r.samples| >= 3
  }

  lemma CoolsDecides(rounds: seq<Round>)
    requires Cools(rounds)
    ensures Decided(rounds) == 3
  {
    assert rounds[0] in rounds && rounds[1] in rounds && rounds[2] in rounds;
    assert rounds[1..][1..] == rounds[2..] && rounds[2..][1..] == [];
    assert Decided(rounds[2..]) == 1 && Decided(rounds[1..]) == 2;
  }

  /** A critical round and the three rounds it waits for: the cut rate is where probing goes on. */
  ghost function CutAndCooled(c: Control, r: Round, rounds: seq<Round>): (d: Control)
    requires Inv(c) && c.phase == Probing && Positive(r) && Critical(c, r) && Cools(rounds)
    ensures Inv(d) && d.phase == Probing && d.safeQPS == c.safeQPS
    ensures d.currentQPS == Larger(0.85 * c.currentQPS, Larger(0.5 * c.safeQPS, 10.0))
  {
    DetectKeeps(c, r);
    CriticalCut(c, r);
    CoolsDecides(rounds);
    BackoffFreezes(Detect(c, r), rounds);
    After(Detect(c, r), rounds)
  }

  /** That happens: two cuts leave less than four fifths of the safe rate, and the next strained round lifts it again. */
  lemma TwoCutsThenRise(c: Control, r1: Round, w1: seq<Round>, r2: Round, w2: seq<Round>, r3: Round)
    requires Inv(c) && c.phase == Probing && c.currentQPS == c.safeQPS >= 20.0
    requires Positive(r1) && Critical(c, r1) && Cools(w1)
    requires Positive(r2) && Critical(CutAndCooled(c, r1, w1), r2) && Cools(w2)
    requires Positive(r3) && Strained(CutAndCooled(CutAndCooled(c, r1, w1), r2, w2), r3)
    ensures var d := CutAndCooled(CutAndCooled(c, r1, w1), r2, w2);
            d.currentQPS == 0.7225 * c.currentQPS && Detect(d, r3).currentQPS == 0.8 * c.currentQPS
  {
    StrainedRound(CutAndCooled(CutAndCooled(c, r1, w1), r2, w2), r3);
  }

  // ---------- Probing up from the steady phase ----------

  predicate Unstrained(c: Control, r: Round) {
    Healthy(c, r) || Marginal(c, r)
  }

  /** While fewer than five rounds have been counted, nothing changes. */
  lemma {:induction false} SteadyWaits(c: Control, rounds: seq<Round>)
    requires Inv(c) && c.phase == Steady && !c.probingUp && c.steadyCounter + |rounds| < 5
    requires Throughout(c, rounds, Unstrained)
    ensures var d := AfterAll(c, rounds, Unstrained);
            && d.phase == Steady && !d.probingUp && d.steadyCounter == c.steadyCounter + |rounds|
            && d.currentQPS == c.currentQPS && d.safeQPS == c.safeQPS
    decreases |rounds|
  {
    if rounds != [] {
      AfterFirst(c, rounds, Unstrained);
      GrowingMeans(c, rounds[0]);
      SteadyWaits(Detect(c, rounds[0]), rounds[1..]);
    }
  }

  /** The fifth round raises the rate by 1%, but at least by five, on trial. */
  lemma SteadyProbes(c: Control, r: Round)
    requires Inv(c) && c.phase == Steady && !c.probingUp && c.steadyCounter >= 4 && Positive(r) && Unstrained(c, r)
    ensures var d := Detect(c, r);
            && d.phase == Steady && d.probingUp && d.steadyCounter == 0 && d.safeQPS == c.safeQPS
            && d.currentQPS == c.currentQPS + Larger(5.0, 0.01 * c.currentQPS)
  {
    GrowingMeans(c, r);
  }

  /** A healthy round confirms the raised rate, a strained one withdraws it, and a marginal one leaves it on trial. */
  lemma ProbeJudged(c: Control, r: Round)
    requires Inv(c) && c.phase == Steady && c.probingUp && Positive(r)
    requires Healthy(c, r) || Marginal(c, r) || Strained(c, r)
    ensures var d := Detect(c, r);
            && d.phase == Steady && d.probingUp == Marginal(c, r) && d.steadyCounter == c.steadyCounter + 1
            && d.currentQPS == (if Strained(c, r) then c.safeQPS else c.currentQPS)
            && d.safeQPS == (if Healthy(c, r) then c.currentQPS else c.safeQPS)
  {
    GrowingMeans(c, r);
  }

  /**
   * A whole cycle of the steady phase, from a rate that is the safe one: after five rounds without strain the rate is
   * raised; a healthy round makes the raised rate the safe one, and a strained one brings everything back.
   */
  lemma SteadyCycle(c: Control, rounds: seq<Round>, fifth: Round, verdict: Round)
    requires Inv(c) && c.phase == Steady && !c.probingUp && c.steadyCounter == 0 && c.currentQPS == c.safeQPS
    requires |rounds| == 4 && Throughout(c, rounds, Unstrained)
    requires Positive(fifth) && Unstrained(AfterAll(c, rounds, Unstrained), fifth)
    requires var d := Detect(AfterAll(c, rounds, Unstrained), fifth);
             Inv(d) && Positive(verdict) && (Healthy(d, verdict) || Strained(d, verdict))
    ensures var d := Detect(AfterAll(c, rounds, Unstrained), fifth);
            var e := Detect(d, verdict);
            && d.currentQPS == c.currentQPS + Larger(5.0, 0.01 * c.currentQPS) && d.safeQPS == c.safeQPS
            && e.phase == Steady && !e.probingUp && e.currentQPS == e.safeQPS
            && e.currentQPS == if Healthy(d, verdict) then d.currentQPS else c.currentQPS
  {
    SteadyWaits(c, rounds);
    SteadyProbes(AfterAll(c, rounds, Unstrained), fifth);
    ProbeJudged(Detect(AfterAll(c, rounds, Unstrained), fifth), verdict);
  }

  // ---------- The beginning ----------

  /** A target that is set is never touched. */
  lemma {:induction false} FixedTargetStays(targetQPS: real, rounds: seq<Round>)
    requires targetQPS > 0.0 && forall r :: r in rounds ==> Positive(r)
    ensures Inv(Start(targetQPS)) && After(Start(targetQPS), rounds) == Start(targetQPS)
    ensures Start(targetQPS).currentQPS == targetQPS
    decreases |rounds|
  {
    if rounds != [] {
      FixedTargetStays(targetQPS, rounds[1..]);
    }
  }

  /** The medians of the rounds that decide. */
  function Medians(rounds: seq<Round>): seq<real> {
    if rounds == [] then []
    else (if |rounds[0].samples| >= 3 then [Median(rounds[0].samples)] else []) + Medians(rounds[1..])
  }

  /** Fewer than five deciding rounds are only collected. */
  lemma {:induction false} StillLearning(c: Control, rounds: seq<Round>)
    requires Inv(c) && c.phase == Baseline && (forall r :: r in rounds ==> Positive(r))
    requires |c.p50s| + |Medians(rounds)| < 5
    ensures var d := After(c, rounds); d.phase == Baseline && d.p50s == c.p50s + Medians(rounds)
    decreases |rounds|
  {
    if rounds != [] {
      var r, rest := rounds[0], rounds[1..];
      assert r in rounds;
      DetectKeeps(c, r);
      if |r.samples| >= 3 {
        assert c.p50s + Medians(rounds) == (c.p50s + [Median(r.samples)]) + Medians(rest);
      }
      StillLearning(Detect(c, r), rest);
    }
  }

  lemma FifthRound(c: Control, r: Round)
    requires Inv(c) && c.phase == Baseline && Positive(r) && |c.p50s| == 4 && |r.samples| >= 3
    ensures var d := Detect(c, r);
            && d.phase == SlowStart && d.currentQPS == d.safeQPS == 20.0 && d.smoothedRatio == 1.0
            && d.baselineP50 == Median(c.p50s + [Median(r.samples)])
  {
    ObservedKeeps(c, r);
  }

  /** An adaptive controller stays at 20 calls per second for five rounds; the median of their medians is its baseline. */
  lemma BaselineLearned(targetQPS: real, rounds: seq<Round>, r: Round)
    requires targetQPS <= 0.0 && (forall r :: r in rounds ==> Positive(r)) && |Medians(rounds)| <= 4
    requires Positive(r) && |r.samples| >= 3
    ensures Inv(Start(targetQPS)) && After(Start(targetQPS), rounds).currentQPS == 20.0
    ensures var d := Detect(After(Start(targetQPS), rounds), r);
            && d.currentQPS == 20.0
            && (|Medians(rounds)| < 4 ==> d.phase == Baseline)
            && (|Medians(rounds)| == 4 ==>
                  d.phase == SlowStart && d.safeQPS == 20.0 && d.smoothedRatio == 1.0
                  && d.baselineP50 == Median(Medians(rounds) + [Median(r.samples)]))
  {
    StillLearning(Start(targetQPS), rounds);
    var c := After(Start(targetQPS), rounds);
    assert c.p50s == Medians(rounds);
    if |Medians(rounds)| == 4 {
      FifthRound(c, r);
    }
  }
}
