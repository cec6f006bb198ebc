/** The adaptive pressure controller: a six-phase machine driven by median latencies. */
module Pressure {

  datatype Phase = Disabled | Baseline | SlowStart | Probing | Steady | Backoff

  const INITIAL_QPS: real := 20.0
  const RATIO_OK: real := 1.2
  const RATIO_WARN: real := 1.5
  const RATIO_CRITICAL: real := 2.5
  const BASELINE_ROUNDS: nat := 5
  const STABLE_ROUNDS: nat := 5
  const COOLDOWN: nat := 3
  const STEADY_INTERVAL: nat := 5
  const WARN_CONFIRM: nat := 2

  /** The controller's decision state. */
  datatype Control = Control(
    phase: Phase, currentQPS: real, safeQPS: real,
    baselineP50: real, baselineSet: bool, collecting: nat, p50s: seq<real>,
    stableCount: nat, backoffWait: int, steadyCounter: nat, probingUp: bool,
    smoothedRatio: real, smoothedSet: bool, warnStreak: nat, lastPending: int)

  /** What one detection round sees: the latency samples drained and the calls pending. */
  datatype Round = Round(samples: seq<real>, pending: int)

  // ---------- Medians ----------

  function InsertReal(x: real, xs: seq<real>): (r: seq<real>)
    ensures |r| == |xs| + 1
  {
    if xs == [] || x <= xs[0] then [x] + xs else [xs[0]] + InsertReal(x, xs[1..])
  }

  function SortReals(xs: seq<real>): (r: seq<real>)
    ensures |r| == |xs|
  {
    if xs == [] then [] else InsertReal(xs[0], SortReals(xs[1..]))
  }

  lemma {:induction false} InsertPermutes(x: real, xs: seq<real>)
    ensures multiset(InsertReal(x, xs)) == multiset(xs) + multiset{x}
  {
    if xs != [] && x > xs[0] {
      assert xs == [xs[0]] + xs[1..];
      InsertPermutes(x, xs[1..]);
    }
  }

  lemma {:induction false} SortPermutes(xs: seq<real>)
    ensures multiset(SortReals(xs)) == multiset(xs)
  {
    if xs != [] {
      assert xs == [xs[0]] + xs[1..];
      SortPermutes(xs[1..]);
      InsertPermutes(xs[0], SortReals(xs[1..]));
    }
  }

  /** `computeP50`, and the median of the baseline rounds. */
  function Median(xs: seq<real>): (m: real)
    requires xs != []
    ensures m in xs
  {
    var s := SortReals(xs);
    SortPermutes(xs);
    assert s[|s| / 2] in multiset(s);
    s[|s| / 2]
  }

  predicate Ascending(xs: seq<real>) {
    forall i, j :: 0 <= i < j < |xs| ==> xs[i] <= xs[j]
  }

  lemma {:induction false} InsertAscending(x: real, xs: seq<real>)
    requires Ascending(xs)
    ensures Ascending(InsertReal(x, xs))
  {
    if xs != [] && x > xs[0] {
      InsertAscending(x, xs[1..]);
      InsertPermutes(x, xs[1..]);
      var tail := InsertReal(x, xs[1..]);
      forall j | 0 <= j < |tail|
        ensures xs[0] <= tail[j]
      {
        assert tail[j] in multiset(tail);
        if tail[j] != x {
          assert tail[j] in multiset(xs[1..]);
          var i :| 0 <= i < |xs[1..]| && xs[1..][i] == tail[j];
          assert xs[i + 1] == tail[j];
        }
      }
    }
  }

  /** The samples really are in order when the middle one is taken. */
  lemma {:induction false} SortAscending(xs: seq<real>)
    ensures Ascending(SortReals(xs))
  {
    if xs != [] {
      SortAscending(xs[1..]);
      InsertAscending(xs[0], SortReals(xs[1..]));
    }
  }

  lemma HeadLeast(a: seq<real>, x: real)
    requires Ascending(a) && x in multiset(a)
    ensures a != [] && a[0] <= x
  {
    var i :| 0 <= i < |a| && a[i] == x;
  }

  lemma Behead(a: seq<real>)
    requires a != [] && Ascending(a)
    ensures multiset(a[1..]) == multiset(a) - multiset{a[0]} && Ascending(a[1..])
  {
    assert a == [a[0]] + a[1..];
  }

  lemma SameHead(a: seq<real>, b: seq<real>)
    requires Ascending(a) && Ascending(b) && multiset(a) == multiset(b) && a != []
    ensures b != [] && a[0] == b[0]
  {
    assert a[0] in multiset(a);
    HeadLeast(b, a[0]);
    assert b[0] in multiset(b);
    HeadLeast(a, b[0]);
  }

  lemma {:induction false} AscendingUnique(a: seq<real>, b: seq<real>)
    requires Ascending(a) && Ascending(b) && multiset(a) == multiset(b)
    ensures a == b
  {
    if a == [] {
      assert |multiset(b)| == 0;
    } else {
      SameHead(a, b);
      Behead(a);
      Behead(b);
      AscendingUnique(a[1..], b[1..]);
      assert a == [a[0]] + a[1..] && b == [b[0]] + b[1..];
    }
  }

  /** Whatever sorts the samples, the element in the middle is the median. */
  lemma MedianBySorting(xs: seq<real>, sorted: seq<real>)
    requires xs != [] && Ascending(sorted) && multiset(sorted) == multiset(xs)
    ensures |sorted| == |xs| && Median(xs) == sorted[|sorted| / 2]
  {
    SortAscending(xs);
    SortPermutes(xs);
    AscendingUnique(sorted, SortReals(xs));
  }

  // ---------- The phases ----------

  function Largest(x: real, y: real): real {
    if x >= y then x else y
  }

  function EnterBackoff(c: Control): Control {
    var cut := c.currentQPS * 0.85;
    var kept := if c.safeQPS > 0.0 && cut < c.safeQPS * 0.5 then c.safeQPS * 0.5 else cut;
    c.(phase := Backoff, backoffWait := COOLDOWN, currentQPS := if kept < 10.0 then 10.0 else kept)
  }

  /** The median of the baseline rounds becomes the baseline. */
  function Learn(c: Control): Control
    requires c.p50s != []
  {
    c.(baselineP50 := Median(c.p50s), baselineSet := true, smoothedRatio := 1.0, smoothedSet := true,
       phase := SlowStart, safeQPS := c.currentQPS)
  }

  function DoBaseline(c: Control, p50: real): Control {
    var more := c.(collecting := c.collecting + 1, p50s := c.p50s + [p50]);
    if more.collecting >= BASELINE_ROUNDS then Learn(more) else more
  }

  /** The share of the current rate that `int64(currentQPS*f)` keeps. */
  function Share(c: Control, f: real): int {
    (c.currentQPS * f).Floor
  }

  function PendingGrowing(c: Control, pending: int): bool {
    pending > c.lastPending + Share(c, 0.5) && pending > Share(c, 1.5)
  }

  function DoSlowStart(c: Control, ratio: real, pending: int, growing: bool): Control {
    if ratio >= RATIO_CRITICAL then EnterBackoff(c.(warnStreak := 0))
    else if ratio < RATIO_WARN && !growing && pending < Share(c, 2.0) then
      c.(warnStreak := 0, safeQPS := c.currentQPS, currentQPS := c.currentQPS * 1.3)
    else if c.warnStreak + 1 >= WARN_CONFIRM then
      c.(currentQPS := c.safeQPS, phase := Probing, stableCount := 0, warnStreak := 0)
    else c.(warnStreak := c.warnStreak + 1)
  }

  /** The smoothed ratio, lifted to a warning while calls pile up. */
  function Judged(c: Control, growing: bool): real {
    if growing && c.smoothedRatio < RATIO_WARN then RATIO_WARN else c.smoothedRatio
  }

  /** A small step back, not below four fifths of the safe rate. */
  function EaseOff(c: Control): real {
    if c.currentQPS * 0.95 < c.safeQPS * 0.8 then c.safeQPS * 0.8 else c.currentQPS * 0.95
  }

  function DoProbing(c: Control, raw: real, growing: bool): Control {
    if raw >= RATIO_CRITICAL then EnterBackoff(c)
    else
      var ratio := Judged(c, growing);
      if ratio < RATIO_OK then
        c.(safeQPS := c.currentQPS, currentQPS := c.currentQPS + Largest(c.currentQPS * 0.02, 10.0), stableCount := 0)
      else if ratio < RATIO_WARN then
        var steady := c.(safeQPS := c.currentQPS, stableCount := c.stableCount + 1);
        if steady.stableCount >= STABLE_ROUNDS then steady.(phase := Steady, steadyCounter := 0, probingUp := false)
        else steady
      else c.(currentQPS := EaseOff(c), stableCount := 0)
  }

  function DoSteady(c: Control, raw: real, growing: bool): Control {
    if raw >= RATIO_CRITICAL then EnterBackoff(c)
    else
      var ratio, d := Judged(c, growing), c.(steadyCounter := c.steadyCounter + 1);
      if c.probingUp then
        if ratio >= RATIO_WARN then d.(currentQPS := c.safeQPS, probingUp := false)
        else if ratio < RATIO_OK then d.(safeQPS := c.currentQPS, probingUp := false)
        else d
      else if ratio >= RATIO_WARN then d.(currentQPS := EaseOff(c))
      else if d.steadyCounter >= STEADY_INTERVAL then
        d.(currentQPS := c.currentQPS + Largest(c.currentQPS * 0.01, 5.0), steadyCounter := 0, probingUp := true)
      else d
  }

  function DoBackoff(c: Control): Control {
    var d := c.(backoffWait := c.backoffWait - 1);
    if d.backoffWait <= 0 then d.(phase := Probing, stableCount := 0) else d
  }

  function Smooth(c: Control, ratio: real): Control {
    if !c.smoothedSet then c.(smoothedRatio := ratio, smoothedSet := true)
    else c.(smoothedRatio := 0.3 * ratio + 0.7 * c.smoothedRatio)
  }

  /** A round with too few samples decides nothing. */
  predicate Decides(r: Round) {
    |r.samples| >= 3
  }

  /** The latency ratio a round is judged by. */
  function Ratio(c: Control, r: Round): real
    requires Decides(r) && c.baselineP50 != 0.0
  {
    Median(r.samples) / c.baselineP50
  }

  /** What a round passes on to its phase. */
  function Observed(c: Control, r: Round): Control
    requires Decides(r) && (c.baselineSet ==> c.baselineP50 != 0.0)
  {
    (if c.baselineSet && c.baselineP50 > 0.0 then Smooth(c, Ratio(c, r)) else c).(lastPending := r.pending)
  }

  /** `detect`. */
  function Detect(c: Control, r: Round): (d: Control)
    requires c.phase != Disabled && c.phase != Baseline ==> c.baselineP50 != 0.0
    requires c.baselineSet ==> c.baselineP50 != 0.0
  {
    if c.phase == Disabled || !Decides(r) then c
    else
      var e, growing := Observed(c, r), PendingGrowing(c, r.pending);
      match c.phase
      case Disabled => e
      case Baseline => DoBaseline(e, Median(r.samples))
      case SlowStart => DoSlowStart(e, Ratio(c, r), r.pending, growing)
      case Probing => DoProbing(e, Ratio(c, r), growing)
      case Steady => DoSteady(e, Ratio(c, r), growing)
      case Backoff => DoBackoff(e)
  }

  /** `SetTargetQPS` on a fresh controller. */
  function Start(targetQPS: real): Control {
    Control(if targetQPS > 0.0 then Disabled else Baseline, if targetQPS > 0.0 then targetQPS else INITIAL_QPS,
            0.0, 0.0, false, 0, [], 0, 0, 0, false, 0.0, false, 0, 0)
  }

  // ---------- The envelope ----------

  predicate Learned(c: Control) {
    c.phase == SlowStart || c.phase == Probing || c.phase == Steady || c.phase == Backoff
  }

  /** The rate stays within half of the safe rate and a third (or ten) above it. */
  predicate Enveloped(c: Control) {
    && c.safeQPS > 0.0 && c.currentQPS > 0.0
    && 0.5 * c.safeQPS <= c.currentQPS <= c.safeQPS + Largest(10.0, 0.3 * c.safeQPS)
    && (c.phase == Steady && !c.probingUp ==> c.currentQPS <= c.safeQPS)
  }

  predicate Inv(c: Control) {
    && (c.phase == Baseline ==>
          && !c.baselineSet && c.currentQPS == INITIAL_QPS
          && c.collecting == |c.p50s| < BASELINE_ROUNDS && (forall x :: x in c.p50s ==> x > 0.0))
    && (Learned(c) ==> c.baselineSet && c.baselineP50 > 0.0 && c.smoothedSet && Enveloped(c))
    && (c.phase == Backoff ==> 1 <= c.backoffWait <= COOLDOWN)
    && (c.phase == Disabled ==> !c.baselineSet && c.currentQPS > 0.0)
    && (c.phase == Probing ==> c.stableCount < STABLE_ROUNDS)
  }

  /** Latencies are positive. */
  predicate Positive(r: Round) {
    forall x :: x in r.samples ==> x > 0.0
  }

  lemma EnterBackoffKeeps(c: Control)
    requires Inv(c) && Learned(c)
    ensures Inv(EnterBackoff(c)) && EnterBackoff(c).currentQPS <= Largest(c.currentQPS, 10.0)
  {
  }

  lemma BaselineKeeps(c: Control, p50: real)
    requires Inv(c) && c.phase == Baseline && p50 > 0.0
    ensures Inv(DoBaseline(c, p50))
  {
    var p50s := c.p50s + [p50];
    assert forall x :: x in p50s ==> x in c.p50s || x == p50;
  }

  lemma SlowStartKeeps(c: Control, ratio: real, pending: int, growing: bool)
    requires Inv(c) && c.phase == SlowStart
    ensures Inv(DoSlowStart(c, ratio, pending, growing))
  {
    EnterBackoffKeeps(c.(warnStreak := 0));
  }

  lemma ProbingKeeps(c: Control, raw: real, growing: bool)
    requires Inv(c) && c.phase == Probing
    ensures Inv(DoProbing(c, raw, growing))
  {
    EnterBackoffKeeps(c);
  }

  lemma SteadyKeeps(c: Control, raw: real, growing: bool)
    requires Inv(c) && c.phase == Steady
    ensures Inv(DoSteady(c, raw, growing))
  {
    EnterBackoffKeeps(c);
  }

  lemma ObservedKeeps(c: Control, r: Round)
    requires Inv(c) && Decides(r)
    ensures Inv(Observed(c, r))
  {
  }

  /** Every round keeps the rate in the envelope. */
  lemma DetectKeeps(c: Control, r: Round)
    requires Inv(c) && Positive(r)
    ensures Inv(Detect(c, r))
  {
    if c.phase != Disabled && Decides(r) {
      ObservedKeeps(c, r);
      var e, growing := Observed(c, r), PendingGrowing(c, r.pending);
      match c.phase
      case Baseline => BaselineKeeps(e, Median(r.samples));
      case SlowStart => SlowStartKeeps(e, Ratio(c, r), r.pending, growing);
      case Probing => ProbingKeeps(e, Ratio(c, r), growing);
      case Steady => SteadyKeeps(e, Ratio(c, r), growing);
      case Backoff =>
    }
  }

  // ---------- Runs ----------

  ghost function After(c: Control, rounds: seq<Round>): (d: Control)
    requires Inv(c) && (forall r :: r in rounds ==> Positive(r))
    ensures Inv(d)
    decreases |rounds|
  {
    if rounds == [] then c
    else
      DetectKeeps(c, rounds[0]);
      After(Detect(c, rounds[0]), rounds[1..])
  }

  /** In every reachable adaptive state after the baseline the rate is positive and within the envelope. */
  lemma EnvelopeAlways(targetQPS: real, rounds: seq<Round>)
    requires forall r :: r in rounds ==> Positive(r)
    ensures Inv(Start(targetQPS))
    ensures var d := After(Start(targetQPS), rounds);
            && (Learned(d) ==> Enveloped(d))
            && d.currentQPS > 0.0
  {
  }

  /** A critical round backs off at once and never raises the rate above the old one or ten. */
  lemma CriticalBacksOff(c: Control, r: Round)
    requires Inv(c) && (c.phase == SlowStart || c.phase == Probing || c.phase == Steady)
    requires Decides(r) && Ratio(c, r) >= RATIO_CRITICAL
    ensures var d := Detect(c, r);
            && d.phase == Backoff && d.backoffWait == COOLDOWN && d.safeQPS == c.safeQPS
            && d.currentQPS <= Largest(c.currentQPS, 10.0)
  {
    ObservedKeeps(c, r);
    EnterBackoffKeeps(Observed(c, r));
  }

  /** How many of the rounds decide anything. */
  function Decided(rounds: seq<Round>): nat {
    if rounds == [] then 0 else (if Decides(rounds[0]) then 1 else 0) + Decided(rounds[1..])
  }

  /** In backoff the rate is frozen until as many rounds have been decided as were to wait for. */
  lemma {:induction false} BackoffFreezes(c: Control, rounds: seq<Round>)
    requires Inv(c) && c.phase == Backoff && (forall r :: r in rounds ==> Positive(r))
    requires Decided(rounds) <= c.backoffWait
    requires Decided(rounds) == c.backoffWait ==> Decides(rounds[|rounds| - 1])
    ensures var d := After(c, rounds);
            && d.currentQPS == c.currentQPS && d.safeQPS == c.safeQPS
            && d.phase == (if Decided(rounds) == c.backoffWait then Probing else Backoff)
    decreases |rounds|
  {
    if rounds != [] {
      assert rounds[0] in rounds;
      DetectKeeps(c, rounds[0]);
      var d := Detect(c, rounds[0]);
      if d.phase == Backoff {
        if |rounds| > 1 {
          assert rounds[1..][|rounds[1..]| - 1] == rounds[|rounds| - 1];
        }
        BackoffFreezes(d, rounds[1..]);
      } else {
        DecidedZero(rounds[1..]);
      }
    }
  }

  lemma {:induction false} DecidedZero(rounds: seq<Round>)
    requires Decided(rounds) == 0
    ensures rounds == [] || !Decides(rounds[|rounds| - 1])
  {
    if |rounds| > 1 {
      DecidedZero(rounds[1..]);
    }
  }

  /** Once slow start is left, no run comes back to it. */
  lemma {:induction false} NoReturnToSlowStart(c: Control, rounds: seq<Round>)
    requires Inv(c) && (c.phase == Probing || c.phase == Steady || c.phase == Backoff)
    requires forall r :: r in rounds ==> Positive(r)
    ensures After(c, rounds).phase in {Probing, Steady, Backoff}
    decreases |rounds|
  {
    if rounds != [] {
      assert rounds[0] in rounds;
      DetectKeeps(c, rounds[0]);
      NoReturnToSlowStart(Detect(c, rounds[0]), rounds[1..]);
    }
  }

  /** A new ratio pulls the smoothed one towards itself, by three tenths of the way. */
  lemma SmoothedBetween(c: Control, ratio: real, lo: real, hi: real)
    requires c.smoothedSet && lo <= c.smoothedRatio <= hi && lo <= ratio <= hi
    ensures lo <= Smooth(c, ratio).smoothedRatio <= hi
    ensures Smooth(c, ratio).smoothedRatio - ratio == 0.7 * (c.smoothedRatio - ratio)
  {
  }

  lemma DetectSmooths(c: Control, r: Round)
    requires Inv(c) && Learned(c) && Positive(r)
    ensures var d := Detect(c, r);
            && Learned(d) && d.baselineP50 == c.baselineP50
            && d.smoothedRatio == if Decides(r) then Smooth(c, Ratio(c, r)).smoothedRatio else c.smoothedRatio
  {
    DetectKeeps(c, r);
  }

  /** Once learned, the baseline stays, and the smoothed ratio stays between the bounds of all ratios seen. */
  lemma {:induction false} SmoothedStaysBetween(c: Control, rounds: seq<Round>, lo: real, hi: real)
    requires Inv(c) && Learned(c) && lo <= c.smoothedRatio <= hi
    requires forall r :: r in rounds ==> Positive(r) && (Decides(r) ==> lo <= Ratio(c, r) <= hi)
    ensures var d := After(c, rounds); Learned(d) && d.baselineP50 == c.baselineP50 && lo <= d.smoothedRatio <= hi
    decreases |rounds|
  {
    if rounds != [] {
      assert rounds[0] in rounds;
      DetectKeeps(c, rounds[0]);
      DetectSmooths(c, rounds[0]);
      if Decides(rounds[0]) {
        SmoothedBetween(c, Ratio(c, rounds[0]), lo, hi);
      }
      SmoothedStaysBetween(Detect(c, rounds[0]), rounds[1..], lo, hi);
    }
  }

  /** One warning in slow start changes nothing but the streak; a second in a row falls back to the safe rate. */
  lemma TwoWarningsFallBack(c: Control, r1: Round, r2: Round)
    requires Inv(c) && c.phase == SlowStart && c.warnStreak == 0 && Positive(r1) && Positive(r2)
    requires Decides(r1) && RATIO_WARN <= Ratio(c, r1) < RATIO_CRITICAL
    requires Decides(r2) && RATIO_WARN <= Ratio(c, r2) < RATIO_CRITICAL
    ensures Inv(Detect(c, r1))
    ensures var d := Detect(c, r1);
            && d.phase == SlowStart && d.currentQPS == c.currentQPS
            && Detect(d, r2).phase == Probing && Detect(d, r2).currentQPS == c.safeQPS
  {
    DetectKeeps(c, r1);
  }
}
