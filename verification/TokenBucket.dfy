/**
 * The rate limiter as its atomic steps. One refiller adds tokens and then, as a second step, trims what exceeds
 * the burst cap; workers deduct a token first and give it back when the bucket turns out to be overdrawn.
 */
module TokenBucket {
  import opened DivMod

  const SCALE: int := 1_000_000
  const MIN_BURST: int := 2 * SCALE
  const BURST_WINDOW: int := 50_000_000
  const SECOND: int := 1_000_000_000

  /** `int64(qps * tokenScale)`: the target of a rate. */
  function TargetOf(qps: real): int {
    Truncate(qps * SCALE as real)
  }

  /** The dynamic burst cap of a positive target. */
  function BurstCap(target: int): int {
    var cap := target * BURST_WINDOW / SECOND;
    if cap < MIN_BURST then MIN_BURST else cap
  }

  /** The cap is 50 ms worth of the rate, a twentieth of it, but never less than two tokens. */
  lemma CapMeans(target: int)
    ensures BurstCap(target) >= 2_000_000
    ensures target < 40_000_000 ==> BurstCap(target) == 2_000_000
    ensures target >= 40_000_000 ==> 20 * BurstCap(target) <= target < 20 * BurstCap(target) + 20
  {
    DivModUnique(target * BURST_WINDOW, SECOND, target / 20, target % 20 * BURST_WINDOW);
  }

  /** What one tick adds. */
  function Added(target: int, elapsed: nat): int {
    target * elapsed / SECOND
  }

  /**
   * Where the calls of `Acquire` stand: `trying` have passed the check of the target, `owing` are between a failed
   * deduction and its refund, `waiting` are asleep on the condition; every other worker is between calls. `excess`
   * is what the refiller has decided to trim but not yet taken, `cap` the cap of the last refill. The last five
   * fields are the books, which are only ever added to; `bypassed` counts the calls that returned without a token.
   */
  datatype State = State(
    tokens: int, target: int, trying: set<nat>, owing: set<nat>, waiting: set<nat>, excess: nat, cap: int,
    refilled: nat, trimmed: nat, grants: nat, bypassed: nat, allowance: nat)

  datatype Step =
    | SetTarget(target: int)
    | Refill(elapsed: nat)
    | Trim
    | Bypass(worker: nat)
    | Enter(worker: nat)
    | Deduct(worker: nat)
    | Refund(worker: nat)
    | Wake(worker: nat)

  function Start(target: int): State {
    State(SCALE, target, {}, {}, {}, 0, MIN_BURST, 0, 0, 0, 0, 0)
  }

  predicate Idle(workers: set<nat>, s: State, w: nat) {
    w in workers && w !in s.trying && w !in s.owing && w !in s.waiting
  }

  /** The steps the goroutines can take: a refiller that owes a trim does that next. */
  predicate Enabled(workers: set<nat>, s: State, step: Step) {
    match step
    case SetTarget(_) => true
    case Refill(_) => s.excess == 0
    case Trim => s.excess > 0
    case Bypass(w) => Idle(workers, s, w) && s.target <= 0
    case Enter(w) => Idle(workers, s, w) && s.target > 0
    case Deduct(w) => w in s.trying
    case Refund(w) => w in s.owing
    case Wake(w) => w in s.waiting && s.tokens >= SCALE
  }

  /** The adding half of a tick. */
  function Refilled(s: State, elapsed: nat): State
    requires s.excess == 0
  {
    if s.target <= 0 then s
    else
      var add, paid := Added(s.target, elapsed), s.(allowance := s.allowance + s.target * elapsed);
      if add <= 0 then paid
      else
        var cur, cap := s.tokens + add, BurstCap(s.target);
        paid.(tokens := cur, cap := cap, excess := if cur > cap then cur - cap else 0, refilled := s.refilled + add)
  }

  function Next(workers: set<nat>, s: State, step: Step): State
    requires Enabled(workers, s, step)
  {
    match step
    case SetTarget(target) => s.(target := target)
    case Refill(elapsed) => Refilled(s, elapsed)
    case Trim => s.(tokens := s.tokens - s.excess, trimmed := s.trimmed + s.excess, excess := 0)
    case Bypass(w) => s.(bypassed := s.bypassed + 1)
    case Enter(w) => s.(trying := s.trying + {w})
    case Deduct(w) =>
      if s.tokens >= SCALE then s.(tokens := s.tokens - SCALE, trying := s.trying - {w}, grants := s.grants + 1)
      else s.(tokens := s.tokens - SCALE, trying := s.trying - {w}, owing := s.owing + {w})
    case Refund(w) => s.(tokens := s.tokens + SCALE, owing := s.owing - {w}, waiting := s.waiting + {w})
    case Wake(w) => s.(waiting := s.waiting - {w}, trying := s.trying + {w})
  }

  /** The tokens in the bucket once every pending refund has come back. */
  function Settled(s: State): int {
    s.tokens + SCALE * |s.owing|
  }

  /** The books balance. */
  predicate Balanced(s: State) {
    Settled(s) + s.trimmed + SCALE * s.grants == SCALE + s.refilled
  }

  predicate Placed(workers: set<nat>, s: State) {
    && s.trying <= workers && s.owing <= workers && s.waiting <= workers
    && s.trying !! s.owing && s.trying !! s.waiting && s.owing !! s.waiting
  }

  predicate Inv(workers: set<nat>, s: State) {
    && Placed(workers, s) && Balanced(s)
    && Settled(s) + s.trimmed >= 0 && s.cap >= MIN_BURST
    && Settled(s) <= s.cap + SCALE * |workers| + s.excess
    && s.refilled * SECOND <= s.allowance
  }

  /** A sleeper goes on exactly when an attempt right away gets a token. */
  lemma WokenGetsToken(workers: set<nat>, s: State, w: nat)
    requires Placed(workers, s) && w in s.waiting
    ensures var awake := s.(waiting := s.waiting - {w}, trying := s.trying + {w});
            && (Enabled(workers, s, Wake(w)) <==> Next(workers, awake, Deduct(w)).grants == s.grants + 1)
            && (Enabled(workers, s, Wake(w)) ==> Next(workers, s, Wake(w)) == awake)
  {
  }

  lemma {:induction false} SubsetSize(a: set<nat>, b: set<nat>)
    requires a <= b
    ensures |a| <= |b|
  {
    if a != {} {
      var x :| x in a;
      SubsetSize(a - {x}, b - {x});
    }
  }

  /** A tick adds what is due to it, less than one unit rounded off. */
  lemma AddedBound(target: int, elapsed: nat)
    requires target > 0
    ensures 0 <= Added(target, elapsed) && Added(target, elapsed) * SECOND <= target * elapsed
    ensures target * elapsed < Added(target, elapsed) * SECOND + SECOND
  {
    var product := target * elapsed;
    assert product >= 0;
  }

  lemma RefillKeeps(workers: set<nat>, s: State, elapsed: nat)
    requires Inv(workers, s) && s.excess == 0
    ensures Inv(workers, Refilled(s, elapsed))
  {
    SubsetSize(s.owing, workers);
    if s.target > 0 {
      AddedBound(s.target, elapsed);
    }
  }

  lemma PlacesKept(workers: set<nat>, s: State, step: Step)
    requires Placed(workers, s) && Enabled(workers, s, step)
    ensures Placed(workers, Next(workers, s, step))
  {
  }

  lemma StepKeeps(workers: set<nat>, s: State, step: Step)
    requires Inv(workers, s) && Enabled(workers, s, step)
    ensures Inv(workers, Next(workers, s, step))
  {
    PlacesKept(workers, s, step);
    match step
    case Refill(elapsed) => RefillKeeps(workers, s, elapsed);
    case Refund(w) => assert s.owing == s.owing - {w} + {w};
    case _ =>
  }

  // ---------- Runs ----------

  predicate Legal(workers: set<nat>, s: State, steps: seq<Step>)
    decreases steps
  {
    steps == [] || (Enabled(workers, s, steps[0]) && Legal(workers, Next(workers, s, steps[0]), steps[1..]))
  }

  function After(workers: set<nat>, s: State, steps: seq<Step>): State
    requires Legal(workers, s, steps)
    decreases steps
  {
    if steps == [] then s else After(workers, Next(workers, s, steps[0]), steps[1..])
  }

  lemma {:induction false} RunKeeps(workers: set<nat>, s: State, steps: seq<Step>)
    requires Inv(workers, s) && Legal(workers, s, steps)
    ensures Inv(workers, After(workers, s, steps))
    decreases steps
  {
    if steps != [] {
      StepKeeps(workers, s, steps[0]);
      RunKeeps(workers, Next(workers, s, steps[0]), steps[1..]);
    }
  }

  lemma Extend(workers: set<nat>, s: State, step: Step, rest: seq<Step>)
    requires Enabled(workers, s, step) && Legal(workers, Next(workers, s, step), rest)
    ensures Legal(workers, s, [step] + rest)
    ensures After(workers, s, [step] + rest) == After(workers, Next(workers, s, step), rest)
  {
    assert ([step] + rest)[1..] == rest;
  }

  lemma {:induction false} Join(workers: set<nat>, s: State, a: seq<Step>, b: seq<Step>)
    requires Legal(workers, s, a) && Legal(workers, After(workers, s, a), b)
    ensures Legal(workers, s, a + b) && After(workers, s, a + b) == After(workers, After(workers, s, a), b)
    decreases a
  {
    if a == [] {
      assert a + b == b;
    } else {
      Join(workers, Next(workers, s, a[0]), a[1..], b);
      Extend(workers, s, a[0], a[1..] + b);
      assert [a[0]] + (a[1..] + b) == a + b;
    }
  }

  // ---------- The rate ----------

  /** How often `Acquire` has returned. */
  function Returns(s: State): nat {
    s.grants + s.bypassed
  }

  /** The target was positive at the start and whenever it was set. */
  predicate Positive(target: int, steps: seq<Step>) {
    target > 0 && forall i :: 0 <= i < |steps| && steps[i].SetTarget? ==> steps[i].target > 0
  }

  lemma {:induction false} NobodyBypasses(workers: set<nat>, s: State, steps: seq<Step>)
    requires Legal(workers, s, steps) && Positive(s.target, steps)
    ensures After(workers, s, steps).bypassed == s.bypassed
    decreases steps
  {
    if steps != [] {
      NobodyBypasses(workers, Next(workers, s, steps[0]), steps[1..]);
    }
  }

  /**
   * However refills, trims, changes of target and tentative deductions interleave, the tokens granted never exceed
   * the initial one and what was refilled, and so never exceed the integral of the target over the ticks; and while
   * all targets are positive every return of `Acquire` is such a grant.
   */
  lemma GrantsBounded(workers: set<nat>, target: int, steps: seq<Step>)
    requires Legal(workers, Start(target), steps)
    ensures var e := After(workers, Start(target), steps);
      && SCALE * (Returns(e) - e.bypassed) <= SCALE + e.refilled
      && SCALE * (Returns(e) - e.bypassed) * SECOND <= SCALE * SECOND + e.allowance
      && (Positive(target, steps) ==> e.bypassed == 0)
  {
    RunKeeps(workers, Start(target), steps);
    if Positive(target, steps) {
      NobodyBypasses(workers, Start(target), steps);
    }
  }

  /** Without a positive target there is no limit: a worker returns as often as it likes, and no token moves. */
  lemma {:induction false} Unlimited(workers: set<nat>, s: State, w: nat, n: nat) returns (steps: seq<Step>)
    requires Idle(workers, s, w) && s.target <= 0
    ensures Legal(workers, s, steps) && After(workers, s, steps) == s.(bypassed := s.bypassed + n)
    ensures Fixed(steps) && Elapsed(steps) == 0
    decreases n
  {
    steps := [];
    if n > 0 {
      var rest := Unlimited(workers, Next(workers, s, Bypass(w)), w, n - 1);
      Extend(workers, s, Bypass(w), rest);
      steps := [Bypass(w)] + rest;
      assert steps[1..] == rest;
    }
  }

  // ---------- A fixed target ----------

  function Elapsed(steps: seq<Step>): nat {
    if steps == [] then 0 else (if steps[0].Refill? then steps[0].elapsed else 0) + Elapsed(steps[1..])
  }

  predicate Fixed(steps: seq<Step>) {
    forall i :: 0 <= i < |steps| ==> !steps[i].SetTarget?
  }

  lemma {:induction false} AllowanceOfFixed(workers: set<nat>, s: State, steps: seq<Step>)
    requires Legal(workers, s, steps) && Fixed(steps) && s.target > 0
    ensures var e := After(workers, s, steps); e.allowance == s.allowance + s.target * Elapsed(steps)
    ensures s.cap <= BurstCap(s.target) ==> After(workers, s, steps).cap <= BurstCap(s.target)
    decreases steps
  {
    if steps != [] {
      var s1 := Next(workers, s, steps[0]);
      AllowanceOfFixed(workers, s1, steps[1..]);
      var now, later := Elapsed(steps) - Elapsed(steps[1..]), Elapsed(steps[1..]);
      assert s.target * (now + later) == s.target * now + s.target * later;
    }
  }

  /** One token and the rate times the seconds elapsed. */
  function Ceiling(qps: real, elapsed: nat): real {
    1.0 + qps * (elapsed as real / SECOND as real)
  }

  /** At a fixed target that the rate covers, `Acquire` returns at most once and the rate times the time measured. */
  lemma TargetHeld(workers: set<nat>, target: int, qps: real, steps: seq<Step>)
    requires Legal(workers, Start(target), steps) && Fixed(steps)
    requires 0 < target && target as real <= qps * SCALE as real
    ensures Returns(After(workers, Start(target), steps)) as real <= Ceiling(qps, Elapsed(steps))
  {
    GrantsBounded(workers, target, steps);
    AllowanceOfFixed(workers, Start(target), steps);
    InUnits(Returns(After(workers, Start(target), steps)), target, qps, Elapsed(steps));
  }

  /** Every run at this rate keeps to it. */
  ghost predicate RateHolds(workers: set<nat>, qps: real) {
    forall steps :: Legal(workers, Start(TargetOf(qps)), steps) && Fixed(steps) ==>
      Returns(After(workers, Start(TargetOf(qps)), steps)) as real <= Ceiling(qps, Elapsed(steps))
  }

  /** A positive rate is kept to exactly when it is at least one unit: anything less is stored as no limit at all. */
  lemma RateHeld(workers: set<nat>, qps: real)
    requires workers != {} && qps > 0.0
    ensures RateHolds(workers, qps) <==> qps * SCALE as real >= 1.0
  {
    var target := TargetOf(qps);
    if qps * SCALE as real >= 1.0 {
      forall steps | Legal(workers, Start(target), steps) && Fixed(steps)
        ensures Returns(After(workers, Start(target), steps)) as real <= Ceiling(qps, Elapsed(steps))
      {
        TargetHeld(workers, target, qps, steps);
      }
    } else {
      var w :| w in workers;
      var steps := Unlimited(workers, Start(target), w, 2);
      assert Ceiling(qps, 0) == 1.0;
      assert Returns(After(workers, Start(target), steps)) == 2;
    }
  }

  lemma InUnits(grants: nat, target: int, qps: real, elapsed: nat)
    requires SCALE * grants * SECOND <= SCALE * SECOND + target * elapsed
    requires target as real <= qps * SCALE as real
    ensures grants as real <= Ceiling(qps, elapsed)
  {
    var g, t, e, scale, second := grants as real, target as real, elapsed as real, SCALE as real, SECOND as real;
    var seconds := e / second;
    assert (target * elapsed) as real == t * e;
    assert scale * g * second <= scale * second + t * e;
    assert e == seconds * second;
    assert t * e <= qps * scale * e by { ScaleUp(t, qps * scale, e); }
    assert qps * scale * e == scale * second * (qps * seconds);
  }

  lemma ScaleUp(x: real, y: real, k: real)
    requires x <= y && k >= 0.0
    ensures x * k <= y * k
  {
  }

  // ---------- Windows ----------

  lemma {:induction false} WindowFloor(workers: set<nat>, s: State, steps: seq<Step>)
    requires Inv(workers, s) && Legal(workers, s, steps)
    ensures var e := After(workers, s, steps);
      Settled(e) + (e.trimmed - s.trimmed) >= if Settled(s) < 0 then Settled(s) else 0
    ensures After(workers, s, steps).trimmed >= s.trimmed
    decreases steps
  {
    if steps != [] {
      StepKeeps(workers, s, steps[0]);
      StepFloor(workers, s, steps[0]);
      WindowFloor(workers, Next(workers, s, steps[0]), steps[1..]);
    }
  }

  lemma StepFloor(workers: set<nat>, s: State, step: Step)
    requires Inv(workers, s) && Enabled(workers, s, step)
    ensures var n := Next(workers, s, step);
      && n.trimmed >= s.trimmed
      && (Settled(n) + (n.trimmed - s.trimmed) >= Settled(s) || Settled(n) >= 0)
  {
    match step
    case Refund(w) => assert s.owing == s.owing - {w} + {w};
    case _ =>
  }

  /** What a run can grant from any state on: the tokens there and those owed back, and the refills. */
  lemma WindowFromSettled(workers: set<nat>, s: State, steps: seq<Step>)
    requires Inv(workers, s) && Legal(workers, s, steps)
    ensures var e := After(workers, s, steps);
      SCALE * (e.grants - s.grants) <= (if Settled(s) > 0 then Settled(s) else 0) + (e.refilled - s.refilled)
  {
    RunKeeps(workers, s, steps);
    WindowFloor(workers, s, steps);
  }

  /**
   * From any moment of any run at which no trim is pending, the next grants are at most the burst cap of the last
   * refill, what is refilled meanwhile, and one per worker.
   */
  lemma WindowBounded(workers: set<nat>, target: int, before: seq<Step>, steps: seq<Step>)
    requires Legal(workers, Start(target), before)
    requires var s := After(workers, Start(target), before); s.excess == 0 && Legal(workers, s, steps)
    ensures var s := After(workers, Start(target), before);
      var e := After(workers, s, steps);
      SCALE * (e.grants - s.grants) <= s.cap + (e.refilled - s.refilled) + SCALE * |workers|
    ensures Fixed(before) && target > 0 ==> After(workers, Start(target), before).cap <= BurstCap(target)
  {
    if Fixed(before) && target > 0 {
      AllowanceOfFixed(workers, Start(target), before);
    }
    RunKeeps(workers, Start(target), before);
    WindowFromSettled(workers, After(workers, Start(target), before), steps);
  }

  // ---------- When the cap itself holds ----------

  /** No window from `s` on grants more than the cap and its refills. */
  ghost predicate CapHolds(workers: set<nat>, s: State) {
    forall steps :: Legal(workers, s, steps) ==>
      var e := After(workers, s, steps);
      SCALE * (e.grants - s.grants) <= s.cap + (e.refilled - s.refilled)
  }

  /** All refunds come back, and one worker takes every whole token there is. */
  lemma {:induction false} Exhaust(workers: set<nat>, s: State, w: nat, n: nat) returns (steps: seq<Step>)
    requires Placed(workers, s) && w in workers && s.target > 0 && Settled(s) >= SCALE * n
    ensures Legal(workers, s, steps)
    ensures var e := After(workers, s, steps); e.grants == s.grants + n && e.refilled == s.refilled
    decreases |s.owing|, n, if w in s.trying then 0 else 1
  {
    steps := [];
    if s.owing != {} {
      var u :| u in s.owing;
      assert s.owing == s.owing - {u} + {u};
      var rest := Exhaust(workers, Next(workers, s, Refund(u)), w, n);
      Extend(workers, s, Refund(u), rest);
      steps := [Refund(u)] + rest;
    } else if n > 0 {
      var step := if w in s.trying then Deduct(w) else if w in s.waiting then Wake(w) else Enter(w);
      var rest := Exhaust(workers, Next(workers, s, step), w, if step.Deduct? then n - 1 else n);
      Extend(workers, s, step, rest);
      steps := [step] + rest;
    }
  }

  /** A target at which a tick adds exactly the nanoseconds it measures. */
  lemma ExactRefill(workers: set<nat>, s: State, add: nat)
    requires s.excess == 0 && s.target == SECOND && add > 0
    ensures var n := Next(workers, s, Refill(add));
      && n.tokens == s.tokens + add && n.refilled == s.refilled + add && n.grants == s.grants
      && n.cap == 50 * SCALE && n.excess == (if n.tokens > n.cap then n.tokens - n.cap else 0)
      && n.owing == s.owing && n.trying == s.trying && n.waiting == s.waiting && n.target == SECOND
  {
    assert SECOND * add / SECOND == add;
  }

  /** If more is settled than the cap, a run grants more: refill up to a whole token and take everything. */
  lemma OverCap(workers: set<nat>, s: State, w: nat)
    requires Placed(workers, s) && w in workers && s.excess == 0 && Settled(s) > s.cap && s.cap >= 0
    ensures !CapHolds(workers, s)
  {
    var short := (SCALE - Settled(s) % SCALE) % SCALE;
    var n := (Settled(s) + short) / SCALE;
    assert SCALE * n == Settled(s) + short;
    var s1 := Next(workers, s, SetTarget(SECOND));
    if short == 0 {
      var rest := Exhaust(workers, s1, w, n);
      Extend(workers, s, SetTarget(SECOND), rest);
    } else {
      ExactRefill(workers, s1, short);
      var rest := Exhaust(workers, Next(workers, s1, Refill(short)), w, n);
      Extend(workers, s1, Refill(short), rest);
      Extend(workers, s, SetTarget(SECOND), [Refill(short)] + rest);
    }
  }

  /** The cap holds from a moment on exactly when the tokens in the bucket and those owed back are within it. */
  lemma CapExact(workers: set<nat>, s: State)
    requires Inv(workers, s) && s.excess == 0 && workers != {}
    ensures CapHolds(workers, s) <==> Settled(s) <= s.cap
  {
    if Settled(s) <= s.cap {
      forall steps | Legal(workers, s, steps)
        ensures var e := After(workers, s, steps); SCALE * (e.grants - s.grants) <= s.cap + (e.refilled - s.refilled)
      {
        WindowFromSettled(workers, s, steps);
      }
    } else {
      var w :| w in workers;
      OverCap(workers, s, w);
    }
  }

  // ---------- The excess of one token per worker ----------

  /** The state after the workers of `todo` have failed once. */
  function Indebted(s: State, todo: set<nat>): State {
    s.(tokens := s.tokens - SCALE * |todo|, owing := s.owing + todo)
  }

  lemma FailOnce(workers: set<nat>, s: State, w: nat)
    requires s.target > 0 && s.tokens < SCALE && Idle(workers, s, w)
    ensures Enabled(workers, s, Enter(w)) && Enabled(workers, Next(workers, s, Enter(w)), Deduct(w))
    ensures Next(workers, Next(workers, s, Enter(w)), Deduct(w)) == Indebted(s, {w})
  {
    assert s.trying + {w} - {w} == s.trying;
  }

  lemma IndebtedNext(s: State, todo: set<nat>, w: nat)
    requires w in todo
    ensures Indebted(Indebted(s, {w}), todo - {w}) == Indebted(s, todo)
  {
    assert s.owing + {w} + (todo - {w}) == s.owing + todo;
  }

  /** Every worker of `todo` tries an empty bucket and is left owing. */
  lemma {:induction false} AllOwe(workers: set<nat>, s: State, todo: set<nat>) returns (steps: seq<Step>)
    requires s.target > 0 && s.tokens < SCALE && forall w :: w in todo ==> Idle(workers, s, w)
    ensures Legal(workers, s, steps) && After(workers, s, steps) == Indebted(s, todo)
    decreases todo
  {
    steps := [];
    if todo == {} {
      assert s.owing + todo == s.owing;
    } else {
      var w :| w in todo;
      FailOnce(workers, s, w);
      IndebtedNext(s, todo, w);
      var rest := AllOwe(workers, Indebted(s, {w}), todo - {w});
      Extend(workers, Next(workers, s, Enter(w)), Deduct(w), rest);
      Extend(workers, s, Enter(w), [Deduct(w)] + rest);
      steps := [Enter(w)] + ([Deduct(w)] + rest);
    }
  }

  /** The first token is taken, everyone else's attempt is left owing, and a refill fills the bucket to its cap. */
  lemma FilledOverDebts(workers: set<nat>) returns (before: seq<Step>)
    requires workers != {}
    ensures Legal(workers, Start(SECOND), before)
    ensures var s := After(workers, Start(SECOND), before);
      s.excess == 0 && s.target == SECOND && s.owing == workers && Placed(workers, s) && s.tokens == s.cap == 50 * SCALE
  {
    var s0 := Start(SECOND);
    var w :| w in workers;
    var s1 := State(0, SECOND, {}, {}, {}, 0, MIN_BURST, 0, 0, 1, 0, 0);
    var s0' := Next(workers, s0, Enter(w));
    assert s1 == Next(workers, s0', Deduct(w)) by { assert {w} - {w} == {}; }
    var debts := AllOwe(workers, s1, workers);
    var s2 := After(workers, s1, debts);
    var add := 50 * SCALE + SCALE * |workers|;
    ExactRefill(workers, s2, add);
    Extend(workers, s2, Refill(add), []);
    Join(workers, s1, debts, [Refill(add)] + []);
    var rest := debts + ([Refill(add)] + []);
    Extend(workers, s0', Deduct(w), rest);
    Extend(workers, s0, Enter(w), [Deduct(w)] + rest);
    before := [Enter(w)] + ([Deduct(w)] + rest);
    assert {} + workers == workers;
  }

  /** The bound of a window is reached: for every set of workers a run exceeds the cap by one token per worker. */
  lemma RefundsExceedCap(workers: set<nat>) returns (before: seq<Step>, steps: seq<Step>)
    requires workers != {}
    ensures Legal(workers, Start(SECOND), before)
    ensures var s := After(workers, Start(SECOND), before);
      && s.excess == 0 && Legal(workers, s, steps)
      && var e := After(workers, s, steps);
         SCALE * (e.grants - s.grants) == s.cap + (e.refilled - s.refilled) + SCALE * |workers|
  {
    before := FilledOverDebts(workers);
    var w :| w in workers;
    steps := Exhaust(workers, After(workers, Start(SECOND), before), w, 50 + |workers|);
  }

  // ---------- When sleepers get tokens ----------

  function Refills(steps: seq<Step>): nat {
    if steps == [] then 0 else (if steps[0].Refill? then 1 else 0) + Refills(steps[1..])
  }

  /** Each tick rounds off less than one unit, and what it rounds off is gone. */
  lemma {:induction false} RefillsKeepUp(workers: set<nat>, s: State, steps: seq<Step>)
    requires Legal(workers, s, steps)
    ensures var e := After(workers, s, steps);
      var due, paid := e.allowance - s.allowance, SECOND * (e.refilled - s.refilled);
      paid <= due <= paid + (SECOND - 1) * Refills(steps)
    decreases steps
  {
    if steps != [] {
      if steps[0].Refill? && s.target > 0 {
        AddedBound(s.target, steps[0].elapsed);
      }
      RefillsKeepUp(workers, Next(workers, s, steps[0]), steps[1..]);
    }
  }

  /** Ticks with nobody awake, each trim taken as soon as it is due. */
  predicate Ticks(steps: seq<Step>) {
    forall i :: 0 <= i < |steps| ==> steps[i].Refill? || steps[i].Trim?
  }

  /** While everyone sleeps, the bucket holds all that was refilled or is filled to a cap of at least two tokens. */
  lemma {:induction false} SleepersGetTokens(workers: set<nat>, s: State, steps: seq<Step>)
    requires Legal(workers, s, steps) && Ticks(steps) && s.excess == 0
    ensures var e := After(workers, s, steps);
      && (s.tokens + (e.refilled - s.refilled) >= MIN_BURST ==> e.tokens >= MIN_BURST)
      && (s.tokens + (e.refilled - s.refilled) < MIN_BURST ==> e.tokens == s.tokens + (e.refilled - s.refilled))
      && e.refilled >= s.refilled && (e.refilled == s.refilled ==> e.tokens == s.tokens)
    decreases |steps|
  {
    if steps != [] {
      var s1 := Next(workers, s, steps[0]);
      if s.target > 0 {
        AddedBound(s.target, steps[0].elapsed);
      }
      if s1.excess == 0 {
        SleepersGetTokens(workers, s1, steps[1..]);
      } else if |steps| > 1 {
        var s2 := Next(workers, s1, steps[1..][0]);
        SleepersGetTokens(workers, s2, steps[1..][1..]);
      }
    }
  }

  /** What a tick adds under any target. */
  function Adds(target: int, elapsed: nat): (add: nat)
    ensures add > 0 <==> target * elapsed >= SECOND
  {
    if target <= 0 then
      assert target * elapsed <= 0;
      0
    else
      AddedBound(target, elapsed);
      Added(target, elapsed)
  }

  /** `n` ticks of `elapsed` nanoseconds each, trims included. */
  function Evenly(workers: set<nat>, s: State, elapsed: nat, n: nat): (steps: seq<Step>)
    requires s.excess == 0
    ensures Legal(workers, s, steps) && Ticks(steps)
    ensures After(workers, s, steps).refilled == s.refilled + n * Adds(s.target, elapsed)
    decreases n
  {
    if n == 0 then []
    else
      var s1 := Next(workers, s, Refill(elapsed));
      var add := Adds(s.target, elapsed);
      assert n * add == add + (n - 1) * add;
      if s1.excess == 0 then
        var rest := Evenly(workers, s1, elapsed, n - 1);
        Extend(workers, s, Refill(elapsed), rest);
        [Refill(elapsed)] + rest
      else
        var rest := Evenly(workers, Next(workers, s1, Trim), elapsed, n - 1);
        Extend(workers, s1, Trim, rest);
        Extend(workers, s, Refill(elapsed), [Trim] + rest);
        [Refill(elapsed)] + ([Trim] + rest)
  }

  /** Whether even ticks ever bring a sleeper its token. */
  ghost predicate Served(workers: set<nat>, s: State, elapsed: nat)
    requires s.excess == 0
  {
    exists n: nat :: After(workers, s, Evenly(workers, s, elapsed, n)).tokens >= SCALE
  }

  /**
   * Sleepers at a bucket without a whole token are served by even ticks exactly when a tick is due at least one
   * unit; otherwise each tick rounds off all it is due, and they starve.
   */
  lemma SleepersServed(workers: set<nat>, s: State, elapsed: nat)
    requires s.excess == 0 && s.tokens < SCALE
    ensures Served(workers, s, elapsed) <==> s.target * elapsed >= SECOND
  {
    var add := Adds(s.target, elapsed);
    if s.target * elapsed >= SECOND {
      var n := if s.tokens < 0 then SCALE - s.tokens else SCALE;
      assert n * add >= n;
      SleepersGetTokens(workers, s, Evenly(workers, s, elapsed, n));
      assert After(workers, s, Evenly(workers, s, elapsed, n)).tokens >= SCALE;
    } else {
      forall n: nat
        ensures After(workers, s, Evenly(workers, s, elapsed, n)).tokens < SCALE
      {
        assert n * add == 0;
        SleepersGetTokens(workers, s, Evenly(workers, s, elapsed, n));
      }
    }
  }

  const TICK: int := 1_000_000

  /** With the refiller's ticks of one millisecond, sleepers are served at no rate below a thousandth per second. */
  lemma SlowRatesStarve(workers: set<nat>, s: State, qps: real)
    requires s.excess == 0 && s.tokens < SCALE && s.target == TargetOf(qps)
    ensures Served(workers, s, TICK) <==> qps >= 0.001
  {
    SleepersServed(workers, s, TICK);
    assert s.target >= 1000 <==> qps * SCALE as real >= 1000.0;
  }

  /** No tick of the run is longer than a millisecond. */
  predicate ShortTicks(steps: seq<Step>) {
    forall i :: 0 <= i < |steps| && steps[i].Refill? ==> steps[i].elapsed <= TICK
  }

  lemma {:induction false} NothingRefilled(workers: set<nat>, s: State, steps: seq<Step>)
    requires Legal(workers, s, steps) && Fixed(steps) && ShortTicks(steps) && s.target * TICK < SECOND
    ensures After(workers, s, steps).refilled == s.refilled
    decreases steps
  {
    if steps != [] {
      if steps[0].Refill? && s.target > 0 {
        ScaleTicks(s.target, steps[0].elapsed);
        assert Adds(s.target, steps[0].elapsed) == 0;
      }
      NothingRefilled(workers, Next(workers, s, steps[0]), steps[1..]);
    }
  }

  lemma ScaleTicks(target: int, elapsed: nat)
    requires target > 0 && elapsed <= TICK
    ensures target * elapsed <= target * TICK
  {
  }

  /** Between a millionth and a thousandth per second, `Acquire` returns once and never again. */
  lemma OneTokenOnly(workers: set<nat>, qps: real, steps: seq<Step>)
    requires 0.000001 <= qps < 0.001
    requires Legal(workers, Start(TargetOf(qps)), steps) && Fixed(steps) && ShortTicks(steps)
    ensures Returns(After(workers, Start(TargetOf(qps)), steps)) <= 1
  {
    GrantsBounded(workers, TargetOf(qps), steps);
    NothingRefilled(workers, Start(TargetOf(qps)), steps);
  }
}
