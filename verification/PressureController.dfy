/** The controller object: every phase method updates its fields in place. */
module PressureController {
  import opened Pressure

  class Controller {
    var phase: Phase
    var currentQPS: real
    var safeQPS: real
    var baselineP50: real
    var baselineSet: bool
    var collecting: nat
    var p50s: seq<real>
    var stableCount: nat
    var backoffWait: int
    var steadyCounter: nat
    var probingUp: bool
    var smoothedRatio: real
    var smoothedSet: bool
    var warnStreak: nat
    var lastPending: int

    ghost function View(): Control
      reads this
    {
      Control(phase, currentQPS, safeQPS, baselineP50, baselineSet, collecting, p50s, stableCount, backoffWait,
              steadyCounter, probingUp, smoothedRatio, smoothedSet, warnStreak, lastPending)
    }

    /** `NewMemoryPressureController` followed by `SetTargetQPS`. */
    constructor (targetQPS: real)
      ensures View() == Start(targetQPS) && Inv(View())
    {
      phase := if targetQPS > 0.0 then Disabled else Baseline;
      currentQPS := if targetQPS > 0.0 then targetQPS else INITIAL_QPS;
      safeQPS, baselineP50, baselineSet, collecting, p50s := 0.0, 0.0, false, 0, [];
      stableCount, backoffWait, steadyCounter, probingUp := 0, 0, 0, false;
      smoothedRatio, smoothedSet, warnStreak, lastPending := 0.0, false, 0, 0;
    }

    method EnterBackoff()
      modifies this
      ensures View() == Pressure.EnterBackoff(old(View()))
    {
      phase := Backoff;
      backoffWait := COOLDOWN;
      currentQPS := currentQPS * 0.85;
      if safeQPS > 0.0 && currentQPS < safeQPS * 0.5 {
        currentQPS := safeQPS * 0.5;
      }
      if currentQPS < 10.0 {
        currentQPS := 10.0;
      }
    }

    method UpdateSmoothedRatio(rawRatio: real)
      modifies this`smoothedRatio, this`smoothedSet
      ensures View() == Smooth(old(View()), rawRatio)
    {
      if !smoothedSet {
        smoothedRatio := rawRatio;
        smoothedSet := true;
      } else {
        smoothedRatio := 0.3 * rawRatio + 0.7 * smoothedRatio;
      }
    }

    method Learn()
      requires p50s != []
      modifies this
      ensures View() == Pressure.Learn(old(View()))
    {
      baselineP50 := Median(p50s);
      baselineSet := true;
      smoothedRatio := 1.0;
      smoothedSet := true;
      phase := SlowStart;
      safeQPS := currentQPS;
    }

    method DoBaseline(p50: real)
      modifies this
      ensures View() == Pressure.DoBaseline(old(View()), p50)
    {
      collecting := collecting + 1;
      p50s := p50s + [p50];
      if collecting >= BASELINE_ROUNDS {
        Learn();
      }
    }

    method DoSlowStart(ratio: real, pending: int, growing: bool)
      modifies this
      ensures View() == Pressure.DoSlowStart(old(View()), ratio, pending, growing)
    {
      if ratio >= RATIO_CRITICAL {
        warnStreak := 0;
        EnterBackoff();
        return;
      }
      if ratio < RATIO_WARN && !growing && pending < (currentQPS * 2.0).Floor {
        warnStreak := 0;
        safeQPS := currentQPS;
        currentQPS := currentQPS * 1.3;
      } else {
        warnStreak := warnStreak + 1;
        if warnStreak >= WARN_CONFIRM {
          currentQPS := safeQPS;
          phase := Probing;
          stableCount := 0;
          warnStreak := 0;
        }
      }
    }

    method DoProbing(raw: real, growing: bool)
      modifies this
      ensures View() == Pressure.DoProbing(old(View()), raw, growing)
    {
      if raw >= RATIO_CRITICAL {
        EnterBackoff();
        return;
      }
      var ratio := smoothedRatio;
      if growing && ratio < RATIO_WARN {
        ratio := RATIO_WARN;
      }
      if ratio < RATIO_OK {
        var step := currentQPS * 0.02;
        if step < 10.0 {
          step := 10.0;
        }
        safeQPS := currentQPS;
        currentQPS := currentQPS + step;
        stableCount := 0;
      } else if ratio < RATIO_WARN {
        safeQPS := currentQPS;
        stableCount := stableCount + 1;
        if stableCount >= STABLE_ROUNDS {
          phase := Steady;
          steadyCounter := 0;
          probingUp := false;
        }
      } else {
        currentQPS := currentQPS * 0.95;
        if currentQPS < safeQPS * 0.8 {
          currentQPS := safeQPS * 0.8;
        }
        stableCount := 0;
      }
    }

    method DoSteady(raw: real, growing: bool)
      modifies this
      ensures View() == Pressure.DoSteady(old(View()), raw, growing)
    {
      if raw >= RATIO_CRITICAL {
        EnterBackoff();
        return;
      }
      var ratio := smoothedRatio;
      if growing && ratio < RATIO_WARN {
        ratio := RATIO_WARN;
      }
      steadyCounter := steadyCounter + 1;
      if probingUp {
        if ratio >= RATIO_WARN {
          currentQPS := safeQPS;
          probingUp := false;
        } else if ratio < RATIO_OK {
          safeQPS := currentQPS;
          probingUp := false;
        }
        return;
      }
      if ratio >= RATIO_WARN {
        currentQPS := currentQPS * 0.95;
        if currentQPS < safeQPS * 0.8 {
          currentQPS := safeQPS * 0.8;
        }
        return;
      }
      if steadyCounter >= STEADY_INTERVAL {
        var step := currentQPS * 0.01;
        if step < 5.0 {
          step := 5.0;
        }
        currentQPS := currentQPS + step;
        steadyCounter := 0;
        probingUp := true;
      }
    }

    method DoBackoff()
      modifies this
      ensures View() == Pressure.DoBackoff(old(View()))
    {
      backoffWait := backoffWait - 1;
      if backoffWait <= 0 {
        phase := Probing;
        stableCount := 0;
      }
    }

    /** Smooths the ratio and remembers the calls pending. */
    method Observe(samples: seq<real>, pending: int)
      requires |samples| >= 3 && (baselineSet ==> baselineP50 != 0.0)
      modifies this
      ensures View() == Observed(old(View()), Round(samples, pending))
    {
      if baselineSet && baselineP50 > 0.0 {
        UpdateSmoothedRatio(Median(samples) / baselineP50);
      }
      lastPending := pending;
    }

    /** `detect`, for the samples drained this round. */
    method Detect(samples: seq<real>, pending: int)
      requires Inv(View()) && Positive(Round(samples, pending))
      modifies this
      ensures View() == Pressure.Detect(old(View()), Round(samples, pending))
      ensures Inv(View())
    {
      DetectKeeps(View(), Round(samples, pending));
      if phase == Disabled || |samples| < 3 {
        return;
      }
      var p50 := Median(samples);
      var growing := pending > lastPending + (currentQPS * 0.5).Floor && pending > (currentQPS * 1.5).Floor;
      var ratio := if baselineSet then p50 / baselineP50 else 0.0;
      Observe(samples, pending);
      match phase
      case Disabled =>
      case Baseline => DoBaseline(p50);
      case SlowStart => DoSlowStart(ratio, pending, growing);
      case Probing => DoProbing(ratio, growing);
      case Steady => DoSteady(ratio, growing);
      case Backoff => DoBackoff();
    }

    /** The controller through any list of rounds, with what the theorems say of such a run. */
    method Drive(rounds: seq<Round>)
      requires Inv(View()) && forall r :: r in rounds ==> Positive(r)
      modifies this
      ensures View() == After(old(View()), rounds)
      ensures Inv(View()) && (Learned(View()) ==> Enveloped(View()))
      ensures old(phase) == Backoff && Decided(rounds) < old(backoffWait) ==>
                phase == Backoff && currentQPS == old(currentQPS) && safeQPS == old(safeQPS)
      ensures old(phase) in {Probing, Steady, Backoff} ==> phase in {Probing, Steady, Backoff}
    {
      ghost var start := View();
      if phase == Backoff && Decided(rounds) < backoffWait {
        BackoffFreezes(View(), rounds);
      }
      if phase in {Probing, Steady, Backoff} {
        NoReturnToSlowStart(View(), rounds);
      }
      for i := 0 to |rounds|
        invariant Inv(View()) && After(View(), rounds[i..]) == After(start, rounds)
      {
        assert rounds[i..][0] == rounds[i] && rounds[i..][1..] == rounds[i + 1..];
        Detect(rounds[i].samples, rounds[i].pending);
      }
      assert rounds[|rounds|..] == [];
    }
  }
}
