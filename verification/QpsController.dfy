/** The rate limiter object. Each method is one atomic segment of the refiller or of a caller of `Acquire`. */
module QpsController {
  import opened TokenBucket

  class Controller {
    var tokens: int
    var targetQPS: int
    var excess: nat
    ghost const workers: set<nat>
    ghost var trying: set<nat>
    ghost var owing: set<nat>
    ghost var waiting: set<nat>
    ghost var cap: int
    ghost var refilled: nat
    ghost var trimmed: nat
    ghost var grants: nat
    ghost var bypassed: nat
    ghost var allowance: nat

    ghost function View(): State
      reads this
    {
      State(tokens, targetQPS, trying, owing, waiting, excess, cap, refilled, trimmed, grants, bypassed, allowance)
    }

    constructor (qps: real, ghost workers: set<nat>)
      ensures this.workers == workers && View() == Start(TargetOf(qps)) && Inv(workers, View())
    {
      tokens, targetQPS, excess := SCALE, TargetOf(qps), 0;
      this.workers := workers;
      trying, owing, waiting, cap, refilled, trimmed, grants, bypassed, allowance := {}, {}, {}, MIN_BURST, 0, 0, 0, 0, 0;
    }

    method SetQPS(qps: real)
      requires Inv(workers, View())
      modifies this
      ensures View() == Next(workers, old(View()), SetTarget(TargetOf(qps))) && Inv(workers, View())
    {
      StepKeeps(workers, View(), SetTarget(TargetOf(qps)));
      targetQPS := TargetOf(qps);
    }

    /** A tick up to the point where the cap has been compared. */
    method AddTokens(elapsed: nat)
      requires Inv(workers, View()) && excess == 0
      modifies this
      ensures View() == Next(workers, old(View()), Refill(elapsed)) && Inv(workers, View())
    {
      StepKeeps(workers, View(), Refill(elapsed));
      if targetQPS <= 0 {
        return;
      }
      AddedBound(targetQPS, elapsed);
      var add := targetQPS * elapsed / SECOND;
      allowance := allowance + targetQPS * elapsed;
      if add <= 0 {
        return;
      }
      tokens := tokens + add;
      refilled := refilled + add;
      var burstCap := targetQPS * BURST_WINDOW / SECOND;
      if burstCap < MIN_BURST {
        burstCap := MIN_BURST;
      }
      cap := burstCap;
      if tokens > burstCap {
        excess := tokens - burstCap;
      }
    }

    /** The rest of a tick that found too many tokens. */
    method TrimTokens()
      requires Inv(workers, View()) && excess > 0
      modifies this
      ensures View() == Next(workers, old(View()), Trim) && Inv(workers, View())
    {
      StepKeeps(workers, View(), Trim);
      tokens := tokens - excess;
      trimmed := trimmed + excess;
      excess := 0;
    }

    /** The check `Acquire` begins with. */
    method Check(ghost worker: nat) returns (unlimited: bool)
      requires Inv(workers, View()) && Idle(workers, View(), worker)
      modifies this
      ensures unlimited <==> old(targetQPS) <= 0
      ensures View() == Next(workers, old(View()), if unlimited then Bypass(worker) else Enter(worker))
      ensures Inv(workers, View())
    {
      unlimited := targetQPS <= 0;
      StepKeeps(workers, View(), if unlimited then Bypass(worker) else Enter(worker));
      if unlimited {
        bypassed := bypassed + 1;
      } else {
        trying := trying + {worker};
      }
    }

    /** One attempt of `Acquire`. */
    method TryDeduct(ghost worker: nat) returns (granted: bool)
      requires Inv(workers, View()) && worker in trying
      modifies this
      ensures View() == Next(workers, old(View()), Deduct(worker)) && Inv(workers, View())
      ensures granted <==> grants == old(grants) + 1
      ensures !granted ==> worker in owing
    {
      StepKeeps(workers, View(), Deduct(worker));
      tokens := tokens - SCALE;
      granted := tokens >= 0;
      trying := trying - {worker};
      if granted {
        grants := grants + 1;
      } else {
        owing := owing + {worker};
      }
    }

    /** A failed attempt gives its token back and goes to sleep. */
    method GiveBack(ghost worker: nat)
      requires Inv(workers, View()) && worker in owing
      modifies this
      ensures View() == Next(workers, old(View()), Refund(worker)) && Inv(workers, View())
    {
      StepKeeps(workers, View(), Refund(worker));
      tokens := tokens + SCALE;
      owing, waiting := owing - {worker}, waiting + {worker};
    }

    /** A sleeper looks at the bucket: it may try again only when a whole token is there. */
    method LookAgain(ghost worker: nat) returns (awake: bool)
      requires Inv(workers, View()) && worker in waiting
      modifies this
      ensures Inv(workers, View())
      ensures awake <==> Enabled(workers, old(View()), Wake(worker))
      ensures View() == if awake then Next(workers, old(View()), Wake(worker)) else old(View())
    {
      awake := tokens >= SCALE;
      if awake {
        StepKeeps(workers, View(), Wake(worker));
        waiting, trying := waiting - {worker}, trying + {worker};
      }
    }
  }
}
