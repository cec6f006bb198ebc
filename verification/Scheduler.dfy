/**
  The per-account token scheduler of a case run: every account starts with a batch of tokens in
  its worker's bounded channel, a dispatch takes a token out, and a finish puts one back or not.
 */
module Scheduler {
  import opened Wrappers
  import opened DivMod

  // ---------- Parameters ----------

  /** `runTime` after its default: as given when that is at least one, else one. */
  function EffectiveRunTime(runTime: int): (t: nat)
    ensures t >= 1 && t >= runTime && (t == runTime || t == 1)
  {
    if runTime <= 0 then 1 else runTime
  }

  /** `batchSize` after clamping: what is asked for, or all runs when that makes no sense, but at most five. */
  function BatchSize(requested: int, runTime: nat): (b: nat)
    requires runTime >= 1
    ensures 1 <= b <= runTime && b <= 5
    ensures 1 <= requested <= runTime ==> b <= requested && (b == requested || b == 5)
    ensures !(1 <= requested <= runTime) ==> b == runTime || b == 5
  {
    var b := if requested <= 0 || requested > runTime then runTime else requested;
    if b > 5 then 5 else b
  }

  /** The number of workers: half the processors, at least one, at most one per account. */
  function WorkerCount(procs: nat, users: nat): (w: nat)
    requires users >= 1
    ensures 1 <= w <= users && (w == 1 || w <= procs / 2)
    ensures w == users || w == 1 || w == procs / 2
    ensures w < users ==> w >= procs / 2
  {
    var half := if procs / 2 < 1 then 1 else procs / 2;
    if half > users then users else half
  }

  datatype Config = Config(users: nat, runTime: nat, batch: nat, workers: nat) {
    predicate Valid() {
      1 <= workers <= users && 1 <= batch <= runTime
    }

    /** The size of every worker's channel. */
    function Capacity(): nat
      requires Valid()
    {
      batch * (users / workers + 1)
    }

    function Owner(a: nat): (w: nat)
      requires Valid()
      ensures w < workers
    {
      a % workers
    }
  }

  function Min(x: int, y: int): int {
    if x <= y then x else y
  }

  /** What a case is run with: its account range and parameters; an empty range is refused. */
  function Setup(start: int, end: int, runTime: int, batch: int, procs: nat): (r: Option<Config>)
    ensures r.Some? <==> start < end
    ensures r.Some? ==> r.value.Valid() && r.value.users == end - start && r.value.runTime == EffectiveRunTime(runTime)
    ensures r.Some? ==>
              r.value.batch == Min(if 1 <= batch <= r.value.runTime then batch else r.value.runTime, 5)
    ensures r.Some? ==> r.value.workers == Min(if procs < 2 then 1 else procs / 2, end - start)
  {
    if end <= start then None
    else
      var t := EffectiveRunTime(runTime);
      Some(Config(end - start, t, BatchSize(batch, t), WorkerCount(procs, end - start)))
  }

  // ---------- Sums over the accounts of one worker ----------

  /** The sum of `f` over the accounts below `k` that worker `w` owns. */
  function SumOwned(c: Config, w: nat, f: nat -> int, k: nat): int
    requires c.Valid()
  {
    if k == 0 then 0
    else SumOwned(c, w, f, k - 1) + if c.Owner(k - 1) == w then f(k - 1) else 0
  }

  lemma {:induction false} SumOwnedLe(c: Config, w: nat, f: nat -> int, g: nat -> int, k: nat)
    requires c.Valid()
    requires forall a: nat :: a < k && c.Owner(a) == w ==> f(a) <= g(a)
    ensures SumOwned(c, w, f, k) <= SumOwned(c, w, g, k)
  {
    if k > 0 {
      SumOwnedLe(c, w, f, g, k - 1);
    }
  }

  /** Functions that differ at one owned account only have sums that differ by as much. */
  lemma {:induction false} SumOwnedBump(c: Config, w: nat, f: nat -> int, g: nat -> int, a: nat, k: nat)
    requires c.Valid() && c.Owner(a) == w
    requires forall b: nat :: b < k && b != a && c.Owner(b) == w ==> f(b) == g(b)
    ensures SumOwned(c, w, g, k) == SumOwned(c, w, f, k) + if a < k then g(a) - f(a) else 0
  {
    if k > 0 {
      SumOwnedBump(c, w, f, g, a, k - 1);
    }
  }

  lemma {:induction false} SumOwnedAdd(c: Config, w: nat, f: nat -> int, g: nat -> int, h: nat -> int, k: nat)
    requires c.Valid()
    requires forall a: nat :: a < k && c.Owner(a) == w ==> h(a) == f(a) + g(a)
    ensures SumOwned(c, w, h, k) == SumOwned(c, w, f, k) + SumOwned(c, w, g, k)
  {
    if k > 0 {
      SumOwnedAdd(c, w, f, g, h, k - 1);
    }
  }

  /** How many of the first `k` accounts worker `w` owns. */
  function OwnedBelow(c: Config, w: nat, k: nat): nat
    requires c.Valid()
  {
    k / c.workers + if k % c.workers > w then 1 else 0
  }

  lemma OwnedBelowSucc(c: Config, w: nat, k: nat)
    requires c.Valid() && w < c.workers
    ensures OwnedBelow(c, w, k + 1) == OwnedBelow(c, w, k) + if c.Owner(k) == w then 1 else 0
  {
    var n, q, r := c.workers, k / c.workers, k % c.workers;
    if r + 1 < n {
      DivModUnique(k + 1, n, q, r + 1);
    } else {
      DivModUnique(k + 1, n, q + 1, 0);
    }
  }

  lemma {:induction false} SumOwnedConstant(c: Config, w: nat, m: nat, k: nat)
    requires c.Valid() && w < c.workers
    ensures SumOwned(c, w, _ => m, k) == m * OwnedBelow(c, w, k)
  {
    if k == 0 {
      DivModUnique(0, c.workers, 0, 0);
    } else {
      SumOwnedConstant(c, w, m, k - 1);
      OwnedBelowSucc(c, w, k - 1);
      assert m * (OwnedBelow(c, w, k - 1) + 1) == m * OwnedBelow(c, w, k - 1) + m;
    }
  }

  /** Every worker owns an account, and its share of tokens fits its channel. */
  lemma ShareFits(c: Config, w: nat)
    requires c.Valid() && w < c.workers
    ensures SumOwned(c, w, _ => c.batch, c.users) <= c.Capacity()
    ensures w < c.users && c.Owner(w) == w
  {
    SumOwnedConstant(c, w, c.batch, c.users);
    TimesMonotone(c.batch, OwnedBelow(c, w, c.users), c.users / c.workers + 1);
    DivModUnique(w, c.workers, 0, w);
  }

  // ---------- States and steps ----------

  /** `flying` tasks run, `pending` callbacks hold a token they still have to send. */
  datatype Account = Account(flying: nat, pending: nat, tickets: nat, runs: nat) {
    /** Callbacks that have drawn their ticket. */
    function Finished(): int {
      runs - flying
    }
  }

  datatype Worker = Worker(channel: seq<nat>, dispatched: nat, left: bool, broken: bool)

  datatype State = State(accounts: seq<Account>, workers: seq<Worker>) {
    predicate Shaped(c: Config) {
      c.Valid() && |accounts| == c.users && |workers| == c.workers
    }
  }

  datatype Step =
    | Dispatch(w: nat)  // a worker receives a token and runs a task
    | Claim(a: nat)     // a finish callback draws its ticket
    | Push(a: nat)      // a callback whose ticket is good sends the token back
    | Break(w: nat)     // a worker leaves on error break or cancellation

  /** How many runs worker `w` has to dispatch. */
  function Quota(c: Config, w: nat): int
    requires c.Valid()
  {
    SumOwned(c, w, _ => c.runTime, c.users)
  }

  predicate Enabled(c: Config, s: State, t: Step)
    requires s.Shaped(c)
  {
    match t
    case Dispatch(w) => w < c.workers && !s.workers[w].left && s.workers[w].channel != []
    case Claim(a) => a < c.users && s.accounts[a].flying > 0
    case Push(a) => a < c.users && s.accounts[a].pending > 0 && |s.workers[c.Owner(a)].channel| < c.Capacity()
    case Break(w) => w < c.workers && !s.workers[w].left
  }

  function Next(c: Config, s: State, t: Step): (r: State)
    requires s.Shaped(c) && Enabled(c, s, t)
    requires t.Dispatch? ==> s.workers[t.w].channel[0] < c.users
    ensures r.Shaped(c)
  {
    match t
    case Dispatch(w) =>
      var worker := s.workers[w];
      var a := worker.channel[0];
      var account := s.accounts[a];
      var n := worker.dispatched + 1;
      State(s.accounts[a := account.(flying := account.flying + 1, runs := account.runs + 1)],
            s.workers[w := worker.(channel := worker.channel[1..], dispatched := n, left := n >= Quota(c, w))])
    case Claim(a) =>
      var account := s.accounts[a];
      var ticket := account.tickets + 1;
      var issued := if ticket <= c.runTime then 1 else 0;
      s.(accounts := s.accounts[a := account.(flying := account.flying - 1, tickets := ticket,
                                              pending := account.pending + issued)])
    case Push(a) =>
      var account, w := s.accounts[a], c.Owner(a);
      State(s.accounts[a := account.(pending := account.pending - 1)],
            s.workers[w := s.workers[w].(channel := s.workers[w].channel + [a])])
    case Break(w) =>
      s.(workers := s.workers[w := s.workers[w].(left := true, broken := true)])
  }

  // ---------- The conservation law ----------

  function Queued(c: Config, s: State, a: nat): nat
    requires s.Shaped(c)
  {
    multiset(s.workers[c.Owner(a)].channel)[a]
  }

  /** Tokens queued, flying, pending and finished add up to the tokens issued. */
  predicate Conserved(c: Config, s: State, a: nat)
    requires s.Shaped(c) && a < c.users
  {
    var account := s.accounts[a];
    && account.Finished() >= 0
    && account.tickets == c.batch + account.Finished()
    && Queued(c, s, a) + account.flying + account.pending + account.Finished()
       == Min(c.runTime, c.batch + account.Finished())
  }

  function Runs(s: State): nat -> int {
    (a: nat) => if a < |s.accounts| then s.accounts[a].runs else 0
  }

  predicate OnlyOwned(c: Config, w: nat, channel: seq<nat>)
    requires c.Valid()
  {
    forall x :: x in channel ==> x < c.users && c.Owner(x) == w
  }

  predicate Counted(c: Config, s: State, w: nat)
    requires s.Shaped(c) && w < c.workers
  {
    var worker := s.workers[w];
    && OnlyOwned(c, w, worker.channel)
    && worker.dispatched == SumOwned(c, w, Runs(s), c.users)
    && (worker.left || worker.dispatched < Quota(c, w))
    && (worker.left ==> worker.broken || worker.dispatched == Quota(c, w))
  }

  predicate Inv(c: Config, s: State) {
    && s.Shaped(c)
    && (forall a :: 0 <= a < c.users ==> Conserved(c, s, a))
    && (forall w :: 0 <= w < c.workers ==> Counted(c, s, w))
  }

  lemma SameRuns(c: Config, s: State, t: State, w: nat)
    requires s.Shaped(c) && t.Shaped(c)
    requires forall a :: 0 <= a < c.users && c.Owner(a) == w ==> s.accounts[a].runs == t.accounts[a].runs
    ensures SumOwned(c, w, Runs(s), c.users) == SumOwned(c, w, Runs(t), c.users)
  {
    SumOwnedLe(c, w, Runs(s), Runs(t), c.users);
    SumOwnedLe(c, w, Runs(t), Runs(s), c.users);
  }

  lemma AppendCount(channel: seq<nat>, a: nat, b: nat)
    ensures multiset(channel + [a])[b] == multiset(channel)[b] + if a == b then 1 else 0
  {
  }

  lemma TailCount(channel: seq<nat>, b: nat)
    requires channel != []
    ensures multiset(channel[1..])[b] == multiset(channel)[b] - if channel[0] == b then 1 else 0
    ensures forall x :: x in channel[1..] ==> x in channel
  {
    assert channel == [channel[0]] + channel[1..];
  }

  lemma DispatchConserves(c: Config, s: State, w: nat, b: nat)
    requires Inv(c, s) && Enabled(c, s, Dispatch(w)) && b < c.users
    requires s.workers[w].channel[0] < c.users
    ensures Conserved(c, Next(c, s, Dispatch(w)), b)
  {
    assert Conserved(c, s, b) && Counted(c, s, w);
    assert s.workers[w].channel[0] in s.workers[w].channel;
    TailCount(s.workers[w].channel, b);
  }

  lemma DispatchKeeps(c: Config, s: State, w: nat)
    requires Inv(c, s) && Enabled(c, s, Dispatch(w))
    ensures s.workers[w].channel[0] < c.users
    ensures Inv(c, Next(c, s, Dispatch(w)))
  {
    assert Counted(c, s, w);
    var a := s.workers[w].channel[0];
    assert a in s.workers[w].channel;
    var t := Next(c, s, Dispatch(w));
    forall b | 0 <= b < c.users
      ensures Conserved(c, t, b)
    {
      DispatchConserves(c, s, w, b);
    }
    TailCount(s.workers[w].channel, a);
    SumOwnedBump(c, w, Runs(s), Runs(t), a, c.users);
    forall v | 0 <= v < c.workers
      ensures Counted(c, t, v)
    {
      assert Counted(c, s, v);
      if v != w {
        SameRuns(c, s, t, v);
      }
    }
  }

  lemma ClaimKeeps(c: Config, s: State, a: nat)
    requires Inv(c, s) && Enabled(c, s, Claim(a))
    ensures Inv(c, Next(c, s, Claim(a)))
  {
    var t := Next(c, s, Claim(a));
    forall b | 0 <= b < c.users
      ensures Conserved(c, t, b)
    {
      assert Conserved(c, s, b);
      assert Queued(c, t, b) == Queued(c, s, b);
    }
    forall v | 0 <= v < c.workers
      ensures Counted(c, t, v)
    {
      assert Counted(c, s, v);
      SameRuns(c, s, t, v);
    }
  }

  lemma PushConserves(c: Config, s: State, a: nat, b: nat)
    requires Inv(c, s) && Enabled(c, s, Push(a)) && b < c.users
    ensures Conserved(c, Next(c, s, Push(a)), b)
  {
    assert Conserved(c, s, b);
    AppendCount(s.workers[c.Owner(a)].channel, a, b);
  }

  lemma PushKeeps(c: Config, s: State, a: nat)
    requires Inv(c, s) && Enabled(c, s, Push(a))
    ensures Inv(c, Next(c, s, Push(a)))
  {
    var t := Next(c, s, Push(a));
    forall b | 0 <= b < c.users
      ensures Conserved(c, t, b)
    {
      PushConserves(c, s, a, b);
    }
    forall v | 0 <= v < c.workers
      ensures Counted(c, t, v)
    {
      assert Counted(c, s, v);
      SameRuns(c, s, t, v);
    }
  }

  lemma BreakKeeps(c: Config, s: State, w: nat)
    requires Inv(c, s) && Enabled(c, s, Break(w))
    ensures Inv(c, Next(c, s, Break(w)))
  {
    var t := Next(c, s, Break(w));
    forall b | 0 <= b < c.users
      ensures Conserved(c, t, b)
    {
      assert Conserved(c, s, b);
    }
    forall v | 0 <= v < c.workers
      ensures Counted(c, t, v)
    {
      assert Counted(c, s, v);
      SameRuns(c, s, t, v);
    }
  }

  lemma StepKeeps(c: Config, s: State, t: Step)
    requires Inv(c, s) && Enabled(c, s, t)
    ensures t.Dispatch? ==> s.workers[t.w].channel[0] < c.users
    ensures Inv(c, Next(c, s, t))
  {
    match t
    case Dispatch(w) => DispatchKeeps(c, s, w);
    case Claim(a) => ClaimKeeps(c, s, a);
    case Push(a) => PushKeeps(c, s, a);
    case Break(w) => BreakKeeps(c, s, w);
  }

  // ---------- What every reachable state satisfies ----------

  /** An account never holds more than a batch of live tokens, and never runs too often. */
  lemma LiveTokensBounded(c: Config, s: State, a: nat)
    requires Inv(c, s) && a < c.users
    ensures Queued(c, s, a) + s.accounts[a].flying + s.accounts[a].pending
            == Min(c.batch, c.runTime - s.accounts[a].Finished()) <= c.batch
    ensures s.accounts[a].runs <= c.runTime
  {
    assert Conserved(c, s, a);
  }

  function InChannel(channel: seq<nat>): nat -> int {
    (a: nat) => multiset(channel)[a]
  }

  lemma {:induction false} ChannelLength(c: Config, w: nat, channel: seq<nat>)
    requires c.Valid() && w < c.workers && OnlyOwned(c, w, channel)
    ensures SumOwned(c, w, InChannel(channel), c.users) == |channel|
  {
    if channel == [] {
      SumOwnedLe(c, w, InChannel(channel), _ => 0, c.users);
      SumOwnedLe(c, w, _ => 0, InChannel(channel), c.users);
      SumOwnedConstant(c, w, 0, c.users);
    } else {
      var init, x := channel[..|channel| - 1], channel[|channel| - 1];
      assert x in channel && channel == init + [x];
      ChannelLength(c, w, init);
      SumOwnedBump(c, w, InChannel(init), InChannel(channel), x, c.users);
    }
  }

  /** A callback that holds a token always finds room for it, whether or not the worker has left. */
  lemma PushNeverBlocks(c: Config, s: State, a: nat)
    requires Inv(c, s) && a < c.users && s.accounts[a].pending > 0
    ensures Enabled(c, s, Push(a))
  {
    var w := c.Owner(a);
    var channel := s.workers[w].channel;
    assert Counted(c, s, w);
    var more := InChannel(channel + [a]);
    forall b: nat | b < c.users && c.Owner(b) == w
      ensures more(b) <= c.batch
    {
      LiveTokensBounded(c, s, b);
    }
    assert OnlyOwned(c, w, channel + [a]);
    ChannelLength(c, w, channel + [a]);
    SumOwnedLe(c, w, more, _ => c.batch, c.users);
    ShareFits(c, w);
  }

  lemma {:induction false} SomeoneShort(c: Config, w: nat, f: nat -> int, m: nat, k: nat) returns (a: nat)
    requires c.Valid() && SumOwned(c, w, f, k) < SumOwned(c, w, _ => m, k)
    ensures a < k && c.Owner(a) == w && f(a) < m
  {
    if c.Owner(k - 1) == w && f(k - 1) < m {
      a := k - 1;
    } else {
      a := SomeoneShort(c, w, f, m, k - 1);
    }
  }

  /**
    A worker in its loop is never stuck: it has a token to receive, or one of its accounts has a
    callback about to send one, or a running task whose finish will be granted one.
   */
  lemma NeverStuck(c: Config, s: State, w: nat) returns (a: nat)
    requires Inv(c, s) && w < c.workers && !s.workers[w].left
    ensures a < c.users && c.Owner(a) == w
    ensures || Enabled(c, s, Dispatch(w))
            || Enabled(c, s, Push(a))
            || (Enabled(c, s, Claim(a)) && Next(c, s, Claim(a)).accounts[a].pending > 0)
  {
    assert Counted(c, s, w);
    a := SomeoneShort(c, w, Runs(s), c.runTime, c.users);
    assert Conserved(c, s, a);
    if s.accounts[a].pending > 0 {
      PushNeverBlocks(c, s, a);
    } else if Queued(c, s, a) > 0 {
      assert a in s.workers[w].channel;
    }
  }

  /** Nothing is left to do but breaking off. */
  predicate Quiet(c: Config, s: State)
    requires s.Shaped(c)
  {
    && (forall w :: 0 <= w < c.workers ==> !Enabled(c, s, Dispatch(w)))
    && (forall a :: 0 <= a < c.users ==> !Enabled(c, s, Claim(a)) && !Enabled(c, s, Push(a)))
  }

  /** In a quiet state every worker has left, and the accounts of every unbroken worker ran exactly `runTime` times. */
  lemma QuietMeansDone(c: Config, s: State, a: nat)
    requires Inv(c, s) && Quiet(c, s) && a < c.users
    ensures s.workers[c.Owner(a)].left
    ensures s.accounts[a].flying == 0 && s.accounts[a].pending == 0
    ensures !s.workers[c.Owner(a)].broken ==> s.accounts[a].runs == c.runTime && Queued(c, s, a) == 0
  {
    var w := c.Owner(a);
    assert Counted(c, s, w) && Conserved(c, s, a);
    if !s.workers[w].left {
      var b := NeverStuck(c, s, w);
      assert false;
    }
    assert !Enabled(c, s, Claim(a)) && !Enabled(c, s, Push(a));
    if s.accounts[a].pending > 0 {
      PushNeverBlocks(c, s, a);
      assert false;
    }
    if !s.workers[w].broken && s.accounts[a].runs < c.runTime {
      var short := (b: nat) => if b == a then s.accounts[a].runs + 1 else Runs(s)(b);
      forall b: nat | b < c.users && c.Owner(b) == w
        ensures short(b) <= c.runTime
      {
        LiveTokensBounded(c, s, b);
      }
      SumOwnedBump(c, w, Runs(s), short, a, c.users);
      SumOwnedLe(c, w, short, _ => c.runTime, c.users);
      assert false;
    }
  }
}
