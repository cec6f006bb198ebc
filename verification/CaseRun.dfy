/** The running case: channels filled by loops, then changed by workers and finish callbacks. */
module CaseRun {
  import opened DivMod
  import opened Scheduler
  import opened SchedulerRuns

  lemma {:induction false} OwnedListLength(c: Config, w: nat, k: nat)
    requires c.Valid() && w < c.workers
    ensures |OwnedList(c, w, k)| == OwnedBelow(c, w, k)
  {
    if k > 0 {
      OwnedListLength(c, w, k - 1);
      OwnedBelowSucc(c, w, k - 1);
    } else {
      assert 0 / c.workers == 0 && 0 % c.workers == 0;
    }
  }

  lemma {:induction false} OwnedListGrows(c: Config, w: nat, i: nat, k: nat)
    requires c.Valid() && i <= k
    ensures |OwnedList(c, w, i)| <= |OwnedList(c, w, k)|
  {
    if i < k {
      OwnedListGrows(c, w, i, k - 1);
    }
  }

  lemma {:induction false} FilledLength(c: Config, w: nat, b: nat)
    requires c.Valid()
    ensures |Filled(c, w, b)| == b * |OwnedList(c, w, c.users)|
  {
    if b > 0 {
      FilledLength(c, w, b - 1);
      assert b * |OwnedList(c, w, c.users)| == (b - 1) * |OwnedList(c, w, c.users)| + |OwnedList(c, w, c.users)|;
    }
  }

  /** While the channels are being filled, nobody receives yet, and still no send can block. */
  lemma FillFits(c: Config, b: nat, i: nat)
    requires c.Valid() && b < c.batch && i < c.users
    ensures var w := c.Owner(i); |Filled(c, w, b) + OwnedList(c, w, i)| < c.Capacity()
  {
    var w := c.Owner(i);
    FilledLength(c, w, b);
    assert |OwnedList(c, w, i + 1)| == |OwnedList(c, w, i)| + 1;
    OwnedListGrows(c, w, i + 1, c.users);
    OwnedListLength(c, w, c.users);
    PassFits(b, |OwnedList(c, w, c.users)|, |OwnedList(c, w, i)|, c.batch, c.users / c.workers + 1);
  }

  lemma PassFits(b: nat, share: nat, x: nat, batch: nat, bound: nat)
    requires b < batch && x < share <= bound
    ensures b * share + x < batch * bound
  {
    TimesMonotone(b, share, bound);
    TimesMonotone(bound, b + 1, batch);
  }

  /** Where the filling loops stand: `b` passes done, and `i` accounts of the next one. */
  ghost predicate Filling(c: Config, s: State, b: nat, i: nat) {
    && s.Shaped(c) && i <= c.users
    && (forall a :: 0 <= a < c.users ==> s.accounts[a] == Account(0, 0, if a < i then b + 1 else b, 0))
    && (forall w :: 0 <= w < c.workers ==>
          s.workers[w] == Worker(Filled(c, w, b) + OwnedList(c, w, i), 0, false, false))
  }

  lemma FillStart(c: Config, s: State)
    requires c.Valid() && s.accounts == seq(c.users, _ => Account(0, 0, 0, 0))
    requires s.workers == seq(c.workers, _ => Worker([], 0, false, false))
    ensures Filling(c, s, 0, 0)
  {
  }

  lemma PassDone(c: Config, s: State, b: nat)
    requires Filling(c, s, b, c.users)
    ensures Filling(c, s, b + 1, 0)
  {
    forall w | 0 <= w < c.workers
      ensures Filled(c, w, b) + OwnedList(c, w, c.users) == Filled(c, w, b + 1) + OwnedList(c, w, 0)
    {
    }
  }

  lemma FillDone(c: Config, s: State)
    requires Filling(c, s, c.batch, 0)
    ensures s == Start(c)
  {
    forall w | 0 <= w < c.workers
      ensures Filled(c, w, c.batch) + OwnedList(c, w, 0) == Filled(c, w, c.batch)
    {
    }
    assert s.accounts == Start(c).accounts && s.workers == Start(c).workers;
  }

  class Run {
    const c: Config
    var accounts: seq<Account>
    var workers: seq<Worker>

    ghost function View(): State
      reads this
    {
      State(accounts, workers)
    }

    /** The set-up part of `RunCaseInner`. */
    constructor (c: Config)
      requires c.Valid()
      ensures this.c == c && View() == Start(c)
    {
      this.c := c;
      accounts := seq(c.users, _ => Account(0, 0, 0, 0));
      workers := seq(c.workers, _ => Worker([], 0, false, false));
      new;
      FillStart(c, View());
      var b := 0;
      while b < c.batch
        invariant 0 <= b <= c.batch && Filling(c, View(), b, 0)
      {
        FillPass(b);
        b := b + 1;
      }
      FillDone(c, View());
    }

    /** One pass of the filling loops over all accounts. */
    method FillPass(ghost b: nat)
      requires Filling(c, View(), b, 0) && b < c.batch
      modifies this
      ensures Filling(c, View(), b + 1, 0)
    {
      var i := 0;
      while i < c.users
        invariant 0 <= i <= c.users && Filling(c, View(), b, i)
      {
        SendToken(b, i);
        i := i + 1;
      }
      PassDone(c, View(), b);
    }

    /** One send of the filling loops; the channel has room. */
    method SendToken(ghost b: nat, i: nat)
      requires Filling(c, View(), b, i) && b < c.batch && i < c.users
      modifies this
      ensures Filling(c, View(), b, i + 1)
    {
      var w := c.Owner(i);
      FillFits(c, b, i);
      assert |workers[w].channel| < c.Capacity();
      workers := workers[w := workers[w].(channel := workers[w].channel + [i])];
      accounts := accounts[i := accounts[i].(tickets := accounts[i].tickets + 1)];
    }

    /** One turn of a worker's loop. */
    method DispatchNext(w: nat)
      requires Inv(c, View()) && Enabled(c, View(), Dispatch(w))
      modifies this
      ensures old(workers[w].channel[0]) < c.users
      ensures View() == Next(c, old(View()), Dispatch(w))
      ensures Inv(c, View())
    {
      DispatchKeeps(c, View(), w);
      var a := workers[w].channel[0];
      var runTaskCount := workers[w].dispatched + 1;
      accounts := accounts[a := accounts[a].(flying := accounts[a].flying + 1, runs := accounts[a].runs + 1)];
      workers := workers[w := workers[w].(channel := workers[w].channel[1..], dispatched := runTaskCount,
                                          left := runTaskCount >= Quota(c, w))];
    }

    /** The first part of `onFinishFunc`: draw a ticket and see whether it is good for another run. */
    method DrawTicket(a: nat) returns (granted: bool)
      requires Inv(c, View()) && Enabled(c, View(), Claim(a))
      modifies this
      ensures View() == Next(c, old(View()), Claim(a))
      ensures Inv(c, View())
      ensures granted <==> old(accounts[a].tickets) < c.runTime
      ensures granted ==> Enabled(c, View(), Push(a))
    {
      ClaimKeeps(c, View(), a);
      var finishTaskCount := accounts[a].tickets + 1;
      granted := finishTaskCount <= c.runTime;
      accounts := accounts[a := accounts[a].(flying := accounts[a].flying - 1, tickets := finishTaskCount,
                                             pending := accounts[a].pending + if granted then 1 else 0)];
      if granted {
        PushNeverBlocks(c, View(), a);
      }
    }

    /** The second part of `onFinishFunc`: the send cannot block. */
    method SendBack(a: nat)
      requires Inv(c, View()) && a < c.users && accounts[a].pending > 0
      modifies this
      ensures old(Enabled(c, View(), Push(a)))
      ensures View() == Next(c, old(View()), Push(a))
      ensures Inv(c, View())
    {
      PushNeverBlocks(c, View(), a);
      PushKeeps(c, View(), a);
      var w := c.Owner(a);
      accounts := accounts[a := accounts[a].(pending := accounts[a].pending - 1)];
      workers := workers[w := workers[w].(channel := workers[w].channel + [a])];
    }
  }
}
