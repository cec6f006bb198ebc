/** The master's loop over case lines and rounds, with its wait for background lines. */
module CaseLines {
  import opened Wrappers
  import opened DivMod

  datatype Line = Line(background: bool, errorBreak: bool)

  /** What the master does, in order: start a line, or receive the report of one. */
  datatype Event = Started(index: nat) | Reported(index: nat)

  datatype Outcome = Completed | Broke(index: nat) | Cancelled | NoLines

  function Starts(log: seq<Event>): seq<nat> {
    if log == [] then []
    else Starts(log[..|log| - 1]) + if log[|log| - 1].Started? then [log[|log| - 1].index] else []
  }

  function Reports(log: seq<Event>): seq<nat> {
    if log == [] then []
    else Reports(log[..|log| - 1]) + if log[|log| - 1].Reported? then [log[|log| - 1].index] else []
  }

  function UpTo(n: nat): (r: seq<nat>)
    ensures |r| == n
  {
    seq(n, (i: nat) => i)
  }

  function LineOf(lines: seq<Line>, index: nat): Line
    requires lines != []
  {
    lines[index % |lines|]
  }

  /** All lines below this index must have reported before line `index` may start. */
  function Barrier(lines: seq<Line>, index: nat): (b: nat)
    requires lines != []
    ensures b <= index
  {
    if index == 0 then 0
    else if index % |lines| == 0 || !LineOf(lines, index - 1).background then index
    else Barrier(lines, index - 1)
  }

  /** The master waits for everything after a foreground line and at the end of a round. */
  predicate Fence(lines: seq<Line>, index: nat)
    requires lines != []
  {
    !LineOf(lines, index).background || (index + 1) % |lines| == 0
  }

  /** The barrier lies right after the last fence before the line, or at the very start. */
  lemma {:induction false} BarrierIsLastFence(lines: seq<Line>, index: nat)
    requires lines != []
    ensures forall i: nat :: i < index && Fence(lines, i) ==> i < Barrier(lines, index)
    ensures Barrier(lines, index) > 0 ==> Fence(lines, Barrier(lines, index) - 1)
  {
    if index > 0 {
      BarrierIsLastFence(lines, index - 1);
    }
  }

  /**
    The log of a master that has started lines `0 .. started - 1` and heard from lines
    `0 .. reported - 1`: every start came behind its barrier, every report after its start.
   */
  ghost predicate Orderly(barrier: nat -> nat, log: seq<Event>, started: nat, reported: nat) {
    if log == [] then started == reported == 0
    else
      var before := log[..|log| - 1];
      match log[|log| - 1]
      case Started(i) => started == i + 1 && barrier(i) <= reported && Orderly(barrier, before, i, reported)
      case Reported(i) => reported == i + 1 <= started && Orderly(barrier, before, started, i)
  }

  /** Each line is started once and reports at most once, in order of the indices. */
  lemma {:induction false} OrderlyOnce(barrier: nat -> nat, log: seq<Event>, started: nat, reported: nat)
    requires Orderly(barrier, log, started, reported)
    ensures Starts(log) == UpTo(started) && Reports(log) == UpTo(reported)
  {
    if log != [] {
      var before := log[..|log| - 1];
      match log[|log| - 1]
      case Started(i) =>
        OrderlyOnce(barrier, before, i, reported);
        assert UpTo(started) == UpTo(i) + [i];
      case Reported(i) =>
        OrderlyOnce(barrier, before, started, i);
        assert UpTo(reported) == UpTo(i) + [i];
    }
  }

  /** When a line starts, every line below its barrier has reported. */
  lemma {:induction false} OrderlyBarrier(barrier: nat -> nat, log: seq<Event>, started: nat, reported: nat, p: nat, i: nat)
    requires Orderly(barrier, log, started, reported) && p < |log| && log[p].Started? && i < barrier(log[p].index)
    ensures i in Reports(log[..p])
  {
    var before := log[..|log| - 1];
    if p == |log| - 1 {
      OrderlyOnce(barrier, before, log[p].index, reported);
      assert UpTo(reported)[i] == i;
    } else {
      assert log[..p] == before[..p];
      match log[|log| - 1]
      case Started(k) => OrderlyBarrier(barrier, before, k, reported, p, i);
      case Reported(k) => OrderlyBarrier(barrier, before, started, k, p, i);
    }
  }

  /** Line `index` failed, and its failure breaks the run. */
  predicate Breaks(lines: seq<Line>, fails: nat -> bool, index: nat)
    requires lines != []
  {
    fails(index) && LineOf(lines, index).errorBreak
  }

  lemma OrderlyStart(barrier: nat -> nat, log: seq<Event>, started: nat, reported: nat)
    requires Orderly(barrier, log, started, reported) && barrier(started) <= reported
    ensures Orderly(barrier, log + [Started(started)], started + 1, reported)
  {
    assert (log + [Started(started)])[..|log|] == log;
  }

  lemma OrderlyReport(barrier: nat -> nat, log: seq<Event>, started: nat, reported: nat)
    requires Orderly(barrier, log, started, reported) && reported < started
    ensures Orderly(barrier, log + [Reported(reported)], started, reported + 1)
  {
    assert (log + [Reported(reported)])[..|log|] == log;
  }

  /** `waitBackground`: the pending lines are `from .. to - 1`, in the order they were started. */
  method WaitBackground(ghost barrier: nat -> nat, breaks: nat -> bool, before: seq<Event>, from: nat, to: nat)
    returns (broke: Option<nat>, log: seq<Event>, ghost reported: nat)
    requires from <= to && Orderly(barrier, before, to, from)
    requires forall i: nat :: i < from ==> !breaks(i)
    ensures Orderly(barrier, log, to, reported) && reported >= from
    ensures broke.None? ==> reported == to && forall i: nat :: i < to ==> !breaks(i)
    ensures broke.Some? ==> reported == broke.value + 1 && broke.value < to && breaks(broke.value)
    ensures broke.Some? ==> forall i: nat :: i < broke.value ==> !breaks(i)
  {
    log := before;
    for i := from to to
      invariant Orderly(barrier, log, to, i)
      invariant forall k: nat :: k < i ==> !breaks(k)
    {
      OrderlyReport(barrier, log, to, i);
      log := log + [Reported(i)];
      if breaks(i) {
        return Some(i), log, i + 1;
      }
    }
    broke, reported := None, to;
  }

  /** How the run ended, and what that says about the lines. */
  ghost predicate Explained(breaks: nat -> bool, cancelled: nat -> bool, r: Outcome, total: nat, started: nat, reported: nat) {
    && (forall i: nat :: i < started ==> !cancelled(i))
    && match r
       case Completed =>
         started == reported == total && forall i: nat :: i < total ==> !breaks(i)
       case Broke(index) =>
         && reported == index + 1 <= started <= total
         && breaks(index) && forall i: nat :: i < index ==> !breaks(i)
       case Cancelled =>
         && started < total && cancelled(started)
         && (reported == started || (reported > 0 && breaks(reported - 1)))
       case NoLines => false
  }

  /** One turn of the line loop: start line `index`, and wait for all pending lines unless it runs in the background. */
  method RunLine(line: Line, ghost barrier: nat -> nat, breaks: nat -> bool, cancelled: nat -> bool,
                 before: seq<Event>, waiting: nat, index: nat, ghost total: nat)
    returns (r: Outcome, log: seq<Event>, waiting': nat, ghost started: nat, ghost reported: nat)
    requires waiting <= index < total && barrier(index) <= waiting && Orderly(barrier, before, index, waiting)
    requires forall i: nat :: i < waiting ==> !breaks(i)
    requires forall i: nat :: i < index ==> !cancelled(i)
    ensures Orderly(barrier, log, started, reported)
    ensures r == Completed ==>
              && started == index + 1 && reported == waiting' == (if line.background then waiting else index + 1)
              && (forall i: nat :: i < waiting' ==> !breaks(i)) && !cancelled(index)
    ensures r != Completed ==> Explained(breaks, cancelled, r, total, started, reported)
  {
    waiting', started, reported := waiting, index, waiting;
    if cancelled(index) {
      ghost var ignored;
      ignored, log, reported := WaitBackground(barrier, breaks, before, waiting, index);
      return Cancelled, log, waiting, started, reported;
    }
    OrderlyStart(barrier, before, index, waiting);
    log, started := before + [Started(index)], index + 1;
    if !line.background {
      var failed;
      failed, log, reported := WaitBackground(barrier, breaks, log, waiting, index + 1);
      if failed.Some? {
        return Broke(failed.value), log, waiting, started, reported;
      }
      waiting' := index + 1;
    }
    r := Completed;
  }

  /** A background line leaves the barrier of the next line where it is, a foreground line moves it up. */
  predicate FencedAt(lines: seq<Line>, barrier: nat -> nat, first: nat, i: nat)
    requires i < |lines|
  {
    barrier(first + i + 1) == if lines[i].background then barrier(first + i) else first + i + 1
  }

  /** The barriers of a round that starts under index `first`. */
  ghost predicate Fenced(lines: seq<Line>, barrier: nat -> nat, first: nat) {
    barrier(first) == first && forall i :: 0 <= i < |lines| - 1 ==> FencedAt(lines, barrier, first, i)
  }

  /** One round: its lines start under `first .. first + n - 1`. */
  method RunRound(lines: seq<Line>, ghost barrier: nat -> nat, breaks: nat -> bool, cancelled: nat -> bool,
                  before: seq<Event>, first: nat, ghost total: nat)
    returns (r: Outcome, log: seq<Event>, ghost started: nat, ghost reported: nat)
    requires Orderly(barrier, before, first, first) && first + |lines| <= total
    requires Fenced(lines, barrier, first)
    requires forall i: nat :: i < first ==> !breaks(i) && !cancelled(i)
    ensures Orderly(barrier, log, started, reported)
    ensures r == Completed ==> Explained(breaks, cancelled, r, first + |lines|, started, reported)
    ensures r != Completed ==> Explained(breaks, cancelled, r, total, started, reported)
  {
    log, started, reported := before, first, first;
    var waiting := first;
    for i := 0 to |lines|
      invariant started == first + i && waiting == reported <= started
      invariant i < |lines| ==> barrier(started) <= reported
      invariant Orderly(barrier, log, started, reported)
      invariant forall k: nat :: k < reported ==> !breaks(k)
      invariant forall k: nat :: k < started ==> !cancelled(k)
    {
      assert i < |lines| - 1 ==> FencedAt(lines, barrier, first, i);
      r, log, waiting, started, reported := RunLine(lines[i], barrier, breaks, cancelled, log, waiting, first + i, total);
      if r != Completed {
        return;
      }
    }
    var failed;
    failed, log, reported := WaitBackground(barrier, breaks, log, waiting, first + |lines|);
    if failed.Some? {
      return Broke(failed.value), log, started, reported;
    }
    r := Completed;
  }

  function BarrierOf(lines: seq<Line>): nat -> nat
    requires lines != []
  {
    (k: nat) => Barrier(lines, k)
  }

  function BreaksOf(lines: seq<Line>, fails: nat -> bool): nat -> bool
    requires lines != []
  {
    (k: nat) => Breaks(lines, fails, k)
  }

  /** A line starts only after every line up to the last foreground line or end of a round before it has reported. */
  lemma LinesWait(lines: seq<Line>, log: seq<Event>, started: nat, reported: nat, p: nat, fence: nat, i: nat)
    requires lines != [] && Orderly(BarrierOf(lines), log, started, reported)
    requires p < |log| && log[p].Started? && i <= fence < log[p].index
    requires !lines[fence % |lines|].background || (fence + 1) % |lines| == 0
    ensures i in Reports(log[..p])
  {
    BarrierIsLastFence(lines, log[p].index);
    assert Fence(lines, fence);
    OrderlyBarrier(BarrierOf(lines), log, started, reported, p, i);
  }

  lemma BarrierOpens(lines: seq<Line>, round: nat, first: nat)
    requires lines != [] && first == round * |lines|
    ensures BarrierOf(lines)(first) == first
  {
    DivModUnique(first, |lines|, round, 0);
  }

  lemma BarrierStep(lines: seq<Line>, round: nat, first: nat, i: nat)
    requires i < |lines| - 1 && first == round * |lines|
    ensures FencedAt(lines, BarrierOf(lines), first, i)
  {
    DivModUnique(first + i, |lines|, round, i);
    DivModUnique(first + i + 1, |lines|, round, i + 1);
  }

  lemma BarrierInRound(lines: seq<Line>, round: nat, first: nat)
    requires lines != [] && first == round * |lines|
    ensures Fenced(lines, BarrierOf(lines), first)
  {
    BarrierOpens(lines, round, first);
    forall i | 0 <= i < |lines| - 1
      ensures FencedAt(lines, BarrierOf(lines), first, i)
    {
      BarrierStep(lines, round, first, i);
    }
  }

  /** The number of lines to start over all rounds. */
  function Total(lines: seq<Line>, repeatedTime: int): nat {
    if repeatedTime > 0 then repeatedTime * |lines| else 0
  }

  /**
    The line and round loop of `distributeAndWait`. `fails(k)` says how the line started under
    index `k` ends, `cancelled(k)` whether the context is done when its turn comes.
   */
  method DistributeAndWait(lines: seq<Line>, repeatedTime: int, fails: nat -> bool, cancelled: nat -> bool)
    returns (r: Outcome, log: seq<Event>, ghost started: nat, ghost reported: nat)
    ensures lines == [] <==> r == NoLines
    ensures lines == [] ==> log == []
    ensures lines != [] ==> Orderly(BarrierOf(lines), log, started, reported)
    ensures lines != [] ==>
              Explained(BreaksOf(lines, fails), cancelled, r, Total(lines, repeatedTime), started, reported)
    ensures lines != [] && r != Cancelled ==>
              (r == Completed <==> forall i: nat :: i < started ==> !(fails(i) && lines[i % |lines|].errorBreak))
    ensures r == Completed ==> Starts(log) == Reports(log) == UpTo(if repeatedTime > 0 then repeatedTime * |lines| else 0)
    ensures r.Broke? ==> fails(r.index) && lines[r.index % |lines|].errorBreak
    ensures r.Broke? ==> forall i: nat :: i < r.index ==> !(fails(i) && lines[i % |lines|].errorBreak)
  {
    log, started, reported := [], 0, 0;
    if |lines| == 0 {
      return NoLines, log, 0, 0;
    }
    r, log, started, reported :=
      RunRounds(lines, repeatedTime, BarrierOf(lines), BreaksOf(lines, fails), cancelled);
    OrderlyOnce(BarrierOf(lines), log, started, reported);
    assert forall i: nat :: BreaksOf(lines, fails)(i) <==> fails(i) && lines[i % |lines|].errorBreak;
  }

  /** Round `round` starts under index `first`. */
  ghost predicate StartsAt(lines: seq<Line>, round: int, first: nat) {
    0 <= round && first == round * |lines|
  }

  lemma NextRound(lines: seq<Line>, round: nat, repeatedTime: int, first: nat)
    requires lines != [] && StartsAt(lines, round, first) && round < repeatedTime
    ensures Fenced(lines, BarrierOf(lines), first) && first + |lines| <= Total(lines, repeatedTime)
    ensures StartsAt(lines, round + 1, first + |lines|)
  {
    BarrierInRound(lines, round, first);
    RoundFits(round, repeatedTime, |lines|);
  }

  lemma LastRound(lines: seq<Line>, round: nat, repeatedTime: int, first: nat)
    requires StartsAt(lines, round, first) && round == if repeatedTime > 0 then repeatedTime else 0
    ensures first == Total(lines, repeatedTime)
  {
  }

  /** The loop over the rounds. */
  method RunRounds(lines: seq<Line>, repeatedTime: int, ghost barrier: nat -> nat, breaks: nat -> bool,
                   cancelled: nat -> bool)
    returns (r: Outcome, log: seq<Event>, ghost started: nat, ghost reported: nat)
    requires lines != [] && barrier == BarrierOf(lines)
    ensures Orderly(barrier, log, started, reported)
    ensures Explained(breaks, cancelled, r, Total(lines, repeatedTime), started, reported)
  {
    log, started, reported := [], 0, 0;
    var round, first: nat := 0, 0;
    r := Completed;
    while round < repeatedTime
      invariant StartsAt(lines, round, first) && (round <= repeatedTime || round == 0)
      invariant r == Completed
      invariant Orderly(barrier, log, started, reported)
      invariant Explained(breaks, cancelled, r, first, started, reported)
    {
      NextRound(lines, round, repeatedTime, first);
      r, log, started, reported := RunRound(lines, barrier, breaks, cancelled, log, first, Total(lines, repeatedTime));
      if r != Completed {
        return;
      }
      first := first + |lines|;
      round := round + 1;
    }
    LastRound(lines, round, repeatedTime, first);
  }

  lemma RoundFits(round: nat, rounds: nat, n: nat)
    requires round < rounds
    ensures (round + 1) * n == round * n + n <= rounds * n
  {
    TimesMonotone(n, round + 1, rounds);
  }
}
