/**
 * One lifetime of a task: any number of goroutines race to finish it while others register callbacks. Every atomic
 * operation, every lock transition and every callback invocation is a step of its own, and threads are numbered; the
 * callback a thread registers, and the result a thread finishes with, go by its number.
 */
module TaskFinish {
  import opened Wrappers

  /** Where a call of `Finish` or of `InitOnFinish` stands. */
  datatype Pc =
    | FinishSwap | FinishLock | FinishStore | Calling(left: nat) | FinishUnlock | Won | Lost
    | RegCheck | RegCall | RegLock | RegRecheck | RegAppend | RegCallLocked | RegUnlock(held: bool)
    | Registered(held: bool)

  /** A callback invocation: which one, and with whose result (none while no result is stored). */
  datatype Entry = Entry(callback: nat, result: Option<nat>)

  /**
   * `finished`, `lock`, `result` and `onFinish` are a task's fields. The rest is history: who won the swap, the
   * callbacks in the order they were appended, and the invocations made by the winner and by the registering threads.
   */
  datatype State = State(
    finished: bool, lock: Option<nat>, result: Option<nat>, onFinish: seq<nat>, pc: seq<Pc>,
    winner: Option<nat>, registered: seq<nat>, heldCalls: seq<Entry>, directCalls: seq<Entry>)

  predicate Fresh(pc: Pc) {
    pc == FinishSwap || pc == RegCheck
  }

  function Start(pc: seq<Pc>): State
    requires forall t :: 0 <= t < |pc| ==> Fresh(pc[t])
  {
    State(false, None, None, [], pc, None, [], [], [])
  }

  predicate Ended(pc: Pc) {
    pc == Won || pc == Lost || pc.Registered?
  }

  predicate Enabled(s: State, t: nat) {
    t < |s.pc| && !Ended(s.pc[t]) && (s.pc[t] == FinishLock || s.pc[t] == RegLock ==> s.lock == None)
  }

  function Goto(s: State, t: nat, pc: Pc): State
    requires t < |s.pc|
  {
    s.(pc := s.pc[t := pc])
  }

  /** A step of `Finish`. */
  function FinishStep(s: State, t: nat): State
    requires t < |s.pc|
  {
    match s.pc[t]
    case FinishSwap => if s.finished then Goto(s, t, Lost) else Goto(s, t, FinishLock).(finished := true, winner := Some(t))
    case FinishLock => Goto(s, t, FinishStore).(lock := Some(t))
    case FinishStore => Goto(s, t, Calling(|s.onFinish|)).(result := Some(t))
    case Calling(left) =>
      if left == 0 then Goto(s, t, FinishUnlock).(onFinish := [])
      else if left > |s.onFinish| then s
      else Goto(s, t, Calling(left - 1)).(heldCalls := s.heldCalls + [Entry(s.onFinish[left - 1], s.result)])
    case FinishUnlock => Goto(s, t, Won).(lock := None)
    case _ => s
  }

  /** A step of `InitOnFinish`. */
  function RegisterStep(s: State, t: nat): State
    requires t < |s.pc|
  {
    match s.pc[t]
    case RegCheck => Goto(s, t, if s.finished then RegCall else RegLock)
    case RegCall => Goto(s, t, Registered(false)).(directCalls := s.directCalls + [Entry(t, s.result)])
    case RegLock => Goto(s, t, RegRecheck).(lock := Some(t))
    case RegRecheck => Goto(s, t, if s.finished then RegCallLocked else RegAppend)
    case RegAppend => Goto(s, t, RegUnlock(true)).(onFinish := s.onFinish + [t], registered := s.registered + [t])
    case RegCallLocked => Goto(s, t, RegUnlock(false)).(directCalls := s.directCalls + [Entry(t, s.result)])
    case RegUnlock(held) => Goto(s, t, Registered(held)).(lock := None)
    case _ => s
  }

  predicate Finishing(pc: Pc) {
    pc.FinishSwap? || pc.FinishLock? || pc.FinishStore? || pc.Calling? || pc.FinishUnlock? || pc.Won? || pc.Lost?
  }

  function Next(s: State, t: nat): State
    requires Enabled(s, t)
  {
    if Finishing(s.pc[t]) then FinishStep(s, t) else RegisterStep(s, t)
  }

  // ---------- What every step keeps ----------

  predicate Winning(pc: Pc) {
    Finishing(pc) && pc != FinishSwap && pc != Lost
  }

  predicate Locking(pc: Pc) {
    || pc == FinishStore || pc.Calling? || pc == FinishUnlock
    || pc == RegRecheck || pc == RegAppend || pc == RegCallLocked || pc.RegUnlock?
  }

  predicate OneWinner(s: State) {
    && (s.finished <==> s.winner.Some?)
    && (s.winner.Some? ==> s.winner.value < |s.pc|)
    && (forall t :: 0 <= t < |s.pc| ==> (Winning(s.pc[t]) <==> s.winner == Some(t)))
    && forall t :: 0 <= t < |s.pc| && s.pc[t] == Lost ==> s.finished
  }

  predicate OneHolder(s: State) {
    && (s.lock.Some? ==> s.lock.value < |s.pc|)
    && forall t :: 0 <= t < |s.pc| ==> (Locking(s.pc[t]) <==> s.lock == Some(t))
  }

  /** How far the winner has come; `FinishSwap` while there is none. */
  function Stage(s: State): Pc {
    if s.winner.Some? && s.winner.value < |s.pc| then s.pc[s.winner.value] else FinishSwap
  }

  /** The last callback first, each with the winner's result. */
  function Reversed(callbacks: seq<nat>, winner: nat): (r: seq<Entry>)
    ensures |r| == |callbacks|
    ensures forall k :: 0 <= k < |r| ==> r[k] == Entry(callbacks[|callbacks| - 1 - k], Some(winner))
  {
    if callbacks == [] then [] else Reversed(callbacks[1..], winner) + [Entry(callbacks[0], Some(winner))]
  }

  /** The held callbacks and how many of them the winner has invoked. */
  predicate Progressing(s: State) {
    match Stage(s)
    case Calling(left) =>
      && s.result == s.winner && s.onFinish == s.registered
      && left <= |s.registered| && s.heldCalls == Reversed(s.registered[left..], s.winner.value)
    case FinishUnlock => s.result == s.winner && s.onFinish == [] && s.heldCalls == Reversed(s.registered, s.winner.value)
    case Won => s.result == s.winner && s.onFinish == [] && s.heldCalls == Reversed(s.registered, s.winner.value)
    case _ =>
      && s.result == None && s.onFinish == s.registered && s.heldCalls == []
      && (s.winner == None ==> s.directCalls == [])
  }

  /** A thread that is about to append saw the flag unset while holding the lock. */
  predicate AppendInTime(s: State) {
    forall t :: 0 <= t < |s.pc| && s.pc[t] == RegAppend ==> Stage(s) == FinishSwap || Stage(s) == FinishLock
  }

  /** Nobody calls a callback directly before a finish. */
  predicate DirectAfterFinish(s: State) {
    forall t :: 0 <= t < |s.pc| && (s.pc[t] == RegCall || s.pc[t] == RegCallLocked) ==> s.finished
  }

  function Times(entries: seq<Entry>, callback: nat): nat {
    if entries == [] then 0
    else Times(entries[..|entries| - 1], callback) + if entries[|entries| - 1].callback == callback then 1 else 0
  }

  predicate Held(pc: Pc) {
    (pc.RegUnlock? && pc.held) || (pc.Registered? && pc.held)
  }

  predicate CalledDirectly(pc: Pc) {
    (pc.RegUnlock? && !pc.held) || (pc.Registered? && !pc.held)
  }

  /** The callbacks appended are those of the threads that have appended, each once. */
  predicate HeldListed(s: State) {
    && (forall t :: 0 <= t < |s.pc| ==> (Held(s.pc[t]) <==> t in s.registered))
    && (forall t :: t in s.registered ==> t < |s.pc|)
    && (forall i, j :: 0 <= i < j < |s.registered| ==> s.registered[i] != s.registered[j])
  }

  /** A callback called by its own thread has been called so once. */
  predicate DirectCounted(s: State) {
    forall t :: 0 <= t < |s.pc| ==> Times(s.directCalls, t) == if CalledDirectly(s.pc[t]) then 1 else 0
  }

  predicate Inv(s: State) {
    && OneWinner(s) && OneHolder(s) && Progressing(s) && AppendInTime(s) && DirectAfterFinish(s)
    && HeldListed(s) && DirectCounted(s)
  }

  lemma TimesAppend(entries: seq<Entry>, e: Entry, callback: nat)
    ensures Times(entries + [e], callback) == Times(entries, callback) + if e.callback == callback then 1 else 0
  {
    assert (entries + [e])[..|entries|] == entries;
  }

  /** A call of `Finish` stays one, and so does a call of `InitOnFinish`. */
  lemma KindKept(s: State, t: nat, u: nat)
    requires Enabled(s, t) && u < |s.pc|
    ensures |Next(s, t).pc| == |s.pc| && Finishing(Next(s, t).pc[u]) == Finishing(s.pc[u])
  {
  }

  lemma FinishKeepsWinner(s: State, t: nat)
    requires OneWinner(s) && Enabled(s, t) && Finishing(s.pc[t])
    ensures OneWinner(FinishStep(s, t))
  {
  }

  lemma RegisterKeepsWinner(s: State, t: nat)
    requires OneWinner(s) && Enabled(s, t) && !Finishing(s.pc[t])
    ensures OneWinner(RegisterStep(s, t))
  {
  }

  lemma HolderKept(s: State, t: nat)
    requires OneHolder(s) && Enabled(s, t)
    ensures OneHolder(Next(s, t))
  {
  }

  lemma FinishProgresses(s: State, t: nat)
    requires Inv(s) && Enabled(s, t) && Finishing(s.pc[t])
    ensures Progressing(FinishStep(s, t))
  {
    match s.pc[t]
    case FinishStore => assert s.registered[|s.registered|..] == [];
    case Calling(left) => {
      if left > 0 {
        assert s.registered[left - 1..][1..] == s.registered[left..];
      } else {
        assert s.registered[0..] == s.registered;
      }
    }
    case _ =>
  }

  lemma RegisterProgresses(s: State, t: nat)
    requires Inv(s) && Enabled(s, t) && !Finishing(s.pc[t])
    ensures Progressing(RegisterStep(s, t)) && Stage(RegisterStep(s, t)) == Stage(s)
  {
    var n := RegisterStep(s, t);
    assert Stage(n) == Stage(s);
  }

  lemma AppendsKept(s: State, t: nat)
    requires OneWinner(s) && OneHolder(s) && AppendInTime(s) && Enabled(s, t)
    ensures AppendInTime(Next(s, t))
  {
  }

  lemma DirectKept(s: State, t: nat)
    requires DirectAfterFinish(s) && Enabled(s, t)
    ensures DirectAfterFinish(Next(s, t))
  {
  }

  lemma FinishCalls(s: State, t: nat, u: nat)
    requires Enabled(s, t) && Finishing(s.pc[t]) && u < |s.pc|
    ensures var n := FinishStep(s, t); n.directCalls == s.directCalls && CalledDirectly(n.pc[u]) == CalledDirectly(s.pc[u])
  {
  }

  lemma RegisterCalls(s: State, t: nat, u: nat)
    requires Enabled(s, t) && !Finishing(s.pc[t]) && u < |s.pc|
    ensures var n, calls := RegisterStep(s, t), s.pc[t] == RegCall || s.pc[t] == RegCallLocked;
            && n.directCalls == s.directCalls + (if calls then [Entry(t, s.result)] else [])
            && CalledDirectly(n.pc[u]) == (CalledDirectly(s.pc[u]) || (u == t && calls))
  {
  }

  lemma DirectCountKept(s: State, t: nat, u: nat)
    requires Enabled(s, t) && u < |s.pc| && Times(s.directCalls, u) == if CalledDirectly(s.pc[u]) then 1 else 0
    ensures var n := Next(s, t); Times(n.directCalls, u) == if CalledDirectly(n.pc[u]) then 1 else 0
  {
    if Finishing(s.pc[t]) {
      FinishCalls(s, t, u);
    } else {
      RegisterCalls(s, t, u);
      TimesAppend(s.directCalls, Entry(t, s.result), u);
    }
  }

  lemma DirectCountsKept(s: State, t: nat)
    requires DirectCounted(s) && Enabled(s, t)
    ensures DirectCounted(Next(s, t))
  {
    forall u | 0 <= u < |s.pc|
      ensures var n := Next(s, t); Times(n.directCalls, u) == if CalledDirectly(n.pc[u]) then 1 else 0
    {
      DirectCountKept(s, t, u);
    }
  }

  lemma HeldListKept(s: State, t: nat)
    requires HeldListed(s) && Enabled(s, t)
    ensures HeldListed(Next(s, t))
  {
  }

  lemma StepKeeps(s: State, t: nat)
    requires Inv(s) && Enabled(s, t)
    ensures Inv(Next(s, t)) && |Next(s, t).pc| == |s.pc|
  {
    HolderKept(s, t);
    if Finishing(s.pc[t]) {
      FinishKeepsWinner(s, t);
      FinishProgresses(s, t);
    } else {
      RegisterKeepsWinner(s, t);
      RegisterProgresses(s, t);
    }
    AppendsKept(s, t);
    DirectKept(s, t);
    HeldListKept(s, t);
    DirectCountsKept(s, t);
  }
}
