/**
 * One slot of the ring with calls that overlap. Every read, write and lock transition is a step; the reads of
 * `occupied` that `Load` and `LoadAndDelete` begin with hold no lock. Slots share nothing, so a call concerns one.
 */
module RpcRingSteps {
  import opened Wrappers
  import opened RpcRing
  import opened RpcRingBuffer

  /** What a slot holds for its users. */
  type Content<T> = Option<(nat, T)>

  /** What the slot does to one call when nothing interferes. */
  function SlotAnswer<T>(held: Content<T>, call: Call<T>): (Content<T>, Answer<T>) {
    var mine := held.Some? && held.value.0 == call.sequence;
    var found := if mine then Some(held.value.1) else None;
    match call
    case Put(sequence, task) => if held.Some? && !mine then (held, Stored(false)) else (Some((sequence, task)), Stored(true))
    case Get(_) => (held, Found(found))
    case Take(_) => (if mine then None else held, Found(found))
    case Drop(_) => (if mine then None else held, Dropped)
  }

  function MapOf<T>(held: Content<T>): map<nat, T> {
    if held.Some? then map[held.value.0 := held.value.1] else map[]
  }

  /** That is what a plain map does, except that a slot held for another call refuses a store. */
  lemma SlotIsMap<T>(held: Content<T>, call: Call<T>)
    ensures var (after, answer) := SlotAnswer(held, call);
            if call.Put? && held.Some? && held.value.0 != call.sequence then after == held && answer == Stored(false)
            else MapOf(after) == AnswerOf(MapOf(held), call).0 && answer == AnswerOf(MapOf(held), call).1
  {
  }

  // ---------- Steps ----------

  /**
   * Where a call stands. `Named` and `Filled` are between the three writes of a store, `Emptied` and `Unnamed`
   * between those of a delete; `Leaving` still holds the lock.
   */
  datatype Pc<T> =
    | Begin | Waiting | Checking | Named | Filled | Emptied(task: Option<T>) | Unnamed(task: Option<T>)
    | Leaving(answer: Answer<T>) | Ended(answer: Answer<T>)

  /** `held` and `log` are history: the content the calls are answered from, and the calls in the order of their effect. */
  datatype State<T> = State(
    slot: Slot<T>, lock: Option<nat>, pc: seq<Pc<T>>, held: Content<T>, log: seq<(nat, Answer<T>)>)

  function Start<T>(n: nat): State<T> {
    State(Slot(0, None, false), None, seq(n, _ => Begin), None, [])
  }

  predicate Enabled<T>(s: State<T>, t: nat) {
    t < |s.pc| && !s.pc[t].Ended? && (s.pc[t].Waiting? ==> s.lock == None)
  }

  /** The call takes effect with what the code has read as its answer. */
  function Effect<T>(s: State<T>, t: nat, call: Call<T>, answer: Answer<T>, pc: Pc<T>): State<T>
    requires t < |s.pc|
  {
    s.(held := SlotAnswer(s.held, call).0, log := s.log + [(t, answer)], pc := s.pc[t := pc])
  }

  function Leave<T>(s: State<T>, t: nat, call: Call<T>, answer: Answer<T>): State<T>
    requires t < |s.pc|
  {
    Effect(s, t, call, answer, Leaving(answer))
  }

  function Goto<T>(s: State<T>, t: nat, pc: Pc<T>): State<T>
    requires t < |s.pc|
  {
    s.(pc := s.pc[t := pc])
  }

  /** The call answers without a lock what it finds unoccupied. */
  predicate Peeks<T>(call: Call<T>) {
    call.Get? || call.Take?
  }

  /** What the code sees once it holds the lock. */
  predicate Matches<T>(slot: Slot<T>, call: Call<T>) {
    slot.occupied && slot.sequence == call.sequence
  }

  /** The first step of a critical section. */
  function Check<T>(s: State<T>, t: nat, call: Call<T>): State<T>
    requires t < |s.pc|
  {
    match call
    case Put(sequence, _) =>
      if s.slot.occupied && s.slot.sequence != sequence then Leave(s, t, call, Stored(false))
      else Goto(s, t, Named).(slot := s.slot.(sequence := sequence))
    case Get(_) => Leave(s, t, call, Found(if Matches(s.slot, call) then s.slot.task else None))
    case _ =>
      if Matches(s.slot, call) then Goto(s, t, Emptied(s.slot.task)).(slot := s.slot.(task := None))
      else Leave(s, t, call, if call.Take? then Found(None) else Dropped)
  }

  function Next<T>(calls: seq<Call<T>>, s: State<T>, t: nat): State<T>
    requires |calls| == |s.pc| && Enabled(s, t)
  {
    var call := calls[t];
    match s.pc[t]
    case Begin =>
      if Peeks(call) && !s.slot.occupied then Effect(s, t, call, Found(None), Ended(Found(None)))
      else Goto(s, t, Waiting)
    case Waiting => Goto(s, t, Checking).(lock := Some(t))
    case Checking => Check(s, t, call)
    case Named => if call.Put? then Goto(s, t, Filled).(slot := s.slot.(task := Some(call.task))) else s
    case Filled => Leave(s, t, call, Stored(true)).(slot := s.slot.(occupied := true))
    case Emptied(task) => Goto(s, t, Unnamed(task)).(slot := s.slot.(sequence := 0))
    case Unnamed(task) =>
      Leave(s, t, call, if call.Take? then Found(task) else Dropped).(slot := s.slot.(occupied := false))
    case Leaving(answer) => Goto(s, t, Ended(answer)).(lock := None)
    case Ended(_) => s
  }

  // ---------- The history ----------

  /** The content after the calls of a log, one after the other. */
  function Replayed<T>(calls: seq<Call<T>>, log: seq<(nat, Answer<T>)>): Content<T>
    requires forall i :: 0 <= i < |log| ==> log[i].0 < |calls|
  {
    if log == [] then None
    else SlotAnswer(Replayed(calls, log[..|log| - 1]), calls[log[|log| - 1].0]).0
  }

  /** Every call of the log was answered as it would have been in that order. */
  predicate InOrder<T(==)>(calls: seq<Call<T>>, log: seq<(nat, Answer<T>)>)
    requires forall i :: 0 <= i < |log| ==> log[i].0 < |calls|
  {
    forall i :: 0 <= i < |log| ==> log[i].1 == SlotAnswer(Replayed(calls, log[..i]), calls[log[i].0]).1
  }

  predicate InLog<T>(log: seq<(nat, Answer<T>)>, t: nat) {
    exists i :: 0 <= i < |log| && log[i].0 == t
  }

  predicate Done<T>(pc: Pc<T>) {
    pc.Leaving? || pc.Ended?
  }

  /** The log holds each call once that has taken effect, with the answer it returns. */
  ghost predicate Logged<T>(s: State<T>) {
    && (forall i :: 0 <= i < |s.log| ==>
          s.log[i].0 < |s.pc| && Done(s.pc[s.log[i].0]) && s.pc[s.log[i].0].answer == s.log[i].1)
    && (forall i, j :: 0 <= i < j < |s.log| ==> s.log[i].0 != s.log[j].0)
    && (forall t :: 0 <= t < |s.pc| && Done(s.pc[t]) ==> InLog(s.log, t))
  }

  predicate Holding<T>(pc: Pc<T>) {
    !pc.Begin? && !pc.Waiting? && !pc.Ended?
  }

  ghost predicate OneHolder<T>(s: State<T>) {
    && (s.lock.Some? ==> s.lock.value < |s.pc|)
    && forall t :: 0 <= t < |s.pc| ==> (Holding(s.pc[t]) <==> s.lock == Some(t))
  }

  /** The fields of the slot spell its content. */
  predicate Spells<T(==)>(slot: Slot<T>, held: Content<T>) {
    held.Some? ==> slot.sequence == held.value.0 && slot.task == Some(held.value.1)
  }

  /** What the fields say while `t` is in its critical section. */
  ghost predicate MidSection<T>(slot: Slot<T>, held: Content<T>, pc: Pc<T>, call: Call<T>) {
    match pc
    case Named => call.Put? && slot.sequence == call.sequence && (held.Some? ==> held.value.0 == call.sequence)
    case Filled =>
      && call.Put? && slot.sequence == call.sequence && slot.task == Some(call.task)
      && (held.Some? ==> held.value.0 == call.sequence)
    case Emptied(task) => (call.Take? || call.Drop?) && task.Some? && held == Some((call.sequence, task.value))
    case Unnamed(task) => (call.Take? || call.Drop?) && task.Some? && held == Some((call.sequence, task.value))
    case _ => Spells(slot, held)
  }

  ghost predicate Faithful<T>(calls: seq<Call<T>>, s: State<T>)
    requires |calls| == |s.pc|
  {
    && (s.slot.occupied <==> s.held.Some?)
    && (if s.lock.Some? && s.lock.value < |s.pc|
        then MidSection(s.slot, s.held, s.pc[s.lock.value], calls[s.lock.value])
        else Spells(s.slot, s.held))
  }

  ghost predicate Inv<T>(calls: seq<Call<T>>, s: State<T>) {
    && |calls| == |s.pc| && OneHolder(s) && Logged(s) && Faithful(calls, s)
    && s.held == Replayed(calls, s.log) && InOrder(calls, s.log)
  }

  lemma HolderKept<T>(calls: seq<Call<T>>, s: State<T>, t: nat)
    requires |calls| == |s.pc| && OneHolder(s) && Enabled(s, t)
    ensures OneHolder(Next(calls, s, t))
  {
  }

  lemma FaithfulKept<T>(calls: seq<Call<T>>, s: State<T>, t: nat)
    requires |calls| == |s.pc| && OneHolder(s) && Faithful(calls, s) && Enabled(s, t)
    ensures Faithful(calls, Next(calls, s, t))
  {
  }

  /** What the code has read is what the content says. */
  lemma AnswersRight<T>(calls: seq<Call<T>>, s: State<T>, t: nat)
    requires |calls| == |s.pc| && OneHolder(s) && Faithful(calls, s) && Enabled(s, t)
    ensures var n := Next(calls, s, t);
            || (n.log == s.log && n.held == s.held && Done(n.pc[t]) == Done(s.pc[t]))
            || (&& !Done(s.pc[t]) && Done(n.pc[t]) && n.log == s.log + [(t, n.pc[t].answer)]
                && n.held == SlotAnswer(s.held, calls[t]).0 && n.pc[t].answer == SlotAnswer(s.held, calls[t]).1)
  {
  }

  /** Only the thread that steps moves, and a call that has its answer keeps it. */
  lemma OthersStay<T>(calls: seq<Call<T>>, s: State<T>, t: nat)
    requires |calls| == |s.pc| && Enabled(s, t)
    ensures var n := Next(calls, s, t);
            && |n.pc| == |s.pc| && (forall u :: 0 <= u < |s.pc| && u != t ==> n.pc[u] == s.pc[u])
            && (Done(s.pc[t]) ==> Done(n.pc[t]) && n.pc[t].answer == s.pc[t].answer)
  {
  }

  /** One thread moves, and is entered into the log when it gets its answer. */
  ghost predicate Moves<T>(s: State<T>, n: State<T>, t: nat) {
    && t < |s.pc| == |n.pc| && (forall u :: 0 <= u < |s.pc| && u != t ==> n.pc[u] == s.pc[u])
    && (if Done(s.pc[t]) || !Done(n.pc[t])
        then n.log == s.log && (Done(s.pc[t]) ==> Done(n.pc[t]) && n.pc[t].answer == s.pc[t].answer)
        else n.log == s.log + [(t, n.pc[t].answer)])
  }

  lemma EntriesKept<T>(s: State<T>, n: State<T>, t: nat, u: nat)
    requires Logged(s) && Moves(s, n, t) && u < |n.pc| && Done(n.pc[u])
    ensures InLog(n.log, u)
  {
    if Done(s.pc[u]) {
      var i :| 0 <= i < |s.log| && s.log[i].0 == u;
      assert n.log[i].0 == u;
    } else {
      assert n.log[|s.log|].0 == u;
    }
  }

  lemma LoggedKept<T>(s: State<T>, n: State<T>, t: nat)
    requires Logged(s) && Moves(s, n, t)
    ensures Logged(n)
  {
    forall u | 0 <= u < |n.pc| && Done(n.pc[u])
      ensures InLog(n.log, u)
    {
      EntriesKept(s, n, t, u);
    }
  }

  lemma LogKept<T>(calls: seq<Call<T>>, s: State<T>, t: nat)
    requires Inv(calls, s) && Enabled(s, t)
    ensures Logged(Next(calls, s, t))
  {
    AnswersRight(calls, s, t);
    OthersStay(calls, s, t);
    LoggedKept(s, Next(calls, s, t), t);
  }

  lemma OrderNext<T>(calls: seq<Call<T>>, log: seq<(nat, Answer<T>)>, t: nat, answer: Answer<T>)
    requires (forall i :: 0 <= i < |log| ==> log[i].0 < |calls|) && t < |calls|
    requires InOrder(calls, log) && answer == SlotAnswer(Replayed(calls, log), calls[t]).1
    ensures InOrder(calls, log + [(t, answer)])
    ensures Replayed(calls, log + [(t, answer)]) == SlotAnswer(Replayed(calls, log), calls[t]).0
  {
    var more := log + [(t, answer)];
    assert more[..|log|] == log;
    forall i | 0 <= i < |more|
      ensures more[i].1 == SlotAnswer(Replayed(calls, more[..i]), calls[more[i].0]).1
    {
      assert i < |log| ==> more[..i] == log[..i];
    }
  }

  lemma StepKeeps<T>(calls: seq<Call<T>>, s: State<T>, t: nat)
    requires Inv(calls, s) && Enabled(s, t)
    ensures Inv(calls, Next(calls, s, t)) && s.log <= Next(calls, s, t).log
  {
    HolderKept(calls, s, t);
    FaithfulKept(calls, s, t);
    LogKept(calls, s, t);
    AnswersRight(calls, s, t);
    OthersStay(calls, s, t);
    if Done(Next(calls, s, t).pc[t]) && !Done(s.pc[t]) {
      OrderNext(calls, s.log, t, SlotAnswer(s.held, calls[t]).1);
    }
  }

  // ---------- Runs ----------

  predicate Legal<T>(calls: seq<Call<T>>, s: State<T>, steps: seq<nat>)
    requires |calls| == |s.pc|
    decreases steps
  {
    steps == [] || (Enabled(s, steps[0]) && (OthersStay(calls, s, steps[0]); Legal(calls, Next(calls, s, steps[0]), steps[1..])))
  }

  function After<T>(calls: seq<Call<T>>, s: State<T>, steps: seq<nat>): State<T>
    requires |calls| == |s.pc| && Legal(calls, s, steps)
    decreases steps
  {
    if steps == [] then s
    else
      OthersStay(calls, s, steps[0]);
      After(calls, Next(calls, s, steps[0]), steps[1..])
  }

  lemma {:induction false} RunKeeps<T>(calls: seq<Call<T>>, s: State<T>, steps: seq<nat>)
    requires Inv(calls, s) && Legal(calls, s, steps)
    ensures Inv(calls, After(calls, s, steps)) && s.log <= After(calls, s, steps).log
    decreases steps
  {
    if steps != [] {
      StepKeeps(calls, s, steps[0]);
      RunKeeps(calls, Next(calls, s, steps[0]), steps[1..]);
    }
  }

  /**
   * In every interleaving the calls are answered as in some order one after the other: the log is such an order, it
   * holds each call that has returned once with the answer it returned, and the slot spells what that order leaves.
   */
  lemma Linearizable<T>(calls: seq<Call<T>>, steps: seq<nat>)
    requires Legal(calls, Start(|calls|), steps)
    ensures var e := After(calls, Start(|calls|), steps);
            && |e.pc| == |calls| && Logged(e) && InOrder(calls, e.log)
            && (e.lock == None ==> e.slot.occupied == Replayed(calls, e.log).Some? && Spells(e.slot, Replayed(calls, e.log)))
  {
    RunKeeps(calls, Start(|calls|), steps);
  }

  lemma NotYetLogged<T>(s: State<T>, u: nat)
    requires Logged(s) && u < |s.pc| && s.pc[u].Begin?
    ensures forall i :: 0 <= i < |s.log| ==> s.log[i].0 != u
  {
  }

  lemma LaterInLog<T>(s: State<T>, log: seq<(nat, Answer<T>)>, t: nat, u: nat)
    requires Logged(s) && s.log <= log && t < |s.pc| && u < |s.pc| && s.pc[t].Ended? && s.pc[u].Begin? && InLog(log, u)
    ensures exists i, j :: 0 <= i < j < |log| && log[i].0 == t && log[j].0 == u
  {
    var i :| 0 <= i < |s.log| && s.log[i].0 == t;
    var j :| 0 <= j < |log| && log[j].0 == u;
    NotYetLogged(s, u);
    assert forall k :: 0 <= k < |s.log| ==> log[k] == s.log[k];
    assert log[i].0 == t;
  }

  /** The order respects time: a call that begins after another has returned comes after it. */
  lemma RealTime<T>(calls: seq<Call<T>>, before: seq<nat>, steps: seq<nat>, t: nat, u: nat)
    requires Legal(calls, Start(|calls|), before) && t < |calls| && u < |calls|
    requires var s := After(calls, Start(|calls|), before);
             |s.pc| == |calls| && s.pc[t].Ended? && s.pc[u].Begin? && Legal(calls, s, steps)
    requires InLog(After(calls, After(calls, Start(|calls|), before), steps).log, u)
    ensures var log := After(calls, After(calls, Start(|calls|), before), steps).log;
            exists i, j :: 0 <= i < j < |log| && log[i].0 == t && log[j].0 == u
  {
    RunKeeps(calls, Start(|calls|), before);
    var s := After(calls, Start(|calls|), before);
    RunKeeps(calls, s, steps);
    LaterInLog(s, After(calls, s, steps).log, t, u);
  }

  /** While a call has not returned some call can go on. */
  lemma NeverStuck<T>(calls: seq<Call<T>>, s: State<T>, t: nat)
    requires Inv(calls, s) && t < |s.pc| && !s.pc[t].Ended?
    ensures exists u :: Enabled(s, u)
  {
    if s.lock.Some? {
      assert Holding(s.pc[s.lock.value]);
      assert Enabled(s, s.lock.value);
    } else {
      assert Enabled(s, t);
    }
  }
}
