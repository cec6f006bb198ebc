/** The ring object, and the plain map it stands for. */
module RpcRingBuffer {
  import opened Wrappers
  import opened Masks
  import opened RpcRing

  class Ring<T(!new)> {
    const capacity: nat
    const slots: array<Slot<T>>
    ghost const bits: nat

    ghost predicate Valid()
      reads this, slots
    {
      capacity == Pow2(bits) && WellPlaced(slots[..], bits)
    }

    ghost function Contents(): map<nat, T>
      reads this, slots
    {
      Pending(slots[..], bits)
    }

    /** The capacity asked for, rounded up to a power of two. */
    constructor (wanted: nat)
      requires wanted <= Pow2(63)
      ensures Valid() && fresh(slots) && Contents() == map[]
      ensures wanted <= capacity && (capacity == 1 || capacity / 2 < wanted)
    {
      var cap, k := RoundUp(wanted);
      FewestBits(k, wanted, 63);
      capacity := cap;
      bits := k;
      slots := new Slot<T>[cap](_ => Slot(0, None, false));
      new;
      EmptyRing(slots[..], bits);
    }

    /** Fails, changing nothing, exactly when another pending call has the same low bits. */
    method Store(sequence: nat, task: T) returns (ok: bool)
      requires Valid() && sequence < WRAP
      modifies slots
      ensures Valid()
      ensures !ok <==> Crowded(old(Contents()), sequence, capacity)
      ensures Contents() == if ok then old(Contents())[sequence := task] else old(Contents())
    {
      IndexFits(sequence, bits);
      TakenMeaning(slots[..], bits, sequence);
      var i := And(sequence, capacity - 1);
      if slots[i].occupied && slots[i].sequence != sequence {
        return false;
      }
      StorePlaces(slots[..], bits, sequence, task);
      slots[i] := Slot(sequence, Some(task), true);
      assert slots[..] == old(slots[..])[i := Slot(sequence, Some(task), true)];
      ok := true;
    }

    method Load(sequence: nat) returns (r: Option<T>)
      requires Valid() && sequence < WRAP
      ensures r == Lookup(Contents(), sequence)
    {
      IndexFits(sequence, bits);
      var i := And(sequence, capacity - 1);
      if !slots[i].occupied || slots[i].sequence != sequence {
        return None;
      }
      r := slots[i].task;
    }

    method LoadAndDelete(sequence: nat) returns (r: Option<T>)
      requires Valid() && sequence < WRAP
      modifies slots
      ensures Valid()
      ensures r == Lookup(old(Contents()), sequence)
      ensures Contents() == old(Contents()) - {sequence}
    {
      IndexFits(sequence, bits);
      var i := And(sequence, capacity - 1);
      if !slots[i].occupied || slots[i].sequence != sequence {
        return None;
      }
      ClearRemoves(slots[..], bits, sequence);
      r := slots[i].task;
      slots[i] := Slot(0, None, false);
      assert slots[..] == old(slots[..])[i := Slot(0, None, false)];
    }

    method Delete(sequence: nat)
      requires Valid() && sequence < WRAP
      modifies slots
      ensures Valid()
      ensures Contents() == old(Contents()) - {sequence}
    {
      IndexFits(sequence, bits);
      var i := And(sequence, capacity - 1);
      if slots[i].occupied && slots[i].sequence == sequence {
        ClearRemoves(slots[..], bits, sequence);
        slots[i] := Slot(0, None, false);
        assert slots[..] == old(slots[..])[i := Slot(0, None, false)];
      }
    }

    /** Any run of calls is answered as a plain map would answer it, as long as the live sequences stay close. */
    method Serve(calls: seq<Call<T>>) returns (answers: seq<Answer<T>>)
      requires Valid() && Close(Contents(), bits, calls)
      modifies slots
      ensures Valid()
      ensures Contents() == Final(old(Contents()), calls) && answers == Answers(old(Contents()), calls)
    {
      answers := [];
      ghost var start := Contents();
      for n := 0 to |calls|
        invariant Valid() && Close(Contents(), bits, calls[n..])
        invariant Final(start, calls) == Final(Contents(), calls[n..])
        invariant Answers(start, calls) == answers + Answers(Contents(), calls[n..])
      {
        assert calls[n..][0] == calls[n] && calls[n..][1..] == calls[n + 1..];
        var answer := ServeOne(calls[n]);
        answers := answers + [answer];
      }
      assert calls[|calls|..] == [];
    }

    method ServeOne(call: Call<T>) returns (answer: Answer<T>)
      requires Valid() && Fine(Contents(), bits, call)
      modifies slots
      ensures Valid()
      ensures (Contents(), answer) == AnswerOf(old(Contents()), call)
    {
      match call
      case Put(sequence, task) =>
        SpanNeverTaken(slots[..], bits, sequence);
        TakenMeaning(slots[..], bits, sequence);
        var ok := Store(sequence, task);
        answer := Stored(ok);
      case Get(sequence) =>
        var r := Load(sequence);
        answer := Found(r);
      case Take(sequence) =>
        var r := LoadAndDelete(sequence);
        answer := Found(r);
      case Drop(sequence) =>
        Delete(sequence);
        answer := Dropped;
    }
  }

  function Lookup<T>(m: map<nat, T>, sequence: nat): Option<T> {
    if sequence in m then Some(m[sequence]) else None
  }

  // ---------- The plain map ----------

  datatype Call<T> = Put(sequence: nat, task: T) | Get(sequence: nat) | Take(sequence: nat) | Drop(sequence: nat)

  datatype Answer<T> = Stored(ok: bool) | Found(task: Option<T>) | Dropped

  /** What a map with no capacity does. */
  function AnswerOf<T>(m: map<nat, T>, call: Call<T>): (map<nat, T>, Answer<T>) {
    match call
    case Put(sequence, task) => (m[sequence := task], Stored(true))
    case Get(sequence) => (m, Found(Lookup(m, sequence)))
    case Take(sequence) => (m - {sequence}, Found(Lookup(m, sequence)))
    case Drop(sequence) => (m - {sequence}, Dropped)
  }

  function Final<T>(m: map<nat, T>, calls: seq<Call<T>>): map<nat, T>
    decreases calls
  {
    if calls == [] then m else Final(AnswerOf(m, calls[0]).0, calls[1..])
  }

  function Answers<T>(m: map<nat, T>, calls: seq<Call<T>>): seq<Answer<T>>
    decreases calls
  {
    if calls == [] then [] else [AnswerOf(m, calls[0]).1] + Answers(AnswerOf(m, calls[0]).0, calls[1..])
  }

  ghost predicate Fine<T>(m: map<nat, T>, bits: nat, call: Call<T>) {
    call.sequence < WRAP && (call.Put? ==> Spans(m, call.sequence, bits))
  }

  ghost predicate Close<T>(m: map<nat, T>, bits: nat, calls: seq<Call<T>>)
    decreases calls
  {
    calls == [] || (Fine(m, bits, calls[0]) && Close(AnswerOf(m, calls[0]).0, bits, calls[1..]))
  }
}
