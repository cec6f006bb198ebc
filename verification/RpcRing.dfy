/** The ring of pending calls: a fixed array of slots, indexed by the low bits of a 64-bit sequence number. */
module RpcRing {
  import opened Wrappers
  import opened Masks

  // ---------- Masked indices ----------

  const WRAP: nat := Pow2(64)

  function Index(sequence: nat, bits: nat): nat {
    And(sequence, Pow2(bits) - 1)
  }

  /** `sequence` is one of the `Pow2(bits)` numbers from `lo` on, counting past the end of 64 bits if need be. */
  predicate Within(lo: nat, sequence: nat, bits: nat) {
    (sequence - lo) % WRAP < Pow2(bits)
  }

  /** The one multiple of `c` closer to zero than `c` is zero. */
  lemma SmallMultiple(d: int, c: int, t: int)
    requires d == c * t && -c < d < c
    ensures d == 0
  {
    assert t >= 1 ==> c * t >= c;
    assert t <= -1 ==> c * t <= -c;
  }

  lemma Offsets(a: int, b: int, c: int, m: int, da: int, db: int, ka: int, kb: int)
    requires c > 0 && a % c == b % c
    requires a - b == (c * m) * ka + da - ((c * m) * kb + db)
    ensures da - db == c * ((a / c - b / c) - m * (ka - kb))
    ensures a - b == (c * m) * (ka - kb) + (da - db)
  {
    assert a == c * (a / c) + a % c && b == c * (b / c) + b % c;
    assert (c * m) * ka - (c * m) * kb == (c * m) * (ka - kb) == c * (m * (ka - kb));
    assert c * (a / c) - c * (b / c) == c * (a / c - b / c);
  }

  /** Two numbers below `w` that are both less than `c` above `lo` modulo `w` differ modulo `c`. */
  lemma ResidueDistinct(lo: int, a: int, b: int, c: int, m: int, w: int)
    requires 0 < c && w == c * m && 0 <= a < w && 0 <= b < w
    requires (a - lo) % w < c && (b - lo) % w < c && a % c == b % c
    ensures a == b
  {
    var da, db, ka, kb := (a - lo) % w, (b - lo) % w, (a - lo) / w, (b - lo) / w;
    assert a - lo == w * ka + da && b - lo == w * kb + db;
    Offsets(a, b, c, m, da, db, ka, kb);
    SmallMultiple(da - db, c, (a / c - b / c) - m * (ka - kb));
    SmallMultiple(a - b, w, ka - kb);
  }

  lemma WindowDistinct(lo: nat, a: nat, b: nat, bits: nat)
    requires bits <= 64 && a < WRAP && b < WRAP
    requires Within(lo, a, bits) && Within(lo, b, bits)
    requires Index(a, bits) == Index(b, bits)
    ensures a == b
  {
    MaskIsModulo(a, bits);
    MaskIsModulo(b, bits);
    PowersDivide(bits, 64);
    ResidueDistinct(lo, a, b, Pow2(bits), Pow2(64 - bits), WRAP);
  }

  // ---------- What the slots hold ----------

  datatype Slot<T> = Slot(sequence: nat, task: Option<T>, occupied: bool)

  predicate WellPlaced<T>(slots: seq<Slot<T>>, bits: nat) {
    && bits <= 64 && |slots| == Pow2(bits)
    && forall i :: 0 <= i < |slots| && slots[i].occupied ==>
         slots[i].task.Some? && slots[i].sequence < WRAP && Index(slots[i].sequence, bits) == i
  }

  lemma IndexFits(sequence: nat, bits: nat)
    ensures Index(sequence, bits) < Pow2(bits)
  {
    MaskIsModulo(sequence, bits);
  }

  predicate Holds<T>(slots: seq<Slot<T>>, bits: nat, sequence: nat) {
    var i := Index(sequence, bits);
    i < |slots| && slots[i].occupied && slots[i].sequence == sequence && slots[i].task.Some?
  }

  /** The pending calls as a plain map. */
  function Pending<T>(slots: seq<Slot<T>>, bits: nat): map<nat, T> {
    map q: nat | 0 <= q < WRAP && Holds(slots, bits, q) :: slots[Index(q, bits)].task.value
  }

  /** Some other pending call owns the slot. */
  predicate Taken<T>(slots: seq<Slot<T>>, bits: nat, sequence: nat) {
    var i := Index(sequence, bits);
    i < |slots| && slots[i].occupied && slots[i].sequence != sequence
  }

  /** Some other pending call has the same remainder. */
  predicate Crowded<T>(pending: map<nat, T>, sequence: nat, capacity: nat)
    requires capacity > 0
  {
    exists q :: q in pending && q != sequence && q % capacity == sequence % capacity
  }

  /** A slot is taken exactly when a pending call has the same low bits. */
  lemma TakenMeaning<T>(slots: seq<Slot<T>>, bits: nat, sequence: nat)
    requires WellPlaced(slots, bits)
    ensures Taken(slots, bits, sequence) <==> Crowded(Pending(slots, bits), sequence, Pow2(bits))
  {
    IndexFits(sequence, bits);
    MaskIsModulo(sequence, bits);
    if Taken(slots, bits, sequence) {
      var q := slots[Index(sequence, bits)].sequence;
      MaskIsModulo(q, bits);
      assert q in Pending(slots, bits);
    }
    forall q | q in Pending(slots, bits) && q != sequence && q % Pow2(bits) == sequence % Pow2(bits)
      ensures Taken(slots, bits, sequence)
    {
      MaskIsModulo(q, bits);
    }
  }

  lemma EmptyRing<T>(slots: seq<Slot<T>>, bits: nat)
    requires bits <= 64 && |slots| == Pow2(bits) && forall i :: 0 <= i < |slots| ==> !slots[i].occupied
    ensures WellPlaced(slots, bits) && Pending(slots, bits) == map[]
  {
  }

  lemma StorePlaces<T>(slots: seq<Slot<T>>, bits: nat, sequence: nat, task: T)
    requires WellPlaced(slots, bits) && sequence < WRAP && !Taken(slots, bits, sequence)
    requires Index(sequence, bits) < |slots|
    ensures var after := slots[Index(sequence, bits) := Slot(sequence, Some(task), true)];
      WellPlaced(after, bits) && Pending(after, bits) == Pending(slots, bits)[sequence := task]
  {
    var after := slots[Index(sequence, bits) := Slot(sequence, Some(task), true)];
    forall q: nat | q < WRAP && q != sequence
      ensures Holds(after, bits, q) == Holds(slots, bits, q)
    {
    }
  }

  lemma ClearRemoves<T>(slots: seq<Slot<T>>, bits: nat, sequence: nat)
    requires WellPlaced(slots, bits) && Holds(slots, bits, sequence)
    ensures var after := slots[Index(sequence, bits) := Slot(0, None, false)];
      WellPlaced(after, bits) && Pending(after, bits) == Pending(slots, bits) - {sequence}
  {
    var after := slots[Index(sequence, bits) := Slot(0, None, false)];
    forall q: nat | q < WRAP && q != sequence
      ensures Holds(after, bits, q) == Holds(slots, bits, q)
    {
    }
  }

  // ---------- A window of live sequences ----------

  /** The calls pending and the one about to start are within one ring's length of each other. */
  predicate Spans<T>(pending: map<nat, T>, sequence: nat, bits: nat) {
    exists lo: nat :: lo < WRAP && Within(lo, sequence, bits) && forall q :: q in pending ==> Within(lo, q, bits)
  }

  lemma SpanNeverTaken<T>(slots: seq<Slot<T>>, bits: nat, sequence: nat)
    requires WellPlaced(slots, bits) && sequence < WRAP
    ensures Spans(Pending(slots, bits), sequence, bits) ==> !Taken(slots, bits, sequence)
  {
    var i := Index(sequence, bits);
    if Spans(Pending(slots, bits), sequence, bits) && i < |slots| && slots[i].occupied {
      var lo: nat :| lo < WRAP && Within(lo, sequence, bits)
        && forall q :: q in Pending(slots, bits) ==> Within(lo, q, bits);
      var q := slots[i].sequence;
      assert q in Pending(slots, bits);
      WindowDistinct(lo, q, sequence, bits);
    }
  }
}
