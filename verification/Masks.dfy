/** Powers of two as capacities, masks as remainders, and exclusive or. */
module Masks {
  import opened DivMod

  function Pow2(k: nat): (p: nat)
    ensures p >= 1
  {
    if k == 0 then 1 else 2 * Pow2(k - 1)
  }

  lemma {:induction false} PowersDivide(j: nat, k: nat)
    requires j <= k
    ensures Pow2(k) == Pow2(j) * Pow2(k - j)
    decreases k - j
  {
    if j < k {
      PowersDivide(j + 1, k);
    }
  }

  /** Bitwise AND. */
  function And(x: nat, y: nat): nat {
    if x == 0 || y == 0 then 0
    else 2 * And(x / 2, y / 2) + if x % 2 == 1 && y % 2 == 1 then 1 else 0
  }

  lemma HalfRemainder(x: nat, p: nat)
    requires p >= 1
    ensures x % (2 * p) == 2 * (x / 2 % p) + x % 2
  {
    var q, r := x / 2 / p, x / 2 % p;
    assert x / 2 == p * q + r;
    assert (2 * p) * q == 2 * (p * q);
    DivModUnique(x, 2 * p, q, 2 * r + x % 2);
  }

  lemma AndOdd(x: nat, p: nat)
    requires p >= 1
    ensures And(x, 2 * p - 1) == 2 * And(x / 2, p - 1) + x % 2
  {
    assert (2 * p - 1) / 2 == p - 1 && (2 * p - 1) % 2 == 1;
  }

  lemma MaskStep(x: nat, p: nat)
    requires p >= 1 && And(x / 2, p - 1) == x / 2 % p
    ensures And(x, 2 * p - 1) == x % (2 * p)
  {
    AndOdd(x, p);
    HalfRemainder(x, p);
  }

  /** Masking with a power of two less one takes the remainder. */
  lemma {:induction false} MaskIsModulo(x: nat, k: nat)
    ensures And(x, Pow2(k) - 1) == x % Pow2(k)
  {
    if k > 0 {
      MaskIsModulo(x / 2, k - 1);
      MaskStep(x, Pow2(k - 1));
    }
  }

  lemma {:induction false} Pow2Grows(j: nat, k: nat)
    ensures j <= k ==> Pow2(j) <= Pow2(k)
    decreases k - j
  {
    if j < k {
      Pow2Grows(j + 1, k);
    }
  }

  /** The least power of two that is enough needs no more bits than any that is. */
  lemma FewestBits(k: nat, wanted: nat, bits: nat)
    requires (k == 0 || Pow2(k) / 2 < wanted) && wanted <= Pow2(bits)
    ensures k <= bits
  {
    if k > 0 {
      Pow2Grows(bits, k - 1);
    }
  }

  /** The least power of two that is enough. */
  method RoundUp(wanted: nat) returns (cap: nat, ghost k: nat)
    ensures cap == Pow2(k) && (k == 0 || cap / 2 < wanted)
    ensures wanted <= cap && (cap == 1 || cap / 2 < wanted)
  {
    cap, k := 1, 0;
    while cap < wanted
      invariant cap == Pow2(k) && (k == 0 || cap / 2 < wanted)
      decreases wanted - cap
    {
      k := k + 1;
      cap := 2 * cap;
    }
  }

  // ---------- Exclusive or ----------

  /** Bitwise exclusive or. */
  function XorBits(a: nat, b: nat): nat {
    if a == 0 && b == 0 then 0 else 2 * XorBits(a / 2, b / 2) + if a % 2 == b % 2 then 0 else 1
  }

  lemma {:induction false} XorBitsFit(a: nat, b: nat, k: nat)
    requires a < Pow2(k) && b < Pow2(k)
    ensures XorBits(a, b) < Pow2(k)
  {
    if k > 0 {
      XorBitsFit(a / 2, b / 2, k - 1);
    }
  }

  lemma {:induction false} XorBitsCancel(a: nat, b: nat)
    ensures XorBits(XorBits(a, b), b) == a
  {
    if a != 0 || b != 0 {
      XorBitsCancel(a / 2, b / 2);
      var x, half := XorBits(a, b), XorBits(a / 2, b / 2);
      assert x / 2 == half && x % 2 == if a % 2 == b % 2 then 0 else 1;
    }
  }

  function Bit(x: nat, k: nat): nat {
    x / Pow2(k) % 2
  }

  lemma BitShift(x: nat, k: nat)
    requires k > 0
    ensures Bit(x, k) == Bit(x / 2, k - 1)
  {
    var p := Pow2(k - 1);
    var q, r := x / 2 / p, x / 2 % p;
    assert x / 2 == p * q + r && (2 * p) * q == 2 * (p * q);
    DivModUnique(x, 2 * p, q, 2 * r + x % 2);
  }

  lemma XorBitsHalves(a: nat, b: nat)
    ensures XorBits(a, b) / 2 == XorBits(a / 2, b / 2)
    ensures XorBits(a, b) % 2 == if a % 2 == b % 2 then 0 else 1
  {
    assert XorBits(0, 0) == 0;
  }

  /** A bit is set exactly when it is set in one of the two. */
  lemma {:induction false} XorBitsMeaning(a: nat, b: nat, k: nat)
    ensures Bit(XorBits(a, b), k) == if Bit(a, k) == Bit(b, k) then 0 else 1
  {
    XorBitsHalves(a, b);
    if k > 0 {
      XorBitsMeaning(a / 2, b / 2, k - 1);
      BitShift(a, k);
      BitShift(b, k);
      BitShift(XorBits(a, b), k);
    }
  }

  lemma {:induction false} XorBitsTrivial(a: nat)
    ensures XorBits(a, 0) == XorBits(0, a) == a && XorBits(a, a) == 0
  {
    if a > 0 {
      XorBitsTrivial(a / 2);
    }
  }

  lemma {:induction false} XorBitsCommutes(a: nat, b: nat)
    ensures XorBits(a, b) == XorBits(b, a)
  {
    if a != 0 || b != 0 {
      XorBitsCommutes(a / 2, b / 2);
    }
  }
}
