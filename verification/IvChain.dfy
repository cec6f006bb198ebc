/** How an IV moves on from one message to the next. */
module IvChain {
  import opened Bytes
  import opened DivMod

  datatype RollPolicy = RollNone | RollIncrement | RollCiphertextTail

  // ---------- The IV as a big-endian number ----------

  function Pow256(n: nat): (p: nat)
    ensures p > 0
  {
    if n == 0 then 1 else 256 * Pow256(n - 1)
  }

  function ValueBE(iv: bytes): (v: nat)
    ensures v < Pow256(|iv|)
  {
    if iv == [] then 0 else 256 * ValueBE(iv[..|iv| - 1]) + iv[|iv| - 1] as nat
  }

  lemma {:induction false} ValueInjective(a: bytes, b: bytes)
    requires |a| == |b| && ValueBE(a) == ValueBE(b)
    ensures a == b
  {
    if a != [] {
      var n := |a| - 1;
      DivModUnique(ValueBE(a), 256, ValueBE(a[..n]), a[n] as int);
      DivModUnique(ValueBE(b), 256, ValueBE(b[..n]), b[n] as int);
      ValueInjective(a[..n], b[..n]);
      assert a == a[..n] + [a[n]] && b == b[..n] + [b[n]];
    }
  }

  function Increment(iv: bytes): (r: bytes)
    ensures |r| == |iv|
  {
    if iv == [] then []
    else
      var n := |iv| - 1;
      if iv[n] == 255 then Increment(iv[..n]) + [0] else iv[..n] + [iv[n] + 1]
  }

  /** Incrementing adds one modulo 256^n. */
  lemma {:induction false} IncrementAddsOne(iv: bytes)
    ensures ValueBE(Increment(iv)) == (ValueBE(iv) + 1) % Pow256(|iv|)
  {
    if iv != [] {
      var n := |iv| - 1;
      var init, r := iv[..n], Increment(iv);
      assert ValueBE(r) == 256 * ValueBE(r[..n]) + r[n] as nat;
      if iv[n] == 255 {
        IncrementAddsOne(init);
        assert r[..n] == Increment(init);
        CarryMod(ValueBE(init) + 1, Pow256(n));
        assert ValueBE(iv) + 1 == 256 * (ValueBE(init) + 1);
      } else {
        assert r[..n] == init;
        DivModUnique(ValueBE(r), Pow256(|iv|), 0, ValueBE(r));
      }
    }
  }

  lemma CarryMod(x: nat, p: nat)
    requires 0 < p
    ensures 256 * (x % p) == (256 * x) % (256 * p)
  {
    assert 256 * x == (256 * p) * (x / p) + 256 * (x % p);
    DivModUnique(256 * x, 256 * p, x / p, 256 * (x % p));
  }

  // ---------- Chains of increments ----------

  function Advance(iv: bytes, k: nat): (r: bytes)
    ensures |r| == |iv|
  {
    if k == 0 then iv else Increment(Advance(iv, k - 1))
  }

  lemma {:induction false} AdvanceAdds(iv: bytes, k: nat)
    ensures ValueBE(Advance(iv, k)) == (ValueBE(iv) + k) % Pow256(|iv|)
  {
    var p := Pow256(|iv|);
    if k == 0 {
      DivModUnique(ValueBE(iv), p, 0, ValueBE(iv));
    } else {
      AdvanceAdds(iv, k - 1);
      IncrementAddsOne(Advance(iv, k - 1));
      SuccMod(ValueBE(iv) + k - 1, p);
    }
  }

  lemma SuccMod(x: nat, p: nat)
    requires 0 < p
    ensures (x % p + 1) % p == (x + 1) % p
  {
    var y := x % p + 1;
    assert x + 1 == p * (x / p + y / p) + y % p;
    DivModUnique(x + 1, p, x / p + y / p, y % p);
  }

  /** IVs repeat exactly every 256^n increments: closer ones differ, and the period is reached. */
  lemma AdvanceCycle(iv: bytes, i: nat, j: nat)
    requires i <= j
    ensures Advance(iv, i) == Advance(iv, j) <==> (j - i) % Pow256(|iv|) == 0
  {
    var p, v := Pow256(|iv|), ValueBE(iv);
    AdvanceAdds(iv, i);
    AdvanceAdds(iv, j);
    SameResidue(v + i, v + j, p);
    if (j - i) % p == 0 {
      ValueInjective(Advance(iv, i), Advance(iv, j));
    }
  }

  lemma SameResidue(x: nat, y: nat, p: nat)
    requires 0 < p && x <= y
    ensures x % p == y % p <==> (y - x) % p == 0
  {
    if x % p == y % p {
      assert y - x == p * (y / p - x / p);
      DivModUnique(y - x, p, y / p - x / p, 0);
    }
    if (y - x) % p == 0 {
      assert y == p * (x / p + (y - x) / p) + x % p;
      DivModUnique(y, p, x / p + (y - x) / p, x % p);
    }
  }

  // ---------- Rolling ----------

  function Roll(policy: RollPolicy, iv: bytes, ciphertext: bytes): (r: bytes)
    ensures |r| == |iv|
  {
    match policy
    case RollNone => iv
    case RollIncrement => Increment(iv)
    case RollCiphertextTail => if |ciphertext| >= |iv| then ciphertext[|ciphertext| - |iv|..] else iv
  }

  /** The bytes behind `i` are done and have carried into it. */
  predicate Carried(before: bytes, now: bytes, i: int) {
    && |before| == |now| && -1 <= i < |now|
    && now[..i + 1] == before[..i + 1] && Increment(before) == Increment(before[..i + 1]) + now[i + 1..]
  }

  lemma CarryStep(before: bytes, now: bytes, i: nat)
    requires Carried(before, now, i)
    ensures now[i] == 255 ==> Carried(before, now[i := 0], i - 1)
    ensures now[i] != 255 ==> Increment(before) == now[i := now[i] + 1]
  {
    var head, next := before[..i + 1], if now[i] == 255 then 0 else now[i] + 1;
    var after := now[i := next];
    assert head[i] == now[..i + 1][i] && head[..i] == before[..i] == now[..i + 1][..i] == after[..i];
    assert after[i..] == [next] + now[i + 1..];
    assert after == after[..i] + after[i..];
  }

  /** `incrementIVBE`. */
  method IncrementInPlace(iv: array<byte>)
    modifies iv
    ensures iv[..] == Increment(old(iv[..]))
  {
    ghost var before := iv[..];
    var i := iv.Length - 1;
    assert before[..i + 1] == before;
    while i >= 0
      invariant Carried(before, iv[..], i)
    {
      ghost var now := iv[..];
      CarryStep(before, now, i);
      iv[i] := if iv[i] == 255 then 0 else iv[i] + 1;
      assert iv[..] == now[i := iv[i]];
      if iv[i] != 0 {
        return;
      }
      i := i - 1;
    }
  }

  /** `RollIV`. */
  method RollInPlace(policy: RollPolicy, iv: array<byte>, ciphertext: bytes)
    modifies iv
    ensures iv[..] == Roll(policy, old(iv[..]), ciphertext)
  {
    match policy
    case RollIncrement =>
      IncrementInPlace(iv);
    case RollCiphertextTail =>
      if |ciphertext| >= iv.Length {
        var from := |ciphertext| - iv.Length;
        forall i | 0 <= i < iv.Length {
          iv[i] := ciphertext[from + i];
        }
      }
    case RollNone =>
  }
}
