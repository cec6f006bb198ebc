/**
  The rounds of XXTEA: two in-place loops that must undo each other.
  The argument needs only that subtraction undoes addition, so it is carried out
  for any word arithmetic and any mixing function.
 */
module XxteaRounds {

  /** `mix(sum, y, z, p)` is what a step adds or subtracts at position `p`. */
  datatype Arithmetic<!W(!new)> = Arithmetic(
    zero: W, delta: W, add: (W, W) -> W, sub: (W, W) -> W, mix: (W, W, W, nat) -> W)
  {
    ghost predicate Cancels() {
      && (forall a, m :: sub(add(a, m), m) == a)
      && (forall a, m :: add(sub(a, m), m) == a)
    }
  }

  // ---------- One step ----------

  /** The amount at `p`: it depends on the two neighbours of `p` only. */
  function Amount<W(!new)>(v: seq<W>, p: nat, sum: W, ar: Arithmetic<W>): W
    requires p < |v|
  {
    ar.mix(sum, v[if p + 1 < |v| then p + 1 else 0], v[if p > 0 then p - 1 else |v| - 1], p)
  }

  function EncryptStep<W(!new)>(v: seq<W>, p: nat, sum: W, ar: Arithmetic<W>): (r: seq<W>)
    requires p < |v|
  {
    v[p := ar.add(v[p], Amount(v, p, sum, ar))]
  }

  function DecryptStep<W(!new)>(v: seq<W>, p: nat, sum: W, ar: Arithmetic<W>): (r: seq<W>)
    requires p < |v|
  {
    v[p := ar.sub(v[p], Amount(v, p, sum, ar))]
  }

  lemma StepsCancel<W(!new)>(v: seq<W>, p: nat, sum: W, ar: Arithmetic<W>)
    requires 2 <= |v| && p < |v| && ar.Cancels()
    ensures DecryptStep(EncryptStep(v, p, sum, ar), p, sum, ar) == v
    ensures EncryptStep(DecryptStep(v, p, sum, ar), p, sum, ar) == v
  {
    var m := Amount(v, p, sum, ar);
    assert Amount(v[p := ar.add(v[p], m)], p, sum, ar) == m;
    assert Amount(v[p := ar.sub(v[p], m)], p, sum, ar) == m;
  }

  // ---------- One round ----------

  /** Steps `0, 1, .. k - 1` of an encryption round. */
  function EncryptRound<W(!new)>(v: seq<W>, k: nat, sum: W, ar: Arithmetic<W>): (r: seq<W>)
    requires k <= |v|
    ensures |r| == |v|
  {
    if k == 0 then v else EncryptStep(EncryptRound(v, k - 1, sum, ar), k - 1, sum, ar)
  }

  /** Steps `k - 1, .. 1, 0` of a decryption round. */
  function DecryptRound<W(!new)>(v: seq<W>, k: nat, sum: W, ar: Arithmetic<W>): (r: seq<W>)
    requires k <= |v|
    ensures |r| == |v|
    decreases k
  {
    if k == 0 then v else DecryptRound(DecryptStep(v, k - 1, sum, ar), k - 1, sum, ar)
  }

  lemma {:induction false} RoundCancels<W(!new)>(v: seq<W>, k: nat, sum: W, ar: Arithmetic<W>)
    requires 2 <= |v| && k <= |v| && ar.Cancels()
    ensures DecryptRound(EncryptRound(v, k, sum, ar), k, sum, ar) == v
    ensures EncryptRound(DecryptRound(v, k, sum, ar), k, sum, ar) == v
    decreases k
  {
    if k > 0 {
      StepsCancel(EncryptRound(v, k - 1, sum, ar), k - 1, sum, ar);
      RoundCancels(v, k - 1, sum, ar);
      StepsCancel(v, k - 1, sum, ar);
      RoundCancels(DecryptStep(v, k - 1, sum, ar), k - 1, sum, ar);
    }
  }

  /** `v[p]` plus a mix of its right neighbour before and its left neighbour after the round. */
  function Mixed<W(!new)>(v: seq<W>, r: seq<W>, p: nat, sum: W, ar: Arithmetic<W>): W
    requires p < |v| == |r|
  {
    var y := if p + 1 < |v| then v[p + 1] else r[0];
    var z := if p > 0 then r[p - 1] else v[|v| - 1];
    ar.add(v[p], ar.mix(sum, y, z, p))
  }

  /** The equations between the words before and after a round (wrapping at both ends). */
  lemma {:induction false} RoundEquations<W(!new)>(v: seq<W>, k: nat, sum: W, ar: Arithmetic<W>)
    requires 2 <= |v| && k <= |v|
    ensures forall p :: k <= p < |v| ==> EncryptRound(v, k, sum, ar)[p] == v[p]
    ensures forall p :: 0 <= p < k ==>
              EncryptRound(v, k, sum, ar)[p] == Mixed(v, EncryptRound(v, k, sum, ar), p, sum, ar)
  {
    if k > 0 {
      RoundEquations(v, k - 1, sum, ar);
      var q, r := EncryptRound(v, k - 1, sum, ar), EncryptRound(v, k, sum, ar);
      assert r[k - 1] == ar.add(v[k - 1], Amount(q, k - 1, sum, ar)) == Mixed(v, r, k - 1, sum, ar);
      forall p | 0 <= p < k - 1
        ensures r[p] == Mixed(v, r, p, sum, ar)
      {
        assert Mixed(v, r, p, sum, ar) == Mixed(v, q, p, sum, ar);
      }
    }
  }

  // ---------- All rounds ----------

  /** The running `sum` after `r` additions of delta. */
  function SumAfter<W(!new)>(r: nat, ar: Arithmetic<W>): W {
    if r == 0 then ar.zero else ar.add(SumAfter(r - 1, ar), ar.delta)
  }

  /** Any count that starts at zero and grows by delta is the running sum. */
  lemma {:induction false} SumByCounting<W(!new)>(r: nat, ar: Arithmetic<W>, times: nat -> W)
    requires times(0) == ar.zero
    requires forall k: nat :: times(k + 1) == ar.add(times(k), ar.delta)
    ensures SumAfter(r, ar) == times(r)
  {
    if r > 0 {
      SumByCounting(r - 1, ar, times);
      assert times((r - 1) + 1) == ar.add(times(r - 1), ar.delta);
    }
  }

  function EncryptRounds<W(!new)>(v: seq<W>, r: nat, ar: Arithmetic<W>): (w: seq<W>)
    ensures |w| == |v|
  {
    if r == 0 then v else EncryptRound(EncryptRounds(v, r - 1, ar), |v|, SumAfter(r, ar), ar)
  }

  function DecryptRounds<W(!new)>(v: seq<W>, r: nat, ar: Arithmetic<W>): (w: seq<W>)
    ensures |w| == |v|
    decreases r
  {
    if r == 0 then v else DecryptRounds(DecryptRound(v, |v|, SumAfter(r, ar), ar), r - 1, ar)
  }

  lemma {:induction false} RoundsCancel<W(!new)>(v: seq<W>, r: nat, ar: Arithmetic<W>)
    requires 2 <= |v| && ar.Cancels()
    ensures DecryptRounds(EncryptRounds(v, r, ar), r, ar) == v
    ensures EncryptRounds(DecryptRounds(v, r, ar), r, ar) == v
    decreases r
  {
    if r > 0 {
      RoundCancels(EncryptRounds(v, r - 1, ar), |v|, SumAfter(r, ar), ar);
      RoundsCancel(v, r - 1, ar);
      RoundCancels(v, |v|, SumAfter(r, ar), ar);
      RoundsCancel(DecryptRound(v, |v|, SumAfter(r, ar), ar), r - 1, ar);
    }
  }

  // ---------- The loops ----------

  method EncryptLoop<W(!new)>(v: array<W>, total: nat, ar: Arithmetic<W>)
    requires 2 <= v.Length
    modifies v
    ensures v[..] == EncryptRounds(old(v[..]), total, ar)
  {
    var n := v.Length;
    var rounds := total;
    var sum := ar.zero;
    var z := v[n - 1];
    while rounds > 0
      invariant 0 <= rounds <= total
      invariant sum == SumAfter(total - rounds, ar)
      invariant z == v[n - 1]
      invariant v[..] == EncryptRounds(old(v[..]), total - rounds, ar)
    {
      ghost var before := v[..];
      sum := ar.add(sum, ar.delta);
      var p := 0;
      while p < n - 1
        invariant 0 <= p <= n - 1
        invariant z == v[if p > 0 then p - 1 else n - 1]
        invariant v[..] == EncryptRound(before, p, sum, ar)
      {
        var y := v[p + 1];
        ghost var now := v[..];
        v[p] := ar.add(v[p], ar.mix(sum, y, z, p));
        assert v[..] == EncryptStep(now, p, sum, ar);
        z := v[p];
        p := p + 1;
      }
      var y := v[0];
      ghost var now := v[..];
      v[n - 1] := ar.add(v[n - 1], ar.mix(sum, y, z, n - 1));
      assert v[..] == EncryptStep(now, n - 1, sum, ar);
      z := v[n - 1];
      rounds := rounds - 1;
    }
  }

  method DecryptLoop<W(!new)>(v: array<W>, total: nat, initial: W, ar: Arithmetic<W>)
    requires 2 <= v.Length && ar.Cancels() && initial == SumAfter(total, ar)
    modifies v
    ensures v[..] == DecryptRounds(old(v[..]), total, ar)
  {
    var n := v.Length;
    var rounds := total;
    var sum := initial;
    var y := v[0];
    while rounds > 0
      invariant 0 <= rounds <= total
      invariant sum == SumAfter(rounds, ar)
      invariant y == v[0]
      invariant DecryptRounds(v[..], rounds, ar) == DecryptRounds(old(v[..]), total, ar)
    {
      ghost var before := v[..];
      var p := n - 1;
      while p > 0
        invariant 0 <= p <= n - 1
        invariant y == v[if p + 1 < n then p + 1 else 0]
        invariant DecryptRound(v[..], p + 1, sum, ar) == DecryptRound(before, n, sum, ar)
      {
        var z := v[p - 1];
        ghost var now := v[..];
        v[p] := ar.sub(v[p], ar.mix(sum, y, z, p));
        assert v[..] == DecryptStep(now, p, sum, ar);
        y := v[p];
        p := p - 1;
      }
      var z := v[n - 1];
      ghost var now := v[..];
      v[0] := ar.sub(v[0], ar.mix(sum, y, z, 0));
      assert v[..] == DecryptStep(now, 0, sum, ar) == DecryptRound(now, 1, sum, ar);
      y := v[0];
      sum := ar.sub(sum, ar.delta);
      rounds := rounds - 1;
    }
  }
}

/** The XXTEA cipher suite: 32-bit arithmetic, little-endian data words, 8-byte alignment. */
module Xxtea {
  import opened Wrappers
  import opened Bytes
  import opened DivMod
  import opened Masks
  import opened XxteaRounds
  import BlockAlign
  import IvChain

  type Key = k: seq<word> | |k| == 4 witness [0, 0, 0, 0]

  const DELTA: word := 0x9e3779b9
  const BLOCK_SIZE: nat := 8

  /** `newXXTEACipher`: the key words are read big-endian. */
  function NewKey(key: bytes): (r: Result<Key, CipherError>) {
    if |key| != 16 then Err(BadKey)
    else Ok([Uint32BE(key[0..4]), Uint32BE(key[4..8]), Uint32BE(key[8..12]), Uint32BE(key[12..16])])
  }

  function Uint32BE(b: bytes): word
    requires |b| == 4
  {
    Uint32LE([b[3], b[2], b[1], b[0]])
  }

  lemma BigEndian(b: bytes)
    requires |b| == 4
    ensures Uint32BE(b) as nat == IvChain.ValueBE(b)
  {
    var b1, b2, b3 := b[..1], b[..2], b[..3];
    assert b[..3][..2] == b2 && b2[..1] == b1 && b1[..0] == [];
    assert IvChain.ValueBE(b1) == b[0] as nat;
    assert IvChain.ValueBE(b2) == 256 * b[0] as nat + b[1] as nat;
    assert IvChain.ValueBE(b3) == 256 * (256 * b[0] as nat + b[1] as nat) + b[2] as nat;
  }

  /** Each key word is the value of four key bytes, the first of them highest. */
  lemma NewKeyReads(key: bytes)
    ensures NewKey(key).Ok? <==> |key| == 16
    ensures NewKey(key).Ok? ==>
              forall i: nat :: i < 4 ==> NewKey(key).value[i] as nat == IvChain.ValueBE(key[4 * i..4 * i + 4])
  {
    if |key| == 16 {
      BigEndian(key[0..4]);
      BigEndian(key[4..8]);
      BigEndian(key[8..12]);
      BigEndian(key[12..16]);
    }
  }

  /** Addition modulo 2^32. */
  function Plus(a: word, b: word): word {
    ((a as int + b as int) % TWO32) as word
  }

  /** Subtraction modulo 2^32. */
  function Minus(a: word, b: word): word {
    ((a as int - b as int) % TWO32) as word
  }

  lemma WordBits()
    ensures Pow2(32) == TWO32
  {
    assert Pow2(8) == 256;
    PowersDivide(8, 16);
    PowersDivide(16, 32);
  }

  /** Exclusive or of words. */
  function XorWord(a: word, b: word): word {
    WordBits();
    XorBitsFit(a as nat, b as nat, 32);
    XorBits(a as nat, b as nat) as word
  }

  /** `(p & 3) ^ e`, with `e` taken from the sum as both loops do. */
  function KeyIndex(sum: word, p: word): (i: nat)
    ensures i < 4
  {
    assert Pow2(2) == 4;
    XorBitsFit((p % 4) as nat, (sum / 4 % 4) as nat, 2);
    XorBits((p % 4) as nat, (sum / 4 % 4) as nat)
  }

  /** The half of the mix that depends on the neighbours alone. */
  function Shifted(y: word, z: word): word {
    Plus(XorWord(z / 32, WordOf(4 * y as nat)), XorWord(y / 8, WordOf(16 * z as nat)))
  }

  /** What a step adds for key word `k`. */
  function MixWith(sum: word, y: word, z: word, k: word): word {
    XorWord(Shifted(y, z), Plus(XorWord(sum, y), XorWord(k, z)))
  }

  /** `xxteaMX`. */
  function MX(sum: word, y: word, z: word, p: word, key: Key): word {
    MixWith(sum, y, z, key[KeyIndex(sum, p)])
  }

  function Uint32(key: Key): (ar: Arithmetic<word>) {
    Arithmetic(0, DELTA, Plus, Minus, (sum: word, y: word, z: word, p: nat) => MX(sum, y, z, WordOf(p), key))
  }

  // ---------- What is mixed ----------

  lemma XorWordTrivial(a: word)
    ensures XorWord(a, 0) == XorWord(0, a) == a && XorWord(a, a) == 0
  {
    XorBitsTrivial(a as nat);
  }

  lemma XorWordCancels(a: word, b: word)
    ensures XorWord(a, XorWord(a, b)) == b && XorWord(XorWord(a, b), b) == a
  {
    XorBitsCommutes(a as nat, b as nat);
    XorBitsCommutes(a as nat, XorBits(b as nat, a as nat));
    XorBitsCancel(b as nat, a as nat);
    XorBitsCancel(a as nat, b as nat);
  }

  lemma XorWordInjective(a: word, b: word, c: word)
    ensures XorWord(a, b) == XorWord(a, c) <==> b == c
    ensures XorWord(b, a) == XorWord(c, a) <==> b == c
  {
    XorWordCancels(a, b);
    XorWordCancels(a, c);
    XorWordCancels(b, a);
    XorWordCancels(c, a);
  }

  lemma PlusInjective(a: word, b: word, c: word)
    ensures Plus(a, b) == Plus(a, c) <==> b == c
  {
  }

  lemma MixInjective(sum: word, y: word, z: word, k: word, l: word)
    ensures MixWith(sum, y, z, k) == MixWith(sum, y, z, l) <==> k == l
  {
    XorWordInjective(z, k, l);
    PlusInjective(XorWord(sum, y), XorWord(k, z), XorWord(l, z));
    XorWordInjective(Shifted(y, z), Plus(XorWord(sum, y), XorWord(k, z)), Plus(XorWord(sum, y), XorWord(l, z)));
  }

  /**
   * Step `p` under `sum` reads one key word, its number turned by the third and fourth bit of the sum: two keys give
   * the same amount exactly when they agree on that word.
   */
  lemma MixReadsOneWord(sum: word, y: word, z: word, p: nat, key: Key, other: Key)
    ensures var i := XorBits(p % 4, (sum / 4 % 4) as nat);
            i < 4 && (Uint32(key).mix(sum, y, z, p) == Uint32(other).mix(sum, y, z, p) <==> key[i] == other[i])
  {
    KeyIndexIs(sum, p);
    var i := KeyIndex(sum, WordOf(p));
    MixInjective(sum, y, z, key[i], other[i]);
  }

  lemma KeyIndexIs(sum: word, p: nat)
    ensures KeyIndex(sum, WordOf(p)) == XorBits(p % 4, (sum / 4 % 4) as nat)
  {
    assert (WordOf(p) % 4) as nat == p % 4;
  }

  /** The key word that step `p` reads under `sum`. */
  function WordRead(sum: word, p: nat, key: Key): word {
    key[KeyIndex(sum, WordOf(p))]
  }

  lemma PlusZero(a: word)
    ensures Plus(a, 0) == Plus(0, a) == a
  {
  }

  /** Between neighbours of zero a step adds the sum and the key word. */
  lemma MixAtZero(sum: word, p: nat, key: Key)
    ensures Uint32(key).mix(sum, 0, 0, p) as nat == (sum as nat + WordRead(sum, p, key) as nat) % TWO32
  {
    var k := WordRead(sum, p, key);
    XorWordTrivial(0);
    XorWordTrivial(sum);
    XorWordTrivial(k);
    XorWordTrivial(Plus(sum, k));
  }

  /** The left neighbour moved down by five bits and up by four, the right one up by two and down by three. */
  function Neighbours(y: nat, z: nat): nat {
    (XorBits(z / 32, 4 * y % TWO32) + XorBits(y / 8, 16 * z % TWO32)) % TWO32
  }

  lemma ShiftedIs(y: word, z: word)
    ensures Shifted(y, z) as nat == Neighbours(y as nat, z as nat)
  {
  }

  /** A sum equal to the right neighbour cancels it: the key word and the left neighbour join the shifted ones. */
  lemma MixWithoutSum(y: word, z: word, p: nat, key: Key)
    ensures Uint32(key).mix(y, y, z, p) as nat
            == XorBits(Neighbours(y as nat, z as nat), XorBits(WordRead(y, p, key) as nat, z as nat))
  {
    ShiftedIs(y, z);
    XorWordTrivial(y);
    PlusZero(XorWord(WordRead(y, p, key), z));
  }

  /** A key word equal to the left neighbour cancels it: the sum and the right neighbour join the shifted ones. */
  lemma MixWithoutKey(sum: word, y: word, z: word, p: nat, key: Key)
    requires WordRead(sum, p, key) == z
    ensures Uint32(key).mix(sum, y, z, p) as nat
            == XorBits(Neighbours(y as nat, z as nat), XorBits(sum as nat, y as nat))
  {
    ShiftedIs(y, z);
    XorWordTrivial(z);
    PlusZero(XorWord(sum, y));
  }

  /** The step constant is the golden section of 2^32, rounded down. */
  lemma DeltaIsGolden(d: nat, key: Key)
    ensures d == Uint32(key).delta as nat <==> d * (d + TWO32) <= TWO32 * TWO32 < (d + 1) * (d + 1 + TWO32)
  {
    var g := DELTA as nat;
    assert g * (g + TWO32) <= TWO32 * TWO32 < (g + 1) * (g + 1 + TWO32);
    if d < g {
      GoldenGrows(d + 1, g);
    } else if d > g {
      GoldenGrows(g + 1, d);
    }
  }

  lemma GoldenGrows(x: nat, y: nat)
    requires x <= y
    ensures x * (x + TWO32) <= y * (y + TWO32)
  {
    TimesMonotone(x, x + TWO32, y + TWO32);
    TimesMonotone(y + TWO32, x, y);
  }

  lemma Uint32Cancels(key: Key)
    ensures Uint32(key).Cancels()
  {
    assert forall a: word, m: word :: Minus(Plus(a, m), m) == a;
    assert forall a: word, m: word :: Plus(Minus(a, m), m) == a;
  }

  /** The decryptor's `rounds * delta`. */
  function DeltaTimes(r: nat): word {
    WordOf(r * DELTA as nat)
  }

  lemma WrapOnce(x: nat, d: nat)
    ensures (x % TWO32 + d) % TWO32 == (x + d) % TWO32
  {
  }

  lemma DeltaTimesSucc(r: nat)
    ensures DeltaTimes(r + 1) == Plus(DeltaTimes(r), DELTA)
  {
    WrapOnce(r * DELTA as nat, DELTA as nat);
  }

  /** The decryptor's start value is where the encryptor's sum ends. */
  lemma SumIsProduct(r: nat, key: Key)
    ensures SumAfter(r, Uint32(key)) == DeltaTimes(r)
  {
    forall k: nat
      ensures DeltaTimes(k + 1) == Plus(DeltaTimes(k), DELTA)
    {
      DeltaTimesSucc(k);
    }
    SumByCounting(r, Uint32(key), DeltaTimes);
  }

  /** `rounds := 6 + 52/uint32(n)`; Go divides by the low 32 bits of the length. */
  function Rounds(n: nat): (r: nat)
    requires n % TWO32 != 0
  {
    6 + 52 / (n % TWO32)
  }

  /** No more than 52 word updates fit in the passes beyond the sixth, and another pass would not. */
  lemma RoundsEnough(n: nat)
    requires 0 < n < TWO32
    ensures Rounds(n) >= 6 && (Rounds(n) - 6) * n <= 52 < (Rounds(n) - 5) * n
  {
  }

  /** Go panics on that division when the low 32 bits of a length of two or more are zero. */
  predicate Supported(n: nat) {
    n < 2 || n % TWO32 != 0
  }

  function EncryptWords(v: seq<word>, ar: Arithmetic<word>): (w: seq<word>)
    requires Supported(|v|)
    ensures |w| == |v|
  {
    if |v| < 2 then v else EncryptRounds(v, Rounds(|v|), ar)
  }

  function DecryptWords(v: seq<word>, ar: Arithmetic<word>): (w: seq<word>)
    requires Supported(|v|)
    ensures |w| == |v|
  {
    if |v| < 2 then v else DecryptRounds(v, Rounds(|v|), ar)
  }

  lemma WordsInverse(v: seq<word>, ar: Arithmetic<word>)
    requires Supported(|v|) && ar.Cancels()
    ensures DecryptWords(EncryptWords(v, ar), ar) == v
    ensures EncryptWords(DecryptWords(v, ar), ar) == v
  {
    if |v| >= 2 {
      RoundsCancel(v, Rounds(|v|), ar);
    }
  }

  /** For every key, encryption and decryption of word blocks are mutual inverses. */
  lemma BlocksInverse(v: seq<word>, key: Key)
    requires Supported(|v|)
    ensures DecryptWords(EncryptWords(v, Uint32(key)), Uint32(key)) == v
    ensures EncryptWords(DecryptWords(v, Uint32(key)), Uint32(key)) == v
  {
    Uint32Cancels(key);
    WordsInverse(v, Uint32(key));
  }

  /** `xxteaEncryptBlock`. */
  method EncryptBlock(v: array<word>, key: Key)
    requires Supported(v.Length)
    modifies v
    ensures v[..] == EncryptWords(old(v[..]), Uint32(key))
  {
    if v.Length >= 2 {
      EncryptLoop(v, Rounds(v.Length), Uint32(key));
    }
  }

  /** `xxteaDecryptBlock`. */
  method DecryptBlock(v: array<word>, key: Key)
    requires Supported(v.Length)
    modifies v
    ensures v[..] == DecryptWords(old(v[..]), Uint32(key))
  {
    if v.Length >= 2 {
      var rounds := Rounds(v.Length);
      SumIsProduct(rounds, key);
      Uint32Cancels(key);
      DecryptLoop(v, rounds, DeltaTimes(rounds), Uint32(key));
    }
  }

  // ---------- Bytes and words ----------

  function WordsOf(data: bytes): (v: seq<word>)
    ensures |v| == |data| / 4
  {
    if |data| < 4 then [] else [Uint32LE(data)] + WordsOf(data[4..])
  }

  function BytesOf(v: seq<word>): (data: bytes)
    ensures |data| == 4 * |v|
  {
    if v == [] then [] else PutUint32LE(v[0]) + BytesOf(v[1..])
  }

  lemma {:induction false} WordsOfBytes(v: seq<word>)
    ensures WordsOf(BytesOf(v)) == v
  {
    if v != [] {
      var d := BytesOf(v);
      assert d[4..] == BytesOf(v[1..]);
      UintOfPrefix(v[0], BytesOf(v[1..]));
      WordsOfBytes(v[1..]);
    }
  }

  lemma UintOfPrefix(w: word, rest: bytes)
    ensures Uint32LE(PutUint32LE(w) + rest) == w
  {
    WordRoundTrip(w);
  }

  lemma {:induction false} BytesOfWords(data: bytes)
    requires |data| % 4 == 0
    ensures BytesOf(WordsOf(data)) == data
  {
    if data != [] {
      BytesRoundTrip(data);
      BytesOfWords(data[4..]);
      assert data == data[..4] + data[4..];
      assert WordsOf(data)[1..] == WordsOf(data[4..]);
    }
  }

  /** `bytesToUint32sLE`. */
  method BytesToWords(data: bytes) returns (v: array<word>)
    ensures fresh(v) && v[..] == WordsOf(data)
  {
    v := new word[|data| / 4];
    var rest := data;
    for i := 0 to v.Length
      invariant |rest| == |data| - 4 * i
      invariant v[..i] + WordsOf(rest) == WordsOf(data)
    {
      ghost var done := v[..i];
      v[i] := Uint32LE(rest);
      assert v[..i + 1] == done + [v[i]];
      rest := rest[4..];
    }
    assert v[..v.Length] == v[..];
  }

  /** `uint32sToBytesLE`. */
  method WordsToBytes(v: array<word>) returns (data: bytes)
    ensures data == BytesOf(v[..])
  {
    data := [];
    var i := 0;
    while i < v.Length
      invariant 0 <= i <= v.Length
      invariant data + BytesOf(v[i..]) == BytesOf(v[..])
    {
      assert v[i..][1..] == v[i + 1..];
      data := data + PutUint32LE(v[i]);
      i := i + 1;
    }
  }

  // ---------- The cipher suite ----------

  /** What the encryptor feeds to the block cipher: aligned, and one block when there is no data. */
  function Padded(plaintext: bytes): (r: bytes) {
    if plaintext == [] then seq(BLOCK_SIZE, _ => BLOCK_SIZE as byte) else BlockAlign.Pad(plaintext, BLOCK_SIZE)
  }

  function EncryptAligned(data: bytes, ar: Arithmetic<word>): (r: bytes)
    requires Supported(|data| / 4)
    ensures |data| % 4 == 0 ==> |r| == |data|
  {
    BytesOf(EncryptWords(WordsOf(data), ar))
  }

  function DecryptAligned(data: bytes, ar: Arithmetic<word>): (r: bytes)
    requires Supported(|data| / 4)
    ensures |data| % 4 == 0 ==> |r| == |data|
  {
    BytesOf(DecryptWords(WordsOf(data), ar))
  }

  lemma AlignedInverse(data: bytes, ar: Arithmetic<word>)
    requires |data| % 4 == 0 && Supported(|data| / 4) && ar.Cancels()
    ensures DecryptAligned(EncryptAligned(data, ar), ar) == data
    ensures EncryptAligned(DecryptAligned(data, ar), ar) == data
  {
    var v := WordsOf(data);
    WordsInverse(v, ar);
    WordsOfBytes(EncryptWords(v, ar));
    WordsOfBytes(DecryptWords(v, ar));
    BytesOfWords(data);
  }

  function EncryptWith(plaintext: bytes, ar: Arithmetic<word>): (r: Result<bytes, CipherError>) {
    var data := Padded(plaintext);
    if Supported(|data| / 4) then Ok(EncryptAligned(data, ar)) else Err(Panic)
  }

  function DecryptWith(ciphertext: bytes, ar: Arithmetic<word>): (r: Result<bytes, CipherError>) {
    if ciphertext == [] || |ciphertext| % BLOCK_SIZE != 0 then Err(BadCiphertext)
    else if Supported(|ciphertext| / 4) then Ok(DecryptAligned(ciphertext, ar))
    else Err(Panic)
  }

  function Encrypt(plaintext: bytes, key: Key): (r: Result<bytes, CipherError>) {
    EncryptWith(plaintext, Uint32(key))
  }

  function Decrypt(ciphertext: bytes, key: Key): (r: Result<bytes, CipherError>) {
    DecryptWith(ciphertext, Uint32(key))
  }

  lemma PaddedShape(plaintext: bytes)
    ensures Padded(plaintext) != [] && |Padded(plaintext)| % BLOCK_SIZE == 0
    ensures plaintext <= Padded(plaintext)
  {
    BlockAlign.PadAligns(plaintext, BLOCK_SIZE);
  }

  /** Every byte of padding tells how many there are, also where there is nothing else. */
  lemma PaddedTells(plaintext: bytes, i: nat)
    requires |plaintext| <= i < |Padded(plaintext)|
    ensures Padded(plaintext)[i] as nat == |Padded(plaintext)| - |plaintext| <= 8
  {
    BlockAlign.PadAligns(plaintext, BLOCK_SIZE);
    if plaintext != [] {
      BlockAlign.PadTells(plaintext, BLOCK_SIZE, i);
    }
  }

  lemma EightIsFour(n: nat)
    requires n % BLOCK_SIZE == 0
    ensures n % 4 == 0
  {
  }

  lemma DecryptWithUndoesEncrypt(plaintext: bytes, ar: Arithmetic<word>)
    requires ar.Cancels() && EncryptWith(plaintext, ar).Ok?
    ensures var c := EncryptWith(plaintext, ar).value;
            c != [] && |c| % BLOCK_SIZE == 0 && DecryptWith(c, ar) == Ok(Padded(plaintext))
  {
    var data := Padded(plaintext);
    PaddedShape(plaintext);
    EightIsFour(|data|);
    AlignedInverse(data, ar);
    assert |EncryptAligned(data, ar)| == |data|;
  }

  lemma EncryptWithUndoesDecrypt(ciphertext: bytes, ar: Arithmetic<word>)
    requires ar.Cancels() && DecryptWith(ciphertext, ar).Ok?
    ensures EncryptWith(DecryptWith(ciphertext, ar).value, ar) == Ok(ciphertext)
  {
    var data := DecryptAligned(ciphertext, ar);
    EightIsFour(|ciphertext|);
    AlignedInverse(ciphertext, ar);
    assert |data| == |ciphertext|;
    BlockAlign.PadAligns(data, BLOCK_SIZE);
  }

  /** How many words `n` bytes make once they are padded to whole blocks of two words. */
  function WordsNeeded(n: nat): nat {
    (n + BLOCK_SIZE - 1) / BLOCK_SIZE * 2
  }

  /** The lengths the encryptor takes: all but those that make a multiple of 2^32 words. */
  predicate Encryptable(n: nat) {
    n == 0 || WordsNeeded(n) % TWO32 != 0
  }

  lemma PaddedWords(plaintext: bytes)
    ensures |Padded(plaintext)| / 4 == if plaintext == [] then 2 else WordsNeeded(|plaintext|)
  {
    var n, p := |plaintext|, |Padded(plaintext)|;
    PaddedShape(plaintext);
    BlockAlign.PadAligns(plaintext, BLOCK_SIZE);
    assert p == BLOCK_SIZE * (p / BLOCK_SIZE) && n <= p && (n > 0 ==> p < n + BLOCK_SIZE);
  }

  /** Encryption succeeds, and its result decrypts to the padded plaintext, exactly for the encryptable lengths. */
  lemma DecryptUndoesEncrypt(plaintext: bytes, key: Key)
    ensures Encryptable(|plaintext|) <==> Encrypt(plaintext, key).Ok?
    ensures !Encryptable(|plaintext|) ==> Encrypt(plaintext, key) == Err(Panic)
    ensures Encryptable(|plaintext|) ==>
              var c := Encrypt(plaintext, key).value;
              c != [] && |c| % BLOCK_SIZE == 0 && Decrypt(c, key) == Ok(Padded(plaintext))
    ensures plaintext <= Padded(plaintext) && |Padded(plaintext)| % BLOCK_SIZE == 0 && Padded(plaintext) != []
  {
    Uint32Cancels(key);
    PaddedShape(plaintext);
    PaddedWords(plaintext);
    if Encryptable(|plaintext|) {
      DecryptWithUndoesEncrypt(plaintext, Uint32(key));
    }
  }

  /** 2^32 words make the code divide by zero. */
  lemma FourGigaWordsPanic(key: Key)
    ensures Encrypt(seq(4 * TWO32, _ => 0), key) == Err(Panic)
  {
    var zeros: bytes := seq(4 * TWO32, _ => 0);
    assert WordsNeeded(|zeros|) == TWO32;
    DecryptUndoesEncrypt(zeros, key);
  }

  /** Conversely every ciphertext of an acceptable length is the encryption of its decryption. */
  lemma EncryptUndoesDecrypt(ciphertext: bytes, key: Key)
    ensures Decrypt(ciphertext, key).Ok? <==>
              ciphertext != [] && |ciphertext| % BLOCK_SIZE == 0 && Encryptable(|ciphertext|)
    ensures Decrypt(ciphertext, key).Ok? ==> Encrypt(Decrypt(ciphertext, key).value, key) == Ok(ciphertext)
  {
    Uint32Cancels(key);
    if ciphertext != [] && |ciphertext| % BLOCK_SIZE == 0 {
      assert WordsNeeded(|ciphertext|) == |ciphertext| / 4;
    }
    if Decrypt(ciphertext, key).Ok? {
      EncryptWithUndoesDecrypt(ciphertext, Uint32(key));
    }
  }

  /** `xxteaCipher.Encrypt`. */
  method EncryptBytes(plaintext: bytes, key: Key) returns (r: Result<bytes, CipherError>)
    ensures r == Encrypt(plaintext, key)
  {
    var padded := BlockAlign.BlockAlignPad(plaintext, BLOCK_SIZE);
    BlockAlign.PadAligns(plaintext, BLOCK_SIZE);
    if |padded| == 0 {
      padded := seq(BLOCK_SIZE, _ => BLOCK_SIZE as byte);
    }
    var v := BytesToWords(padded);
    if !Supported(v.Length) {
      return Err(Panic);
    }
    EncryptBlock(v, key);
    var ciphertext := WordsToBytes(v);
    r := Ok(ciphertext);
  }

  /** `xxteaCipher.Decrypt`. */
  method DecryptBytes(ciphertext: bytes, key: Key) returns (r: Result<bytes, CipherError>)
    ensures r == Decrypt(ciphertext, key)
  {
    if |ciphertext| == 0 || |ciphertext| % BLOCK_SIZE != 0 {
      return Err(BadCiphertext);
    }
    var v := BytesToWords(ciphertext);
    if !Supported(v.Length) {
      return Err(Panic);
    }
    DecryptBlock(v, key);
    var plaintext := WordsToBytes(v);
    r := Ok(plaintext);
  }
}
