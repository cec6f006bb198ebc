/** The wire format of frames: hash, length, payload. The hash is any function of the payload. */
module Framing {
  import opened Bytes

  const HEADER: nat := 8

  type Hash = bytes -> word

  datatype Decoded = Decoded(frames: seq<bytes>, remaining: bytes) | HashMismatch

  function Prepend(frames: seq<bytes>, d: Decoded): Decoded {
    match d
    case Decoded(more, remaining) => Decoded(frames + more, remaining)
    case HashMismatch => HashMismatch
  }

  // ---------- Encoding ----------

  function Encode(hash: Hash, payload: bytes): (frame: bytes)
    ensures |frame| == HEADER + |payload|
  {
    PutUint32LE(hash(payload)) + PutUint32LE(WordOf(|payload|)) + payload
  }

  function EncodeAll(hash: Hash, payloads: seq<bytes>): bytes {
    if payloads == [] then [] else Encode(hash, payloads[0]) + EncodeAll(hash, payloads[1..])
  }

  lemma EncodeAllCons(hash: Hash, p: bytes, ps: seq<bytes>)
    ensures EncodeAll(hash, [p] + ps) == Encode(hash, p) + EncodeAll(hash, ps)
  {
    assert ([p] + ps)[1..] == ps;
  }

  lemma Assoc(a: bytes, b: bytes, c: bytes)
    ensures (a + b) + c == a + (b + c)
  {
  }

  /** Lengths that the 32-bit length field can carry. */
  predicate Fits(payloads: seq<bytes>) {
    forall p :: p in payloads ==> |p| < TWO32
  }

  /** `EncodeFrame`. */
  method EncodeFrame(hash: Hash, fbData: bytes) returns (r: bytes)
    ensures r == Encode(hash, fbData)
  {
    var frame := new byte[HEADER + |fbData|];
    var head := PutUint32LE(hash(fbData)) + PutUint32LE(WordOf(|fbData|));
    forall i | 0 <= i < HEADER {
      frame[i] := head[i];
    }
    forall i | HEADER <= i < frame.Length {
      frame[i] := fbData[i - HEADER];
    }
    r := frame[..];
  }

  // ---------- Decoding ----------

  /** The length the header announces. */
  function Announced(data: bytes): (n: nat)
    requires |data| >= HEADER
  {
    Uint32LE(data[4..8]) as nat
  }

  /** No whole frame at the front: more data is needed. */
  predicate Incomplete(data: bytes) {
    |data| < HEADER || |data| < HEADER + Announced(data)
  }

  function Decode(hash: Hash, data: bytes): (d: Decoded)
    decreases |data|
  {
    if Incomplete(data) then Decoded([], data)
    else
      var total := HEADER + Announced(data);
      var payload := data[HEADER..total];
      if hash(payload) != Uint32LE(data[0..4]) then HashMismatch
      else Prepend([payload], Decode(hash, data[total..]))
  }

  /** `DecodeFrames`. */
  method DecodeFrames(hash: Hash, input: bytes) returns (d: Decoded)
    ensures d == Decode(hash, input)
  {
    var data, frames := input, [];
    while |data| >= HEADER
      invariant Decode(hash, input) == Prepend(frames, Decode(hash, data))
      decreases |data|
    {
      var expectedHash := Uint32LE(data[0..4]);
      var total := HEADER + Uint32LE(data[4..8]) as nat;
      if |data| < total {
        break;
      }
      var payload := data[HEADER..total];
      if hash(payload) != expectedHash {
        return HashMismatch;
      }
      ghost var rest := Decode(hash, data[total..]);
      assert Prepend(frames, Prepend([payload], rest)) == Prepend(frames + [payload], rest) by {
        PrependTwice(frames, [payload], rest);
      }
      frames := frames + [payload];
      data := data[total..];
    }
    d := Decoded(frames, data);
    assert frames + [] == frames;
  }

  lemma PrependTwice(a: seq<bytes>, b: seq<bytes>, d: Decoded)
    ensures Prepend(a, Prepend(b, d)) == Prepend(a + b, d)
  {
    if d.Decoded? {
      assert a + (b + d.frames) == (a + b) + d.frames;
    }
  }

  // ---------- Frames come back ----------

  lemma FrameFields(hash: Hash, payload: bytes, rest: bytes)
    ensures var data := Encode(hash, payload) + rest;
            && |data| >= HEADER && data[0..4] == PutUint32LE(hash(payload))
            && Uint32LE(data[0..4]) == hash(payload)
            && Announced(data) == |payload| % TWO32
            && data[HEADER..HEADER + |payload|] == payload && data[HEADER + |payload|..] == rest
  {
    var data := Encode(hash, payload) + rest;
    assert data[0..4] == PutUint32LE(hash(payload));
    assert data[4..8] == PutUint32LE(WordOf(|payload|));
    WordRoundTrip(hash(payload));
    WordRoundTrip(WordOf(|payload|));
  }

  /** The number four bytes spell, lowest first. */
  function Spelt(b: bytes): nat
    requires |b| == 4
  {
    b[0] as nat + 256 * b[1] as nat + 65536 * b[2] as nat + 16777216 * b[3] as nat
  }

  /** A frame is eight bytes of header, hash before length, both lowest byte first, and then the payload. */
  lemma FrameLayout(hash: Hash, payload: bytes)
    ensures var frame := Encode(hash, payload);
            && |frame| == 8 + |payload| && Spelt(frame[0..4]) == hash(payload) as nat
            && Spelt(frame[4..8]) == |payload| % TWO32 && frame[8..] == payload
  {
    var frame := Encode(hash, payload);
    FrameFields(hash, payload, []);
    assert frame + [] == frame;
  }

  lemma FrameDecodes(hash: Hash, payload: bytes, rest: bytes)
    requires |payload| < TWO32
    ensures Decode(hash, Encode(hash, payload) + rest) == Prepend([payload], Decode(hash, rest))
  {
    FrameFields(hash, payload, rest);
  }

  /** Encoded frames come back in order, in front of whatever follows them. */
  lemma {:induction false} FramesDecode(hash: Hash, payloads: seq<bytes>, rest: bytes)
    requires Fits(payloads)
    ensures Decode(hash, EncodeAll(hash, payloads) + rest) == Prepend(payloads, Decode(hash, rest))
  {
    if payloads == [] {
      assert EncodeAll(hash, payloads) + rest == rest;
      assert Prepend([], Decode(hash, rest)) == Decode(hash, rest);
    } else {
      var p, ps := payloads[0], payloads[1..];
      var tail, d := EncodeAll(hash, ps) + rest, Decode(hash, rest);
      calc {
        Decode(hash, EncodeAll(hash, payloads) + rest);
        { Assoc(Encode(hash, p), EncodeAll(hash, ps), rest); }
        Decode(hash, Encode(hash, p) + tail);
        { FrameDecodes(hash, p, tail); }
        Prepend([p], Decode(hash, tail));
        { FramesDecode(hash, ps, rest); }
        Prepend([p], Prepend(ps, d));
        { PrependTwice([p], ps, d); assert [p] + ps == payloads; }
        Prepend(payloads, d);
      }
    }
  }

  /** A list of payloads survives the wire exactly when every length fits 32 bits. */
  lemma {:induction false} WireRoundTrip(hash: Hash, payloads: seq<bytes>)
    ensures Decode(hash, EncodeAll(hash, payloads)) == Decoded(payloads, []) <==> Fits(payloads)
  {
    if Fits(payloads) {
      FramesDecode(hash, payloads, []);
      assert EncodeAll(hash, payloads) + [] == EncodeAll(hash, payloads);
      assert payloads + [] == payloads;
    } else {
      var p, ps := payloads[0], payloads[1..];
      if |p| < TWO32 {
        assert payloads == [p] + ps;
        WireRoundTrip(hash, ps);
        FrameDecodes(hash, p, EncodeAll(hash, ps));
        var d := Decode(hash, EncodeAll(hash, ps));
        if d.Decoded? && [p] + d.frames == payloads {
          assert ([p] + d.frames)[1..] == d.frames;
        }
      } else {
        FrameFields(hash, p, EncodeAll(hash, ps));
      }
    }
  }

  /** What decoding means: the frames and the remainder spell the input, and no more frame is complete. */
  lemma {:induction false} DecodeMeaning(hash: Hash, data: bytes, frames: seq<bytes>, remaining: bytes)
    ensures Decode(hash, data) == Decoded(frames, remaining)
      <==> Fits(frames) && data == EncodeAll(hash, frames) + remaining && Incomplete(remaining)
  {
    if Fits(frames) && data == EncodeAll(hash, frames) + remaining && Incomplete(remaining) {
      FramesDecode(hash, frames, remaining);
      assert frames + [] == frames;
    }
    if Decode(hash, data) == Decoded(frames, remaining) {
      DecodedSpells(hash, data);
    }
  }

  lemma FrameSpells(hash: Hash, data: bytes)
    requires !Incomplete(data)
    requires hash(data[HEADER..HEADER + Announced(data)]) == Uint32LE(data[0..4])
    ensures var total := HEADER + Announced(data);
            data == Encode(hash, data[HEADER..total]) + data[total..]
  {
    var total := HEADER + Announced(data);
    BytesRoundTrip(data[0..4]);
    BytesRoundTrip(data[4..8]);
    assert WordOf(total - HEADER) == Uint32LE(data[4..8]);
    assert Encode(hash, data[HEADER..total]) == data[0..4] + data[4..8] + data[HEADER..total];
  }

  lemma {:induction false} DecodedSpells(hash: Hash, data: bytes)
    requires Decode(hash, data).Decoded?
    ensures var d := Decode(hash, data);
            Fits(d.frames) && data == EncodeAll(hash, d.frames) + d.remaining && Incomplete(d.remaining)
    decreases |data|
  {
    if !Incomplete(data) {
      var total := HEADER + Announced(data);
      var d, more := Decode(hash, data), Decode(hash, data[total..]);
      var frame := Encode(hash, data[HEADER..total]);
      assert data == frame + data[total..] by { FrameSpells(hash, data); }
      DecodedSpells(hash, data[total..]);
      EncodeAllCons(hash, data[HEADER..total], more.frames);
      Assoc(frame, EncodeAll(hash, more.frames), more.remaining);
    }
  }

  // ---------- Chunks ----------

  /** Decoding in two chunks, keeping the remainder, is decoding at once. */
  lemma {:induction false} ChunkInvariant(hash: Hash, a: bytes, b: bytes)
    ensures Decode(hash, a + b) ==
      match Decode(hash, a)
      case Decoded(frames, remaining) => Prepend(frames, Decode(hash, remaining + b))
      case HashMismatch => HashMismatch
    decreases |a|
  {
    if Incomplete(a) {
      assert Prepend([], Decode(hash, a + b)) == Decode(hash, a + b);
    } else {
      var total := HEADER + Announced(a);
      assert (a + b)[0..4] == a[0..4] && (a + b)[4..8] == a[4..8];
      assert (a + b)[HEADER..total] == a[HEADER..total];
      assert (a + b)[total..] == a[total..] + b;
      ChunkInvariant(hash, a[total..], b);
      var d := Decode(hash, a[total..]);
      if d.Decoded? {
        PrependTwice([a[HEADER..total]], d.frames, Decode(hash, d.remaining + b));
      }
    }
  }

  function Concat(chunks: seq<bytes>): bytes {
    if chunks == [] then [] else Concat(chunks[..|chunks| - 1]) + chunks[|chunks| - 1]
  }

  /** A reader that decodes chunk by chunk, carrying the remainder. */
  function Feed(hash: Hash, chunks: seq<bytes>): Decoded {
    if chunks == [] then Decoded([], [])
    else
      match Feed(hash, chunks[..|chunks| - 1])
      case Decoded(frames, remaining) => Prepend(frames, Decode(hash, remaining + chunks[|chunks| - 1]))
      case HashMismatch => HashMismatch
  }

  /** However the stream is cut into chunks, the reader sees the same frames. */
  lemma {:induction false} FeedIsDecode(hash: Hash, chunks: seq<bytes>)
    ensures Feed(hash, chunks) == Decode(hash, Concat(chunks))
  {
    if chunks != [] {
      var init, last := chunks[..|chunks| - 1], chunks[|chunks| - 1];
      FeedIsDecode(hash, init);
      ChunkInvariant(hash, Concat(init), last);
    }
  }
}
