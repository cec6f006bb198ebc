/** Whole sessions: IV uniqueness, the CBC stream, and delivery through a cut-up byte stream. */
module GatewayStream {
  import opened Wrappers
  import opened Bytes
  import opened IvChain
  import opened Ciphers
  import opened GatewaySession
  import BlockAlign
  import Framing

  /** A payload and the randomness available when it is sent. */
  datatype Input = Input(payload: bytes, random: Option<bytes>)

  /** The posts that a sequence of `EncodePost` calls produces; failed calls produce none. */
  function EncodeRun(lib: Library, s: Session, inputs: seq<Input>): (r: (Session, seq<PostInfo>))
    decreases |inputs|
  {
    if inputs == [] then (s, [])
    else
      var (next, sent) := EncodePost(lib, s, inputs[0].payload, inputs[0].random);
      var (end, posts) := EncodeRun(lib, next, inputs[1..]);
      (end, (if sent.Ok? then [sent.value] else []) + posts)
  }

  // ---------- IV uniqueness ----------

  lemma {:induction false} AdvanceFirst(iv: bytes, k: nat)
    ensures Advance(Increment(iv), k) == Advance(iv, k + 1)
  {
    if k > 0 {
      AdvanceFirst(iv, k - 1);
    }
  }

  /** One call of an encrypting session: a failure changes nothing, a post carries and rolls the IV. */
  lemma PostRollsIV(lib: Library, s: Session, payload: bytes, random: Option<bytes>)
    requires s.Consistent() && s.Encrypts()
    ensures var (next, sent) := EncodePost(lib, s, payload, random);
            && (sent.Err? ==> next == s)
            && (sent.Ok? ==>
                  && next == s.(sendIV := Roll(s.algorithm.Policy(), s.sendIV, sent.value.data), sequence := s.sequence + 1)
                  && sent.value.crypto.Some? && sent.value.crypto.value.iv == s.sendIV)
  {
  }

  /** The posts carry consecutive IVs from `iv` on. */
  predicate ConsecutiveIVs(posts: seq<PostInfo>, iv: bytes)
    decreases |posts|
  {
    posts == [] ||
    (posts[0].crypto.Some? && posts[0].crypto.value.iv == iv && ConsecutiveIVs(posts[1..], Increment(iv)))
  }

  lemma {:induction false} ConsecutiveIVAt(posts: seq<PostInfo>, iv: bytes, i: nat)
    requires ConsecutiveIVs(posts, iv) && i < |posts|
    ensures posts[i].crypto.Some? && posts[i].crypto.value.iv == Advance(iv, i)
    decreases |posts|
  {
    if i > 0 {
      ConsecutiveIVAt(posts[1..], Increment(iv), i - 1);
      AdvanceFirst(iv, i - 1);
    }
  }

  /** In an AEAD session the i-th post carries the i-th increment of the first IV. */
  lemma {:induction false} AeadIVs(lib: Library, s: Session, inputs: seq<Input>)
    requires s.Consistent() && s.Encrypts() && s.algorithm.IsAead()
    ensures ConsecutiveIVs(EncodeRun(lib, s, inputs).1, s.sendIV)
    decreases |inputs|
  {
    if inputs != [] {
      var (next, sent) := EncodePost(lib, s, inputs[0].payload, inputs[0].random);
      PostRollsIV(lib, s, inputs[0].payload, inputs[0].random);
      AeadIVs(lib, next, inputs[1..]);
      var rest, posts := EncodeRun(lib, next, inputs[1..]).1, EncodeRun(lib, s, inputs).1;
      if sent.Ok? {
        assert posts == [sent.value] + rest && posts[1..] == rest;
      } else {
        assert posts == rest;
      }
    }
  }

  /** Two posts of one AEAD session share an IV exactly when a multiple of 256^n posts lie between them. */
  lemma IVsUnique(lib: Library, s: Session, inputs: seq<Input>, i: nat, j: nat)
    requires s.Consistent() && s.Encrypts() && s.algorithm.IsAead()
    requires i <= j < |EncodeRun(lib, s, inputs).1|
    ensures var posts := EncodeRun(lib, s, inputs).1;
            && posts[i].crypto.Some? && posts[j].crypto.Some?
            && (posts[i].crypto.value.iv == posts[j].crypto.value.iv <==> (j - i) % Pow256(|s.sendIV|) == 0)
  {
    var posts := EncodeRun(lib, s, inputs).1;
    AeadIVs(lib, s, inputs);
    ConsecutiveIVAt(posts, s.sendIV, i);
    ConsecutiveIVAt(posts, s.sendIV, j);
    AdvanceCycle(s.sendIV, i, j);
  }

  // ---------- The CBC stream ----------

  /** The padded bodies of the calls that produced a post, end to end. */
  function PaddedBodies(lib: Library, s: Session, inputs: seq<Input>): (r: bytes)
    decreases |inputs|
  {
    if inputs == [] then []
    else
      var (next, sent) := EncodePost(lib, s, inputs[0].payload, inputs[0].random);
      (if sent.Ok? then BlockAlign.Pad(Compacted(lib, s, inputs[0].payload).value, AES_BLOCK) else [])
      + PaddedBodies(lib, next, inputs[1..])
  }

  function DataOf(posts: seq<PostInfo>): bytes {
    if posts == [] then [] else posts[0].data + DataOf(posts[1..])
  }

  /** A post of a CBC session is the encryption of its padded body, whose tail the chain rolls to. */
  lemma PostIsCbc(lib: Library, s: Session, input: Input)
    requires s.Consistent() && s.Encrypts() && s.algorithm.IsCbc() && |s.sendIV| == AES_BLOCK
    ensures var (next, sent) := EncodePost(lib, s, input.payload, input.random);
            && next.Consistent() && next.Encrypts() && next.algorithm.IsCbc() && |next.sendIV| == AES_BLOCK
            && next.cipher == s.cipher && s.cipher.value.CbcSuite?
            && (sent.Err? ==> next == s)
            && (sent.Ok? ==>
                  && Compacted(lib, s, input.payload).Ok?
                  && var padded := BlockAlign.Pad(Compacted(lib, s, input.payload).value, AES_BLOCK);
                     && |padded| % AES_BLOCK == 0
                     && sent.value.data == CbcEncrypt(lib, s.cipher.value.key, padded, s.sendIV)
                     && next.sendIV == Roll(RollCiphertextTail, s.sendIV, sent.value.data))
  {
    PostRollsIV(lib, s, input.payload, input.random);
    if EncodePost(lib, s, input.payload, input.random).1.Ok? {
      BlockAlign.PadAligns(Compacted(lib, s, input.payload).value, AES_BLOCK);
    }
  }

  /** All ciphertexts of a CBC session form one CBC encryption of all padded bodies. */
  lemma {:induction false} CbcSessionIsOneStream(lib: Library, s: Session, inputs: seq<Input>)
    requires s.Consistent() && s.Encrypts() && s.algorithm.IsCbc() && |s.sendIV| == AES_BLOCK
    ensures |PaddedBodies(lib, s, inputs)| % AES_BLOCK == 0
    ensures DataOf(EncodeRun(lib, s, inputs).1)
            == CbcEncrypt(lib, s.cipher.value.key, PaddedBodies(lib, s, inputs), s.sendIV)
    decreases |inputs|
  {
    if inputs != [] {
      PostIsCbc(lib, s, inputs[0]);
      var (next, sent) := EncodePost(lib, s, inputs[0].payload, inputs[0].random);
      CbcSessionIsOneStream(lib, next, inputs[1..]);
      var rest, posts := EncodeRun(lib, next, inputs[1..]).1, EncodeRun(lib, s, inputs).1;
      var more := PaddedBodies(lib, next, inputs[1..]);
      if sent.Ok? {
        var padded := BlockAlign.Pad(Compacted(lib, s, inputs[0].payload).value, AES_BLOCK);
        CbcContinues(lib, s.cipher.value.key, padded, more, s.sendIV);
        assert posts == [sent.value] + rest && posts[1..] == rest;
      } else {
        assert posts == rest && PaddedBodies(lib, s, inputs) == more;
      }
    }
  }

  // ---------- From payloads to a byte stream and back ----------

  /** FlatBuffers serialisation of a post with its sequence number; parsing gives the post back. */
  datatype Serializer = Serializer(build: (nat, PostInfo) -> bytes, parse: bytes -> Option<PostInfo>)
  {
    ghost predicate Sound() {
      forall n, p :: parse(build(n, p)) == Some(p)
    }
  }

  /** The messages that the calls put on the wire, before framing. */
  function Messages(lib: Library, codec: Serializer, s: Session, inputs: seq<Input>): (r: seq<bytes>)
    decreases |inputs|
  {
    if inputs == [] then []
    else
      var (next, sent) := EncodePost(lib, s, inputs[0].payload, inputs[0].random);
      (if sent.Ok? then [codec.build(next.sequence, sent.value)] else []) + Messages(lib, codec, next, inputs[1..])
  }

  /** The payloads whose calls succeeded. */
  function Accepted(lib: Library, s: Session, inputs: seq<Input>): (r: seq<bytes>)
    decreases |inputs|
  {
    if inputs == [] then []
    else
      var (next, sent) := EncodePost(lib, s, inputs[0].payload, inputs[0].random);
      (if sent.Ok? then [inputs[0].payload] else []) + Accepted(lib, next, inputs[1..])
  }

  /** `DecodeMessage` on each frame; reading stops at the first that fails. */
  function Receive(lib: Library, codec: Serializer, s: Session, messages: seq<bytes>): (r: (seq<bytes>, bool))
    decreases |messages|
  {
    if messages == [] then ([], true)
    else
      match codec.parse(messages[0])
      case None => ([], false)
      case Some(post) =>
        var (next, got) := DecodePost(lib, s, post);
        if got.Err? then ([], false)
        else
          var (more, ok) := Receive(lib, codec, next, messages[1..]);
          ([got.value] + more, ok)
  }

  /** No accepted payload reduces to an empty body under CBC. */
  predicate NoneLost(lib: Library, s: Session, inputs: seq<Input>)
    decreases |inputs|
  {
    inputs == [] ||
    (var (next, sent) := EncodePost(lib, s, inputs[0].payload, inputs[0].random);
     (sent.Ok? ==> !Lost(s, Compacted(lib, s, inputs[0].payload).value)) && NoneLost(lib, next, inputs[1..]))
  }

  lemma PairedAfterPost(lib: Library, a: Session, b: Session, input: Input)
    requires Paired(a, b)
    ensures var (next, sent) := EncodePost(lib, a, input.payload, input.random);
            && Paired(next, b)
            && (sent.Ok? ==> Paired(next, DecodePost(lib, b, sent.value).0))
  {
  }

  lemma {:induction false} MessagesDelivered(lib: Library, codec: Serializer, a: Session, b: Session, inputs: seq<Input>)
    requires codec.Sound() && Paired(a, b) && NoneLost(lib, a, inputs)
    ensures Receive(lib, codec, b, Messages(lib, codec, a, inputs)) == (Accepted(lib, a, inputs), true)
    decreases |inputs|
  {
    if inputs != [] {
      var input := inputs[0];
      var (next, sent) := EncodePost(lib, a, input.payload, input.random);
      PairedAfterPost(lib, a, b, input);
      var more := Messages(lib, codec, next, inputs[1..]);
      if sent.Ok? {
        PostRoundTrip(lib, a, b, input.payload, input.random);
        var messages := Messages(lib, codec, a, inputs);
        assert messages == [codec.build(next.sequence, sent.value)] + more && messages[1..] == more;
        MessagesDelivered(lib, codec, next, DecodePost(lib, b, sent.value).0, inputs[1..]);
      } else {
        assert Messages(lib, codec, a, inputs) == more;
        assert Accepted(lib, a, inputs) == Accepted(lib, next, inputs[1..]);
        MessagesDelivered(lib, codec, next, b, inputs[1..]);
      }
    }
  }

  /**
    End to end: frame everything the sender accepts, cut the byte stream anywhere,
    and the receiver reads back exactly the accepted payloads, in order, with nothing left over.
   */
  lemma StreamDelivers(lib: Library, codec: Serializer, hash: Framing.Hash, a: Session, b: Session,
                       inputs: seq<Input>, chunks: seq<bytes>)
    requires codec.Sound() && Paired(a, b) && NoneLost(lib, a, inputs)
    requires Framing.Fits(Messages(lib, codec, a, inputs))
    requires Framing.Concat(chunks) == Framing.EncodeAll(hash, Messages(lib, codec, a, inputs))
    ensures var d := Framing.Feed(hash, chunks);
            d.Decoded? && d.remaining == [] && Receive(lib, codec, b, d.frames) == (Accepted(lib, a, inputs), true)
  {
    Framing.FeedIsDecode(hash, chunks);
    Framing.WireRoundTrip(hash, Messages(lib, codec, a, inputs));
    MessagesDelivered(lib, codec, a, b, inputs);
  }
}
