/** The atgateway session: handshake IV set-up, and the post pipeline in both directions. */
module GatewaySession {
  import opened Wrappers
  import opened Bytes
  import opened IvChain
  import opened Ciphers

  datatype CryptoInfo = CryptoInfo(algorithm: Algorithm, iv: bytes, aad: bytes)
  datatype CompressionInfo = CompressionInfo(algorithm: CompressionAlgorithm, originalSize: nat)
  datatype PostInfo = PostInfo(crypto: Option<CryptoInfo>, compression: Option<CompressionInfo>, length: nat, data: bytes)

  datatype PostError =
    | HandshakeIncomplete | TooLarge | CompressFailed | NoRandomness
    | CipherFailed(cause: CipherError) | DecompressFailed | KeyAgreementFailed | NoSuchCompressor

  /** The session fields that the handshake and the post pipeline read or write. */
  datatype Session = Session(
    handshakeDone: bool,
    algorithm: Algorithm,
    compression: CompressionAlgorithm,
    cipher: Option<Suite>,
    policy: RollPolicy,
    sendIV: bytes,
    recvIV: bytes,
    sessionToken: bytes,
    compressor: Option<CompressionAlgorithm>,
    threshold: nat,
    maxPostSize: nat,
    sequence: nat)
  {
    /** Posts leave this session encrypted. */
    predicate Encrypts() {
      cipher.Some? && algorithm != CryptoNone
    }

    /** The cipher, its algorithm and its policy belong together. */
    predicate Consistent() {
      && (Encrypts() ==> Fits(cipher.value, algorithm) && policy == algorithm.Policy())
      && (compressor.Some? ==> compressor.value != CompressionNone)
      && (compressor.Some? ==> compressor.value == compression)
    }
  }

  // ---------- Sending ----------

  /** The payload as it goes to the cipher: compressed when that is worth it. */
  function Compacted(lib: Library, s: Session, payload: bytes): (r: Result<bytes, PostError>) {
    if s.compressor.Some? && s.threshold > 0 && |payload| >= s.threshold then
      match lib.compress(s.compressor.value, payload)
      case None => Err(CompressFailed)
      case Some(c) => Ok(if |c| < |payload| then c else payload)
    else Ok(payload)
  }

  /** The encryption step: the next sending IV, and what a body is sent as. */
  function Sealed(lib: Library, s: Session, body: bytes, random: Option<bytes>)
    : (r: (bytes, Result<(Option<CryptoInfo>, bytes), PostError>))
  {
    if !s.Encrypts() then (s.sendIV, Ok((None, body)))
    else if s.cipher.value.AeadSuite? && random.None? then (s.sendIV, Err(NoRandomness))
    else
      var aad := if s.cipher.value.AeadSuite? then random.value else [];
      match Encrypt(lib, s.cipher.value, body, s.sendIV, aad)
      case Err(e) => (s.sendIV, Err(CipherFailed(e)))
      case Ok(c) => (Roll(s.policy, s.sendIV, c), Ok((Some(CryptoInfo(s.algorithm, s.sendIV, aad)), c)))
  }

  /** `EncodePost`, up to serialisation; `random` is what the random source delivers. */
  function EncodePost(lib: Library, s: Session, payload: bytes, random: Option<bytes>)
    : (r: (Session, Result<PostInfo, PostError>))
  {
    if !s.handshakeDone then (s, Err(HandshakeIncomplete))
    else if s.maxPostSize > 0 && |payload| > s.maxPostSize then (s, Err(TooLarge))
    else
      match Compacted(lib, s, payload)
      case Err(e) => (s, Err(e))
      case Ok(body) =>
        var info := if |body| < |payload| then Some(CompressionInfo(s.compression, |body|)) else None;
        var (iv, sealed) := Sealed(lib, s, body, random);
        match sealed
        case Err(e) => (s, Err(e))
        case Ok((crypto, data)) =>
          (s.(sendIV := iv, sequence := s.sequence + 1), Ok(PostInfo(crypto, info, |payload|, data)))
  }

  // ---------- Receiving ----------

  function Trim(data: bytes, n: nat): (r: bytes) {
    if |data| > n then data[..n] else data
  }

  /** The decryption step: the message's own IV when present, else the tracked one. */
  function Unseal(lib: Library, s: Session, post: PostInfo): (r: (Session, Result<bytes, PostError>)) {
    if post.crypto.Some? && post.crypto.value.algorithm != CryptoNone && s.cipher.Some? then
      var info := post.crypto.value;
      var iv := if info.iv == [] then s.recvIV else info.iv;
      match Decrypt(lib, s.cipher.value, post.data, iv, info.aad)
      case Err(e) => (s, Err(CipherFailed(e)))
      case Ok(d) => (s.(recvIV := Roll(s.policy, iv, post.data)), Ok(d))
    else (s, Ok(post.data))
  }

  /** The decompression step and the final trim to the carried length. */
  function Expand(lib: Library, s: Session, post: PostInfo, data: bytes): (r: Result<bytes, PostError>) {
    if post.compression.Some? && post.compression.value.algorithm != CompressionNone && s.compressor.Some? then
      match lib.decompress(s.compressor.value, Trim(data, post.compression.value.originalSize), post.length)
      case None => Err(DecompressFailed)
      case Some(d) => Ok(Trim(d, post.length))
    else Ok(Trim(data, post.length))
  }

  /** `decodePostPayload`. */
  function DecodePost(lib: Library, s: Session, post: PostInfo): (r: (Session, Result<bytes, PostError>)) {
    var (t, unsealed) := Unseal(lib, s, post);
    match unsealed
    case Err(e) => (t, Err(e))
    case Ok(d) => (t, Expand(lib, s, post, d))
  }

  // ---------- One post, sent and received ----------

  /** The receiver negotiated the same cipher and compressor as the sender. */
  predicate Paired(a: Session, b: Session) {
    && a.Consistent()
    && (a.Encrypts() ==> b.cipher == a.cipher && b.policy == a.policy)
    && b.compressor == a.compressor
  }

  /** The one body that does not survive: nothing at all, sent through CBC. */
  predicate Lost(s: Session, body: bytes) {
    s.Encrypts() && s.algorithm.IsCbc() && body == []
  }

  lemma CompactedExpands(lib: Library, a: Session, b: Session, payload: bytes, post: PostInfo, data: bytes)
    requires Paired(a, b)
    requires Compacted(lib, a, payload).Ok?
    requires var body := Compacted(lib, a, payload).value;
             && body <= data
             && post.length == |payload|
             && post.compression == if |body| < |payload| then Some(CompressionInfo(a.compression, |body|)) else None
    ensures Expand(lib, b, post, data) == Ok(payload)
  {
    var body := Compacted(lib, a, payload).value;
    assert Trim(data, |body|) == body;
  }

  /** The payload comes back exactly, unless it is an empty body under CBC. */
  lemma PostRoundTrip(lib: Library, a: Session, b: Session, payload: bytes, random: Option<bytes>)
    requires Paired(a, b)
    requires EncodePost(lib, a, payload, random).1.Ok?
    ensures Compacted(lib, a, payload).Ok?
    ensures var post := EncodePost(lib, a, payload, random).1.value;
            DecodePost(lib, b, post).1 == Ok(payload) <==> !Lost(a, Compacted(lib, a, payload).value)
  {
    var body, post := Compacted(lib, a, payload).value, EncodePost(lib, a, payload, random).1.value;
    if a.Encrypts() {
      SuiteRoundTrip(lib, a.cipher.value, body, a.sendIV, post.crypto.value.aad);
      EmptyIVIsIgnored(lib, a, b, post);
    }
    if Unseal(lib, b, post).1.Ok? {
      CompactedExpands(lib, a, b, payload, post, Unseal(lib, b, post).1.value);
    }
  }

  /** An empty IV is only ever carried for XXTEA, which does not look at it. */
  lemma EmptyIVIsIgnored(lib: Library, a: Session, b: Session, post: PostInfo)
    requires Paired(a, b) && a.Encrypts() && post.crypto.Some?
    requires post.crypto.value == CryptoInfo(a.algorithm, a.sendIV, post.crypto.value.aad)
    requires a.algorithm != CryptoXxtea ==> a.sendIV != []
    ensures var d := Decrypt(lib, a.cipher.value, post.data, a.sendIV, post.crypto.value.aad);
            Unseal(lib, b, post).1 == match d { case Ok(v) => Ok(v) case Err(e) => Err(CipherFailed(e)) }
  {
  }

  // ---------- Both IV chains over a run ----------

  /** How a sender treats the IV of one post. */
  datatype IVMode = Omit | Explicit | Reset(iv: bytes)

  /** A sender that may leave the IV out or start its chain anew; without a post nothing changes. */
  function SendWith(lib: Library, a: Session, payload: bytes, random: Option<bytes>, mode: IVMode): (r: (Session, Option<PostInfo>)) {
    var start := if mode.Reset? then a.(sendIV := mode.iv) else a;
    var (next, sent) := EncodePost(lib, start, payload, random);
    match sent
    case Err(_) => (a, None)
    case Ok(post) =>
      (next, Some(if mode.Omit? && post.crypto.Some? then post.(crypto := Some(post.crypto.value.(iv := []))) else post))
  }

  /** The receiver tracks the sender's IV (XXTEA keeps none). */
  predicate InSync(a: Session, b: Session) {
    a.Encrypts() && a.algorithm.IVSize() > 0 ==> b.recvIV == a.sendIV
  }

  /** What arrives: a post of the sender, or something the receiver's cipher rejects. */
  datatype Event = Sent(payload: bytes, random: Option<bytes>, mode: IVMode) | Arrived(post: PostInfo)

  predicate Rejected(lib: Library, b: Session, post: PostInfo) {
    Unseal(lib, b, post).1.Err?
  }

  /** One event: the two sessions afterwards and what the receiver hands on. */
  function Step(lib: Library, a: Session, b: Session, e: Event): (r: (Session, Session, seq<bytes>)) {
    match e
    case Arrived(post) => (a, DecodePost(lib, b, post).0, [])
    case Sent(payload, random, mode) =>
      var (a', sent) := SendWith(lib, a, payload, random, mode);
      match sent
      case None => (a', b, [])
      case Some(post) =>
        var (b', got) := DecodePost(lib, b, post);
        (a', b', if got.Ok? then [got.value] else [])
  }

  function Run(lib: Library, a: Session, b: Session, events: seq<Event>): (r: (Session, Session, seq<bytes>))
    decreases |events|
  {
    if events == [] then (a, b, [])
    else
      var (a', b', got) := Step(lib, a, b, events[0]);
      var (a'', b'', more) := Run(lib, a', b', events[1..]);
      (a'', b'', got + more)
  }

  /** The event is one the theorem covers: no empty CBC body, no foreign post that decrypts. */
  predicate Covered(lib: Library, a: Session, b: Session, e: Event) {
    match e
    case Arrived(post) => Rejected(lib, b, post)
    case Sent(payload, _, _) => Compacted(lib, a, payload).Ok? ==> !Lost(a, Compacted(lib, a, payload).value)
  }

  predicate RunCovered(lib: Library, a: Session, b: Session, events: seq<Event>)
    decreases |events|
  {
    events == [] ||
    (Covered(lib, a, b, events[0]) &&
     RunCovered(lib, Step(lib, a, b, events[0]).0, Step(lib, a, b, events[0]).1, events[1..]))
  }

  /** The payloads of the posts that were really sent, in order. */
  function SentPayloads(lib: Library, a: Session, events: seq<Event>): seq<bytes>
    decreases |events|
  {
    if events == [] then []
    else
      match events[0]
      case Arrived(_) => SentPayloads(lib, a, events[1..])
      case Sent(payload, random, mode) =>
        var (a', sent) := SendWith(lib, a, payload, random, mode);
        (if sent.Some? then [payload] else []) + SentPayloads(lib, a', events[1..])
  }

  /** A failed encode leaves the sender as it was; a failed decrypt leaves the receiver as it was. */
  lemma FailureKeepsChains(lib: Library, s: Session, payload: bytes, random: Option<bytes>, post: PostInfo)
    ensures EncodePost(lib, s, payload, random).1.Err? ==> EncodePost(lib, s, payload, random).0 == s
    ensures Rejected(lib, s, post) ==> DecodePost(lib, s, post).0 == s && DecodePost(lib, s, post).1.Err?
  {
  }

  /** The receiver gets the body out of a post and rolls its chain as the sender did. */
  lemma SendUnseals(lib: Library, a: Session, b: Session, payload: bytes, random: Option<bytes>, mode: IVMode)
    requires Paired(a, b) && InSync(a, b)
    requires SendWith(lib, a, payload, random, mode).1.Some?
    requires Covered(lib, a, b, Sent(payload, random, mode))
    ensures Compacted(lib, a, payload).Ok?
    ensures var (a', sent) := SendWith(lib, a, payload, random, mode);
            var (b', data) := Unseal(lib, b, sent.value);
            data.Ok? && Compacted(lib, a, payload).value <= data.value && Paired(a', b') && InSync(a', b')
  {
    var start := if mode.Reset? then a.(sendIV := mode.iv) else a;
    var post := SendWith(lib, a, payload, random, mode).1.value;
    if start.Encrypts() {
      SuiteRoundTrip(lib, start.cipher.value, Compacted(lib, start, payload).value, start.sendIV, post.crypto.value.aad);
    }
  }

  lemma SendDelivers(lib: Library, a: Session, b: Session, payload: bytes, random: Option<bytes>, mode: IVMode)
    requires Paired(a, b) && InSync(a, b)
    requires SendWith(lib, a, payload, random, mode).1.Some?
    requires Covered(lib, a, b, Sent(payload, random, mode))
    ensures var (a', sent) := SendWith(lib, a, payload, random, mode);
            var (b', got) := DecodePost(lib, b, sent.value);
            got == Ok(payload) && Paired(a', b') && InSync(a', b')
  {
    SendUnseals(lib, a, b, payload, random, mode);
    var post := SendWith(lib, a, payload, random, mode).1.value;
    CompactedExpands(lib, a, b, payload, post, Unseal(lib, b, post).1.value);
  }

  /**
    Over every covered run the receiver's IV equals the sender's, and the receiver hands on
    exactly the payloads that were sent.
   */
  lemma {:induction false} ChainsStayEqual(lib: Library, a: Session, b: Session, events: seq<Event>)
    requires Paired(a, b) && InSync(a, b) && RunCovered(lib, a, b, events)
    ensures var (a', b', got) := Run(lib, a, b, events);
            Paired(a', b') && InSync(a', b') && got == SentPayloads(lib, a, events)
    decreases |events|
  {
    if events != [] {
      var (a', b', _) := Step(lib, a, b, events[0]);
      match events[0] {
        case Arrived(post) =>
          FailureKeepsChains(lib, b, [], None, post);
        case Sent(payload, random, mode) =>
          if SendWith(lib, a, payload, random, mode).1.Some? {
            SendDelivers(lib, a, b, payload, random, mode);
          }
      }
      ChainsStayEqual(lib, a', b', events[1..]);
    }
  }
}
