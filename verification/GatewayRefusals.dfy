/** What the session refuses and with which error, and what a post that is not refused carries. */
module GatewayRefusals {
  import opened Wrappers
  import opened Bytes
  import opened Ciphers
  import opened GatewaySession
  import opened GatewayHandshake

  // ---------- Posts that are sent ----------

  predicate Fitting(s: Session, payload: bytes) {
    s.maxPostSize == 0 || |payload| <= s.maxPostSize
  }

  /** Payloads are compressed from the threshold on, if there is a compressor and a threshold. */
  predicate Compressible(s: Session, payload: bytes) {
    s.compressor.Some? && 0 < s.threshold <= |payload|
  }

  /** What the compressor makes of a payload it is given. */
  function Squeezed(lib: Library, s: Session, payload: bytes): Option<bytes> {
    if Compressible(s, payload) then lib.compress(s.compressor.value, payload) else Some(payload)
  }

  /** The shorter of a payload and its compressed form, which loses ties. */
  function Body(lib: Library, s: Session, payload: bytes): bytes {
    var squeezed := Squeezed(lib, s, payload);
    if squeezed.Some? && |squeezed.value| < |payload| then squeezed.value else payload
  }

  predicate Sealable(s: Session, body: bytes, random: Option<bytes>) {
    s.Encrypts() ==> (s.cipher.value.AeadSuite? ==> random.Some?) && Accepts(s.cipher.value, |body|, |s.sendIV|)
  }

  lemma CompactedIs(lib: Library, s: Session, payload: bytes)
    ensures Compacted(lib, s, payload)
         == if Squeezed(lib, s, payload).Some? then Ok(Body(lib, s, payload)) else Err(CompressFailed)
  {
  }

  lemma SealedIff(lib: Library, s: Session, body: bytes, random: Option<bytes>)
    ensures Sealed(lib, s, body, random).1.Ok? <==> Sealable(s, body, random)
    ensures Sealed(lib, s, body, random).1.Err? ==>
              (Sealed(lib, s, body, random).1.error == NoRandomness <==> s.cipher.value.AeadSuite? && random.None?)
  {
    if s.Encrypts() {
      var aad := if random.Some? && s.cipher.value.AeadSuite? then random.value else [];
      SuiteRoundTrip(lib, s.cipher.value, body, s.sendIV, aad);
    }
  }

  /** A post goes out exactly when the handshake is done, the payload fits, it compresses and it can be sealed. */
  lemma PostSent(lib: Library, s: Session, payload: bytes, random: Option<bytes>)
    ensures EncodePost(lib, s, payload, random).1.Ok? <==>
              && s.handshakeDone
              && (s.maxPostSize == 0 || |payload| <= s.maxPostSize)
              && Squeezed(lib, s, payload).Some?
              && Sealable(s, Body(lib, s, payload), random)
  {
    CompactedIs(lib, s, payload);
    SealedIff(lib, s, Body(lib, s, payload), random);
  }

  /** Which refusal gives which error: the first of them in this order. */
  lemma PostRefused(lib: Library, s: Session, payload: bytes, random: Option<bytes>)
    requires EncodePost(lib, s, payload, random).1.Err?
    ensures var error := EncodePost(lib, s, payload, random).1.error;
            if !s.handshakeDone then error == HandshakeIncomplete
            else if !Fitting(s, payload) then error == TooLarge
            else if Squeezed(lib, s, payload).None? then error == CompressFailed
            else if s.cipher.value.AeadSuite? && random.None? then error == NoRandomness
            else error.CipherFailed?
    ensures s.handshakeDone && Fitting(s, payload) && Squeezed(lib, s, payload).Some? ==> s.Encrypts()
  {
    CompactedIs(lib, s, payload);
    SealedIff(lib, s, Body(lib, s, payload), random);
  }

  /** What a post carries: its plain length, how its body was compressed, and how it was sealed. */
  lemma PostCarries(lib: Library, s: Session, payload: bytes, random: Option<bytes>)
    requires EncodePost(lib, s, payload, random).1.Ok?
    ensures var (s', r) := EncodePost(lib, s, payload, random);
            var post, body := r.value, Body(lib, s, payload);
            && post.length == |payload| && s' == s.(sendIV := s'.sendIV, sequence := s.sequence + 1)
            && (post.compression.Some? <==> |body| < |payload|)
            && (post.compression.Some? ==> post.compression.value == CompressionInfo(s.compression, |body|))
            && (post.crypto.Some? <==> s.Encrypts())
            && (post.crypto.None? ==> post.data == body && s'.sendIV == s.sendIV)
            && (post.crypto.Some? ==>
                  && post.crypto.value.algorithm == s.algorithm && post.crypto.value.iv == s.sendIV
                  && post.crypto.value.aad == (if s.cipher.value.AeadSuite? then random.value else [])
                  && (s.cipher.value.AeadSuite? ==>
                        post.data == lib.seal(s.cipher.value.algorithm, s.cipher.value.key, s.sendIV, body, random.value))
                  && Ok(post.data) == Encrypt(lib, s.cipher.value, body, s.sendIV, post.crypto.value.aad))
  {
    CompactedIs(lib, s, payload);
  }

  // ---------- Posts that arrive ----------

  /** The receiver looks at the cipher of a post. */
  predicate Ciphered(s: Session, post: PostInfo) {
    s.cipher.Some? && post.crypto.Some? && post.crypto.value.algorithm != CryptoNone
  }

  predicate Shrunk(s: Session, post: PostInfo) {
    s.compressor.Some? && post.compression.Some? && post.compression.value.algorithm != CompressionNone
  }

  /** What the cipher hands back, under the IV of the post or else the tracked one. */
  function Opened(lib: Library, s: Session, post: PostInfo): Result<bytes, CipherError> {
    if Ciphered(s, post)
    then Decrypt(lib, s.cipher.value, post.data, if post.crypto.value.iv != [] then post.crypto.value.iv else s.recvIV,
                 post.crypto.value.aad)
    else Ok(post.data)
  }

  /** What the decompressor makes of it, cut to the compressed size the post tells. */
  function Inflated(lib: Library, s: Session, post: PostInfo, data: bytes): Option<bytes> {
    if Shrunk(s, post)
    then lib.decompress(s.compressor.value, Trim(data, post.compression.value.originalSize), post.length)
    else Some(data)
  }

  /** An arriving post is refused exactly when the cipher or the decompressor refuses it; it is cut to the length told. */
  lemma PostReceived(lib: Library, s: Session, post: PostInfo)
    ensures var (s', got) := DecodePost(lib, s, post);
            match Opened(lib, s, post)
            case Err(e) => s' == s && got == Err(CipherFailed(e))
            case Ok(data) =>
              && s' == s.(recvIV := s'.recvIV) && (!Ciphered(s, post) ==> s' == s)
              && (match Inflated(lib, s, post, data)
                  case None => got == Err(DecompressFailed)
                  case Some(d) => got.Ok? && got.value <= d && |got.value| == if |d| < post.length then |d| else post.length)
  {
  }

  // ---------- Handshakes ----------

  /** The suite a handshake installs: none is made for a session without encryption, which keeps what it has. */
  function SuiteFor(asked: Session, material: Option<(bytes, bytes)>): Result<Option<Suite>, PostError> {
    if asked.algorithm == CryptoNone then Ok(asked.cipher)
    else if material.None? then Err(KeyAgreementFailed)
    else
      match NewSuite(asked.algorithm, material.value.0)
      case Err(e) => Err(CipherFailed(e))
      case Ok(suite) => Ok(Some(suite))
  }

  /** The token a handshake keeps: the one it can open, or the earlier one when it has none to open. */
  function TokenFor(lib: Library, s: Session, rsp: Response, suite: Option<Suite>): Result<bytes, CipherError> {
    if rsp.token == [] || suite.None? || rsp.initial.None? then Ok(s.sessionToken)
    else Decrypt(lib, suite.value, rsp.token, rsp.initial.value.iv, rsp.initial.value.aad)
  }

  /** What every outcome of a handshake leaves as it was, and what only success changes. */
  predicate Settled(s: Session, s': Session, r: Result<(), PostError>) {
    && s'.algorithm == s.algorithm && s'.compression == s.compression
    && s'.maxPostSize == s.maxPostSize && s'.threshold == s.threshold
    && (if r.Ok? then s'.handshakeDone && s'.sequence == s.sequence + 1
        else s'.handshakeDone == s.handshakeDone && s'.sequence == s.sequence)
  }

  lemma EstablishedDecided(s: Session, rsp: Response, baseIV: bytes)
    ensures var (s', r) := Established(s, rsp, baseIV);
            && Settled(s, s', r) && s'.cipher == s.cipher && s'.sessionToken == s.sessionToken
            && r == if s.compression == OtherCompression then Err(NoSuchCompressor) else Ok(())
  {
  }

  /** The outcome of the token part, given what the cipher makes of the token. */
  ghost predicate TokenDecided(token: Result<bytes, CipherError>, s: Session, s': Session, r: Result<(), PostError>) {
    && Settled(s, s', r)
    && match token
       case Err(e) => r == Err(CipherFailed(e)) && s'.cipher == s.cipher && s'.sessionToken == []
       case Ok(t) =>
         && s'.cipher == s.cipher && s'.sessionToken == t
         && r == if s.compression == OtherCompression then Err(NoSuchCompressor) else Ok(())
  }

  lemma WithTokenDecided(lib: Library, s: Session, rsp: Response, baseIV: bytes)
    ensures var (s', r) := WithToken(lib, s, rsp, baseIV); TokenDecided(TokenFor(lib, s, rsp, s.cipher), s, s', r)
  {
    var token := TokenFor(lib, s, rsp, s.cipher);
    if token.Ok? {
      EstablishedDecided(s.(sessionToken := token.value), rsp, baseIV);
    }
  }

  /** The session as the response asks for: the first algorithm and compression it lists, and its size limit. */
  function Asked(s: Session, rsp: Response): Session {
    s.(algorithm := if |rsp.algorithms| > 0 then rsp.algorithms[0] else s.algorithm,
       compression := if |rsp.compressions| > 0 then rsp.compressions[0] else s.compression,
       maxPostSize := rsp.maxPostSize)
  }

  /**
   * A handshake succeeds exactly when its suite can be made, its token opened and its compressor created, and fails
   * with the first of these that cannot. Only success marks the session as ready or counts a message.
   */
  lemma HandshakeDecided(lib: Library, s: Session, rsp: Response, material: Option<(bytes, bytes)>)
    ensures var (s', r) := Handshake(lib, s, rsp, material);
            match SuiteFor(Asked(s, rsp), material)
            case Err(e) =>
              && r == Err(e) && Settled(Asked(s, rsp), s', r) && s'.sessionToken == s.sessionToken
              && s'.cipher == if e == KeyAgreementFailed then s.cipher else None
            case Ok(c) => TokenDecided(TokenFor(lib, s, rsp, c), Asked(s, rsp).(cipher := c), s', r)
  {
    var asked := Asked(s, rsp);
    var suite := SuiteFor(asked, material);
    if asked.algorithm == CryptoNone {
      WithTokenDecided(lib, asked, rsp, []);
    } else if suite.Ok? {
      WithTokenDecided(lib, asked.(cipher := suite.value, policy := asked.algorithm.Policy()), rsp, material.value.1);
    }
  }
}
