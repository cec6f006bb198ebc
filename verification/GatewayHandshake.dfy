/** The handshake, and what it sets up on both ends. */
module GatewayHandshake {
  import opened Wrappers
  import opened Bytes
  import opened IvChain
  import opened Ciphers
  import opened GatewaySession
  import Xxtea

  /** The parts of the server's key exchange response that set up the post pipeline. */
  datatype Response = Response(
    algorithms: seq<Algorithm>, compressions: seq<CompressionAlgorithm>, maxPostSize: nat,
    token: bytes, initial: Option<CryptoInfo>)

  function Selected(s: Session, rsp: Response): Algorithm {
    if rsp.algorithms != [] then rsp.algorithms[0] else s.algorithm
  }

  /** The compression a handshake selects. */
  function Compression(s: Session, compressions: seq<CompressionAlgorithm>): CompressionAlgorithm {
    if compressions != [] then compressions[0] else s.compression
  }

  /** The response names its own IV for the server's direction. */
  predicate NamesIV(rsp: Response) {
    rsp.initial.Some? && rsp.initial.value.iv != []
  }

  /** `HandleKeyExchangeRsp` after parsing; `material` is the outcome of ECDH and HKDF. */
  function Handshake(lib: Library, s: Session, rsp: Response, material: Option<(bytes, bytes)>): (r: (Session, Result<(), PostError>)) {
    var negotiated := s.(algorithm := Selected(s, rsp),
                         compression := Compression(s, rsp.compressions),
                         maxPostSize := rsp.maxPostSize);
    if negotiated.algorithm == CryptoNone then WithToken(lib, negotiated, rsp, [])
    else if material.None? then (negotiated, Err(KeyAgreementFailed))
    else
      match NewSuite(negotiated.algorithm, material.value.0)
      case Err(e) => (negotiated.(cipher := None), Err(CipherFailed(e)))
      case Ok(suite) =>
        WithToken(lib, negotiated.(cipher := Some(suite), policy := negotiated.algorithm.Policy()), rsp, material.value.1)
  }

  /** The session token is the first message of the server's direction. */
  function WithToken(lib: Library, s: Session, rsp: Response, baseIV: bytes): (r: (Session, Result<(), PostError>)) {
    if rsp.token != [] && s.cipher.Some? && rsp.initial.Some? then
      match Decrypt(lib, s.cipher.value, rsp.token, rsp.initial.value.iv, rsp.initial.value.aad)
      case Err(e) => (s.(sessionToken := []), Err(CipherFailed(e)))
      case Ok(token) => Established(s.(sessionToken := token), rsp, baseIV)
    else Established(s, rsp, baseIV)
  }

  /** Both directions start from the derived IV or the one the server names; an encrypted token rolls the latter. */
  function Keyed(s: Session, rsp: Response, baseIV: bytes): (r: Session) {
    var derived := if baseIV != [] then baseIV else s.recvIV;
    var start := if NamesIV(rsp) then rsp.initial.value.iv else derived;
    s.(sendIV := if baseIV != [] then baseIV else s.sendIV,
       recvIV := if rsp.token != [] && s.cipher.Some? && start != [] then Roll(s.policy, start, rsp.token) else start)
  }

  /** The compressor is made last: one that does not exist fails the handshake after the chains have been set up. */
  function Established(s: Session, rsp: Response, baseIV: bytes): (r: (Session, Result<(), PostError>)) {
    var keyed := Keyed(s, rsp, baseIV);
    if s.compression == OtherCompression then (keyed.(compressor := None), Err(NoSuchCompressor))
    else
      (keyed.(compressor := if s.compression != CompressionNone then Some(s.compression) else s.compressor,
              sequence := s.sequence + 1,
              handshakeDone := true),
       Ok(()))
  }

  // ---------- The other end ----------

  /**
    The server's response: it seals its token, if it has one, under the IV it stands at and rolls by the
    ciphertext. It may announce that IV, or leave it to the key derivation.
   */
  function Greet(lib: Library, server: Session, token: Option<bytes>, aad: bytes, names: bool,
                 compressions: seq<CompressionAlgorithm>, maxPostSize: nat)
    : (r: (Session, Result<Response, CipherError>))
    requires server.cipher.Some?
    ensures r.1.Ok? <==> token.None? || Accepts(server.cipher.value, |token.value|, |server.sendIV|)
  {
    var initial := if names then Some(CryptoInfo(server.algorithm, server.sendIV, aad)) else None;
    match token
    case None => (server, Ok(Response([server.algorithm], compressions, maxPostSize, [], initial)))
    case Some(t) =>
      SuiteRoundTrip(lib, server.cipher.value, t, server.sendIV, aad);
      match Encrypt(lib, server.cipher.value, t, server.sendIV, aad)
      case Err(e) => (server, Err(e))
      case Ok(c) =>
        (server.(sendIV := Roll(server.policy, server.sendIV, c)),
         Ok(Response([server.algorithm], compressions, maxPostSize, c, initial)))
  }

  /** Client and server derived the same key; a server that names no IV starts at the derived one. */
  predicate Agreed(server: Session, names: bool, key: bytes, baseIV: bytes) {
    && server.cipher.Some? && NewSuite(server.algorithm, key) == Ok(server.cipher.value)
    && server.policy == server.algorithm.Policy()
    && |baseIV| == |server.sendIV| == server.algorithm.IVSize()
    && (!names ==> server.sendIV == baseIV)
  }

  /** What the client ends up with as its session token; it looks at one only when the IV is announced. */
  function TokenKept(s: Session, suite: Suite, token: Option<bytes>, names: bool): bytes {
    if token.None? || !names || (suite.CbcSuite? && token.value == []) then s.sessionToken
    else Recovered(suite, token.value)
  }

  /** The session as it goes into the token part once its suite is made. */
  function Suited(s: Session, rsp: Response, suite: Suite): Session {
    s.(algorithm := Selected(s, rsp),
       compression := Compression(s, rsp.compressions),
       maxPostSize := rsp.maxPostSize, cipher := Some(suite), policy := Selected(s, rsp).Policy())
  }

  lemma HandshakeReduces(lib: Library, s: Session, rsp: Response, key: bytes, baseIV: bytes)
    requires NewSuite(Selected(s, rsp), key).Ok?
    ensures Handshake(lib, s, rsp, Some((key, baseIV)))
         == WithToken(lib, Suited(s, rsp, NewSuite(Selected(s, rsp), key).value), rsp, baseIV)
  {
  }

  /** The token part gets past a sealed token and keeps what the cipher hands back. */
  lemma SealedTokenAccepted(lib: Library, s: Session, rsp: Response, baseIV: bytes, token: bytes)
    requires s.cipher.Some? && rsp.initial.Some?
    requires Accepts(s.cipher.value, |token|, |rsp.initial.value.iv|)
    requires Encrypt(lib, s.cipher.value, token, rsp.initial.value.iv, rsp.initial.value.aad) == Ok(rsp.token)
    ensures WithToken(lib, s, rsp, baseIV)
         == Established(s.(sessionToken := TokenKept(s, s.cipher.value, Some(token), true)), rsp, baseIV)
  {
    SuiteRoundTrip(lib, s.cipher.value, token, rsp.initial.value.iv, rsp.initial.value.aad);
  }

  /** What an established client tracks: the IV announced or derived, rolled by the ciphertext of the token. */
  lemma KeyedTracks(s: Session, rsp: Response, baseIV: bytes, iv: bytes)
    requires s.cipher.Some? && |baseIV| == |iv| > 0 && (NamesIV(rsp) || iv == baseIV)
    requires NamesIV(rsp) ==> rsp.initial.value.iv == iv
    ensures Keyed(s, rsp, baseIV).recvIV == if rsp.token == [] then iv else Roll(s.policy, iv, rsp.token)
    ensures Keyed(s, rsp, baseIV).sendIV == baseIV
  {
  }

  /** The client gets as far as the compressor, with the token it keeps. */
  lemma GreetingAnswered(lib: Library, s: Session, server: Session, token: Option<bytes>, aad: bytes, names: bool,
                         compressions: seq<CompressionAlgorithm>, maxPostSize: nat, key: bytes, baseIV: bytes)
    requires Agreed(server, names, key, baseIV)
    requires token.Some? ==> Accepts(server.cipher.value, |token.value|, |server.sendIV|)
    ensures var rsp := Greet(lib, server, token, aad, names, compressions, maxPostSize).1.value;
            var kept := TokenKept(s, server.cipher.value, token, names);
            Handshake(lib, s, rsp, Some((key, baseIV)))
            == Established(Suited(s, rsp, server.cipher.value).(sessionToken := kept), rsp, baseIV)
  {
    var rsp := Greet(lib, server, token, aad, names, compressions, maxPostSize).1.value;
    HandshakeReduces(lib, s, rsp, key, baseIV);
    if token.Some? && names {
      SealedTokenAccepted(lib, Suited(s, rsp, server.cipher.value), rsp, baseIV, token.value);
    }
  }

  /** What a response says, and where the server then stands: rolled by the ciphertext of the token, if there is any. */
  predicate Greeted(server: Session, server': Session, rsp: Response, names: bool,
                    compressions: seq<CompressionAlgorithm>) {
    && rsp.algorithms == [server.algorithm] && rsp.compressions == compressions
    && rsp.initial.Some? == names && (names ==> rsp.initial.value.iv == server.sendIV)
    && server' == server.(sendIV := if rsp.token == [] then server.sendIV
                                    else Roll(server.policy, server.sendIV, rsp.token))
  }

  lemma GreetGreets(lib: Library, server: Session, token: Option<bytes>, aad: bytes, names: bool,
                    compressions: seq<CompressionAlgorithm>, maxPostSize: nat, key: bytes, baseIV: bytes)
    requires Agreed(server, names, key, baseIV)
    requires token.Some? ==> Accepts(server.cipher.value, |token.value|, |server.sendIV|)
    ensures var (server', rsp) := Greet(lib, server, token, aad, names, compressions, maxPostSize);
            Greeted(server, server', rsp.value, names, compressions)
  {
    NewSuiteFits(server.algorithm, key);
    if token.Some? {
      SuiteRoundTrip(lib, server.cipher.value, token.value, server.sendIV, aad);
    }
  }

  /** A client that gets that far tracks the server, whether or not there is such a compressor. */
  lemma GreetingTracked(s: Session, server: Session, server': Session, rsp: Response, kept: bytes, names: bool,
                        compressions: seq<CompressionAlgorithm>, key: bytes, baseIV: bytes)
    requires Agreed(server, names, key, baseIV) && Greeted(server, server', rsp, names, compressions)
    ensures var (s', outcome) := Established(Suited(s, rsp, server.cipher.value).(sessionToken := kept), rsp, baseIV);
            && (outcome == Ok(()) <==> Compression(s, compressions) != OtherCompression)
            && (outcome == Ok(()) ==> s'.handshakeDone)
            && s'.Encrypts() && s'.cipher == server'.cipher && s'.policy == server'.policy
            && InSync(server', s') && (baseIV != [] ==> s'.sendIV == baseIV) && s'.sessionToken == kept
  {
    NewSuiteFits(server.algorithm, key);
    if baseIV != [] {
      KeyedTracks(Suited(s, rsp, server.cipher.value).(sessionToken := kept), rsp, baseIV, server.sendIV);
    }
  }

  /**
    Whatever the client went through before: a handshake with the server succeeds exactly when there is such a
    compressor, and in either case both ends hold the same cipher, and the client's receiving chain stands where
    the server's sending chain stands.
   */
  lemma HandshakeSyncs(lib: Library, s: Session, server: Session, token: Option<bytes>, aad: bytes, names: bool,
                       compressions: seq<CompressionAlgorithm>, maxPostSize: nat, key: bytes, baseIV: bytes)
    requires Agreed(server, names, key, baseIV)
    requires token.Some? ==> Accepts(server.cipher.value, |token.value|, |server.sendIV|)
    ensures var (server', rsp) := Greet(lib, server, token, aad, names, compressions, maxPostSize);
            var (s', outcome) := Handshake(lib, s, rsp.value, Some((key, baseIV)));
            && (outcome == Ok(()) <==> Compression(s, compressions) != OtherCompression)
            && (outcome == Ok(()) ==> s'.handshakeDone)
            && s'.Encrypts() && s'.cipher == server'.cipher && s'.policy == server'.policy
            && InSync(server', s') && (baseIV != [] ==> s'.sendIV == baseIV)
            && s'.sessionToken == TokenKept(s, server.cipher.value, token, names)
  {
    GreetingAnswered(lib, s, server, token, aad, names, compressions, maxPostSize, key, baseIV);
    GreetGreets(lib, server, token, aad, names, compressions, maxPostSize, key, baseIV);
    var (server', rsp) := Greet(lib, server, token, aad, names, compressions, maxPostSize);
    var kept := TokenKept(s, server.cipher.value, token, names);
    GreetingTracked(s, server, server', rsp.value, kept, names, compressions, key, baseIV);
  }

  /**
    The client holds the server's token exactly when the IV was announced and the cipher did not pad it: always
    for an AEAD, for whole blocks under CBC, for whole blocks and something under XXTEA. A token whose IV is not
    announced, and nothing sealed by CBC, is no token at all, and leaves the one of an earlier handshake.
   */
  lemma TokenExact(s: Session, suite: Suite, token: bytes, names: bool)
    ensures TokenKept(s, suite, Some(token), names) == token <==>
              if !names || (suite.CbcSuite? && token == []) then s.sessionToken == token
              else
                match suite
                case AeadSuite(_, _) => true
                case CbcSuite(_) => |token| % AES_BLOCK == 0
                case XxteaSuite(_) => token != [] && |token| % Xxtea.BLOCK_SIZE == 0
  {
    RecoveredExact(suite, token);
  }

  /** A token of one byte comes back from CBC as a whole block. */
  lemma ShortTokenIsPadded(lib: Library, s: Session, server: Session, aad: bytes, key: bytes, baseIV: bytes)
    requires Agreed(server, true, key, baseIV) && server.cipher.value.CbcSuite?
    requires |server.sendIV| == AES_BLOCK
    ensures var rsp := Greet(lib, server, Some([7]), aad, true, [], 0).1.value;
            Handshake(lib, s, rsp, Some((key, baseIV))).0.sessionToken == [7] + seq(15, _ => 15)
  {
    HandshakeSyncs(lib, s, server, Some([7]), aad, true, [], 0, key, baseIV);
  }

  /** A token sealed under the derived IV, and not announced, is dropped under every cipher. */
  lemma UnannouncedTokenIsDropped(lib: Library, s: Session, server: Session, token: bytes, aad: bytes, key: bytes,
                                  baseIV: bytes)
    requires Agreed(server, false, key, baseIV) && Accepts(server.cipher.value, |token|, |server.sendIV|)
    requires s.sessionToken == []
    ensures var rsp := Greet(lib, server, Some(token), aad, false, [], 0).1.value;
            Handshake(lib, s, rsp, Some((key, baseIV))).0.sessionToken == []
  {
    HandshakeSyncs(lib, s, server, Some(token), aad, false, [], 0, key, baseIV);
  }

  /**
    From a handshake on, whatever the server sends (with, without or with a fresh IV, and with
    rejected posts in between), the client tracks the server's IV and hands on what was sent.
   */
  lemma HandshakeThenRun(lib: Library, s: Session, server: Session, token: Option<bytes>, aad: bytes, names: bool,
                         compressions: seq<CompressionAlgorithm>, maxPostSize: nat, key: bytes, baseIV: bytes,
                         events: seq<Event>)
    requires server.Consistent() && Agreed(server, names, key, baseIV)
    requires token.Some? ==> Accepts(server.cipher.value, |token.value|, |server.sendIV|)
    requires var (server', rsp) := Greet(lib, server, token, aad, names, compressions, maxPostSize);
             var s' := Handshake(lib, s, rsp.value, Some((key, baseIV))).0;
             server.compressor == s'.compressor && RunCovered(lib, server', s', events)
    ensures var (server', rsp) := Greet(lib, server, token, aad, names, compressions, maxPostSize);
            var (server'', client, got) := Run(lib, server', Handshake(lib, s, rsp.value, Some((key, baseIV))).0, events);
            InSync(server'', client) && got == SentPayloads(lib, server', events)
  {
    HandshakeSyncs(lib, s, server, token, aad, names, compressions, maxPostSize, key, baseIV);
    var (server', rsp) := Greet(lib, server, token, aad, names, compressions, maxPostSize);
    ChainsStayEqual(lib, server', Handshake(lib, s, rsp.value, Some((key, baseIV))).0, events);
  }
}
