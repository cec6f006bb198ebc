/** What a repeated handshake can leave behind: a compressor that is no longer wanted, or a session without its cipher. */
module GatewayRehandshake {
  import opened Wrappers
  import opened Bytes
  import opened IvChain
  import opened Ciphers
  import opened GatewaySession
  import opened GatewayHandshake

  // ---------- A compressor from an earlier handshake ----------

  /** The session compresses although it selected no compression. */
  predicate Stale(s: Session) {
    s.compression == CompressionNone && s.compressor.Some?
  }

  /** The cipher belongs to the algorithm, and the receiver has the same one. */
  predicate SameCipher(a: Session, b: Session) {
    a.Encrypts() ==> Fits(a.cipher.value, a.algorithm) && b.cipher == a.cipher
  }

  /** The body as the receiver gets it out of its cipher. */
  function Arriving(a: Session, body: bytes): bytes {
    if a.Encrypts() then Recovered(a.cipher.value, body) else body
  }

  lemma UnsealedBody(lib: Library, a: Session, b: Session, payload: bytes, random: Option<bytes>)
    requires SameCipher(a, b) && EncodePost(lib, a, payload, random).1.Ok?
    ensures Compacted(lib, a, payload).Ok?
    ensures var body, post := Compacted(lib, a, payload).value, EncodePost(lib, a, payload, random).1.value;
            Unseal(lib, b, post).1
            == if Lost(a, body) then Err(CipherFailed(BadCiphertext)) else Ok(Arriving(a, body))
  {
    var body, post := Compacted(lib, a, payload).value, EncodePost(lib, a, payload, random).1.value;
    if a.Encrypts() {
      SuiteRoundTrip(lib, a.cipher.value, body, a.sendIV, post.crypto.value.aad);
    }
  }

  lemma TrimIsPrefix(data: bytes, payload: bytes)
    ensures Trim(data, |payload|) == payload <==> payload <= data
  {
  }

  /** Such a post says that it is not compressed, and is not expanded. */
  lemma StaleArrives(lib: Library, a: Session, b: Session, payload: bytes, random: Option<bytes>)
    requires Stale(a) && SameCipher(a, b) && EncodePost(lib, a, payload, random).1.Ok?
    ensures Compacted(lib, a, payload).Ok?
    ensures var body := Compacted(lib, a, payload).value;
            DecodePost(lib, b, EncodePost(lib, a, payload, random).1.value).1
            == if Lost(a, body) then Err(CipherFailed(BadCiphertext)) else Ok(Trim(Arriving(a, body), |payload|))
  {
    UnsealedBody(lib, a, b, payload, random);
  }

  /**
    What a post of such a session arrives as: the body as it leaves the cipher, cut to the length of
    the payload and never expanded. Without padding that is the body itself, so the payload is
    delivered exactly when it was not compressed; with padding, exactly when body and padding spell it.
   */
  lemma StaleDelivery(lib: Library, a: Session, b: Session, payload: bytes, random: Option<bytes>)
    requires Stale(a) && SameCipher(a, b) && EncodePost(lib, a, payload, random).1.Ok?
    ensures Compacted(lib, a, payload).Ok?
    ensures var body := Compacted(lib, a, payload).value;
            var got := DecodePost(lib, b, EncodePost(lib, a, payload, random).1.value).1;
            && (!a.Encrypts() || a.algorithm.IsAead() ==> got == Ok(body) && (got == Ok(payload) <==> body == payload))
            && (got == Ok(payload) <==> !Lost(a, body) && payload <= Arriving(a, body))
  {
    StaleArrives(lib, a, b, payload, random);
    var body := Compacted(lib, a, payload).value;
    assert |body| <= |payload|;
    TrimIsPrefix(Arriving(a, body), payload);
  }

  /** After a handshake the compressor is stale exactly when none was selected but an earlier handshake made one. */
  lemma HandshakeStale(lib: Library, s: Session, rsp: Response, material: Option<(bytes, bytes)>)
    requires Handshake(lib, s, rsp, material).1.Ok?
    ensures var a := Handshake(lib, s, rsp, material).0;
            && (Stale(a) <==> a.compression == CompressionNone && s.compressor.Some?)
            && a.compression == Compression(s, rsp.compressions)
            && (!Stale(a) ==> a.Consistent())
            && (a.Encrypts() ==> Fits(a.cipher.value, a.algorithm))
  {
    if Selected(s, rsp) != CryptoNone {
      NewSuiteFits(Selected(s, rsp), material.value.0);
    }
  }

  /**
    Every payload a session accepts after a handshake is delivered to a peer set up like it, if and only if
    it is not an empty body under CBC and, should the compressor be left over, it is spelled by what arrives.
   */
  lemma HandshakeDelivers(lib: Library, s: Session, rsp: Response, material: Option<(bytes, bytes)>, b: Session,
                          payload: bytes, random: Option<bytes>)
    requires Handshake(lib, s, rsp, material).1.Ok?
    requires var a := Handshake(lib, s, rsp, material).0;
             && b.compressor == a.compressor && (a.Encrypts() ==> b.cipher == a.cipher && b.policy == a.policy)
             && EncodePost(lib, a, payload, random).1.Ok?
    ensures var a := Handshake(lib, s, rsp, material).0;
            && Compacted(lib, a, payload).Ok?
            && (DecodePost(lib, b, EncodePost(lib, a, payload, random).1.value).1 == Ok(payload) <==>
                var body := Compacted(lib, a, payload).value;
                !Lost(a, body) && (a.compression == CompressionNone && s.compressor.Some? ==> payload <= Arriving(a, body)))
  {
    var a := Handshake(lib, s, rsp, material).0;
    HandshakeStale(lib, s, rsp, material);
    if Stale(a) {
      StaleDelivery(lib, a, b, payload, random);
    } else {
      PostRoundTrip(lib, a, b, payload, random);
    }
  }

  /** A library that makes one byte of three, and three of that one. */
  const SHORTENING: Library := IDENTITY.(
    compress := (a: CompressionAlgorithm, d: bytes) => if d == [5, 5, 5] then Some([1]) else None,
    decompress := (a: CompressionAlgorithm, d: bytes, n: nat) => if d == [1] then Some([5, 5, 5]) else None)

  const FRESH: Session := Session(false, CryptoNone, CompressionNone, None, RollNone, [], [], [], None, 1, 0, 0)

  /** Two handshakes, the second without compression: what was sent as three bytes arrives as one. */
  lemma StalePayloadIsLost(random: Option<bytes>)
    ensures var first := Handshake(SHORTENING, FRESH, Response([], [Zstd], 0, [], None), None).0;
            var (s, outcome) := Handshake(SHORTENING, first, Response([], [CompressionNone], 0, [], None), None);
            && outcome == Ok(())
            && EncodePost(SHORTENING, s, [5, 5, 5], random).1.Ok?
            && DecodePost(SHORTENING, s, EncodePost(SHORTENING, s, [5, 5, 5], random).1.value).1 == Ok([1])
  {
  }

  // ---------- A cipher that a later handshake takes away ----------

  /** One response handled by the session, and the outcome of its key agreement. */
  datatype Attempt = Attempt(rsp: Response, material: Option<(bytes, bytes)>)

  /** The session after a list of responses, whether or not their handshakes succeed. */
  function AfterAttempts(lib: Library, s: Session, attempts: seq<Attempt>): Session {
    if attempts == [] then s
    else
      var init, last := AfterAttempts(lib, s, attempts[..|attempts| - 1]), attempts[|attempts| - 1];
      Handshake(lib, init, last.rsp, last.material).0
  }

  /** The response selects no cipher, or agrees on a key for one that cannot be made. */
  predicate Withdraws(s: Session, a: Attempt) {
    || Selected(s, a.rsp) == CryptoNone
    || (a.material.Some? && NewSuite(Selected(s, a.rsp), a.material.value.0).Err?)
  }

  lemma TokenPartKeeps(lib: Library, s: Session, rsp: Response, baseIV: bytes)
    ensures var t := WithToken(lib, s, rsp, baseIV).0;
            t.cipher == s.cipher && t.algorithm == s.algorithm && (s.handshakeDone ==> t.handshakeDone)
  {
  }

  lemma AttemptKeeps(lib: Library, s: Session, a: Attempt)
    ensures s.Encrypts() ==> (Handshake(lib, s, a.rsp, a.material).0.Encrypts() <==> !Withdraws(s, a))
    ensures s.handshakeDone ==> Handshake(lib, s, a.rsp, a.material).0.handshakeDone
  {
    var algorithm, compression := Selected(s, a.rsp), Compression(s, a.rsp.compressions);
    var negotiated := s.(algorithm := algorithm, compression := compression, maxPostSize := a.rsp.maxPostSize);
    if algorithm == CryptoNone {
      TokenPartKeeps(lib, negotiated, a.rsp, []);
    } else if a.material.Some? {
      var suite := NewSuite(algorithm, a.material.value.0);
      if suite.Ok? {
        TokenPartKeeps(lib, negotiated.(cipher := Some(suite.value), policy := algorithm.Policy()), a.rsp,
                       a.material.value.1);
      }
    }
  }

  /** Every post the session accepts is encrypted. */
  ghost predicate SealsAll(lib: Library, s: Session) {
    forall payload, random :: EncodePost(lib, s, payload, random).1.Ok? ==>
      EncodePost(lib, s, payload, random).1.value.crypto.Some?
  }

  /** So it is at every moment of the run. */
  ghost predicate SealedThroughout(lib: Library, s: Session, attempts: seq<Attempt>) {
    forall n :: 0 <= n <= |attempts| ==> SealsAll(lib, AfterAttempts(lib, s, attempts[..n]))
  }

  ghost predicate NoneWithdraws(lib: Library, s: Session, attempts: seq<Attempt>) {
    forall i :: 0 <= i < |attempts| ==> !Withdraws(AfterAttempts(lib, s, attempts[..i]), attempts[i])
  }

  /** What one more response does to the two things that matter. */
  lemma NextMoment(lib: Library, s: Session, attempts: seq<Attempt>, i: nat) returns (before: Session, after: Session)
    requires i < |attempts|
    ensures before == AfterAttempts(lib, s, attempts[..i]) && after == AfterAttempts(lib, s, attempts[..i + 1])
    ensures before.Encrypts() ==> (after.Encrypts() <==> !Withdraws(before, attempts[i]))
    ensures before.handshakeDone ==> after.handshakeDone
  {
    assert attempts[..i + 1][..i] == attempts[..i];
    before := AfterAttempts(lib, s, attempts[..i]);
    after := AfterAttempts(lib, s, attempts[..i + 1]);
    AttemptKeeps(lib, before, attempts[i]);
  }

  lemma {:induction false} StaysSealed(lib: Library, s: Session, attempts: seq<Attempt>, n: nat)
    requires s.Encrypts() && NoneWithdraws(lib, s, attempts) && n <= |attempts|
    ensures AfterAttempts(lib, s, attempts[..n]).Encrypts()
  {
    if n > 0 {
      StaysSealed(lib, s, attempts, n - 1);
      var before, after := NextMoment(lib, s, attempts, n - 1);
    }
  }

  lemma {:induction false} StaysDone(lib: Library, s: Session, attempts: seq<Attempt>, n: nat)
    requires s.handshakeDone && n <= |attempts|
    ensures AfterAttempts(lib, s, attempts[..n]).handshakeDone
  {
    if n > 0 {
      StaysDone(lib, s, attempts, n - 1);
      var before, after := NextMoment(lib, s, attempts, n - 1);
    }
  }

  /** A session that posts in the clear accepts at least the empty payload. */
  lemma PlainAccepts(lib: Library, s: Session)
    requires s.handshakeDone && !s.Encrypts()
    ensures EncodePost(lib, s, [], None).1 == Ok(PostInfo(None, None, 0, []))
  {
  }

  lemma SealsIffEncrypts(lib: Library, s: Session)
    requires s.handshakeDone
    ensures SealsAll(lib, s) <==> s.Encrypts()
  {
    if !s.Encrypts() {
      PlainAccepts(lib, s);
    }
  }

  /**
    A session that encrypts goes on encrypting every post through any run of later handshakes, successful or not,
    if and only if none of them selects no cipher or one that cannot be made.
   */
  lemma SealedExactly(lib: Library, s: Session, attempts: seq<Attempt>)
    requires s.handshakeDone && s.Encrypts()
    ensures SealedThroughout(lib, s, attempts) <==> NoneWithdraws(lib, s, attempts)
  {
    forall n | 0 <= n <= |attempts|
      ensures var t := AfterAttempts(lib, s, attempts[..n]); SealsAll(lib, t) <==> t.Encrypts()
    {
      StaysDone(lib, s, attempts, n);
      SealsIffEncrypts(lib, AfterAttempts(lib, s, attempts[..n]));
    }
    if NoneWithdraws(lib, s, attempts) {
      forall n | 0 <= n <= |attempts|
        ensures AfterAttempts(lib, s, attempts[..n]).Encrypts()
      {
        StaysSealed(lib, s, attempts, n);
      }
    } else {
      var i :| 0 <= i < |attempts| && Withdraws(AfterAttempts(lib, s, attempts[..i]), attempts[i]);
      var before, after := NextMoment(lib, s, attempts, i);
      assert !before.Encrypts() || !after.Encrypts();
    }
  }

  /** A response that selects the stream cipher, which has no suite, fails and leaves the session posting in the clear. */
  lemma FailedHandshakeUnseals(lib: Library, s: Session, key: bytes, baseIV: bytes)
    requires s.handshakeDone && s.Encrypts()
    ensures var (s', outcome) := Handshake(lib, s, Response([Chacha20], [], 0, [], None), Some((key, baseIV)));
            outcome.Err? && EncodePost(lib, s', [], None).1 == Ok(PostInfo(None, None, 0, []))
  {
    PlainAccepts(lib, Handshake(lib, s, Response([Chacha20], [], 0, [], None), Some((key, baseIV))).0);
  }
}
