/** The session object itself: fields updated in place, IVs in two arrays that never alias. */
module LiveSession {
  import opened Wrappers
  import opened Bytes
  import opened IvChain
  import opened Ciphers
  import opened GatewaySession
  import opened GatewayHandshake

  class Live {
    var handshakeDone: bool
    var algorithm: Algorithm
    var compression: CompressionAlgorithm
    var cipher: Option<Suite>
    var policy: RollPolicy
    var sendIV: array<byte>
    var recvIV: array<byte>
    var sessionToken: bytes
    var compressor: Option<CompressionAlgorithm>
    var maxPostSize: nat
    var sequence: nat
    const threshold: nat

    ghost predicate Valid()
      reads this
    {
      sendIV != recvIV
    }

    ghost function View(): Session
      reads this, sendIV, recvIV
    {
      Session(handshakeDone, algorithm, compression, cipher, policy, sendIV[..], recvIV[..], sessionToken,
              compressor, threshold, maxPostSize, sequence)
    }

    /** `NewGatewaySession`. */
    constructor (threshold: nat)
      ensures Valid() && fresh(sendIV) && fresh(recvIV)
      ensures View() == Session(false, CryptoNone, CompressionNone, None, RollNone, [], [], [], None, threshold, 0, 0)
    {
      handshakeDone, algorithm, compression, cipher, policy := false, CryptoNone, CompressionNone, None, RollNone;
      sessionToken, compressor, maxPostSize, sequence := [], None, 0, 0;
      this.threshold := threshold;
      sendIV := new byte[0];
      recvIV := new byte[0];
      new;
      assert sendIV[..] == [] && recvIV[..] == [];
    }

    /** The compression part of `EncodePost`. */
    method Compress(lib: Library, payload: bytes) returns (r: Result<bytes, PostError>)
      ensures r == Compacted(lib, View(), payload)
    {
      var data := payload;
      if compressor.Some? && threshold > 0 && |data| >= threshold {
        var compressed := lib.compress(compressor.value, data);
        if compressed.None? {
          return Err(CompressFailed);
        }
        if |compressed.value| < |data| {
          data := compressed.value;
        }
      }
      r := Ok(data);
    }

    /** The encryption part of `EncodePost`. */
    method Seal(lib: Library, data: bytes, random: Option<bytes>) returns (r: Result<(Option<CryptoInfo>, bytes), PostError>)
      requires Valid()
      modifies sendIV
      ensures (sendIV[..], r) == Sealed(lib, old(View()), data, random)
    {
      if cipher.None? || algorithm == CryptoNone {
        return Ok((None, data));
      }
      var iv := sendIV[..];
      var aad := [];
      if cipher.value.AeadSuite? {
        if random.None? {
          return Err(NoRandomness);
        }
        aad := random.value;
      }
      var encrypted := Encrypt(lib, cipher.value, data, iv, aad);
      if encrypted.Err? {
        return Err(CipherFailed(encrypted.error));
      }
      RollInPlace(policy, sendIV, encrypted.value);
      r := Ok((Some(CryptoInfo(algorithm, iv, aad)), encrypted.value));
    }

    /** `EncodePost`. */
    method EncodePost(lib: Library, payload: bytes, random: Option<bytes>) returns (r: Result<PostInfo, PostError>)
      requires Valid()
      modifies this`sequence, sendIV
      ensures Valid()
      ensures (View(), r) == GatewaySession.EncodePost(lib, old(View()), payload, random)
    {
      if !handshakeDone {
        return Err(HandshakeIncomplete);
      }
      if maxPostSize > 0 && |payload| > maxPostSize {
        return Err(TooLarge);
      }
      var compacted := Compress(lib, payload);
      if compacted.Err? {
        return Err(compacted.error);
      }
      var data := compacted.value;
      var compInfo := if |data| < |payload| then Some(CompressionInfo(compression, |data|)) else None;
      var encrypted := Seal(lib, data, random);
      if encrypted.Err? {
        return Err(encrypted.error);
      }
      sequence := sequence + 1;
      r := Ok(PostInfo(encrypted.value.0, compInfo, |payload|, encrypted.value.1));
    }

    /** `decodePostPayload`. */
    method DecodePost(lib: Library, post: PostInfo) returns (r: Result<bytes, PostError>)
      requires Valid()
      modifies this`recvIV, recvIV
      ensures Valid() && (recvIV == old(recvIV) || fresh(recvIV))
      ensures (View(), r) == GatewaySession.DecodePost(lib, old(View()), post)
    {
      var data := post.data;
      if post.crypto.Some? && post.crypto.value.algorithm != CryptoNone && cipher.Some? {
        var iv := post.crypto.value.iv;
        if |iv| == 0 {
          iv := recvIV[..];
        }
        var decrypted := Decrypt(lib, cipher.value, data, iv, post.crypto.value.aad);
        if decrypted.Err? {
          return Err(CipherFailed(decrypted.error));
        }
        if |post.crypto.value.iv| > 0 {
          recvIV := Copy(post.crypto.value.iv);
        }
        RollInPlace(policy, recvIV, data);
        data := decrypted.value;
      }
      if post.compression.Some? && post.compression.value.algorithm != CompressionNone && compressor.Some? {
        if |data| > post.compression.value.originalSize {
          data := data[..post.compression.value.originalSize];
        }
        var decompressed := lib.decompress(compressor.value, data, post.length);
        if decompressed.None? {
          return Err(DecompressFailed);
        }
        data := decompressed.value;
      }
      if |data| > post.length {
        data := data[..post.length];
      }
      r := Ok(data);
    }

    /** `HandleKeyExchangeRsp` after parsing. */
    method HandleKeyExchangeRsp(lib: Library, rsp: Response, material: Option<(bytes, bytes)>) returns (r: Result<(), PostError>)
      requires Valid()
      modifies this, sendIV, recvIV
      ensures Valid()
      ensures (View(), r) == Handshake(lib, old(View()), rsp, material)
    {
      if |rsp.algorithms| > 0 {
        algorithm := rsp.algorithms[0];
      }
      if |rsp.compressions| > 0 {
        compression := rsp.compressions[0];
      }
      maxPostSize := rsp.maxPostSize;
      var baseIV := [];
      if algorithm != CryptoNone {
        if material.None? {
          return Err(KeyAgreementFailed);
        }
        baseIV := material.value.1;
        var suite := NewSuite(algorithm, material.value.0);
        if suite.Err? {
          cipher := None;
          return Err(CipherFailed(suite.error));
        }
        cipher := Some(suite.value);
        policy := algorithm.Policy();
      }
      r := AcceptToken(lib, rsp, baseIV);
    }

    /** The token part of `HandleKeyExchangeRsp`. */
    method AcceptToken(lib: Library, rsp: Response, baseIV: bytes) returns (r: Result<(), PostError>)
      requires Valid()
      modifies this, sendIV, recvIV
      ensures Valid()
      ensures (View(), r) == WithToken(lib, old(View()), rsp, baseIV)
    {
      if |rsp.token| > 0 && cipher.Some? && rsp.initial.Some? {
        var token := Decrypt(lib, cipher.value, rsp.token, rsp.initial.value.iv, rsp.initial.value.aad);
        if token.Err? {
          sessionToken := [];
          return Err(CipherFailed(token.error));
        }
        sessionToken := token.value;
      }
      r := Establish(rsp, baseIV);
    }

    /** Both directions start from the derived IV; the server may name its own. */
    method InstallIVs(rsp: Response, baseIV: bytes)
      requires Valid()
      modifies this`sendIV, this`recvIV
      ensures Valid() && (sendIV == old(sendIV) || fresh(sendIV)) && (recvIV == old(recvIV) || fresh(recvIV))
      ensures sendIV[..] == if baseIV != [] then baseIV else old(sendIV[..])
      ensures recvIV[..] == if NamesIV(rsp) then rsp.initial.value.iv else if baseIV != [] then baseIV else old(recvIV[..])
    {
      if |baseIV| > 0 {
        sendIV := Copy(baseIV);
        recvIV := Copy(baseIV);
      }
      if rsp.initial.Some? && |rsp.initial.value.iv| > 0 {
        recvIV := Copy(rsp.initial.value.iv);
      }
    }

    method StartChains(rsp: Response, baseIV: bytes)
      requires Valid()
      modifies this`sendIV, this`recvIV, recvIV
      ensures Valid()
      ensures View() == Keyed(old(View()), rsp, baseIV)
    {
      InstallIVs(rsp, baseIV);
      if |rsp.token| > 0 && cipher.Some? && recvIV.Length > 0 {
        RollInPlace(policy, recvIV, rsp.token);
      }
    }

    /** The IV and compressor part of `HandleKeyExchangeRsp`. */
    method Establish(rsp: Response, baseIV: bytes) returns (r: Result<(), PostError>)
      requires Valid()
      modifies this, sendIV, recvIV
      ensures Valid()
      ensures (View(), r) == Established(old(View()), rsp, baseIV)
    {
      StartChains(rsp, baseIV);
      if compression != CompressionNone {
        if compression == OtherCompression {
          compressor := None;
          return Err(NoSuchCompressor);
        }
        compressor := Some(compression);
      }
      sequence := sequence + 1;
      handshakeDone := true;
      r := Ok(());
    }
  }

  method Copy(source: bytes) returns (a: array<byte>)
    ensures fresh(a) && a[..] == source
  {
    a := new byte[|source|];
    forall i | 0 <= i < |source| {
      a[i] := source[i];
    }
  }
}
