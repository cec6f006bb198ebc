/** The negotiable cipher suites over abstract library primitives. */
module Ciphers {
  import opened Wrappers
  import opened Bytes
  import opened Masks
  import opened IvChain
  import BlockAlign
  import Xxtea

  datatype Algorithm =
    | CryptoNone | CryptoXxtea
    | Aes128Cbc | Aes192Cbc | Aes256Cbc
    | Aes128Gcm | Aes192Gcm | Aes256Gcm
    | Chacha20 | Chacha20Poly1305Ietf | Xchacha20Poly1305Ietf
  {
    predicate IsCbc() {
      Aes128Cbc? || Aes192Cbc? || Aes256Cbc?
    }

    predicate IsAead() {
      Aes128Gcm? || Aes192Gcm? || Aes256Gcm? || Chacha20Poly1305Ietf? || Xchacha20Poly1305Ietf?
    }

    /** `GetIVRollPolicy`. */
    function Policy(): RollPolicy {
      if IsAead() then RollIncrement else if IsCbc() then RollCiphertextTail else RollNone
    }

    /** `CryptoAlgorithmParams.KeySize`. */
    function KeySize(): nat {
      match this
      case CryptoNone => 0
      case CryptoXxtea | Aes128Cbc | Aes128Gcm => 16
      case Aes192Cbc | Aes192Gcm => 24
      case _ => 32
    }

    /** `CryptoAlgorithmParams.IVSize`. */
    function IVSize(): nat {
      match this
      case CryptoNone | CryptoXxtea => 0
      case Aes128Gcm | Aes192Gcm | Aes256Gcm | Chacha20Poly1305Ietf => 12
      case Xchacha20Poly1305Ietf => 24
      case _ => 16
    }
  }

  /** `OtherCompression` is any number the client does not know. */
  datatype CompressionAlgorithm = CompressionNone | Zstd | Lz4 | Snappy | Zlib | OtherCompression

  const AES_BLOCK: nat := 16
  const TAG_SIZE: nat := 16

  /** Library code the suites are built on; nothing is known of it but `Sound`. */
  datatype Primitives = Primitives(
    aesEncrypt: (bytes, bytes) -> bytes,                           // key, block
    aesDecrypt: (bytes, bytes) -> bytes,                           // key, block
    seal: (Algorithm, bytes, bytes, bytes, bytes) -> bytes,        // algorithm, key, nonce, plaintext, aad
    open: (Algorithm, bytes, bytes, bytes, bytes) -> Option<bytes>, // algorithm, key, nonce, ciphertext, aad
    compress: (CompressionAlgorithm, bytes) -> Option<bytes>,
    decompress: (CompressionAlgorithm, bytes, nat) -> Option<bytes>)
  {
    /** Each primitive has its inverse. */
    ghost predicate Sound() {
      && (forall k, b :: |b| == AES_BLOCK ==> |aesEncrypt(k, b)| == AES_BLOCK)
      && (forall k, b :: |b| == AES_BLOCK ==> |aesDecrypt(k, b)| == AES_BLOCK)
      && (forall k, b :: |b| == AES_BLOCK ==> aesDecrypt(k, aesEncrypt(k, b)) == b)
      && (forall a, k, n, p, aad :: open(a, k, n, seal(a, k, n, p, aad), aad) == Some(p))
      && (forall a, k, n, p, aad :: |seal(a, k, n, p, aad)| == |p| + TAG_SIZE)
      && (forall a, d :: compress(a, d).Some? ==> decompress(a, compress(a, d).value, |d|) == Some(d))
    }
  }

  const IDENTITY: Primitives := Primitives(
    (k: bytes, b: bytes) => b, (k: bytes, b: bytes) => b,
    (a: Algorithm, k: bytes, n: bytes, p: bytes, aad: bytes) => p + seq(TAG_SIZE, _ => 0),
    (a: Algorithm, k: bytes, n: bytes, c: bytes, aad: bytes) =>
      if |c| >= TAG_SIZE then Some(c[..|c| - TAG_SIZE]) else None,
    (a: CompressionAlgorithm, d: bytes) => None,
    (a: CompressionAlgorithm, d: bytes, n: nat) => None)

  type Library = p: Primitives | p.Sound() witness IDENTITY

  // ---------- CBC, section 6.2 of NIST SP 800-38A ----------

  function XorByte(a: byte, b: byte): byte {
    assert Pow2(8) == 256;
    XorBitsFit(a as nat, b as nat, 8);
    XorBits(a as nat, b as nat) as byte
  }

  lemma XorByteCancels(a: byte, b: byte)
    ensures XorByte(XorByte(a, b), b) == a
  {
    XorBitsCancel(a as nat, b as nat);
  }

  function Xor(a: bytes, b: bytes): (r: bytes)
    requires |a| == |b|
    ensures |r| == |a|
  {
    seq(|a|, i requires 0 <= i < |a| => XorByte(a[i], b[i]))
  }

  lemma XorCancels(a: bytes, b: bytes)
    requires |a| == |b|
    ensures Xor(Xor(a, b), b) == a
  {
    forall i | 0 <= i < |a|
      ensures XorByte(XorByte(a[i], b[i]), b[i]) == a[i]
    {
      XorByteCancels(a[i], b[i]);
    }
  }

  /** Chained encryption of whole blocks. */
  function CbcEncrypt(lib: Library, key: bytes, data: bytes, iv: bytes): (r: bytes)
    requires |iv| == AES_BLOCK && |data| % AES_BLOCK == 0
    ensures |r| == |data|
    decreases |data|
  {
    if data == [] then []
    else
      var c := lib.aesEncrypt(key, Xor(data[..AES_BLOCK], iv));
      c + CbcEncrypt(lib, key, data[AES_BLOCK..], c)
  }

  function CbcDecrypt(lib: Library, key: bytes, data: bytes, iv: bytes): (r: bytes)
    requires |iv| == AES_BLOCK && |data| % AES_BLOCK == 0
    ensures |r| == |data|
    decreases |data|
  {
    if data == [] then []
    else
      var c := data[..AES_BLOCK];
      Xor(lib.aesDecrypt(key, c), iv) + CbcDecrypt(lib, key, data[AES_BLOCK..], c)
  }

  lemma BlockRoundTrip(lib: Library, key: bytes, block: bytes, iv: bytes)
    requires |block| == |iv| == AES_BLOCK
    ensures Xor(lib.aesDecrypt(key, lib.aesEncrypt(key, Xor(block, iv))), iv) == block
  {
    XorCancels(block, iv);
  }

  lemma {:induction false} CbcRoundTrip(lib: Library, key: bytes, data: bytes, iv: bytes)
    requires |iv| == AES_BLOCK && |data| % AES_BLOCK == 0
    ensures CbcDecrypt(lib, key, CbcEncrypt(lib, key, data, iv), iv) == data
    decreases |data|
  {
    if data != [] {
      var b, rest := data[..AES_BLOCK], data[AES_BLOCK..];
      var c := lib.aesEncrypt(key, Xor(b, iv));
      var e := CbcEncrypt(lib, key, data, iv);
      assert e[..AES_BLOCK] == c && e[AES_BLOCK..] == CbcEncrypt(lib, key, rest, c);
      BlockRoundTrip(lib, key, b, iv);
      CbcRoundTrip(lib, key, rest, c);
      assert data == b + rest;
    }
  }

  function Block(data: bytes, j: nat): bytes
    requires (j + 1) * AES_BLOCK <= |data|
  {
    data[j * AES_BLOCK..(j + 1) * AES_BLOCK]
  }

  lemma FirstBlock(first: bytes, rest: bytes)
    requires |first| == AES_BLOCK
    ensures Block(first + rest, 0) == first
  {
  }

  lemma NextBlock(first: bytes, rest: bytes, j: nat)
    requires |first| == AES_BLOCK && (j + 1) * AES_BLOCK <= |rest|
    ensures (j + 2) * AES_BLOCK <= |first + rest| && Block(first + rest, j + 1) == Block(rest, j)
  {
  }

  /** What is joined to block `j`: the encrypted block before it, or the IV. */
  function Feedback(c: bytes, iv: bytes, j: nat): bytes
    requires j * AES_BLOCK <= |c|
  {
    if j == 0 then iv else Block(c, j - 1)
  }

  lemma NextFeedback(head: bytes, tail: bytes, iv: bytes, j: nat)
    requires |head| == AES_BLOCK && j * AES_BLOCK <= |tail|
    ensures Feedback(head + tail, iv, j + 1) == Feedback(tail, head, j)
  {
    if j == 0 {
      FirstBlock(head, tail);
    } else {
      NextBlock(head, tail, j - 1);
    }
  }

  /** Every block is encrypted after exclusive or with the encrypted block before it, the first one with the IV. */
  lemma {:induction false} CbcEquations(lib: Library, key: bytes, data: bytes, iv: bytes, j: nat)
    requires |iv| == AES_BLOCK && |data| % AES_BLOCK == 0 && (j + 1) * AES_BLOCK <= |data|
    ensures var c := CbcEncrypt(lib, key, data, iv);
            Block(c, j) == lib.aesEncrypt(key, Xor(Block(data, j), Feedback(c, iv, j)))
    decreases j
  {
    var first, rest := data[..AES_BLOCK], data[AES_BLOCK..];
    var head := lib.aesEncrypt(key, Xor(first, iv));
    var tail := CbcEncrypt(lib, key, rest, head);
    assert data == first + rest && CbcEncrypt(lib, key, data, iv) == head + tail;
    if j == 0 {
      FirstBlock(first, rest);
      FirstBlock(head, tail);
    } else {
      CbcEquations(lib, key, rest, head, j - 1);
      NextBlock(first, rest, j - 1);
      NextBlock(head, tail, j - 1);
      NextFeedback(head, tail, iv, j - 1);
    }
  }

  lemma TailOfLonger(iv: bytes, c: bytes, tail: bytes)
    requires |iv| == |c| == AES_BLOCK && |tail| % AES_BLOCK == 0
    ensures Roll(RollCiphertextTail, iv, c + tail) == Roll(RollCiphertextTail, c, tail)
  {
  }

  lemma Regroup(a: bytes, b: bytes, c: bytes)
    ensures a + (b + c) == (a + b) + c
  {
  }

  /** Rolling to the ciphertext tail makes successive messages one CBC stream. */
  lemma {:induction false} CbcContinues(lib: Library, key: bytes, a: bytes, b: bytes, iv: bytes)
    requires |iv| == AES_BLOCK && |a| % AES_BLOCK == 0 && |b| % AES_BLOCK == 0
    ensures (|a| + |b|) % AES_BLOCK == 0
    ensures var c := CbcEncrypt(lib, key, a, iv);
            CbcEncrypt(lib, key, a + b, iv) == c + CbcEncrypt(lib, key, b, Roll(RollCiphertextTail, iv, c))
    decreases |a|
  {
    if a == [] {
      assert a + b == b;
    } else {
      var first, rest := a[..AES_BLOCK], a[AES_BLOCK..];
      var c := lib.aesEncrypt(key, Xor(first, iv));
      assert (a + b)[..AES_BLOCK] == first && (a + b)[AES_BLOCK..] == rest + b;
      CbcContinues(lib, key, rest, b, c);
      var tail := CbcEncrypt(lib, key, rest, c);
      TailOfLonger(iv, c, tail);
      Regroup(c, tail, CbcEncrypt(lib, key, b, Roll(RollCiphertextTail, c, tail)));
    }
  }

  // ---------- Suites ----------

  datatype Suite = AeadSuite(algorithm: Algorithm, key: bytes) | CbcSuite(key: bytes) | XxteaSuite(words: Xxtea.Key)

  /** `NewCipherSuite`. */
  function NewSuite(algorithm: Algorithm, key: bytes): (r: Result<Suite, CipherError>) {
    if algorithm == CryptoNone || algorithm == Chacha20 || |key| != algorithm.KeySize() then Err(BadKey)
    else if algorithm.IsAead() then Ok(AeadSuite(algorithm, key))
    else if algorithm.IsCbc() then Ok(CbcSuite(key))
    else
      match Xxtea.NewKey(key)
      case Ok(words) => Ok(XxteaSuite(words))
      case Err(e) => Err(e)
  }

  /** The suite a session holds belongs to its selected algorithm. */
  predicate Fits(suite: Suite, algorithm: Algorithm) {
    match suite
    case AeadSuite(a, _) => a == algorithm && algorithm.IsAead()
    case CbcSuite(_) => algorithm.IsCbc()
    case XxteaSuite(_) => algorithm == CryptoXxtea
  }

  /** A suite exists exactly for the supported algorithms and keys of their size, and then fits. */
  lemma NewSuiteFits(algorithm: Algorithm, key: bytes)
    ensures NewSuite(algorithm, key).Ok? <==>
              algorithm != CryptoNone && algorithm != Chacha20 && |key| == algorithm.KeySize()
    ensures NewSuite(algorithm, key).Ok? ==> Fits(NewSuite(algorithm, key).value, algorithm)
  {
  }

  /** The sizes that names and standards give: keys by their bits, IVs of one AES block, nonces of 12 or 24 bytes. */
  lemma AlgorithmSizes(a: Algorithm)
    ensures a.Aes128Cbc? || a.Aes128Gcm? || a.CryptoXxtea? ==> 8 * a.KeySize() == 128
    ensures a.Aes192Cbc? || a.Aes192Gcm? ==> 8 * a.KeySize() == 192
    ensures a.Aes256Cbc? || a.Aes256Gcm? || a.Chacha20Poly1305Ietf? || a.Xchacha20Poly1305Ietf? ==> 8 * a.KeySize() == 256
    ensures a.IsCbc() ==> a.IVSize() == AES_BLOCK == 16
    ensures a.IsAead() ==> a.IVSize() == if a.Xchacha20Poly1305Ietf? then 24 else 12
    ensures a.CryptoNone? || a.CryptoXxtea? ==> a.IVSize() == 0
  {
  }

  /** `CipherSuite.Encrypt`; the library panics on an IV of the wrong size. */
  function Encrypt(lib: Library, suite: Suite, plaintext: bytes, iv: bytes, aad: bytes): (r: Result<bytes, CipherError>) {
    match suite
    case AeadSuite(a, key) =>
      if |iv| != a.IVSize() then Err(Panic) else Ok(lib.seal(a, key, iv, plaintext, aad))
    case CbcSuite(key) =>
      if |iv| != AES_BLOCK then Err(Panic) else Ok(CbcEncrypt(lib, key, BlockAlign.Pad(plaintext, AES_BLOCK), iv))
    case XxteaSuite(words) => Xxtea.Encrypt(plaintext, words)
  }

  /** `CipherSuite.Decrypt`; no suite removes padding. */
  function Decrypt(lib: Library, suite: Suite, ciphertext: bytes, iv: bytes, aad: bytes): (r: Result<bytes, CipherError>) {
    match suite
    case AeadSuite(a, key) =>
      if |iv| != a.IVSize() then Err(Panic)
      else
        (match lib.open(a, key, iv, ciphertext, aad)
         case Some(p) => Ok(p)
         case None => Err(NotAuthentic))
    case CbcSuite(key) =>
      if ciphertext == [] || |ciphertext| % AES_BLOCK != 0 then Err(BadCiphertext)
      else if |iv| != AES_BLOCK then Err(Panic)
      else Ok(CbcDecrypt(lib, key, ciphertext, iv))
    case XxteaSuite(words) => Xxtea.Decrypt(ciphertext, words)
  }

  /** The IVs and lengths a suite encrypts. */
  predicate Accepts(suite: Suite, length: nat, ivSize: nat) {
    match suite
    case AeadSuite(a, _) => ivSize == a.IVSize()
    case CbcSuite(_) => ivSize == AES_BLOCK
    case XxteaSuite(_) => Xxtea.Encryptable(length)
  }

  /** What a suite decrypts under an IV of its size: what the library finds authentic, or one whole block or more. */
  lemma DecryptAccepts(lib: Library, suite: Suite, ciphertext: bytes, iv: bytes, aad: bytes)
    ensures Decrypt(lib, suite, ciphertext, iv, aad).Ok? <==>
              match suite
              case AeadSuite(a, key) => |iv| == a.IVSize() && lib.open(a, key, iv, ciphertext, aad).Some?
              case CbcSuite(_) => |iv| == AES_BLOCK && |ciphertext| > 0 && |ciphertext| % AES_BLOCK == 0
              case XxteaSuite(_) => |ciphertext| > 0 && |ciphertext| % 8 == 0 && Xxtea.Encryptable(|ciphertext|)
    ensures suite.AeadSuite? && Decrypt(lib, suite, ciphertext, iv, aad).Ok? ==>
              lib.open(suite.algorithm, suite.key, iv, ciphertext, aad)
              == Some(Decrypt(lib, suite, ciphertext, iv, aad).value)
  {
    if suite.XxteaSuite? {
      Xxtea.EncryptUndoesDecrypt(ciphertext, suite.words);
    }
  }

  /** What decryption hands back: the plaintext, with the padding that no suite removes. */
  function Recovered(suite: Suite, plaintext: bytes): bytes {
    match suite
    case AeadSuite(_, _) => plaintext
    case CbcSuite(_) => BlockAlign.Pad(plaintext, AES_BLOCK)
    case XxteaSuite(_) => Xxtea.Padded(plaintext)
  }

  /**
    Decryption recovers the padded plaintext, except that CBC turns no data into no blocks,
    which its decryptor refuses.
   */
  lemma SuiteRoundTrip(lib: Library, suite: Suite, plaintext: bytes, iv: bytes, aad: bytes)
    ensures Encrypt(lib, suite, plaintext, iv, aad).Ok? <==> Accepts(suite, |plaintext|, |iv|)
    ensures Accepts(suite, |plaintext|, |iv|) ==>
              var c := Encrypt(lib, suite, plaintext, iv, aad).value;
              && Decrypt(lib, suite, c, iv, aad)
                 == (if suite.CbcSuite? && plaintext == [] then Err(BadCiphertext) else Ok(Recovered(suite, plaintext)))
              && (c == [] <==> suite.CbcSuite? && plaintext == [])
    ensures plaintext <= Recovered(suite, plaintext)
  {
    match suite
    case AeadSuite(_, _) =>
    case CbcSuite(key) =>
      BlockAlign.PadAligns(plaintext, AES_BLOCK);
      if |iv| == AES_BLOCK {
        CbcRoundTrip(lib, key, BlockAlign.Pad(plaintext, AES_BLOCK), iv);
      }
    case XxteaSuite(words) =>
      Xxtea.DecryptUndoesEncrypt(plaintext, words);
  }

  /** Padding leaves the plaintext alone exactly when it is already whole blocks (and, for XXTEA, not empty). */
  lemma RecoveredExact(suite: Suite, plaintext: bytes)
    ensures Recovered(suite, plaintext) == plaintext <==>
              match suite
              case AeadSuite(_, _) => true
              case CbcSuite(_) => |plaintext| % AES_BLOCK == 0
              case XxteaSuite(_) => plaintext != [] && |plaintext| % Xxtea.BLOCK_SIZE == 0
  {
    BlockAlign.PadAligns(plaintext, AES_BLOCK);
    BlockAlign.PadAligns(plaintext, Xxtea.BLOCK_SIZE);
  }
}
