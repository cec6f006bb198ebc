/** Bytes, 32-bit words and their little-endian wire form. */
module Bytes {

  newtype byte = x: int | 0 <= x < 256
  newtype word = x: int | 0 <= x < 0x1_0000_0000
  type bytes = seq<byte>

  const TWO32: nat := 0x1_0000_0000

  /** Go's `uint32(n)`. */
  function WordOf(n: nat): word {
    (n % TWO32) as word
  }

  /** `binary.LittleEndian.Uint32`. */
  function Uint32LE(b: bytes): (w: word)
    requires |b| >= 4
  {
    b[0] as word + 256 * (b[1] as word + 256 * (b[2] as word + 256 * (b[3] as word)))
  }

  /** `binary.LittleEndian.PutUint32`. */
  function PutUint32LE(w: word): (b: bytes)
    ensures |b| == 4
  {
    [(w % 256) as byte, (w / 256 % 256) as byte, (w / 256 / 256 % 256) as byte, (w / 256 / 256 / 256) as byte]
  }

  /** Reading back what was written. */
  lemma WordRoundTrip(w: word)
    ensures Uint32LE(PutUint32LE(w)) == w
  {
  }

  /** Any four bytes are the wire form of the word they stand for. */
  lemma BytesRoundTrip(b: bytes)
    requires |b| >= 4
    ensures PutUint32LE(Uint32LE(b)) == b[..4]
  {
    var w := Uint32LE(b);
    assert w / 256 == b[1] as word + 256 * (b[2] as word + 256 * (b[3] as word));
    assert w / 256 / 256 == b[2] as word + 256 * (b[3] as word);
    assert PutUint32LE(w) == [b[0], b[1], b[2], b[3]];
  }
}
