/** Block alignment: pad only when needed, unlike the padding of section 6.3 of RFC 5652. */
module BlockAlign {
  import opened Bytes
  import opened DivMod

  /** How many bytes are missing to the next multiple of `blockSize`. */
  function Missing(n: nat, blockSize: nat): (k: nat)
    requires blockSize > 0
    ensures k < blockSize && (n + k) % blockSize == 0
  {
    if n % blockSize == 0 then 0
    else
      MultipleAbove(n, blockSize);
      blockSize - n % blockSize
  }

  lemma MultipleAbove(n: nat, b: nat)
    requires b > 0
    ensures (n + (b - n % b)) % b == 0
  {
    assert n + (b - n % b) == b * (n / b + 1);
    DivModUnique(n + (b - n % b), b, n / b + 1, 0);
  }

  function Pad(data: bytes, blockSize: nat): (r: bytes)
    requires blockSize > 0
  {
    var k := Missing(|data|, blockSize);
    data + seq(k, _ => (k % 256) as byte)
  }

  /** The padded data is aligned, extends the data, and grows by less than one block. */
  lemma PadAligns(data: bytes, blockSize: nat)
    requires blockSize > 0
    ensures |Pad(data, blockSize)| % blockSize == 0
    ensures |data| <= |Pad(data, blockSize)| < |data| + blockSize
    ensures Pad(data, blockSize)[..|data|] == data
    ensures Pad(data, blockSize) == [] <==> data == []
    ensures |data| % blockSize == 0 ==> Pad(data, blockSize) == data
  {
  }

  /** Every byte of padding tells how many there are. */
  lemma PadTells(data: bytes, blockSize: nat, i: nat)
    requires blockSize > 0 && |data| <= i < |Pad(data, blockSize)|
    ensures Pad(data, blockSize)[i] as nat == (|Pad(data, blockSize)| - |data|) % 256
  {
  }

  /**
    Padding alone cannot be undone: every unaligned message shares its padded form
    with another message, so only the carried length makes decoding exact.
   */
  lemma PadNeedsLength(data: bytes, blockSize: nat)
    requires blockSize > 0 && |data| % blockSize != 0
    ensures Pad(data, blockSize) != data
    ensures Pad(Pad(data, blockSize), blockSize) == Pad(data, blockSize)
  {
    PadAligns(data, blockSize);
    PadAligns(Pad(data, blockSize), blockSize);
  }

  /** `blockAlignPad`. */
  method BlockAlignPad(data: bytes, blockSize: nat) returns (r: bytes)
    requires blockSize > 0
    ensures r == Pad(data, blockSize)
  {
    var remainder := |data| % blockSize;
    if remainder == 0 {
      return data;
    }
    var padding := blockSize - remainder;
    var padded := new byte[|data| + padding];
    forall i | 0 <= i < |data| {
      padded[i] := data[i];
    }
    assert padded[..|data|] == data;
    for i := |data| to padded.Length
      invariant padded[..i] == data + seq(i - |data|, _ => (padding % 256) as byte)
    {
      padded[i] := (padding % 256) as byte;
    }
    r := padded[..];
    assert padded[..] == padded[..padded.Length];
  }
}
