/** Bytes, cyclic indices, block copies and the little-endian length word. */
module Bytes {
  import opened Words

  type Byte = x: int | 0 <= x < 256

  /** i modulo n, for the indices that occur. */
  function Wrap(i: int, n: int): (w: int)
    requires 0 <= i <= 2 * n && 0 < n
    ensures 0 <= w < n
  {
    if i < n then i else if i < 2 * n then i - n else 0
  }

  function Min(a: int, b: int): int {
    if a < b then a else b
  }

  /** memcpy into an array */
  method CopyIn(storage: array<Byte>, offset: int, data: seq<Byte>)
    requires 0 <= offset && offset + |data| <= storage.Length
    modifies storage
    ensures storage[offset..offset + |data|] == data
    ensures forall i :: 0 <= i < storage.Length && !(offset <= i < offset + |data|) ==> storage[i] == old(storage[i])
  {
    var i := 0;
    while i < |data|
      invariant 0 <= i <= |data|
      invariant forall j :: 0 <= j < i ==> storage[offset + j] == data[j]
      invariant forall j :: 0 <= j < storage.Length && !(offset <= j < offset + i) ==> storage[j] == old(storage[j])
    {
      storage[offset + i] := data[i];
      i := i + 1;
    }
  }

  // ---------------------------------------------------------------------------
  // A 32-bit length stored in memory order.
  // ---------------------------------------------------------------------------

  const WORD_BYTES := 4

  function Encode(n: int): (word: seq<Byte>)
    requires 0 <= n < WRAP
    ensures |word| == WORD_BYTES
  {
    [n % 256, n / 256 % 256, n / 65536 % 256, n / 16777216]
  }

  function Decode(word: seq<Byte>): (n: int)
    requires |word| == WORD_BYTES
    ensures 0 <= n < WRAP
  {
    var b0: int, b1: int, b2: int, b3: int := word[0], word[1], word[2], word[3];
    b0 + 256 * b1 + 65536 * b2 + 16777216 * b3
  }

  lemma DecodeEncode(n: int)
    requires 0 <= n < WRAP
    ensures Decode(Encode(n)) == n
  {
    assert n / 65536 == n / 256 / 256;
    assert n / 16777216 == n / 65536 / 256;
  }
}
