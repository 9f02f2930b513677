/** Big-endian numbers and slices of byte strings, as the struct module packs and reads them. */
module Wire {
  import opened Wrappers
  import opened ServoWords

  type bytes = seq<byte>

  const WORD := 0x1_0000_0000

  // struct.pack(">I", n); None where it raises
  function PackU32(n: int): (r: Option<bytes>)
    ensures r.Some? <==> 0 <= n < WORD
    ensures r.Some? ==> |r.value| == 4 && Number(r.value) == n
  {
    if 0 <= n < WORD then Some(Bytes4(n)) else None
  }

  // struct.pack(">i", n)
  function PackI32(n: int): (r: Option<bytes>)
    ensures r.Some? <==> -WORD / 2 <= n < WORD / 2
    ensures r.Some? ==> |r.value| == 4 && Signed(Number(r.value)) == n
  {
    if -WORD / 2 <= n < WORD / 2 then Some(Bytes4(if n < 0 then n + WORD else n)) else None
  }

  function Bytes4(n: int): (b: bytes)
    requires 0 <= n < WORD
    ensures |b| == 4 && Number(b) == n
  {
    var b := [n / 0x100_0000, n / 0x1_0000 % 256, n / 256 % 256, n % 256];
    assert n == 256 * (n / 256) + n % 256;
    assert n / 256 == 256 * (n / 0x1_0000) + n / 256 % 256;
    assert n / 0x1_0000 == 256 * (n / 0x100_0000) + n / 0x1_0000 % 256;
    b
  }

  function Number(b: bytes): int
    requires |b| == 4
  {
    0x100_0000 * b[0] as int + 0x1_0000 * b[1] as int + 256 * b[2] as int + b[3] as int
  }

  function Signed(n: int): int { if n >= WORD / 2 then n - WORD else n }

  // struct.unpack(">I", data[at : at + 4]); None where it raises
  function ReadU32(data: bytes, at: nat): Option<nat> {
    if at + 4 <= |data| then
      var n := Number(data[at..at + 4]);
      assert n >= 0;
      Some(n)
    else None
  }

  // data[at : at + size], which never raises
  function Slice(data: bytes, at: nat, size: nat): bytes {
    if at >= |data| then [] else if at + size <= |data| then data[at..at + size] else data[at..]
  }

  // Reading a packed number back from the middle of a message.
  lemma ReadPacked(before: bytes, word: bytes, after: bytes)
    requires |word| == 4
    ensures ReadU32(before + word + after, |before|) == Some(Number(word))
  {
    assert (before + word + after)[|before|..|before| + 4] == word;
  }
}
