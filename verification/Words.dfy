/** Bytes and little-endian 32-bit words. */
module Words {

  type Byte = x: int | 0 <= x < 256

  const WORD := 0x1_0000_0000

  function Bytes4(v: int): (r: seq<Byte>)
    requires 0 <= v < WORD
    ensures |r| == 4
  {
    [v % 65536 % 256, v % 65536 / 256, v / 65536 % 256, v / 65536 / 256]
  }

  function Half(lo: Byte, hi: Byte): (v: int)
    ensures 0 <= v < 65536
  {
    lo as int + 256 * hi as int
  }

  function Word4(s: seq<Byte>): (v: int)
    requires |s| == 4
    ensures 0 <= v < WORD
  {
    Half(s[0], s[1]) + 65536 * Half(s[2], s[3])
  }

  lemma Word4RoundTrip(v: int)
    requires 0 <= v < WORD
    ensures Word4(Bytes4(v)) == v
  {}

  lemma Bytes4RoundTrip(s: seq<Byte>)
    requires |s| == 4
    ensures Bytes4(Word4(s)) == s
  {
    var lo, hi := Half(s[0], s[1]), Half(s[2], s[3]);
    assert Word4(s) % 65536 == lo && Word4(s) / 65536 == hi;
  }
}
