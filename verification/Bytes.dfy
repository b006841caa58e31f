/** Bytes and the fixed-width big-endian integers that the packed headers carry. */
module Bytes {

  type byte = x: int | 0 <= x < 256

  const TWO16: int := 0x1_0000
  const TWO32: int := 0x1_0000_0000
  const TWO64: int := 0x1_0000_0000_0000_0000

  function BE16(v: nat): (r: seq<byte>)
    requires v < TWO16
    ensures |r| == 2
  {
    [v / 256, v % 256]
  }

  function BE32(v: nat): (r: seq<byte>)
    requires v < TWO32
    ensures |r| == 4
  {
    BE16(v / TWO16) + BE16(v % TWO16)
  }

  function BE64(v: nat): (r: seq<byte>)
    requires v < TWO64
    ensures |r| == 8
  {
    BE32(v / TWO32) + BE32(v % TWO32)
  }

  function Read16(b: seq<byte>): (v: nat)
    requires |b| == 2
    ensures v < TWO16
  {
    b[0] as int * 256 + b[1]
  }

  function Read32(b: seq<byte>): (v: nat)
    requires |b| == 4
    ensures v < TWO32
  {
    Read16(b[..2]) * TWO16 + Read16(b[2..])
  }

  lemma ReadBack16(v: nat)
    requires v < TWO16
    ensures Read16(BE16(v)) == v
  {
  }

  lemma ReadBack32(v: nat)
    requires v < TWO32
    ensures Read32(BE32(v)) == v
  {
  }

  function Swap16(v: nat): (r: nat)
    requires v < TWO16
    ensures r < TWO16
  {
    (v % 256) * 256 + v / 256
  }

  /** `htonl` on the little-endian host the program runs on. */
  function Swap32(v: nat): (r: nat)
    requires v < TWO32
    ensures r < TWO32
  {
    Swap16(v % TWO16) * TWO16 + Swap16(v / TWO16)
  }

  /** The bytes of a word as a little-endian host lays them out in memory. */
  function Memory16(v: nat): (r: seq<byte>)
    requires v < TWO16
    ensures |r| == 2
  {
    [v % 256, v / 256]
  }

  function Memory32(v: nat): (r: seq<byte>)
    requires v < TWO32
    ensures |r| == 4
  {
    Memory16(v % TWO16) + Memory16(v / TWO16)
  }

  function Memory64(v: nat): (r: seq<byte>)
    requires v < TWO64
    ensures |r| == 8
  {
    Memory32(v % TWO32) + Memory32(v / TWO32)
  }

  function Load16(b: seq<byte>): (v: nat)
    requires |b| == 2
    ensures v < TWO16
  {
    b[1] as int * 256 + b[0]
  }

  function Load32(b: seq<byte>): (v: nat)
    requires |b| == 4
    ensures v < TWO32
  {
    Load16(b[2..]) * TWO16 + Load16(b[..2])
  }

  function Load64(b: seq<byte>): (v: nat)
    requires |b| == 8
    ensures v < TWO64
  {
    Load32(b[4..]) * TWO32 + Load32(b[..4])
  }

  function HostToNetwork64(v: nat): (r: nat)
    requires v < TWO64
    ensures r < TWO64
  {
    Swap32(v % TWO32) * TWO32 + Swap32(v / TWO32)
  }

  function NetworkToHost64(v: nat): (r: nat)
    requires v < TWO64
    ensures r < TWO64
  {
    Swap32(v % TWO32) * TWO32 + Swap32(v / TWO32)
  }

  lemma Swap16Parts(v: nat)
    requires v < TWO16
    ensures Memory16(Swap16(v)) == BE16(v)
    ensures Swap16(Swap16(v)) == v
  {
  }

  lemma Swap32Parts(v: nat)
    requires v < TWO32
    ensures Memory32(Swap32(v)) == BE32(v)
    ensures Swap32(Swap32(v)) == v
  {
    var hi, lo := v / TWO16, v % TWO16;
    Swap16Parts(hi);
    Swap16Parts(lo);
    var w := Swap32(v);
    assert w % TWO16 == Swap16(hi) && w / TWO16 == Swap16(lo);
  }

  /** The two halves are swapped and byte-swapped, so memory holds the big-endian 64-bit value. */
  lemma NetworkOrder64(v: nat)
    requires v < TWO64
    ensures Memory64(HostToNetwork64(v)) == BE64(v)
    ensures NetworkToHost64(HostToNetwork64(v)) == v
  {
    var hi, lo := v / TWO32, v % TWO32;
    Swap32Parts(hi);
    Swap32Parts(lo);
    Words64(Swap32(lo), Swap32(hi));
    hide Swap32;
  }

  lemma Words64(hi: nat, lo: nat)
    requires hi < TWO32 && lo < TWO32
    ensures (hi * TWO32 + lo) / TWO32 == hi && (hi * TWO32 + lo) % TWO32 == lo
  {
  }

  lemma LoadMemory64(v: nat)
    requires v < TWO64
    ensures Load64(Memory64(v)) == v
  {
  }
}
