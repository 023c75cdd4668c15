/** Machine integers of the source, made explicit: bytes and 32-bit unsigned values. */
module Bytes {

  type byte = x: int | 0 <= x < 0x100

  /** `std::uint32_t`, `Json::UInt`: the range of a validator's sequence number. */
  type uint32 = x: int | 0 <= x < 0x1_0000_0000

  /** `std::numeric_limits<std::uint32_t>::max()`, the sequence number that means "revoked". */
  const MaxUInt32: uint32 := 0xFFFF_FFFF

  /** A 32-bit value as four bytes, most significant first. */
  function BigEndian32(n: uint32): (r: seq<byte>)
    ensures |r| == 4
  {
    [n / 0x100_0000, (n / 0x1_0000) % 0x100, (n / 0x100) % 0x100, n % 0x100]
  }

  function FromBigEndian32(b: seq<byte>): uint32
    requires |b| == 4
  {
    (b[0] as int) * 0x100_0000 + (b[1] as int) * 0x1_0000 + (b[2] as int) * 0x100 + (b[3] as int)
  }

  lemma FromBigEndian32Inverse(n: uint32)
    ensures FromBigEndian32(BigEndian32(n)) == n
  {
    var b := BigEndian32(n);
    assert n % 0x100_0000 == ((n / 0x1_0000) % 0x100) * 0x1_0000 + n % 0x1_0000;
    assert n % 0x1_0000 == ((n / 0x100) % 0x100) * 0x100 + n % 0x100;
  }

  function Zeros(n: nat): (r: seq<byte>)
    ensures |r| == n
  {
    seq(n, _ => 0)
  }
}
