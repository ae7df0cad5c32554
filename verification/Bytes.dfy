/** Bytes, fixed-width integers and the small vocabulary shared by the other modules. */
module Bytes {

  type byte = b: int | 0 <= b < 256
  type uint32 = n: int | 0 <= n < 0x1_0000_0000

  datatype Option<+T> = None | Some(value: T)

  function PutUint16(n: int): (b: seq<byte>)
    requires 0 <= n < 0x1_0000
    ensures |b| == 2 && Uint16(b) == n
  {
    [n / 0x100, n % 0x100]
  }

  function Uint16(b: seq<byte>): (n: int)
    requires |b| == 2
    ensures 0 <= n < 0x1_0000
  {
    b[0] as int * 0x100 + b[1] as int
  }

  /** Four bytes, most significant first (binary.BigEndian.PutUint32). */
  function PutUint32(n: uint32): (b: seq<byte>)
    ensures |b| == 4
    ensures Uint32(b) == n
  {
    var hi, lo := PutUint16(n / 0x1_0000), PutUint16(n % 0x1_0000);
    assert (hi + lo)[..2] == hi && (hi + lo)[2..] == lo;
    hi + lo
  }

  /** The number four bytes spell, most significant first (binary.BigEndian.Uint32). */
  function Uint32(b: seq<byte>): (n: uint32)
    requires |b| == 4
  {
    Uint16(b[..2]) * 0x1_0000 + Uint16(b[2..])
  }

  lemma PutUint16Inverse(b: seq<byte>)
    requires |b| == 2
    ensures PutUint16(Uint16(b)) == b
  {
  }

  lemma PutUint32Inverse(b: seq<byte>)
    requires |b| == 4
    ensures PutUint32(Uint32(b)) == b
  {
    PutUint16Inverse(b[..2]);
    PutUint16Inverse(b[2..]);
    assert b == b[..2] + b[2..];
  }
}
