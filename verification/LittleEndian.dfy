/** Fixed-width little-endian integers. */
module LittleEndian {
  import opened Words

  function Pow256(width: nat): (p: nat)
    ensures 1 <= p
  {
    if width == 0 then 1 else 256 * Pow256(width - 1)
  }

  /** The `i`-th byte of `n`, counted from the least significant. */
  function Byte(n: nat, i: nat): U8 {
    if i == 0 then n % 256 else Byte(n / 256, i - 1)
  }

  /** The `width` low bytes of `n`, least significant first. */
  function ToBytes(n: nat, width: nat): (bytes: seq<U8>)
    ensures |bytes| == width
  {
    seq(width, i requires 0 <= i => Byte(n, i))
  }

  function FromBytes(bytes: seq<U8>): nat {
    if bytes == [] then 0 else bytes[0] + 256 * FromBytes(bytes[1..])
  }

  lemma ToBytesTail(n: nat, width: nat)
    requires 0 < width
    ensures ToBytes(n, width) == [n % 256] + ToBytes(n / 256, width - 1)
  {
  }

  lemma {:induction false} NumberRoundTrip(n: nat, width: nat)
    requires n < Pow256(width)
    ensures FromBytes(ToBytes(n, width)) == n
    decreases width
  {
    if width > 0 {
      NumberRoundTrip(n / 256, width - 1);
      ToBytesTail(n, width);
      assert ToBytes(n, width)[1..] == ToBytes(n / 256, width - 1);
    }
  }

  lemma {:induction false} BytesRoundTrip(bytes: seq<U8>)
    ensures FromBytes(bytes) < Pow256(|bytes|)
    ensures ToBytes(FromBytes(bytes), |bytes|) == bytes
  {
    if bytes != [] {
      BytesRoundTrip(bytes[1..]);
      ToBytesTail(FromBytes(bytes), |bytes|);
    }
  }

  lemma {:induction false} ZeroBytes(width: nat)
    ensures forall i :: 0 <= i < width ==> ToBytes(0, width)[i] == 0
  {
    if width > 0 {
      ZeroBytes(width - 1);
      ToBytesTail(0, width);
    }
  }

  lemma Widths()
    ensures Pow256(4) == U32_LIMIT && Pow256(8) == 0x1_0000_0000_0000_0000
  {
  }

  /** The number that four bytes stand for: the first counts ones, the next 256s, and so on. */
  function Four(a: U8, b: U8, c: U8, d: U8): nat {
    a + 0x100 * b + 0x1_0000 * c + 0x100_0000 * d
  }

  /** Any number of bytes: four at a time, the first four counting least. */
  lemma FourThenMore(bytes: seq<U8>)
    requires 4 <= |bytes|
    ensures FromBytes(bytes) == Four(bytes[0], bytes[1], bytes[2], bytes[3]) + 0x1_0000_0000 * FromBytes(bytes[4..])
  {
    var one, two, three := bytes[1..], bytes[2..], bytes[3..];
    assert one[1..] == two && two[1..] == three && three[1..] == bytes[4..];
    assert FromBytes(three) == bytes[3] + 256 * FromBytes(bytes[4..]);
    assert FromBytes(two) == bytes[2] + 256 * FromBytes(three);
    assert FromBytes(one) == bytes[1] + 256 * FromBytes(two);
  }

  lemma FourBytes(bytes: seq<U8>)
    requires |bytes| == 4
    ensures FromBytes(bytes) == Four(bytes[0], bytes[1], bytes[2], bytes[3])
  {
    FourThenMore(bytes);
    assert bytes[4..] == [];
  }
}
