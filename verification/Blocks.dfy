/** The protocol block of src/protocol.rs: client id, type, data length, data, zero padding. */
module Blocks {
  import opened Words
  import opened Wrappers
  import opened LittleEndian
  import opened Sequences

  datatype BlockType = Heartbeat | Start | Data | Abort | End

  /** A block is its bytes, whatever they are: nothing checks the ones that come from the network. */
  datatype Block = Block(content: seq<U8>)

  const SERIALIZE_OVERHEAD := 9

  function TypeByte(t: BlockType): U8 {
    match t
    case Heartbeat => 0x00
    case Start => 0x01
    case Data => 0x02
    case Abort => 0x03
    case End => 0x04
  }

  /** The code of each type on the wire. */
  ghost predicate TypeCode(t: BlockType, code: int) {
    && (t.Heartbeat? <==> code == 0x00)
    && (t.Start? <==> code == 0x01)
    && (t.Data? <==> code == 0x02)
    && (t.Abort? <==> code == 0x03)
    && (t.End? <==> code == 0x04)
  }

  /** A block byte by byte: four of the client id, one of the type, four of the data length, the data, zeros. */
  ghost predicate OnWire(content: seq<U8>, t: BlockType, id: nat, data: seq<U8>) {
    && SERIALIZE_OVERHEAD + |data| <= |content|
    && Four(content[0], content[1], content[2], content[3]) == id
    && TypeCode(t, content[4])
    && Four(content[5], content[6], content[7], content[8]) == |data|
    && content[9..9 + |data|] == data
    && forall i :: 9 + |data| <= i < |content| ==> content[i] == 0
  }

  function ClientIdOf(b: Block): nat
    requires 4 <= |b.content|
  {
    FromBytes(b.content[..4])
  }

  /** The type byte, or what stands (or fails to stand) in its place. */
  function TypeOf(b: Block): Result<BlockType, Option<U8>> {
    if |b.content| <= 4 then Err(None)
    else if b.content[4] == 0x00 then Ok(Heartbeat)
    else if b.content[4] == 0x01 then Ok(Start)
    else if b.content[4] == 0x02 then Ok(Data)
    else if b.content[4] == 0x03 then Ok(Abort)
    else if b.content[4] == 0x04 then Ok(End)
    else Err(Some(b.content[4]))
  }

  function PayloadLen(b: Block): nat
    requires SERIALIZE_OVERHEAD <= |b.content|
  {
    FromBytes(b.content[5..9])
  }

  /** Reading the payload of any other block panics. */
  predicate Readable(b: Block) {
    SERIALIZE_OVERHEAD <= |b.content| && SERIALIZE_OVERHEAD + PayloadLen(b) <= |b.content|
  }

  function Payload(b: Block): seq<U8>
    requires Readable(b)
  {
    b.content[SERIALIZE_OVERHEAD..SERIALIZE_OVERHEAD + PayloadLen(b)]
  }

  function Zeros(n: nat): (z: seq<U8>)
    ensures |z| == n && forall i :: 0 <= i < n ==> z[i] == 0
  {
    seq(n, _ => 0)
  }

  /** `bytes` filled up with zeros to length `n`; left alone when already longer. */
  function Padded(bytes: seq<U8>, n: nat): seq<U8> {
    if |bytes| < n then bytes + Zeros(n - |bytes|) else bytes
  }

  /** The block of type `t` of client `id` with payload `data`, for the block length `transferLength`. */
  function Image(t: BlockType, transferLength: nat, id: nat, data: seq<U8>): Block {
    Block(Padded(ToBytes(id, 4) + [TypeByte(t)] + ToBytes(|data|, 4) + data, transferLength))
  }

  /** Without data the header is followed by zeros, as with empty data. */
  lemma NoDataImage(t: BlockType, transferLength: nat, id: nat)
    requires SERIALIZE_OVERHEAD <= transferLength
    ensures Image(t, transferLength, id, []).content == Padded(ToBytes(id, 4) + [TypeByte(t)], transferLength)
  {
    ZeroBytes(4);
    assert ToBytes(0, 4) == [0, 0, 0, 0];
  }

  lemma ImageOnWire(t: BlockType, transferLength: nat, id: nat, data: seq<U8>)
    requires id < U32_LIMIT
    ensures |data| < U32_LIMIT ==> OnWire(Image(t, transferLength, id, data).content, t, id, data)
  {
    if |data| < U32_LIMIT {
      var content := Image(t, transferLength, id, data).content;
      var start, length := ToBytes(id, 4), ToBytes(|data|, 4);
      Widths();
      NumberRoundTrip(id, 4);
      NumberRoundTrip(|data|, 4);
      FourBytes(start);
      FourBytes(length);
      assert content[..4] == start && content[5..9] == length;
      assert content[4] == TypeByte(t);
      assert content[9..9 + |data|] == data;
    }
  }

  /** What the accessors read, byte by byte. */
  lemma Reading(b: Block)
    requires SERIALIZE_OVERHEAD <= |b.content|
    ensures ClientIdOf(b) == Four(b.content[0], b.content[1], b.content[2], b.content[3])
    ensures PayloadLen(b) == Four(b.content[5], b.content[6], b.content[7], b.content[8])
    ensures Readable(b) ==> |Payload(b)| == PayloadLen(b) && Payload(b) <= b.content[9..]
    ensures TypeOf(b).Ok? <==> b.content[4] <= 0x04
    ensures TypeOf(b).Ok? ==> TypeCode(TypeOf(b).value, b.content[4])
  {
    FourBytes(b.content[..4]);
    FourBytes(b.content[5..9]);
  }

  /** The constructor without data writes the header in place over zeros. */
  method HeaderBlock(t: BlockType, transferLength: nat, id: nat) returns (b: Block)
    requires 5 <= transferLength < U32_LIMIT && id < U32_LIMIT
    ensures b.content == Padded(ToBytes(id, 4) + [TypeByte(t)], transferLength)
  {
    var content := new U8[transferLength](_ => 0);
    var bytes := ToBytes(id, 4);
    content[0] := bytes[0];
    content[1] := bytes[1];
    content[2] := bytes[2];
    content[3] := bytes[3];
    content[4] := TypeByte(t);
    ghost var header := bytes + [TypeByte(t)];
    forall i | 0 <= i < transferLength
      ensures content[i] == Padded(header, transferLength)[i]
    {
      assert i < 4 ==> content[i] == bytes[i];
    }
    assert content[..] == Padded(header, transferLength);
    b := Block(content[..]);
  }

  /** The constructor: with data it appends the parts one by one and pads them. */
  method NewBlock(t: BlockType, transferLength: nat, id: nat, data: Option<seq<U8>>) returns (r: Result<Block, string>)
    requires transferLength < U32_LIMIT && id < U32_LIMIT
    requires data.None? ==> 5 <= transferLength
    ensures data.None? ==> r == Ok(Block(Padded(ToBytes(id, 4) + [TypeByte(t)], transferLength)))
    ensures data.None? && SERIALIZE_OVERHEAD <= transferLength ==> r == Ok(Image(t, transferLength, id, []))
    ensures data.Some? ==>
              if |data.value| < U32_LIMIT then r == Ok(Image(t, transferLength, id, data.value)) else r.Err?
    ensures r.Ok? && (data.Some? || SERIALIZE_OVERHEAD <= transferLength) ==>
              OnWire(r.value.content, t, id, if data.Some? then data.value else [])
  {
    ImageOnWire(t, transferLength, id, if data.Some? then data.value else []);
    match data {
      case None =>
        var b := HeaderBlock(t, transferLength, id);
        r := Ok(b);
        if SERIALIZE_OVERHEAD <= transferLength {
          NoDataImage(t, transferLength, id);
        }
      case Some(d) =>
        var capacity := transferLength;
        var content := ToBytes(id, 4);
        content := content + [TypeByte(t)];
        if |d| >= U32_LIMIT {
          return Err("data.len()");
        }
        content := content + ToBytes(|d|, 4);
        content := content + d;
        if |content| < capacity {
          content := content + Zeros(capacity - |content|);
        }
        r := Ok(Block(content));
    }
  }

  /** Format round trip: whatever the type, the id and the data, the accessors return them; and the length is the
      block length whenever the data is no longer than `max_data_len`. */
  lemma ImageRoundTrip(t: BlockType, transferLength: nat, id: nat, data: seq<U8>)
    requires id < U32_LIMIT && |data| < U32_LIMIT
    ensures var b := Image(t, transferLength, id, data);
            && Readable(b)
            && ClientIdOf(b) == id && TypeOf(b) == Ok(t) && Payload(b) == data
            && (|b.content| == transferLength <==> SERIALIZE_OVERHEAD + |data| <= transferLength)
  {
    var b := Image(t, transferLength, id, data);
    var header := ToBytes(id, 4) + [TypeByte(t)] + ToBytes(|data|, 4);
    Widths();
    NumberRoundTrip(id, 4);
    NumberRoundTrip(|data|, 4);
    assert b.content[..9] == header;
    assert b.content[..4] == header[..4] == ToBytes(id, 4);
    assert b.content[5..9] == header[5..9] == ToBytes(|data|, 4);
    assert b.content[4] == header[4];
    assert b.content[9..9 + |data|] == data;
  }

  ghost predicate AllReadable(log: seq<Block>) {
    forall i :: 0 <= i < |log| ==> Readable(log[i])
  }

  /** The payloads of a sequence of blocks, end to end. */
  ghost function Payloads(log: seq<Block>): seq<U8>
    requires AllReadable(log)
  {
    if log == [] then [] else Payloads(log[..|log| - 1]) + Payload(log[|log| - 1])
  }

  lemma PayloadsSnoc(log: seq<Block>, b: Block)
    requires AllReadable(log) && Readable(b)
    ensures AllReadable(log + [b]) && Payloads(log + [b]) == Payloads(log) + Payload(b)
  {
    assert (log + [b])[..|log|] == log;
  }

  lemma {:induction false} PayloadsConcat(a: seq<Block>, b: seq<Block>)
    requires AllReadable(a) && AllReadable(b)
    ensures AllReadable(a + b) && Payloads(a + b) == Payloads(a) + Payloads(b)
  {
    if b == [] {
      assert a + b == a;
    } else {
      var most, last := b[..|b| - 1], b[|b| - 1];
      SplitLast(a, b);
      PayloadsConcat(a, most);
      PayloadsSnoc(a + most, last);
      Associative(Payloads(a), Payloads(most), Payload(last));
    }
  }
}
