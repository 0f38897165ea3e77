/** The worker that cuts what a client sends into blocks (src/send/client.rs), and the one that runs it and marks
    failed transfers (src/send/server.rs). */
module SendClient {
  import opened Words
  import opened Wrappers
  import opened LittleEndian
  import opened Blocks
  import opened Streams

  ghost predicate IsBlock(b: Block, t: BlockType, id: nat, transferLength: nat) {
    Readable(b) && ClientIdOf(b) == id && TypeOf(b) == Ok(t) && |b.content| == transferLength
  }

  /** A transfer under way: a Start block, then only Data blocks. */
  ghost predicate Flowing(log: seq<Block>, id: nat, transferLength: nat) {
    && log != []
    && IsBlock(log[0], Start, id, transferLength) && Payload(log[0]) == []
    && forall i :: 0 < i < |log| ==> IsBlock(log[i], Data, id, transferLength)
  }

  /** A transfer under way closed by one last block of type `t`. */
  ghost predicate Closed(log: seq<Block>, t: BlockType, id: nat, transferLength: nat) {
    && log != []
    && Flowing(log[..|log| - 1], id, transferLength)
    && IsBlock(log[|log| - 1], t, id, transferLength)
  }

  /** What the sending side of a transfer may have produced by some moment, when the client's whole input is
      `input`: what was cut so far is an initial part of it, and at the End it is all of it. */
  ghost predicate Transcript(log: seq<Block>, id: nat, transferLength: nat, input: seq<U8>) {
    && AllReadable(log)
    && (|| Flowing(log, id, transferLength)
        || Closed(log, End, id, transferLength)
        || Closed(log, Abort, id, transferLength))
    && Payloads(log) <= input
    && (Closed(log, End, id, transferLength) ==> Payloads(log) == input)
  }

  /** A Data payload fills its block and an End payload does not. */
  ghost predicate Full(b: Block, transferLength: nat) {
    && Readable(b)
    && (TypeOf(b) == Ok(Data) ==> |Payload(b)| == transferLength - SERIALIZE_OVERHEAD)
    && (TypeOf(b) == Ok(End) ==> |Payload(b)| < transferLength - SERIALIZE_OVERHEAD)
  }

  ghost predicate FullBlocks(log: seq<Block>, transferLength: nat) {
    forall i :: 0 <= i < |log| ==> Full(log[i], transferLength)
  }

  /** One more block at the end of a transfer under way. */
  lemma AppendBlock(log: seq<Block>, b: Block, t: BlockType, id: nat, transferLength: nat)
    requires AllReadable(log) && Flowing(log, id, transferLength) && IsBlock(b, t, id, transferLength)
    ensures AllReadable(log + [b]) && Payloads(log + [b]) == Payloads(log) + Payload(b)
    ensures Closed(log + [b], t, id, transferLength)
    ensures t.Data? ==> Flowing(log + [b], id, transferLength)
  {
    var more := log + [b];
    assert more[..|log|] == log;
    assert more[|log|] == b;
  }

  /** Make a block that fits. */
  method Craft(t: BlockType, id: nat, transferLength: nat, data: seq<U8>) returns (b: Block)
    requires id < U32_LIMIT && SERIALIZE_OVERHEAD + |data| <= transferLength < U32_LIMIT
    ensures IsBlock(b, t, id, transferLength) && Payload(b) == data
  {
    var r := NewBlock(t, transferLength, id, Some(data));
    ImageRoundTrip(t, transferLength, id, data);
    b := r.value;
  }

  /** Make a block without data. */
  method CraftEmpty(t: BlockType, id: nat, transferLength: nat) returns (b: Block)
    requires id < U32_LIMIT && SERIALIZE_OVERHEAD <= transferLength < U32_LIMIT
    ensures IsBlock(b, t, id, transferLength) && Payload(b) == []
  {
    var r := NewBlock(t, transferLength, id, None);
    ImageRoundTrip(t, transferLength, id, []);
    b := r.value;
  }

  /** The blocks behind the Start carry what the reads returned, one block each; only the last read of a complete
      transfer, the one that finds the end of the input, returned nothing. */
  ghost predicate AsRead(sent: seq<Block>, parts: seq<seq<U8>>, complete: bool) {
    && |sent| == 1 + |parts|
    && forall i :: 0 <= i < |parts| ==>
         && Readable(sent[i + 1]) && Payload(sent[i + 1]) == parts[i]
         && (parts[i] == [] <==> complete && i == |parts| - 1)
  }

  lemma AsReadMore(sent: seq<Block>, parts: seq<seq<U8>>, b: Block, part: seq<U8>)
    requires AsRead(sent, parts, false) && Readable(b) && Payload(b) == part
    ensures AsRead(sent + [b], parts + [part], part == [])
  {
    var more, all := sent + [b], parts + [part];
    forall i | 0 <= i < |all|
      ensures Readable(more[i + 1]) && Payload(more[i + 1]) == all[i]
      ensures all[i] == [] <==> part == [] && i == |all| - 1
    {
      assert i < |parts| ==> more[i + 1] == sent[i + 1] && all[i] == parts[i];
    }
  }

  /** The state between two reads: blocks `sent`, bytes `held` in the buffer, and what the reads returned in `parts`. */
  ghost predicate Cutting(sent: seq<Block>, held: seq<U8>, parts: seq<seq<U8>>, id: nat, transferLength: nat,
                          flush: bool, input: seq<U8>, position: nat)
    requires SERIALIZE_OVERHEAD <= transferLength
  {
    var room := transferLength - SERIALIZE_OVERHEAD;
    && AllReadable(sent) && Flowing(sent, id, transferLength)
    && position <= |input| && Payloads(sent) + held == input[..position]
    && |held| <= room && (|held| == room ==> room == 0) && (room == 0 ==> position == 0)
    && (flush ==> held == [])
    && (flush && room > 0 ==> AsRead(sent, parts, false))
    && (!flush && room > 0 ==> FullBlocks(sent, transferLength))
  }

  /** The state after the last read. A complete transfer ends with an End and carries the whole input; otherwise all
      that was read is sent but for less than a block, or, with `flush`, but for nothing. With `flush` each read makes
      a block; without, blocks are full. */
  ghost predicate Cut(sent: seq<Block>, ok: bool, parts: seq<seq<U8>>, id: nat, transferLength: nat, flush: bool,
                      input: seq<U8>, position: nat)
    requires SERIALIZE_OVERHEAD <= transferLength
  {
    var room := transferLength - SERIALIZE_OVERHEAD;
    && AllReadable(sent) && Payloads(sent) <= input && |Payloads(sent)| <= position
    && (if ok then Closed(sent, End, id, transferLength) else Flowing(sent, id, transferLength))
    && (ok && room > 0 ==> Payloads(sent) == input)
    && (ok && room == 0 ==> Payloads(sent) == [])
    && (!ok && room > 0 ==> position - |Payloads(sent)| < if flush then 1 else room)
    && (flush && room > 0 ==> AsRead(sent, parts, ok))
    && (!flush && room > 0 ==> FullBlocks(sent, transferLength))
  }

  lemma CutFails(sent: seq<Block>, held: seq<U8>, parts: seq<seq<U8>>, id: nat, transferLength: nat, flush: bool,
                 input: seq<U8>, position: nat)
    requires SERIALIZE_OVERHEAD <= transferLength
    requires Cutting(sent, held, parts, id, transferLength, flush, input, position)
    ensures Cut(sent, false, parts, id, transferLength, flush, input, position)
  {
    assert |Payloads(sent) + held| == position;
  }

  lemma NextPart(done: seq<U8>, held: seq<U8>, input: seq<U8>, before: nat, position: nat)
    requires before <= position <= |input| && done + held == input[..before]
    ensures done + (held + input[before..position]) == input[..position]
  {
  }

  lemma CutHeld(sent: seq<Block>, held: seq<U8>, parts: seq<seq<U8>>, id: nat, transferLength: nat, flush: bool,
                input: seq<U8>, before: nat, position: nat)
    requires SERIALIZE_OVERHEAD <= transferLength
    requires Cutting(sent, held, parts, id, transferLength, flush, input, before)
    requires before < position <= |input| && !flush
    requires |held| + position - before < transferLength - SERIALIZE_OVERHEAD
    ensures Cutting(sent, held + input[before..position], parts + [input[before..position]], id, transferLength, flush,
                    input, position)
  {
    NextPart(Payloads(sent), held, input, before, position);
  }

  /** One more block with all that was held and read. */
  lemma CutBlock(sent: seq<Block>, held: seq<U8>, parts: seq<seq<U8>>, id: nat, transferLength: nat, flush: bool,
                 input: seq<U8>, before: nat, position: nat, t: BlockType, block: Block)
    requires SERIALIZE_OVERHEAD <= transferLength
    requires Cutting(sent, held, parts, id, transferLength, flush, input, before)
    requires before <= position <= |input| && IsBlock(block, t, id, transferLength)
    requires Payload(block) == held + input[before..position]
    requires t.Data? ==> before < position
    requires t.Data? && !flush ==> |Payload(block)| == transferLength - SERIALIZE_OVERHEAD
    requires t.End? ==> before == position
    requires t.End? ==> position == |input| || transferLength == SERIALIZE_OVERHEAD
    requires transferLength == SERIALIZE_OVERHEAD ==> before == position
    ensures t.Data? ==> Cutting(sent + [block], [], parts + [input[before..position]], id, transferLength, flush, input,
                                position)
    ensures t.End? ==> Cut(sent + [block], true, parts + [input[before..position]], id, transferLength, flush, input,
                           position)
  {
    var more, part := sent + [block], input[before..position];
    AppendBlock(sent, block, t, id, transferLength);
    NextPart(Payloads(sent), held, input, before, position);
    assert Payloads(more) + [] == input[..position];
    assert input[..|input|] == input;
    if flush && transferLength > SERIALIZE_OVERHEAD {
      AsReadMore(sent, parts, block, part);
    }
  }

  /** Cut the client's input into blocks, for every schedule of short reads. `sent` is what goes to the ordering
      channel, `parts` what the reads returned. Only a failing read cuts the transfer short. A block length of nine
      would leave no room for data, and nothing of the input would be sent; but block lengths are multiples of eight
      (RaptorQSizing.BlockLengths). */
  method SendTransfer(source: Source, id: nat, transferLength: nat, flush: bool)
    returns (sent: seq<Block>, ok: bool, ghost parts: seq<seq<U8>>)
    requires source.Valid() && source.position == 0
    requires id < U32_LIMIT && SERIALIZE_OVERHEAD <= transferLength < U32_LIMIT
    modifies source`position, source`returned
    ensures source.Valid() && source.returned == old(source.returned) + parts
    ensures Cut(sent, ok, parts, id, transferLength, flush, source.input, source.position)
    ensures source.reliable ==> ok
  {
    var first := CraftEmpty(Start, id, transferLength);
    sent := [first];
    assert sent[..0] == [];

    var buffer := new U8[transferLength - SERIALIZE_OVERHEAD](_ => 0);
    var cursor := 0;
    ghost var held: seq<U8> := [];
    parts := [];

    while true
      invariant source.Valid() && cursor <= buffer.Length && buffer[..cursor] == held
      invariant Cutting(sent, held, parts, id, transferLength, flush, source.input, source.position)
      invariant source.returned == old(source.returned) + parts
      decreases |source.input| - source.position
    {
      ghost var before := source.position;
      var r, chunk := ReadOn(source, buffer, cursor, buffer.Length, held);
      if r.Err? {
        CutFails(sent, held, parts, id, transferLength, flush, source.input, before);
        return sent, false, parts;
      }
      var read := r.value;
      ghost var earlier := parts;
      parts := parts + [source.input[before..source.position]];
      if 0 < read {
        cursor := cursor + read;
        if !(flush || cursor >= buffer.Length) {
          CutHeld(sent, held, earlier, id, transferLength, flush, source.input, before, source.position);
          held := chunk;
          continue;
        }
      }
      var blockType := if read == 0 then End else Data;
      var block := Craft(blockType, id, transferLength, buffer[..cursor]);
      CutBlock(sent, held, earlier, id, transferLength, flush, source.input, before, source.position, blockType, block);
      sent := sent + [block];
      cursor := 0;
      held := [];
      if read == 0 {
        return sent, true, parts;
      }
    }
  }

  /** Run one client; a failed transfer is marked with an Abort. The whole log is then a complete transcript. */
  method Serve(source: Source, id: nat, transferLength: nat, flush: bool) returns (sent: seq<Block>)
    requires source.Valid() && source.position == 0
    requires id < U32_LIMIT && SERIALIZE_OVERHEAD < transferLength < U32_LIMIT
    modifies source`position, source`returned
    ensures Transcript(sent, id, transferLength, source.input)
    ensures Closed(sent, End, id, transferLength) || Closed(sent, Abort, id, transferLength)
    ensures source.reliable ==> Closed(sent, End, id, transferLength)
  {
    var ok;
    ghost var parts;
    sent, ok, parts := SendTransfer(source, id, transferLength, flush);
    if !ok {
      var block := CraftEmpty(Abort, id, transferLength);
      AppendBlock(sent, block, Abort, id, transferLength);
      sent := sent + [block];
    }
  }
}
