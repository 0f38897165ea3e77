/** From what a sending client's input to what the receiving client gets, across every stage, within one reset
    epoch of the receiver. */
module EndToEnd {
  import opened Words
  import opened Wrappers
  import opened Sequences
  import opened Blocks
  import opened SendClient
  import opened Dispatch
  import opened SlidingWindow
  import opened WindowRefinement
  import R = ReblockModel
  import T = Turnstile
  import P = SendPipeline
  import ReceiveClient

  // ---------------------------------------------------------------------------------------------
  // One client's blocks among all blocks
  // ---------------------------------------------------------------------------------------------

  /** The blocks of client `id`, heartbeats left out. */
  function Project(blocks: seq<Block>, id: nat): seq<Block> {
    if blocks == [] then [] else (if IsFor(Some(blocks[0]), id) then [blocks[0]] else []) + Project(blocks[1..], id)
  }

  lemma {:induction false} ProjectConcat(a: seq<Block>, b: seq<Block>, id: nat)
    ensures Project(a + b, id) == Project(a, id) + Project(b, id)
  {
    if a == [] {
      assert a + b == b;
    } else {
      var first := if IsFor(Some(a[0]), id) then [a[0]] else [];
      ProjectConcat(a[1..], b, id);
      assert (a + b)[1..] == a[1..] + b && (a + b)[0] == a[0];
      assert Project(a + b, id) == first + Project(a[1..] + b, id);
      Associative(first, Project(a[1..], id), Project(b, id));
    }
  }

  lemma ProjectPrefix(a: seq<Block>, b: seq<Block>, id: nat)
    requires a <= b
    ensures Project(a, id) <= Project(b, id)
  {
    assert b == a + b[|a|..];
    ProjectConcat(a, b[|a|..], id);
  }

  /** `got` is an initial part of `all`, or one with `abort` put behind it. */
  ghost predicate InitialOr(got: seq<Block>, all: seq<Block>, abort: Block) {
    got <= all || (got != [] && got[..|got| - 1] <= all && got[|got| - 1] == abort)
  }

  lemma InitialOrOneMore(block: Block, got: seq<Block>, all: seq<Block>, abort: Block)
    requires InitialOr(got, all, abort)
    ensures InitialOr([block] + got, [block] + all, abort)
  {
    if !(got <= all) {
      assert ([block] + got)[..|got|] == [block] + got[..|got| - 1];
    }
  }

  /** What a transfer collects is an initial part of its client's blocks, except that a loss may have put an Abort
      behind it. */
  lemma {:induction false} CollectedIsInitial(items: seq<Item>, id: nat, transferLength: nat)
    ensures InitialOr(Collect(items, id, transferLength), Project(T.Results(items), id), AbortBlock(id, transferLength))
  {
    if items != [] && items[0].Some? {
      CollectedIsInitial(items[1..], id, transferLength);
      var block := items[0].value;
      assert T.Results(items) == [block] + T.Results(items[1..]);
      if IsFor(items[0], id) {
        InitialOrOneMore(block, Collect(items[1..], id, transferLength), Project(T.Results(items[1..]), id),
                         AbortBlock(id, transferLength));
      }
    }
  }

  lemma {:induction false} CollectOpen(items: seq<Item>, id: nat, transferLength: nat)
    requires Open(items, id)
    ensures Collect(items, id, transferLength) == Project(T.Results(items), id)
  {
    if items != [] {
      assert Harmless(items[0], id);
      CollectOpen(items[1..], id, transferLength);
      ResultsCons(items[0], items[1..]);
      assert items == [items[0]] + items[1..];
    }
  }

  /** What a transfer gets, exactly: its client's blocks up to the first item that ends it; then an Abort for a loss,
      that block itself for an End or an Abort, and nothing for another Start. */
  lemma CollectExact(items: seq<Item>, k: nat, id: nat, transferLength: nat)
    requires id < U32_LIMIT && SERIALIZE_OVERHEAD <= transferLength
    requires k < |items| && Open(items[..k], id) && !Harmless(items[k], id)
    ensures var got, own := Collect(items, id, transferLength), Project(T.Results(items[..k]), id);
            && own <= got
            && (items[k].None? ==> GotAbort(own, got, id, transferLength))
            && (items[k].Some? ==> got == own + if IsStart(items[k]) then [] else [items[k].value])
  {
    SplitAt(items, k);
    CollectConcat(items[..k], [items[k]] + items[k + 1..], id, transferLength);
    CollectOpen(items[..k], id, transferLength);
    AbortBlockIs(id, transferLength);
    assert ([items[k]] + items[k + 1..])[0] == items[k];
  }

  lemma {:induction false} ResultsPrefix<O>(a: seq<Option<O>>, b: seq<Option<O>>)
    requires a <= b
    ensures T.Results(a) <= T.Results(b)
  {
    assert b == a + b[|a|..];
    T.ResultsConcat(a, b[|a|..]);
  }

  /** In a transcript only the first block is a Start, and only the last can be an End. */
  lemma TranscriptTypes(log: seq<Block>, id: nat, transferLength: nat, input: seq<U8>, i: nat)
    requires Transcript(log, id, transferLength, input) && i < |log|
    ensures IsFor(Some(log[i]), id)
    ensures TypeOf(log[i]) == Ok(Start) <==> i == 0
    ensures TypeOf(log[i]) == Ok(End) ==> i == |log| - 1 && Closed(log, End, id, transferLength)
  {
    var body := log[..|log| - 1];
    if i < |log| - 1 {
      assert body[i] == log[i];
    }
  }

  lemma UpToEnd<X>(all: seq<X>, first: nat, before: seq<X>, x: X, after: seq<X>)
    requires first + |before + [x] + after| <= |all|
    requires all[first..first + |before + [x] + after|] == before + [x] + after
    ensures all[..first + |before|] + [x] + after <= all
  {
    var part := before + [x] + after;
    var end := first + |part|;
    assert all[..end] == all[..first] + part;
    assert all[..first + |before|] == all[..first] + before by {
      assert all[..first + |before|] == all[..end][..first + |before|];
    }
  }

  lemma ProjectOne(block: Block, id: nat)
    requires IsFor(Some(block), id)
    ensures Project([block], id) == [block]
  {
    assert [block][1..] == [];
  }

  lemma ProjectThree(a: seq<Block>, block: Block, b: seq<Block>, id: nat)
    requires IsFor(Some(block), id)
    ensures Project(a + [block] + b, id) == Project(a, id) + [block] + Project(b, id)
  {
    ProjectConcat(a + [block], b, id);
    ProjectConcat(a, [block], id);
    ProjectOne(block, id);
  }

  /** A run of consecutive blocks around one of client `id`, seen through the projection. */
  lemma ProjectAround(sent: seq<Block>, first: nat, before: seq<Block>, block: Block, after: seq<Block>, id: nat)
    requires first + |before + [block] + after| <= |sent|
    requires sent[first..first + |before + [block] + after|] == before + [block] + after
    requires IsFor(Some(block), id)
    ensures var m := first + |before|;
            Project(sent[..m], id) + [block] + Project(after, id) <= Project(sent, id)
  {
    var earlier := sent[..first + |before|];
    UpToEnd(sent, first, before, block, after);
    ProjectThree(earlier, block, after, id);
    ProjectPrefix(earlier + [block] + after, sent, id);
  }

  lemma PrefixAround<X>(before: seq<X>, x: X, after: seq<X>, all: seq<X>)
    requires before + [x] + after <= all
    ensures |before| < |all| && all[|before|] == x
    ensures before == [] ==> [x] + after <= all
  {
    assert (before + [x] + after)[|before|] == x;
    if before == [] {
      assert before + [x] + after == [x] + after;
    }
  }

  /** The blocks released to the dispatcher from a Start of client `id` on, when they are consecutive blocks of
      `sent` and those of this client in `sent` are the beginning of `log`: the client's are too. */
  lemma FromStart(sent: seq<Block>, first: nat, before: seq<Block>, block: Block, after: seq<Block>, id: nat,
                  log: seq<Block>, transferLength: nat, input: seq<U8>)
    requires first + |before + [block] + after| <= |sent|
    requires sent[first..first + |before + [block] + after|] == before + [block] + after
    requires IsFor(Some(block), id) && TypeOf(block) == Ok(Start)
    requires Transcript(log, id, transferLength, input) && Project(sent, id) <= log
    ensures [block] + Project(after, id) <= log
  {
    ProjectAround(sent, first, before, block, after, id);
    var earlier := Project(sent[..first + |before|], id);
    PrefixAround(earlier, block, Project(after, id), log);
    TranscriptTypes(log, id, transferLength, input, |earlier|);
  }

  lemma PayloadsPrefix(a: seq<Block>, b: seq<Block>)
    requires a <= b && AllReadable(b)
    ensures AllReadable(a) && Payloads(a) <= Payloads(b)
  {
    assert b == a + b[|a|..];
    PayloadsConcat(a, b[|a|..]);
  }

  ghost predicate IsAbort(b: Block) {
    Readable(b) && Payload(b) == [] && TypeOf(b) == Ok(Abort)
  }

  /** An initial part of a client's transcript, or one with an Abort put behind it. */
  ghost predicate Faithful(queue: seq<Block>, log: seq<Block>) {
    || queue <= log
    || (queue != [] && queue[..|queue| - 1] <= log && IsAbort(queue[|queue| - 1]))
  }

  lemma ResultsCons(x: Item, items: seq<Item>)
    requires x.Some?
    ensures T.Results([x] + items) == [x.value] + T.Results(items)
  {
    assert ([x] + items)[1..] == items;
  }

  /** The results sent split at an item. */
  lemma ResultsAround(items: seq<Item>, s: nat)
    requires s < |items| && items[s].Some?
    ensures T.Results(items) == T.Results(items[..s]) + [items[s].value] + T.Results(items[s + 1..])
  {
    SplitAt(items, s);
    T.ResultsConcat(items[..s], [items[s]] + items[s + 1..]);
    ResultsCons(items[s], items[s + 1..]);
    Associative(T.Results(items[..s]), [items[s].value], T.Results(items[s + 1..]));
  }

  lemma PrefixFaithful(block: Block, got: seq<Block>, all: seq<Block>, abort: Block, log: seq<Block>, queue: seq<Block>)
    requires [block] + all <= log && queue <= [block] + got
    requires InitialOr(got, all, abort) && IsAbort(abort)
    ensures Faithful(queue, log)
  {
    var whole := [block] + got;
    if got <= all {
      assert whole <= [block] + all;
    } else {
      var last := |whole| - 1;
      assert whole[..last] == [block] + got[..last - 1] <= [block] + all;
      if queue != whole {
        assert queue == whole[..|queue|] == whole[..last][..|queue|];
      }
    }
  }

  /** The blocks released are consecutive ones of those sent. */
  ghost predicate Consecutive(sent: seq<Block>, first: int, some: seq<Block>) {
    0 <= first && first + |some| <= |sent| && some == sent[first..first + |some|]
  }

  lemma QueueFaithful(sent: seq<Block>, first: nat, items: seq<Item>, s: nat, id: nat,
                      log: seq<Block>, transferLength: nat, input: seq<U8>, queue: seq<Block>)
    requires id < U32_LIMIT && s < |items| && IsStart(items[s]) && StarterOf(items, s) == id
    requires Consecutive(sent, first, T.Results(items))
    requires Transcript(log, id, transferLength, input) && Project(sent, id) <= log
    requires queue <= Projection(items, s, transferLength)
    ensures Faithful(queue, log)
  {
    var block, after := items[s].value, T.Results(items[s + 1..]);
    ResultsAround(items, s);
    FromStart(sent, first, T.Results(items[..s]), block, after, id, log, transferLength, input);
    CollectedIsInitial(items[s + 1..], id, transferLength);
    ImageRoundTrip(Abort, transferLength, id, []);
    PrefixFaithful(block, Collect(items[s + 1..], id, transferLength), Project(after, id),
                   AbortBlock(id, transferLength), log, queue);
  }

  /** The blocks are worth the start of the input, and all of it with the End, which can only come last. */
  ghost predicate Worth(blocks: seq<Block>, input: seq<U8>) {
    && AllReadable(blocks) && Payloads(blocks) <= input
    && forall i :: 0 <= i < |blocks| && TypeOf(blocks[i]) == Ok(End) ==> i == |blocks| - 1 && Payloads(blocks) == input
  }

  lemma TranscriptWorth(log: seq<Block>, id: nat, transferLength: nat, input: seq<U8>)
    requires Transcript(log, id, transferLength, input)
    ensures Worth(log, input)
  {
    forall i | 0 <= i < |log| && TypeOf(log[i]) == Ok(End)
      ensures i == |log| - 1 && Payloads(log) == input
    {
      TranscriptTypes(log, id, transferLength, input, i);
    }
  }

  lemma PrefixWorth(queue: seq<Block>, log: seq<Block>, input: seq<U8>)
    requires Worth(log, input) && queue <= log
    ensures Worth(queue, input)
  {
    PayloadsPrefix(queue, log);
    forall i | 0 <= i < |queue| && TypeOf(queue[i]) == Ok(End)
      ensures i == |queue| - 1 && Payloads(queue) == input
    {
      assert log[i] == queue[i];
      assert queue == log;
    }
  }

  /** A queue that follows the transcript is worth what it should be, even with an Abort put behind it. */
  lemma QueueWorth(queue: seq<Block>, log: seq<Block>, input: seq<U8>)
    requires Worth(log, input) && Faithful(queue, log)
    ensures AllReadable(queue) && Payloads(queue) <= input
    ensures queue != [] && TypeOf(queue[|queue| - 1]) == Ok(End) ==> Payloads(queue) == input
  {
    if queue <= log {
      PrefixWorth(queue, log, input);
    } else {
      AbortedWorth(queue[..|queue| - 1], queue[|queue| - 1], log, input);
      SplitLast([], queue);
    }
  }

  lemma AbortedWorth(part: seq<Block>, last: Block, log: seq<Block>, input: seq<U8>)
    requires Worth(log, input) && part <= log && IsAbort(last)
    ensures AllReadable(part + [last]) && Payloads(part + [last]) <= input
  {
    PrefixWorth(part, log, input);
    PayloadsSnoc(part, last);
  }

  // ---------------------------------------------------------------------------------------------
  // All stages together
  // ---------------------------------------------------------------------------------------------

  type Encode = (U8, seq<U8>) -> seq<R.Packet>
  type Decode = (U8, seq<R.Packet>) -> Option<seq<U8>>

  /** The fountain code, set up for one block length: the packets of a block carry its id, and decoding packets of one
      block gives that block or fails. */
  datatype Codec = Codec(encode: Encode, decode: Decode)

  ghost predicate SoundCodec(codec: Codec, length: nat) {
    && (forall id, content, p :: |content| == length && p in codec.encode(id, content) ==> p.sbn == id)
    && (forall id, content, ps {:trigger codec.encode(id, content), codec.decode(id, ps)} ::
          |content| == length && (forall p <- ps :: p in codec.encode(id, content)) ==>
            codec.decode(id, ps) == None || codec.decode(id, ps) == Some(content))
  }

  /** The encoders, over channels of `n` places. */
  function Encoding(codec: Codec, n: nat): T.Config<Block, seq<R.Packet>> {
    T.Config(Some(n), (id, block: Block) => Some(codec.encode(id, block.content)))
  }

  /** The decoders, over unbounded channels. */
  function Decoding(codec: Codec): T.Config<seq<R.Packet>, Block> {
    T.Config(None, (id, packets) => DecodeBlock(codec, id, packets))
  }

  function DecodeBlock(codec: Codec, id: U8, packets: seq<R.Packet>): Option<Block> {
    match codec.decode(id, packets)
    case None => None
    case Some(content) => Some(Block(content))
  }

  /** Everything that happens: what the sender's threads do; what arrives, batch by batch, each packet with the
      number of the block it was cut from; what the decoders do. */
  datatype World = World(
    codec: Codec,
    transferLength: nat,
    encoders: nat,
    sending: seq<P.Action<Block>>,
    reblock: R.State,
    threshold: nat,
    arrivals: seq<seq<Numbered>>,
    decoders: nat,
    decoding: seq<T.Label<seq<R.Packet>>>)

  ghost predicate SenderRuns(w: World) {
    var c := Encoding(w.codec, w.encoders);
    1 <= w.encoders <= 255 && P.CanRun(c, P.Start(w.encoders), w.sending)
  }

  ghost function SenderEnd(w: World): P.Pipeline<Block, seq<R.Packet>>
    requires SenderRuns(w)
  {
    P.Final(Encoding(w.codec, w.encoders), P.Start(w.encoders), w.sending)
  }

  /** Every packet that arrives was sent, in any order, any number of times; nothing says that all arrive. */
  ghost predicate FromNetwork(w: World)
    requires SenderRuns(w)
  {
    var groups := SenderEnd(w).stile.out;
    forall x <- Flatten(w.arrivals) :: 0 <= x.n < |groups| && groups[x.n].Some? && x.packet in groups[x.n].value
  }

  /** The receiver starts an epoch, and packets stray no further than the window can tell apart. */
  ghost predicate EpochRuns(w: World) {
    && 1 <= w.threshold && w.reblock.reset
    && w.arrivals != [] && Filled(w.arrivals)
    && SkewedAll(EpochWindow(w.arrivals), w.arrivals, w.threshold)
  }

  ghost function EpochOut(w: World): seq<R.Reassembled>
    requires EpochRuns(w)
  {
    ArrivalsNonEmpty(w.arrivals);
    R.Run(w.reblock, Arrivals(w.arrivals), w.threshold).out
  }

  ghost function DecodersStart(w: World): T.State<seq<R.Packet>, Block>
    requires EpochRuns(w)
  {
    T.Initial(IdOf(w.arrivals[0][0].n), w.decoders)
  }

  /** The decoders, idle and with an empty queue at the start of the epoch, are given what the epoch hands over, and
      never compare the counter with a block a whole number of turns past the one awaited. */
  ghost predicate DecodersRun(w: World)
    requires EpochRuns(w)
  {
    var c, start, out := Decoding(w.codec), DecodersStart(w), EpochOut(w);
    && T.Possible(c, start, w.decoding) && T.AlwaysSafe(c, start, w.decoding)
    && var given := T.After(c, start, w.decoding).accepted;
       && |given| <= |out|
       && forall i :: 0 <= i < |given| ==> out[i].Block? && out[i].packets == given[i]
  }

  ghost function DecodersEnd(w: World): T.State<seq<R.Packet>, Block>
    requires EpochRuns(w) && DecodersRun(w)
  {
    T.After(Decoding(w.codec), DecodersStart(w), w.decoding)
  }

  /** The blocks the decoders released. */
  ghost function Released(w: World): seq<Block>
    requires EpochRuns(w) && DecodersRun(w)
  {
    T.Results(DecodersEnd(w).out)
  }

  /** What has reached the dispatcher. */
  ghost function Dispatched(w: World): seq<Item>
    requires EpochRuns(w) && DecodersRun(w)
  {
    var t := DecodersEnd(w);
    if t.consumed <= |t.out| then t.out[..t.consumed] else t.out
  }

  /** The blocks the sender numbered, in order. */
  ghost function Submitted(w: World): seq<Block>
    requires SenderRuns(w)
  {
    SenderEnd(w).submitted
  }

  /** Blocks have the length the codec is set up for, as the sending clients make them. */
  ghost predicate WellSized(w: World)
    requires SenderRuns(w)
  {
    forall i :: 0 <= i < |Submitted(w)| ==> |Submitted(w)[i].content| == w.transferLength
  }

  ghost predicate Happens(w: World) {
    && SoundCodec(w.codec, w.transferLength)
    && SenderRuns(w) && WellSized(w) && FromNetwork(w)
    && EpochRuns(w) && DecodersRun(w)
  }

  /** The number of the block of the first datagram. */
  ghost function First(w: World): int
    requires EpochRuns(w)
  {
    w.arrivals[0][0].n
  }

  /** The packets that arrive while the window covers them. */
  ghost function TakenIn(w: World): seq<Numbered>
    requires EpochRuns(w)
  {
    Accepted(EpochWindow(w.arrivals), w.arrivals, w.threshold)
  }

  lemma SentPackets(w: World, x: Numbered)
    requires Happens(w) && x in Flatten(w.arrivals)
    ensures 0 <= x.n < |Submitted(w)| && x.packet in w.codec.encode(IdOf(x.n), Submitted(w)[x.n].content)
    ensures x.packet.sbn == IdOf(x.n)
  {
    P.SenderOrder(Encoding(w.codec, w.encoders), w.encoders, w.sending);
  }

  /** The packets accepted for one block are all cut from it. */
  lemma OwnPackets(w: World, n: int)
    requires Happens(w)
    ensures var own := OfBlock(TakenIn(w), n);
            own != [] ==>
              && 0 <= n < |Submitted(w)|
              && forall p <- Packets(own) :: p in w.codec.encode(IdOf(n), Submitted(w)[n].content)
  {
    var own := OfBlock(TakenIn(w), n);
    AcceptedGenuine(EpochWindow(w.arrivals), w.arrivals, w.threshold, n);
    PacketsAt(own);
    if own != [] {
      SentPackets(w, own[0]);
      forall p | p in Packets(own)
        ensures p in w.codec.encode(IdOf(n), Submitted(w)[n].content)
      {
        var j :| 0 <= j < |own| && Packets(own)[j] == p;
        SentPackets(w, own[j]);
      }
    }
  }

  lemma GenuineArrivals(w: World)
    requires Happens(w)
    ensures Genuine(Flatten(w.arrivals))
  {
    forall x | x in Flatten(w.arrivals)
      ensures x.packet.sbn == IdOf(x.n)
    {
      SentPackets(w, x);
    }
  }

  lemma SoundDecodes(codec: Codec, id: U8, content: seq<U8>, ps: seq<R.Packet>)
    requires SoundCodec(codec, |content|) && forall p <- ps :: p in codec.encode(id, content)
    ensures DecodeBlock(codec, id, ps) == None || DecodeBlock(codec, id, ps) == Some(Block(content))
  {
    assert codec.encode(id, content) == codec.encode(id, content);
  }

  /** The group decodes to block `n` of those sent, or not at all. */
  ghost predicate DecodesTo(codec: Codec, group: R.Reassembled, n: int, sent: seq<Block>) {
    && group.Block? && 0 <= n < |sent|
    && var r := DecodeBlock(codec, IdOf(n), group.packets);
       r == None || r == Some(sent[n])
  }

  lemma OwnDecodes(w: World, n: int)
    requires Happens(w)
    ensures OfBlock(TakenIn(w), n) != [] ==>
              DecodesTo(w.codec, R.Block(IdOf(n), Packets(OfBlock(TakenIn(w), n))), n, Submitted(w))
  {
    OwnPackets(w, n);
    if OfBlock(TakenIn(w), n) != [] {
      SoundDecodes(w.codec, IdOf(n), Submitted(w)[n].content, Packets(OfBlock(TakenIn(w), n)));
    }
  }

  /** The i-th group of the epoch is made of the packets taken in for its block, enough of them, and decodes to the
      block it was cut from, or not at all. */
  lemma GroupDecodes(w: World, i: nat)
    requires Happens(w) && i < |EpochOut(w)|
    ensures var own := OfBlock(TakenIn(w), First(w) + i);
            EpochOut(w)[i] == R.Block(IdOf(First(w) + i), Packets(own)) && |own| >= w.threshold
    ensures DecodesTo(w.codec, EpochOut(w)[i], First(w) + i, Submitted(w))
  {
    OwnDecodes(w, First(w) + i);
    GenuineArrivals(w);
    EpochOutput(w.reblock, w.arrivals, w.threshold);
    PacketsAt(OfBlock(TakenIn(w), First(w) + i));
    assert Handed(EpochOut(w)[i], First(w) + i, TakenIn(w), w.threshold);
  }

  lemma IdOfSum(a: int, n: nat)
    ensures IdOf(IdOf(a) + n) == IdOf(a + n)
  {
  }

  lemma ReleasedUnder(w: World, n: nat)
    requires Happens(w) && n < |Released(w)|
    ensures n < |DecodersEnd(w).accepted|
    ensures Decoding(w.codec).work(IdOf(IdOf(First(w)) + n), DecodersEnd(w).accepted[n]) == Some(Released(w)[n])
  {
    T.ReleasedResult(Decoding(w.codec), IdOf(First(w)), w.decoders, w.decoding, n);
  }

  lemma DecodingWorks(codec: Codec, id: U8, packets: seq<R.Packet>)
    ensures Decoding(codec).work(id, packets) == DecodeBlock(codec, id, packets)
  {
  }

  lemma ReleasedWork(w: World, n: nat)
    requires Happens(w) && n < |Released(w)|
    ensures n < |EpochOut(w)| && EpochOut(w)[n].Block?
    ensures DecodeBlock(w.codec, IdOf(First(w) + n), EpochOut(w)[n].packets) == Some(Released(w)[n])
  {
    ReleasedUnder(w, n);
    IdOfSum(First(w), n);
    DecodingWorks(w.codec, IdOf(First(w) + n), DecodersEnd(w).accepted[n]);
  }

  lemma ReleasedAt(w: World, n: nat)
    requires Happens(w) && n < |Released(w)|
    ensures 0 <= First(w) + n < |Submitted(w)| && Released(w)[n] == Submitted(w)[First(w) + n]
  {
    ReleasedWork(w, n);
    GroupDecodes(w, n);
  }

  lemma DispatchedAreReleased(w: World)
    requires Happens(w)
    ensures T.Results(Dispatched(w)) <= Released(w)
  {
    ResultsPrefix(Dispatched(w), DecodersEnd(w).out);
  }

  lemma FirstArrived(w: World)
    requires Happens(w)
    ensures 0 <= First(w) < |Submitted(w)|
  {
    assert w.arrivals[0][0] in Flatten(w.arrivals);
    SentPackets(w, w.arrivals[0][0]);
  }

  /** Within one epoch the blocks released to the dispatcher are the sender's, consecutive from the one of the
      first datagram on. */
  lemma ReleasedAreSent(w: World)
    requires Happens(w)
    ensures Consecutive(Submitted(w), First(w), T.Results(Dispatched(w)))
  {
    var some := T.Results(Dispatched(w));
    FirstArrived(w);
    DispatchedAreReleased(w);
    forall n | 0 <= n < |some|
      ensures First(w) + n < |Submitted(w)| && some[n] == Submitted(w)[First(w) + n]
    {
      ReleasedAt(w, n);
      assert some[n] == Released(w)[n];
    }
    if |some| > 0 {
      ReleasedAt(w, |some| - 1);
    }
  }

  /** What a queue is worth: an initial part of the input, and all of it with the End. */
  ghost predicate QueueWorthy(queue: seq<Block>, input: seq<U8>) {
    && AllReadable(queue) && Payloads(queue) <= input
    && (queue != [] && TypeOf(queue[|queue| - 1]) == Ok(End) ==> Payloads(queue) == input)
  }

  /** A queue that a client can be given: every initial part is worth what it should be, and nothing before the last
      block ends the transfer. */
  ghost predicate Deliverable(queue: seq<Block>, input: seq<U8>) {
    && AllReadable(queue)
    && (forall k :: 0 <= k <= |queue| ==> QueueWorthy(queue[..k], input))
    && (forall i :: 0 <= i < |queue| - 1 ==> ReceiveClient.Passing(queue[i]))
  }

  lemma DeliverableWorthy(queue: seq<Block>, input: seq<U8>)
    requires Deliverable(queue, input)
    ensures QueueWorthy(queue, input)
  {
    assert queue[..|queue|] == queue;
  }

  /** In a projection nothing comes before the End that would end the transfer earlier. */
  lemma PassingBeforeEnd(items: seq<Item>, s: nat, transferLength: nat, queue: seq<Block>)
    requires s < |items| && IsStart(items[s]) && queue <= Projection(items, s, transferLength)
    ensures forall i :: 0 <= i < |queue| - 1 ==> ReceiveClient.Passing(queue[i])
  {
    ProjectionLanguage(items, s, transferLength);
    var log := Projection(items, s, transferLength);
    forall i | 0 <= i < |queue| - 1
      ensures ReceiveClient.Passing(queue[i])
    {
      if 0 < i {
        assert queue[i] == log[1..][i - 1];
      }
    }
  }

  lemma DeliverableQueue(sent: seq<Block>, first: nat, items: seq<Item>, s: nat, id: nat,
                         log: seq<Block>, transferLength: nat, input: seq<U8>, queue: seq<Block>)
    requires id < U32_LIMIT && s < |items| && IsStart(items[s]) && StarterOf(items, s) == id
    requires Consecutive(sent, first, T.Results(items))
    requires Transcript(log, id, transferLength, input) && Project(sent, id) <= log
    requires queue <= Projection(items, s, transferLength)
    ensures Deliverable(queue, input)
  {
    PassingBeforeEnd(items, s, transferLength, queue);
    TranscriptWorth(log, id, transferLength, input);
    forall k | 0 <= k <= |queue|
      ensures QueueWorthy(queue[..k], input)
    {
      QueueFaithful(sent, first, items, s, id, log, transferLength, input, queue[..k]);
      QueueWorth(queue[..k], log, input);
    }
    assert queue[..|queue|] == queue;
    assert AllReadable(queue[..|queue|]);
  }

  /** Whatever part of a transfer has been put in its queue can be delivered. */
  lemma QueueDeliverable(w: World, id: nat, log: seq<Block>, input: seq<U8>, s: nat, queue: seq<Block>)
    requires Happens(w) && id < U32_LIMIT
    requires Transcript(log, id, w.transferLength, input) && Project(Submitted(w), id) <= log
    requires s < |Dispatched(w)| && IsStart(Dispatched(w)[s]) && StarterOf(Dispatched(w), s) == id
    requires queue <= Projection(Dispatched(w), s, w.transferLength)
    ensures Deliverable(queue, input)
  {
    ReleasedAreSent(w);
    DeliverableQueue(Submitted(w), First(w), Dispatched(w), s, id, log, w.transferLength, input, queue);
  }

  /** End to end: for any interleaving of the clients and of all workers, and any loss, duplication and reordering
      of packets within the skew bound, let the blocks submitted for client `id` be the beginning of its transcript.
      Then whatever part of a transfer of that client has been put in its queue is worth an initial part of the
      client's input, and all of it if it includes the End. */
  lemma QueueEndToEnd(w: World, id: nat, log: seq<Block>, input: seq<U8>, s: nat, queue: seq<Block>)
    requires Happens(w) && id < U32_LIMIT
    requires Transcript(log, id, w.transferLength, input) && Project(Submitted(w), id) <= log
    requires s < |Dispatched(w)| && IsStart(Dispatched(w)[s]) && StarterOf(Dispatched(w), s) == id
    requires queue <= Projection(Dispatched(w), s, w.transferLength)
    ensures AllReadable(queue) && Payloads(queue) <= input
    ensures queue != [] && TypeOf(queue[|queue| - 1]) == Ok(End) ==> Payloads(queue) == input
  {
    QueueDeliverable(w, id, log, input, s, queue);
    DeliverableWorthy(queue, input);
  }

  /** Write a queue to a new client. */
  method WriteOut(queue: seq<Block>, capacity: nat, flush: bool, reliable: bool, ghost input: seq<U8>)
    returns (written: seq<U8>, verdict: Option<bool>)
    requires Deliverable(queue, input)
    ensures written <= input
    ensures verdict == Some(true) ==> written == input
    ensures reliable && queue != [] && TypeOf(queue[|queue| - 1]) == Ok(End) ==> verdict == Some(true)
  {
    var client := new ReceiveClient.BufWriter(capacity, reliable);
    ghost var taken;
    verdict, taken := ReceiveClient.Receive(queue, client, flush);
    assert QueueWorthy(queue[..taken], input);
    written := client.written;
  }

  /** The last stage added: the bytes the client gets are an initial part of the input at the other end, and they
      are the whole input when the transfer is reported as complete; which it is, unless the client's socket fails,
      as soon as the End is in the queue. */
  method Deliver(ghost w: World, id: nat, ghost log: seq<Block>, transferLength: nat, ghost input: seq<U8>,
                 ghost s: nat, queue: seq<Block>, flush: bool, reliable: bool)
    returns (written: seq<U8>, verdict: Option<bool>)
    requires SERIALIZE_OVERHEAD < transferLength == w.transferLength
    requires Happens(w) && id < U32_LIMIT
    requires Transcript(log, id, transferLength, input) && Project(Submitted(w), id) <= log
    requires s < |Dispatched(w)| && IsStart(Dispatched(w)[s]) && StarterOf(Dispatched(w), s) == id
    requires queue <= Projection(Dispatched(w), s, transferLength)
    ensures written <= input
    ensures verdict == Some(true) ==> written == input
    ensures reliable && queue != [] && TypeOf(queue[|queue| - 1]) == Ok(End) ==> verdict == Some(true)
  {
    QueueDeliverable(w, id, log, input, s, queue);
    written, verdict := WriteOut(queue, transferLength - SERIALIZE_OVERHEAD, flush, reliable, input);
  }
}
