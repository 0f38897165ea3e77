/** Driving the last stages over what the decoders release: the dispatcher, with any history, and the client workers.
    What each client gets is right; and when nothing is lost on the way, every client gets its whole input. */
module Delivery {
  import opened Words
  import opened Wrappers
  import opened Sequences
  import opened Blocks
  import opened SendClient
  import opened Dispatch
  import opened SlidingWindow
  import opened WindowRefinement
  import opened EndToEnd
  import T = Turnstile
  import O = TurnstileOrder
  import F = TurnstileFailures
  import R = ReblockModel
  import P = SendPipeline
  import ReceiveClient

  // ---------------------------------------------------------------------------------------------
  // Nothing lost
  // ---------------------------------------------------------------------------------------------

  ghost predicate NoTwice(ps: seq<R.Packet>) {
    forall i, j :: 0 <= i < j < |ps| ==> ps[i] != ps[j]
  }

  /** The code never fails on `threshold` different packets of a block. */
  ghost predicate Recovers(codec: Codec, length: nat, threshold: nat) {
    forall id, content, ps {:trigger codec.encode(id, content), codec.decode(id, ps)} ::
      |content| == length && threshold <= |ps| && NoTwice(ps) && (forall p <- ps :: p in codec.encode(id, content)) ==>
        codec.decode(id, ps) == Some(content)
  }

  /** Of block `n`, enough packets arrive while the window covers it, none of them twice. */
  ghost predicate EnoughArrive(w: World, n: int)
    requires EpochRuns(w)
  {
    var own := OfBlock(TakenIn(w), n);
    w.threshold <= |own| && NoTwice(Packets(own))
  }

  /** The decoders were given everything and can go no further. */
  ghost predicate DecodersDone(w: World)
    requires EpochRuns(w) && DecodersRun(w)
  {
    1 <= w.decoders && |DecodersEnd(w).accepted| == |EpochOut(w)| && O.Stuck(Decoding(w.codec), DecodersEnd(w))
  }

  /** Nothing is lost on the way, and all stages up to the dispatcher have come to rest. */
  ghost predicate NothingLost(w: World)
    requires Happens(w)
  {
    && Recovers(w.codec, w.transferLength, w.threshold)
    && (forall n :: First(w) <= n < |Submitted(w)| ==> EnoughArrive(w, n))
    && DecodersDone(w)
  }

  /** The cursor cannot stop before the last block. */
  lemma AllHandedOver(w: World)
    requires Happens(w) && NothingLost(w)
    ensures First(w) + |EpochOut(w)| == |Submitted(w)|
  {
    var start := EpochWindow(w.arrivals);
    var r := FeedAll(start, w.arrivals, w.threshold);
    GenuineArrivals(w);
    EpochRefinement(w.reblock, w.arrivals, w.threshold);
    Conservation(start, w.arrivals, w.threshold);
    EmittedAt(r.groups);
    StopsShort(start, TakenIn(w), r, w.threshold);
    assert !EnoughArrive(w, r.window.k);
    if |EpochOut(w)| > 0 {
      GroupDecodes(w, |EpochOut(w)| - 1);
    } else {
      FirstArrived(w);
    }
  }

  lemma StopsShort(start: Window, log: seq<Numbered>, r: Progress, min: nat)
    requires Conserved(start, log, r, min) && |r.window.slots[0]| < min && start == Fresh(start.k)
    ensures |OfBlock(log, r.window.k)| < min
  {
    assert Fate(start, log, r, min, r.window.k);
    assert Slot(r.window, r.window.k) == r.window.slots[0];
  }

  lemma RecoversBlock(codec: Codec, threshold: nat, id: U8, content: seq<U8>, ps: seq<R.Packet>)
    requires Recovers(codec, |content|, threshold) && threshold <= |ps| && NoTwice(ps)
    requires forall p <- ps :: p in codec.encode(id, content)
    ensures codec.decode(id, ps) == Some(content)
  {
    assert codec.encode(id, content) == codec.encode(id, content);
  }

  lemma EachDecodes(w: World, i: nat)
    requires Happens(w) && NothingLost(w) && i < |EpochOut(w)|
    ensures EpochOut(w)[i].Block? && 0 <= First(w) + i < |Submitted(w)|
    ensures DecodeBlock(w.codec, IdOf(First(w) + i), EpochOut(w)[i].packets) == Some(Submitted(w)[First(w) + i])
  {
    var n := First(w) + i;
    GroupDecodes(w, i);
    OwnPackets(w, n);
    FirstArrived(w);
    assert EnoughArrive(w, n);
    PacketsAt(OfBlock(TakenIn(w), n));
    RecoversBlock(w.codec, w.threshold, IdOf(n), Submitted(w)[n].content, Packets(OfBlock(TakenIn(w), n)));
  }

  lemma DecodersEndInv(w: World)
    requires Happens(w)
    ensures T.Inv(Decoding(w.codec), DecodersEnd(w))
    ensures F.MarkersExact(Decoding(w.codec), DecodersEnd(w))
    ensures DecodersEnd(w).base == IdOf(First(w)) && |DecodersEnd(w).workers| == w.decoders
  {
    var c, start := Decoding(w.codec), DecodersStart(w);
    T.InitialInv(c, IdOf(First(w)), w.decoders);
    T.RunInv(c, start, w.decoding);
    F.RunMarkers(c, start, w.decoding);
    T.RunKeepsBase(c, start, w.decoding);
  }

  lemma NoWorkFails(w: World, n: nat)
    requires Happens(w) && NothingLost(w) && n < |DecodersEnd(w).accepted|
    requires DecodersEnd(w).base == IdOf(First(w))
    ensures T.WorkAt(Decoding(w.codec), DecodersEnd(w), n).Some?
  {
    EachDecodes(w, n);
    IdOfSum(First(w), n);
  }

  lemma DecodersOut(w: World)
    requires Happens(w) && NothingLost(w)
    ensures var t := DecodersEnd(w);
            && |Released(w)| == |EpochOut(w)| == |t.out| && Dispatched(w) == t.out
            && forall i :: 0 <= i < |t.out| ==> t.out[i].Some?
  {
    var c, t := Decoding(w.codec), DecodersEnd(w);
    DecodersEndInv(w);
    forall n: nat | n < |t.accepted|
      ensures T.WorkAt(c, t, n).Some?
    {
      NoWorkFails(w, n);
    }
    O.StopsAtFailure(c, t);
    F.NoneFailing(c, t, T.Taken(t));
    P.AllResults(t.out);
  }

  /** Everything submitted from the first block on has reached the dispatcher, in order, without a failure marker. */
  lemma AllDispatched(w: World)
    requires Happens(w) && NothingLost(w)
    ensures 0 <= First(w) <= |Submitted(w)| && Dispatched(w) == Somes(Submitted(w)[First(w)..])
  {
    DecodersOut(w);
    AllHandedOver(w);
    FirstArrived(w);
    ReleasedAreSent(w);
    SomesResults(Dispatched(w));
    assert Released(w) == Submitted(w)[First(w)..];
  }

  function Somes(blocks: seq<Block>): seq<Item> {
    if blocks == [] then [] else [Some(blocks[0])] + Somes(blocks[1..])
  }

  lemma {:induction false} SomesResults(out: seq<Item>)
    requires forall i :: 0 <= i < |out| ==> out[i].Some?
    ensures out == Somes(T.Results(out))
  {
    if out != [] {
      SomesResults(out[1..]);
    }
  }

  lemma {:induction false} SomesAt(blocks: seq<Block>)
    ensures |Somes(blocks)| == |blocks|
    ensures forall i :: 0 <= i < |blocks| ==> Somes(blocks)[i] == Some(blocks[i])
    ensures forall i :: 0 <= i <= |blocks| ==> Somes(blocks)[i..] == Somes(blocks[i..])
  {
    if blocks != [] {
      SomesAt(blocks[1..]);
      forall i | 0 < i <= |blocks|
        ensures Somes(blocks)[i..] == Somes(blocks[i..])
      {
        assert Somes(blocks)[i..] == Somes(blocks[1..])[i - 1..];
        assert blocks[i..] == blocks[1..][i - 1..];
      }
    }
  }

  // ---------------------------------------------------------------------------------------------
  // The queue of a complete transfer
  // ---------------------------------------------------------------------------------------------

  /** Data blocks, closed by an End. */
  ghost predicate DataAndEnd(log: seq<Block>) {
    && log != [] && TypeOf(log[|log| - 1]) == Ok(End)
    && forall i :: 0 <= i < |log| - 1 ==> TypeOf(log[i]) == Ok(Data)
  }

  lemma {:induction false} CollectWhole(blocks: seq<Block>, id: nat, transferLength: nat)
    requires DataAndEnd(Project(blocks, id))
    ensures Collect(Somes(blocks), id, transferLength) == Project(blocks, id)
  {
    var log := Project(blocks, id);
    if IsFor(Some(blocks[0]), id) {
      assert log[1..] == Project(blocks[1..], id);
      if |log| > 1 {
        assert blocks[0] == log[0] && TypeOf(log[0]) == Ok(Data);
        assert forall i :: 0 <= i < |log| - 1 ==> log[1..][i] == log[i + 1];
        CollectWhole(blocks[1..], id, transferLength);
      }
    } else {
      assert log == Project(blocks[1..], id);
      CollectWhole(blocks[1..], id, transferLength);
    }
    assert Somes(blocks)[1..] == Somes(blocks[1..]);
  }

  /** The first block of a client. */
  lemma {:induction false} FirstFor(blocks: seq<Block>, id: nat) returns (s: nat)
    requires Project(blocks, id) != []
    ensures s < |blocks| && IsFor(Some(blocks[s]), id)
    ensures [blocks[s]] + Project(blocks[s + 1..], id) == Project(blocks, id)
  {
    if IsFor(Some(blocks[0]), id) {
      s := 0;
    } else {
      var t := FirstFor(blocks[1..], id);
      s := t + 1;
      assert blocks[1..][t + 1..] == blocks[s + 1..];
    }
  }

  /** When the blocks of a client are a complete transcript, its transfer gets all of them. */
  lemma WholeTransfer(blocks: seq<Block>, id: nat, transferLength: nat, input: seq<U8>) returns (s: nat)
    requires Transcript(Project(blocks, id), id, transferLength, input)
    requires Closed(Project(blocks, id), End, id, transferLength)
    ensures |Somes(blocks)| == |blocks| && s < |blocks|
    ensures IsStart(Somes(blocks)[s]) && StarterOf(Somes(blocks), s) == id
    ensures Projection(Somes(blocks), s, transferLength) == Project(blocks, id)
  {
    var log := Project(blocks, id);
    s := FirstFor(blocks, id);
    SomesAt(blocks);
    ClosedTypes(log, id, transferLength);
    assert log[1..] == Project(blocks[s + 1..], id);
    CollectWhole(blocks[s + 1..], id, transferLength);
  }

  lemma ClosedTypes(log: seq<Block>, id: nat, transferLength: nat)
    requires Closed(log, End, id, transferLength)
    ensures |log| >= 2 && TypeOf(log[0]) == Ok(Start) && ClientIdOf(log[0]) == id && DataAndEnd(log[1..])
  {
    var body := log[..|log| - 1];
    assert body[0] == log[0];
    forall i | 0 <= i < |log| - 2
      ensures TypeOf(log[1..][i]) == Ok(Data)
    {
      assert body[i + 1] == log[1..][i];
    }
  }

  // ---------------------------------------------------------------------------------------------
  // The dispatcher over an epoch
  // ---------------------------------------------------------------------------------------------

  /** Queues created after `before` was dispatched belong to transfers that start after it. */
  lemma {:induction false} LaterStarts(before: seq<Item>, items: seq<Item>)
    ensures Starts(before) <= Starts(before + items)
    ensures forall q :: |Starts(before)| <= q < |Starts(before + items)| ==> |before| <= Starts(before + items)[q]
    decreases |items|
  {
    if items == [] {
      assert before + items == before;
    } else {
      var last := |items| - 1;
      LaterStarts(before, items[..last]);
      assert before + items == (before + items[..last]) + [items[last]];
      StartsSnoc(before + items[..last], items[last]);
    }
  }

  lemma LaterProjection(before: seq<Item>, items: seq<Item>, j: nat, transferLength: nat)
    requires j < |items| && IsStart(items[j])
    ensures (before + items)[|before| + j] == items[j]
    ensures Projection(before + items, |before| + j, transferLength) == Projection(items, j, transferLength)
  {
    assert (before + items)[|before| + j + 1..] == items[j + 1..];
  }

  /** Queue `q` belongs to a transfer of client `id`. */
  predicate QueueOf(t: Tables, q: nat, id: nat) {
    q < |t.queues| && q < |t.toClients| && t.toClients[q].0 == id
  }

  /** Each queue created since `before` holds an initial part of the projection on a transfer that started since. */
  lemma EpochQueue(before: seq<Item>, items: seq<Item>, t: Tables, transferLength: nat, q: nat) returns (j: nat)
    requires Sound(before + items, t, transferLength) && |Starts(before)| <= q < |t.queues|
    ensures j < |items| && IsStart(items[j]) && QueueOf(t, q, StarterOf(items, j))
    ensures t.queues[q] <= Projection(items, j, transferLength)
  {
    LaterStarts(before, items);
    StartsAre(before + items);
    assert QueueOk(before + items, t, transferLength, q);
    j := Starts(before + items)[q] - |before|;
    LaterProjection(before, items, j, transferLength);
  }

  lemma LaterIndex(before: seq<Item>, items: seq<Item>, j: nat) returns (q: nat)
    requires j < |items| && IsStart(items[j])
    ensures |Starts(before)| <= q < |Starts(before + items)| && Starts(before + items)[q] == |before| + j
  {
    var s := |before| + j;
    StartsAre(before + items);
    StartsAre(before);
    LaterStarts(before, items);
    assert (before + items)[s] == items[j];
    q :| 0 <= q < |Starts(before + items)| && Starts(before + items)[q] == s;
    assert Starts(before) == Starts(before + items)[..|Starts(before)|];
  }

  /** With no worker gone, the queue of the transfer that starts at `j` holds its whole projection. */
  lemma QueueFor(before: seq<Item>, items: seq<Item>, t: Tables, transferLength: nat, j: nat) returns (q: nat)
    requires Sound(before + items, t, transferLength) && t.gone == {} && j < |items| && IsStart(items[j])
    ensures |Starts(before)| <= q && QueueOf(t, q, StarterOf(items, j))
    ensures t.queues[q] == Projection(items, j, transferLength)
  {
    q := LaterIndex(before, items, j);
    LaterProjection(before, items, j, transferLength);
    assert QueueOk(before + items, t, transferLength, q);
  }

  /** `log` is what the sending client `id` produced from `input`, and the sender was given an initial part of it. */
  ghost predicate Sends(w: World, id: nat, log: seq<Block>, input: seq<U8>)
    requires Happens(w)
  {
    id < U32_LIMIT && Transcript(log, id, w.transferLength, input) && Project(Submitted(w), id) <= log
  }

  /** The sender was given all of it, up to the End, from the first block of the epoch on. */
  ghost predicate SendsAll(w: World, id: nat, log: seq<Block>)
    requires Happens(w)
  {
    && 0 <= First(w) <= |Submitted(w)|
    && Project(Submitted(w)[First(w)..], id) == log
    && Closed(log, End, id, w.transferLength)
  }

  lemma EpochQueueRight(w: World, before: seq<Item>, t: Tables, q: nat, id: nat, log: seq<Block>, input: seq<U8>)
    requires Happens(w) && Sound(before + Dispatched(w), t, w.transferLength)
    requires |Starts(before)| <= q && QueueOf(t, q, id) && Sends(w, id, log, input)
    ensures Deliverable(t.queues[q], input)
  {
    var j := EpochQueue(before, Dispatched(w), t, w.transferLength, q);
    QueueDeliverable(w, id, log, input, j, t.queues[q]);
  }

  lemma CompleteQueue(w: World, before: seq<Item>, t: Tables, id: nat, log: seq<Block>, input: seq<U8>) returns (q: nat)
    requires Happens(w) && NothingLost(w) && Sound(before + Dispatched(w), t, w.transferLength) && t.gone == {}
    requires Sends(w, id, log, input) && SendsAll(w, id, log)
    ensures |Starts(before)| <= q && QueueOf(t, q, id) && t.queues[q] == log
  {
    AllDispatched(w);
    var j := WholeTransfer(Submitted(w)[First(w)..], id, w.transferLength, input);
    q := QueueFor(before, Dispatched(w), t, w.transferLength, j);
  }

  /** Every queue of client `id` from `from` on is right. */
  ghost predicate QueuesRight(t: Tables, from: nat, id: nat, input: seq<U8>) {
    forall q :: from <= q && QueueOf(t, q, id) ==> Deliverable(t.queues[q], input)
  }

  /** Some queue of client `id` from `from` on has everything. */
  ghost predicate SomeQueueHas(t: Tables, from: nat, id: nat, log: seq<Block>) {
    exists q :: from <= q && QueueOf(t, q, id) && t.queues[q] == log
  }

  lemma ClientQueues(w: World, before: seq<Item>, t: Tables, id: nat, log: seq<Block>, input: seq<U8>)
    requires Happens(w) && Sound(before + Dispatched(w), t, w.transferLength) && Sends(w, id, log, input)
    ensures QueuesRight(t, |Starts(before)|, id, input)
    ensures t.gone == {} && NothingLost(w) && SendsAll(w, id, log) ==> SomeQueueHas(t, |Starts(before)|, id, log)
  {
    forall q | |Starts(before)| <= q && QueueOf(t, q, id)
      ensures Deliverable(t.queues[q], input)
    {
      EpochQueueRight(w, before, t, q, id, log, input);
    }
    if t.gone == {} && NothingLost(w) && SendsAll(w, id, log) {
      var q := CompleteQueue(w, before, t, id, log, input);
    }
  }

  /** The tables after an epoch are right for every client; and when all went well (`sound`), complete for every client
      that was sent completely. */
  ghost predicate EpochRight(w: World, t: Tables, from: nat, sound: bool)
    requires Happens(w)
  {
    && from <= |t.queues| == |t.toClients|
    && forall id, log, input :: Sends(w, id, log, input) ==>
         && QueuesRight(t, from, id, input)
         && (sound && SendsAll(w, id, log) ==> SomeQueueHas(t, from, id, log))
  }

  lemma AllQueues(w: World, before: seq<Item>, t: Tables)
    requires Happens(w) && Sound(before + Dispatched(w), t, w.transferLength)
    ensures EpochRight(w, t, |Starts(before)|, t.gone == {} && NothingLost(w))
  {
    LaterStarts(before, Dispatched(w));
    forall id, log, input | Sends(w, id, log, input)
      ensures QueuesRight(t, |Starts(before)|, id, input)
      ensures t.gone == {} && NothingLost(w) && SendsAll(w, id, log) ==> SomeQueueHas(t, |Starts(before)|, id, log)
    {
      ClientQueues(w, before, t, id, log, input);
    }
  }

  method ProcessAll(d: Dispatcher, items: seq<Item>)
    requires d.Valid()
    modifies d
    ensures d.Valid() && d.seen == old(d.seen) + items
  {
    ghost var before := d.seen;
    for i := 0 to |items|
      invariant d.Valid() && d.seen == before + items[..i]
    {
      d.Process(items[i]);
      assert items[..i + 1] == items[..i] + [items[i]];
    }
    assert items[..|items|] == items;
  }

  /** Run a dispatcher, with whatever history, over what an epoch dispatches. Every queue it creates is right for its
      client; and when nothing is lost and no client worker goes away, each client that was sent completely has a queue
      with everything it was sent. */
  method DispatchEpoch(ghost w: World, d: Dispatcher, items: seq<Item>)
    requires d.Valid() && Happens(w) && items == Dispatched(w) && d.transferLength == w.transferLength
    modifies d
    ensures d.Valid() && d.seen == old(d.seen) + items
    ensures EpochRight(w, d.Now(), |old(d.queues)|, d.reliable && NothingLost(w))
  {
    ghost var before := d.seen;
    ProcessAll(d, items);
    AllQueues(w, before, d.Now());
  }

  /** An outcome of a client: what it got, and what it was told. */
  type ClientOutcome = (seq<U8>, Option<bool>)

  ghost predicate OutcomeRight(o: ClientOutcome, input: seq<U8>) {
    o.0 <= input && (o.1 == Some(true) ==> o.0 == input)
  }

  ghost predicate OutcomesRight(outcomes: seq<ClientOutcome>, input: seq<U8>) {
    forall o <- outcomes :: OutcomeRight(o, input)
  }

  /** If one of the queues from `from` to `to` of client `id` is `log`, the client got it all. */
  ghost predicate WholeAmong(t: Tables, from: nat, to: nat, id: nat, log: seq<Block>, outcomes: seq<ClientOutcome>,
                             input: seq<U8>)
    requires to <= |t.queues|
  {
    forall q :: from <= q < to && QueueOf(t, q, id) && t.queues[q] == log ==> (input, Some(true)) in outcomes
  }

  /** Write out every queue of client `id` from `from` on. */
  method WriteQueues(t: Tables, from: nat, id: nat, capacity: nat, flush: bool, reliable: bool, ghost log: seq<Block>,
                     ghost input: seq<U8>)
    returns (outcomes: seq<ClientOutcome>)
    requires from <= |t.queues| == |t.toClients| && QueuesRight(t, from, id, input)
    ensures OutcomesRight(outcomes, input)
    ensures reliable && log != [] && TypeOf(log[|log| - 1]) == Ok(End) ==>
              WholeAmong(t, from, |t.queues|, id, log, outcomes, input)
  {
    outcomes := [];
    for q := from to |t.queues|
      invariant OutcomesRight(outcomes, input)
      invariant reliable && log != [] && TypeOf(log[|log| - 1]) == Ok(End) ==>
                  WholeAmong(t, from, q, id, log, outcomes, input)
    {
      if t.toClients[q].0 == id {
        assert QueueOf(t, q, id);
        var written, verdict := WriteOut(t.queues[q], capacity, flush, reliable, input);
        outcomes := outcomes + [(written, verdict)];
      }
    }
  }

  /** The whole way for one client: dispatch what the epoch releases, and write each of the client's queues out. Every
      outcome is right; and when nothing fails on the way, the client gets its whole input and is told so. */
  method DeliverEpoch(ghost w: World, d: Dispatcher, items: seq<Item>, id: nat, ghost log: seq<Block>,
                      ghost input: seq<U8>, flush: bool, reliable: bool)
    returns (outcomes: seq<ClientOutcome>)
    requires d.Valid() && Happens(w) && items == Dispatched(w)
    requires SERIALIZE_OVERHEAD < d.transferLength == w.transferLength
    requires Sends(w, id, log, input)
    modifies d
    ensures OutcomesRight(outcomes, input)
    ensures d.reliable && reliable && NothingLost(w) && SendsAll(w, id, log) ==> (input, Some(true)) in outcomes
  {
    var first := |d.queues|;
    DispatchEpoch(w, d, items);
    outcomes := WriteQueues(d.Now(), first, id, d.transferLength - SERIALIZE_OVERHEAD, flush, reliable, log, input);
  }

  // ---------------------------------------------------------------------------------------------
  // Something lost
  // ---------------------------------------------------------------------------------------------

  /** The transfer of queue `q` is under way when item `k` comes. */
  ghost predicate UnderWay(items: seq<Item>, q: nat, k: nat)
    requires q < |Starts(items)| && k < |items|
  {
    StartsAre(items);
    var s := Starts(items)[q];
    s < k && Open(items[s + 1..k], StarterOf(items, s))
  }

  /** Queue `q` holds its Start, the blocks of its client that came before item `k`, and then an Abort. */
  ghost predicate AbortedAt(items: seq<Item>, t: Tables, transferLength: nat, q: nat, k: nat)
    requires q < |Starts(items)| && q < |t.queues| && k < |items|
    requires UnderWay(items, q, k)
  {
    StartsAre(items);
    var s := Starts(items)[q];
    var id := StarterOf(items, s);
    GotAbort([items[s].value] + Project(T.Results(items[s + 1..k]), id), t.queues[q], id, transferLength)
  }

  /** A loss ends every transfer under way with an Abort, unless its worker is gone. */
  lemma MarkerAborts(items: seq<Item>, t: Tables, transferLength: nat, q: nat, k: nat)
    requires Sound(items, t, transferLength) && SERIALIZE_OVERHEAD <= transferLength
    requires q < |t.queues| && q !in t.gone && k < |items| && items[k].None? && UnderWay(items, q, k)
    ensures AbortedAt(items, t, transferLength, q, k)
  {
    StartsAre(items);
    assert QueueOk(items, t, transferLength, q);
    var s := Starts(items)[q];
    var id := StarterOf(items, s);
    var after := items[s + 1..];
    ClientIdRange(items[s].value);
    TailPart(items, s + 1, k);
    CollectExact(after, k - s - 1, id, transferLength);
    StartAndAbort(items[s].value, Project(T.Results(items[s + 1..k]), id), Collect(after, id, transferLength), id,
                  transferLength);
  }

  lemma StartAndAbort(start: Block, own: seq<Block>, got: seq<Block>, id: nat, transferLength: nat)
    requires GotAbort(own, got, id, transferLength)
    ensures GotAbort([start] + own, [start] + got, id, transferLength)
  {
    assert ([start] + got)[..|got|] == [start] + got[..|got| - 1];
  }

  /** The decoding of some group that the decoders took fails. */
  ghost predicate SomeFails(w: World)
    requires Happens(w)
  {
    var t := DecodersEnd(w);
    exists i: nat :: i < |t.accepted| && i < T.Taken(t) && T.WorkAt(Decoding(w.codec), t, i).None?
  }

  /** Every transfer under way at item `k` whose worker is there was aborted. */
  ghost predicate AllAbortedAt(items: seq<Item>, t: Tables, transferLength: nat, k: nat)
    requires |Starts(items)| == |t.queues| && k < |items|
  {
    forall q: nat :: q < |t.queues| && q !in t.gone && UnderWay(items, q, k) ==>
      AbortedAt(items, t, transferLength, q, k)
  }

  lemma {:induction false} SomeMarker(out: seq<Item>) returns (k: nat)
    requires |T.Results(out)| < |out|
    ensures k < |out| && out[k].None?
  {
    if out[0].None? {
      k := 0;
    } else {
      k := SomeMarker(out[1..]);
      k := k + 1;
    }
  }

  lemma FailureMarked(w: World) returns (k: nat)
    requires Happens(w) && 1 <= w.decoders && O.Stuck(Decoding(w.codec), DecodersEnd(w)) && SomeFails(w)
    ensures k < |Dispatched(w)| && Dispatched(w)[k].None?
  {
    var c, t := Decoding(w.codec), DecodersEnd(w);
    DecodersEndInv(w);
    F.AllReported(c, t);
    F.NoneFailing(c, t, T.Taken(t));
    O.StopsAtFailure(c, t);
    k := SomeMarker(t.out);
  }

  /** A failed decode is reported and aborts: when the decoders have come to rest and the decoding of some group failed,
      a marker has reached the dispatcher, and every transfer under way at that moment, whatever its client and whether
      it started in this epoch or before, ends with an Abort behind the blocks that came before. */
  lemma FailureAborts(w: World, before: seq<Item>, t: Tables)
    requires Happens(w) && 1 <= w.decoders && O.Stuck(Decoding(w.codec), DecodersEnd(w)) && SomeFails(w)
    requires SERIALIZE_OVERHEAD <= w.transferLength && Sound(before + Dispatched(w), t, w.transferLength)
    ensures var items := before + Dispatched(w);
            exists k: nat :: |before| <= k < |items| && items[k].None? && AllAbortedAt(items, t, w.transferLength, k)
  {
    var j := FailureMarked(w);
    EveryMarkerAborts(before + Dispatched(w), t, w.transferLength, |before| + j);
  }

  lemma EveryMarkerAborts(items: seq<Item>, t: Tables, transferLength: nat, k: nat)
    requires Sound(items, t, transferLength) && SERIALIZE_OVERHEAD <= transferLength && k < |items| && items[k].None?
    ensures AllAbortedAt(items, t, transferLength, k)
  {
    forall q: nat | q < |t.queues| && q !in t.gone && UnderWay(items, q, k)
      ensures AbortedAt(items, t, transferLength, q, k)
    {
      MarkerAborts(items, t, transferLength, q, k);
    }
  }
}
