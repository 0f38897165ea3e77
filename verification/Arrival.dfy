/** From what the sender's threads send to what arrives: when complete delivery follows from sending. */
module Arrival {
  import opened Words
  import opened Wrappers
  import opened Blocks
  import opened RaptorQSizing
  import opened SlidingWindow
  import opened WindowRefinement
  import opened EndToEnd
  import opened Delivery
  import T = Turnstile
  import P = SendPipeline
  import R = ReblockModel
  import ReblockOrder

  /** The packet groups put on the channel to the UDP worker. */
  ghost function Groups(w: World): seq<Option<seq<R.Packet>>>
    requires SenderRuns(w)
  {
    SenderEnd(w).stile.out
  }

  /** The i-th group sent is exactly the packets that the code makes of the i-th block, under the id i modulo 256. */
  lemma GroupsSent(w: World)
    requires SenderRuns(w)
    ensures |Groups(w)| <= |Submitted(w)|
    ensures forall i :: 0 <= i < |Groups(w)| ==> Groups(w)[i] == Some(w.codec.encode(IdOf(i), Submitted(w)[i].content))
  {
    P.SenderOrder(Encoding(w.codec, w.encoders), w.encoders, w.sending);
  }

  /** No thread of the sender can take a step. */
  ghost predicate SenderRests(w: World)
    requires SenderRuns(w)
  {
    !P.SomeInternal(Encoding(w.codec, w.encoders), SenderEnd(w))
  }

  lemma AllSent(w: World)
    requires SenderRuns(w) && SenderRests(w)
    ensures |Groups(w)| == |Submitted(w)|
  {
    var c := Encoding(w.codec, w.encoders);
    P.StartInv<Block, seq<R.Packet>>(c, w.encoders);
    P.ReachableInv(c, w.encoders, P.Start(w.encoders), w.sending);
    if !P.Delivered(SenderEnd(w)) {
      P.SomebodyCanMove(c, w.encoders, SenderEnd(w));
    }
  }

  /** The code makes at least `count` packets of each block, all different. */
  ghost predicate Makes(codec: Codec, length: nat, count: nat) {
    forall id, content :: |content| == length ==>
      count <= |codec.encode(id, content)| && NoTwice(codec.encode(id, content))
  }

  /** Of the packets of group `n` each arrives at most once, and all but `loss` of them do. */
  ghost predicate Arrives(w: World, n: nat, loss: nat)
    requires SenderRuns(w) && n < |Groups(w)| && Groups(w)[n].Some?
  {
    var own := Packets(OfBlock(Flatten(w.arrivals), n));
    multiset(own) <= multiset(Groups(w)[n].value) && |Groups(w)[n].value| <= |own| + loss
  }

  /** Packets arrive while the window covers them. */
  ghost predicate Inside(w: Window, batches: seq<seq<Numbered>>, min: nat)
    requires 1 <= min
    decreases batches
  {
    batches == [] || (Within(batches[0], w.k) && Inside(Feed(w, batches[0], min).window, batches[1..], min))
  }

  lemma {:induction false} InsideAccepted(w: Window, batches: seq<seq<Numbered>>, min: nat)
    requires 1 <= min && Inside(w, batches, min)
    ensures Accepted(w, batches, min) == Flatten(batches)
    decreases batches
  {
    if batches != [] {
      ReblockOrder.AdmittedAll(w, batches[0]);
      InsideAccepted(Feed(w, batches[0], min).window, batches[1..], min);
    }
  }

  lemma {:induction false} OnceInAll(ps: seq<R.Packet>, p: R.Packet)
    requires NoTwice(ps)
    ensures multiset(ps)[p] <= 1
  {
    if ps != [] {
      assert ps == [ps[0]] + ps[1..];
      OnceInAll(ps[1..], p);
      if ps[0] == p {
        assert p !in ps[1..];
      }
    }
  }

  lemma NoTwiceAmong(ps: seq<R.Packet>, qs: seq<R.Packet>)
    requires NoTwice(ps) && multiset(qs) <= multiset(ps)
    ensures NoTwice(qs)
  {
    forall i, j | 0 <= i < j < |qs|
      ensures qs[i] != qs[j]
    {
      OnceInAll(ps, qs[i]);
      assert qs == qs[..j] + qs[j..];
      assert qs[i] in qs[..j] && qs[j] in qs[j..];
      assert multiset(qs)[qs[i]] == multiset(qs[..j])[qs[i]] + multiset(qs[j..])[qs[i]];
    }
  }

  /** When the code makes enough packets, and they arrive inside the window but for a tolerated loss, the threshold is
      met by different packets. */
  lemma EnoughFromSending(w: World, n: nat, loss: nat)
    requires Happens(w) && Makes(w.codec, w.transferLength, w.threshold + loss)
    requires Inside(EpochWindow(w.arrivals), w.arrivals, w.threshold)
    requires n < |Groups(w)| && Groups(w)[n].Some? && Arrives(w, n, loss)
    ensures EnoughArrive(w, n)
  {
    GroupsSent(w);
    InsideAccepted(EpochWindow(w.arrivals), w.arrivals, w.threshold);
    PacketsAt(OfBlock(TakenIn(w), n));
    NoTwiceAmong(Groups(w)[n].value, Packets(OfBlock(TakenIn(w), n)));
  }

  /** All packets of the epoch arrive inside the window but for a tolerated loss per block, and everything has come to
      rest. */
  ghost predicate ArrivesWell(w: World, loss: nat)
    requires Happens(w)
  {
    && SenderRests(w) && DecodersDone(w)
    && Inside(EpochWindow(w.arrivals), w.arrivals, w.threshold)
    && forall n: nat :: First(w) <= n < |Groups(w)| && Groups(w)[n].Some? ==> Arrives(w, n, loss)
  }

  /** Then nothing is lost, so that every client gets its whole input (Delivery.DeliverEpoch). */
  lemma NothingLostFromSending(w: World, loss: nat)
    requires Happens(w) && ArrivesWell(w, loss)
    requires Makes(w.codec, w.transferLength, w.threshold + loss)
    requires Recovers(w.codec, w.transferLength, w.threshold)
    ensures NothingLost(w)
  {
    GroupsSent(w);
    AllSent(w);
    FirstArrived(w);
    forall n | First(w) <= n < |Submitted(w)|
      ensures EnoughArrive(w, n)
    {
      EnoughFromSending(w, n, loss);
    }
  }

  /** With sizes computed from equal mtu and block size, and a receiver's minimum percentage no larger than the sender's
      percentage, a code that makes as many packets as the sender's sizes say makes enough for the receiver's threshold;
      the difference of the two counts may be lost. */
  lemma SizedCodeMakes(codec: Codec, sender: RaptorQ, receiver: RaptorQ, mtu: nat, blockSize: nat, repair: nat,
                       other: nat, minRepair: nat)
    requires Sized(sender, mtu, blockSize, repair, 0) && Sized(receiver, mtu, blockSize, other, minRepair)
    requires blockSize < U32_LIMIT && minRepair <= repair <= 100
    requires forall id, content :: |content| == sender.transferLength ==>
               |codec.encode(id, content)| == sender.NbPackets() && NoTwice(codec.encode(id, content))
    ensures receiver.MinNbPackets() <= sender.NbPackets() && receiver.transferLength == sender.transferLength
    ensures Makes(codec, receiver.transferLength,
                  receiver.MinNbPackets() + (sender.NbPackets() - receiver.MinNbPackets()))
  {
    ThresholdReachable(sender, receiver, mtu, blockSize, repair, other, minRepair);
  }
}
