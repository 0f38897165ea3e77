/** The packet-grouping worker itself: 256 buffers, 256 flags and an 8-bit cursor, updated in place. */
module Reblock {
  import opened Words
  import opened Totals
  import opened ReblockModel

  class Reblocker {
    const minNbPackets: nat
    var blocksData: array<seq<Packet>>
    var blocksIgnore: array<bool>
    var curId: U8
    var reset: bool
    // the channel to the decoders, as the log of all that was sent on it
    var toDecode: seq<Reassembled>
    // the counter shared with the decoders
    var blockToDispatch: U8

    ghost predicate Valid()
      reads this
    {
      1 <= minNbPackets && blocksData.Length == 256 && blocksIgnore.Length == 256
    }

    ghost function Abs(): State
      requires Valid()
      reads this, blocksData, blocksIgnore
    {
      State(blocksData[..], blocksIgnore[..], curId, reset)
    }

    constructor (min: nat)
      requires 1 <= min
      ensures Valid() && fresh(blocksData) && fresh(blocksIgnore)
      ensures minNbPackets == min && Abs() == Initial() && toDecode == []
    {
      minNbPackets := min;
      blocksData := new seq<Packet>[256](_ => []);
      blocksIgnore := new bool[256](_ => true);
      curId := 0;
      reset := true;
      toDecode := [];
      blockToDispatch := 0;
      new;
      assert blocksData[..] == Initial().data;
      assert blocksIgnore[..] == Initial().ignore;
    }

    method OnTimeout()
      requires Valid()
      modifies this`reset, this`toDecode
      ensures Valid() && Abs() == ReblockModel.OnTimeout(old(Abs())).state
      ensures toDecode == old(toDecode) + ReblockModel.OnTimeout(old(Abs())).out
      ensures reset && toDecode == old(toDecode)
              + if exists id: U8 :: blocksIgnore[id] && blocksData[id] != [] then [Error] else []
    {
      reset := true;
      var damaged := false;
      for id := 0 to 256
        invariant damaged <==> exists i :: 0 <= i < id && blocksIgnore[i] && blocksData[i] != []
      {
        if blocksIgnore[id] && blocksData[id] != [] {
          damaged := true;
        }
      }
      if damaged {
        toDecode := toDecode + [Error];
      }
    }

    /** Serving a pending reset with a first datagram of block `first`. */
    method Restart(first: U8)
      requires Valid()
      modifies this`reset, this`curId, this`blockToDispatch, blocksData, blocksIgnore
      ensures Valid() && Abs() == ReblockModel.Restart(first)
      ensures blockToDispatch == first
    {
      reset := false;
      for i := 0 to 256
        invariant !reset && forall j :: 0 <= j < i ==> blocksData[j] == []
      {
        blocksData[i] := [];
      }
      for i := 0 to 256
        invariant !reset && forall j :: 0 <= j < i ==> blocksIgnore[j]
        invariant forall j :: 0 <= j < 256 ==> blocksData[j] == []
      {
        blocksIgnore[i] := true;
      }
      curId := first;
      blockToDispatch := curId;
      OpenWindow();
      assert blocksData[..] == ReblockModel.Restart(first).data;
      assert blocksIgnore[..] == ReblockModel.Restart(first).ignore;
    }

    /** Clear the flags of the window that starts at the cursor. */
    method OpenWindow()
      requires Valid() && forall j :: 0 <= j < 256 ==> blocksIgnore[j]
      modifies blocksIgnore
      ensures forall j: U8 :: blocksIgnore[j] <==> !InWindow(j, curId)
    {
      var id := curId;
      var last := WrappingAdd(id, WINDOW_WIDTH);
      while id != last
        invariant Ahead(id, curId) <= WINDOW_WIDTH
        invariant forall j: U8 :: blocksIgnore[j] <==> Ahead(j, curId) >= Ahead(id, curId)
        decreases WINDOW_WIDTH - Ahead(id, curId)
      {
        ghost var done := Ahead(id, curId);
        blocksIgnore[id] := false;
        id := WrappingAdd(id, 1);
        assert Ahead(id, curId) == done + 1;
      }
    }

    method Store(p: Packet)
      requires Valid()
      modifies blocksData
      ensures Valid() && Abs() == Accept(old(Abs()), p)
    {
      if !blocksIgnore[p.sbn] {
        blocksData[p.sbn] := blocksData[p.sbn] + [p];
      }
    }

    /** One pass of the loop: hand over the block at the cursor, close its slot, open the one opposite. */
    method HandOverOne()
      requires Valid() && !reset && |blocksData[curId]| >= minNbPackets
      modifies this`reset, this`curId, this`toDecode, blocksData, blocksIgnore
      ensures Valid() && reset == (old(Abs()).data[WrappingAdd(old(curId), WINDOW_WIDTH)] != [])
      ensures Abs() == if reset then Advance(old(Abs())).(reset := true, cur := old(curId)) else Advance(old(Abs()))
      ensures toDecode ==
              old(toDecode) + [Block(old(curId), old(Abs()).data[old(curId)])] + if reset then [Error] else []
    {
      ghost var s := Abs();
      var packets := blocksData[curId];
      blocksData[curId] := [];
      toDecode := toDecode + [Block(curId, packets)];
      blocksIgnore[curId] := true;
      var opposite := WrappingAdd(curId, WINDOW_WIDTH);
      blocksIgnore[opposite] := false;
      assert blocksData[..] == s.data[s.cur := []];
      assert blocksIgnore[..] == s.ignore[s.cur := true][opposite := false];
      if blocksData[opposite] != [] {
        toDecode := toDecode + [Error];
        reset := true;
      } else {
        curId := WrappingAdd(curId, 1);
      }
    }

    method HandOver()
      requires Valid() && !reset
      modifies this`reset, this`curId, this`toDecode, blocksData, blocksIgnore
      ensures Valid()
      ensures Abs() == Drain(old(Abs()), minNbPackets).state
      ensures toDecode == old(toDecode) + Drain(old(Abs()), minNbPackets).out
    {
      ghost var start := Abs();
      while |blocksData[curId]| >= minNbPackets
        invariant Valid() && !reset
        invariant toDecode + Drain(Abs(), minNbPackets).out == old(toDecode) + Drain(start, minNbPackets).out
        invariant Drain(Abs(), minNbPackets).state == Drain(start, minNbPackets).state
        decreases Total(blocksData[..])
      {
        DrainPass(Abs(), minNbPackets);
        HandOverOne();
        if reset {
          break;
        }
      }
    }

    /** One turn of the worker on datagrams. */
    method OnDatagrams(datagrams: Datagrams)
      requires Valid()
      requires reset ==> datagrams.All() != []
      modifies this`reset, this`curId, this`toDecode, this`blockToDispatch, blocksData, blocksIgnore
      ensures Valid()
      ensures Abs() == Receive(old(Abs()), datagrams, minNbPackets).state
      ensures toDecode == old(toDecode) + Receive(old(Abs()), datagrams, minNbPackets).out
      ensures blockToDispatch == if old(reset) then datagrams.All()[0].sbn else old(blockToDispatch)
    {
      if reset {
        var first := match datagrams case Single(p) => p case Multiple(ps) => ps[0];
        Restart(first.sbn);
      }
      ghost var ready := Abs();
      assert ready == if old(reset) then ReblockModel.Restart(datagrams.All()[0].sbn) else old(Abs());
      match datagrams {
        case Single(p) =>
          Store(p);
          assert datagrams.All()[1..] == [];
        case Multiple(ps) =>
          assert ps[0..] == ps;
          for i := 0 to |ps|
            invariant Valid()
            invariant curId == ready.cur && !reset && blocksIgnore[..] == ready.ignore
            invariant toDecode == old(toDecode)
            invariant blockToDispatch == if old(reset) then ps[0].sbn else old(blockToDispatch)
            invariant AcceptAll(Abs(), ps[i..]) == AcceptAll(ready, ps)
          {
            Store(ps[i]);
            assert ps[i..][0] == ps[i] && ps[i..][1..] == ps[i + 1..];
          }
          assert ps[|ps|..] == [];
      }
      assert Abs() == AcceptAll(ready, datagrams.All());
      HandOver();
    }
  }
}
