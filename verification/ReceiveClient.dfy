/** The worker that writes one transfer to a client (src/receive/client.rs). */
module ReceiveClient {
  import opened Words
  import opened Wrappers
  import opened Blocks

  /** `io::BufWriter` over a client's socket: what the client got, and what still waits in the buffer. Unless
      declared reliable the socket may fail at any call. */
  class BufWriter {
    const capacity: nat
    const reliable: bool
    var buffered: seq<U8>
    var written: seq<U8>

    constructor (size: nat, sound: bool)
      ensures capacity == size && reliable == sound && buffered == [] && written == []
    {
      capacity := size;
      reliable := sound;
      buffered := [];
      written := [];
    }

    /** Write to the socket itself: all of `data`, or a part of it and an error. */
    method WriteInner(data: seq<U8>) returns (done: nat)
      modifies this`written
      ensures done <= |data| && written == old(written) + data[..done]
      ensures reliable ==> done == |data|
    {
      done := |data|;
      if !reliable {
        done :| 0 <= done <= |data|;
      }
      written := written + data[..done];
    }

    method Flush() returns (ok: bool)
      modifies this`written, this`buffered
      ensures written + buffered == old(written + buffered)
      ensures ok ==> buffered == []
      ensures |buffered| <= |old(buffered)|
      ensures reliable ==> ok
    {
      var done := WriteInner(buffered);
      buffered := buffered[done..];
      ok := buffered == [];
    }

    method WriteAll(data: seq<U8>) returns (ok: bool)
      modifies this`written, this`buffered
      ensures if ok then written + buffered == old(written + buffered) + data
              else old(written + buffered) <= written + buffered <= old(written + buffered) + data
      ensures |old(buffered)| <= capacity ==> |buffered| <= capacity
      ensures reliable ==> ok
    {
      ok := true;
      if |buffered| + |data| > capacity {
        ok := Flush();
        if !ok {
          assert written + buffered == written + buffered + data[..0];
          return;
        }
      }
      if |data| >= capacity {
        var done := WriteInner(data);
        ok := done == |data|;
      } else {
        buffered := buffered + data;
      }
    }
  }

  /** Not the last block of a transfer. */
  predicate Passing(b: Block) {
    TypeOf(b).Ok? && !TypeOf(b).value.End? && !TypeOf(b).value.Abort?
  }

  lemma OneMore(queue: seq<Block>, next: nat)
    requires AllReadable(queue) && next < |queue|
    ensures AllReadable(queue[..next]) && AllReadable(queue[..next + 1])
    ensures Payloads(queue[..next + 1]) == Payloads(queue[..next]) + Payload(queue[next])
  {
    PayloadsSnoc(queue[..next], queue[next]);
    assert queue[..next] + [queue[next]] == queue[..next + 1];
  }

  /** Write one payload, if there is any, and flush if told to. */
  method WritePayload(client: BufWriter, payload: seq<U8>, flush: bool) returns (ok: bool)
    modifies client`written, client`buffered
    ensures if ok then client.written + client.buffered == old(client.written + client.buffered) + payload
            else client.written + client.buffered <= old(client.written + client.buffered) + payload
    ensures ok && flush && (payload != [] || old(client.buffered) == []) ==> client.buffered == []
    ensures client.reliable ==> ok
  {
    ok := true;
    if payload != [] {
      ok := client.WriteAll(payload);
      if ok && flush {
        ok := client.Flush();
      }
    }
  }

  /** Write the blocks of a queue to the client as they come; `queue` is what comes before the wait for a further
      block fails. `taken` counts the blocks received. The verdict is what `client_end` is told, if it is called: after
      an error, or when no further block comes, it is not. */
  method Receive(queue: seq<Block>, client: BufWriter, flush: bool) returns (verdict: Option<bool>, ghost taken: nat)
    requires AllReadable(queue)
    requires client.buffered == [] && client.written == []
    modifies client
    ensures taken <= |queue| && client.written + client.buffered <= Payloads(queue[..taken])
    ensures verdict.Some? ==>
              && 1 <= taken && (forall i :: 0 <= i < taken - 1 ==> Passing(queue[i]))
              && TypeOf(queue[taken - 1]) == Ok(if verdict.value then End else Abort)
              && client.written == Payloads(queue[..taken]) && client.buffered == []
    ensures verdict.None? && client.reliable ==>
              || (1 <= taken && TypeOf(queue[taken - 1]).Err?)
              || (&& taken == |queue| && (forall i :: 0 <= i < taken ==> Passing(queue[i]))
                  && client.written + client.buffered == Payloads(queue) && (flush ==> client.buffered == []))
  {
    verdict := None;
    taken := 0;
    for next := 0 to |queue|
      invariant taken == next && verdict.None?
      invariant client.written + client.buffered == Payloads(queue[..next])
      invariant forall i :: 0 <= i < next ==> Passing(queue[i])
      invariant flush ==> client.buffered == []
    {
      var block := queue[next];
      taken := taken + 1;
      OneMore(queue, next);
      var blockType := TypeOf(block);
      if blockType.Err? {
        return;
      }
      var ok := WritePayload(client, Payload(block), flush);
      if !ok {
        return;
      }
      if blockType.value.Abort? || blockType.value.End? {
        ok := client.Flush();
        if ok {
          verdict := Some(blockType.value.End?);
        }
        return;
      }
    }
    assert queue[..|queue|] == queue;
  }
}
