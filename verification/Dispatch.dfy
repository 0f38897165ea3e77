/** The worker that sorts decoded blocks into one queue per transfer (src/receive/dispatch.rs). */
module Dispatch {
  import opened Words
  import opened Wrappers
  import opened LittleEndian
  import opened Blocks

  /** What the decoders send: a block, or `None` for a lost one. */
  type Item = Option<Block>

  /** Is `x` a block of a known type, other than a heartbeat, of client `id`? */
  predicate IsFor(x: Item, id: nat) {
    x.Some? && TypeOf(x.value).Ok? && !TypeOf(x.value).value.Heartbeat? && ClientIdOf(x.value) == id
  }

  predicate IsStart(x: Item) {
    x.Some? && TypeOf(x.value) == Ok(Start)
  }

  /** The block made up for a client whose transfer is given up. */
  function AbortBlock(id: nat, transferLength: nat): Block {
    Image(Abort, transferLength, id, [])
  }

  /** An Abort of client `id`, without data. */
  ghost predicate AbortOf(b: Block, id: nat, transferLength: nat) {
    Readable(b) && ClientIdOf(b) == id && TypeOf(b) == Ok(Abort) && Payload(b) == [] && |b.content| == transferLength
  }

  lemma AbortBlockIs(id: nat, transferLength: nat)
    requires id < U32_LIMIT && SERIALIZE_OVERHEAD <= transferLength
    ensures AbortOf(AbortBlock(id, transferLength), id, transferLength)
  {
    ImageRoundTrip(Abort, transferLength, id, []);
  }

  /** What a transfer of client `id` gets out of the items that follow its Start: its own blocks up to the first
      End or Abort, or to a new Start of the same client, or to a loss, which adds an Abort. */
  function Collect(items: seq<Item>, id: nat, transferLength: nat): seq<Block> {
    if items == [] then
      []
    else if items[0].None? then
      [AbortBlock(id, transferLength)]
    else if IsFor(items[0], id) then
      match TypeOf(items[0].value).value
      case Start => []
      case Data => [items[0].value] + Collect(items[1..], id, transferLength)
      case _ => [items[0].value]
    else
      Collect(items[1..], id, transferLength)
  }

  /** Does the item leave the transfer of client `id` under way? */
  predicate Harmless(x: Item, id: nat) {
    x.Some? && (IsFor(x, id) ==> TypeOf(x.value).value.Data?)
  }

  predicate Open(items: seq<Item>, id: nat) {
    forall i :: 0 <= i < |items| ==> Harmless(items[i], id)
  }

  lemma {:induction false} CollectSnoc(items: seq<Item>, x: Item, id: nat, transferLength: nat)
    ensures Collect(items + [x], id, transferLength) ==
            Collect(items, id, transferLength) + if Open(items, id) then Collect([x], id, transferLength) else []
    ensures Open(items + [x], id) <==> Open(items, id) && Harmless(x, id)
  {
    if items == [] {
      assert items + [x] == [x];
    } else {
      assert (items + [x])[1..] == items[1..] + [x];
      CollectSnoc(items[1..], x, id, transferLength);
      assert Open(items, id) <==> Harmless(items[0], id) && Open(items[1..], id) by {
        if Harmless(items[0], id) && Open(items[1..], id) {
          assert items == [items[0]] + items[1..];
        }
      }
    }
  }

  /** While a transfer stays open, what comes later is added to what it has. */
  lemma {:induction false} CollectConcat(a: seq<Item>, b: seq<Item>, id: nat, transferLength: nat)
    requires Open(a, id)
    ensures Collect(a + b, id, transferLength) == Collect(a, id, transferLength) + Collect(b, id, transferLength)
  {
    if a == [] {
      assert a + b == b;
    } else {
      assert Harmless(a[0], id);
      assert (a + b)[1..] == a[1..] + b;
      CollectConcat(a[1..], b, id, transferLength);
    }
  }

  /** Where the transfers start. */
  function Starts(items: seq<Item>): seq<nat> {
    if items == [] then
      []
    else
      var last := |items| - 1;
      Starts(items[..last]) + if IsStart(items[last]) then [last] else []
  }

  lemma {:induction false} StartsAre(items: seq<Item>)
    ensures forall q :: 0 <= q < |Starts(items)| ==> Starts(items)[q] < |items| && IsStart(items[Starts(items)[q]])
    ensures forall q, r :: 0 <= q < r < |Starts(items)| ==> Starts(items)[q] < Starts(items)[r]
    ensures forall i :: 0 <= i < |items| && IsStart(items[i]) ==> i in Starts(items)
  {
    if items != [] {
      StartsAre(items[..|items| - 1]);
    }
  }

  lemma StartsSnoc(items: seq<Item>, x: Item)
    ensures Starts(items + [x]) == Starts(items) + if IsStart(x) then [|items|] else []
  {
    assert (items + [x])[..|items|] == items;
  }

  /** The client of the transfer that starts at `s`. */
  function StarterOf(items: seq<Item>, s: nat): nat
    requires s < |items| && IsStart(items[s])
  {
    ClientIdOf(items[s].value)
  }

  /** The projection of the dispatched items on the transfer that starts at `s`. */
  function Projection(items: seq<Item>, s: nat, transferLength: nat): seq<Block>
    requires s < |items| && IsStart(items[s])
  {
    [items[s].value] + Collect(items[s + 1..], StarterOf(items, s), transferLength)
  }

  ghost predicate StillOpen(items: seq<Item>, s: nat)
    requires s < |items| && IsStart(items[s])
  {
    Open(items[s + 1..], StarterOf(items, s))
  }

  lemma ProjectionSnoc(items: seq<Item>, x: Item, s: nat, transferLength: nat)
    requires s < |items| && IsStart(items[s])
    ensures (items + [x])[s] == items[s]
    ensures Projection(items + [x], s, transferLength) ==
            Projection(items, s, transferLength)
            + if StillOpen(items, s) then Collect([x], StarterOf(items, s), transferLength) else []
    ensures StillOpen(items + [x], s) <==> StillOpen(items, s) && Harmless(x, StarterOf(items, s))
  {
    assert (items + [x])[s + 1..] == items[s + 1..] + [x];
    CollectSnoc(items[s + 1..], x, StarterOf(items, s), transferLength);
  }

  // ---------------------------------------------------------------------------------------------
  // What a projection looks like
  // ---------------------------------------------------------------------------------------------

  predicate HasType(b: Block, t: BlockType, id: nat) {
    TypeOf(b) == Ok(t) && ClientIdOf(b) == id
  }

  /** Data blocks of one client, and possibly one End or Abort of that client at the end. */
  ghost predicate DataThenEnd(log: seq<Block>, id: nat) {
    && (forall i :: 0 <= i < |log| - 1 ==> HasType(log[i], Data, id))
    && (log != [] ==>
          var last := log[|log| - 1];
          HasType(last, Data, id) || HasType(last, End, id) || HasType(last, Abort, id))
  }

  lemma {:induction false} CollectLanguage(items: seq<Item>, id: nat, transferLength: nat)
    requires id < U32_LIMIT
    ensures DataThenEnd(Collect(items, id, transferLength), id)
  {
    if items != [] {
      if items[0].None? {
        ImageRoundTrip(Abort, transferLength, id, []);
      } else {
        CollectLanguage(items[1..], id, transferLength);
      }
    }
  }

  /** Whatever the decoders send, a transfer sees one Start, then Data blocks, then at most one End or Abort, all
      of its own client; never a heartbeat, although heartbeats carry client id 0. */
  lemma ProjectionLanguage(items: seq<Item>, s: nat, transferLength: nat)
    requires s < |items| && IsStart(items[s])
    ensures var log := Projection(items, s, transferLength);
            var id := StarterOf(items, s);
            HasType(log[0], Start, id) && DataThenEnd(log[1..], id)
  {
    var id := StarterOf(items, s);
    ClientIdRange(items[s].value);
    CollectLanguage(items[s + 1..], id, transferLength);
    assert Projection(items, s, transferLength)[1..] == Collect(items[s + 1..], id, transferLength);
  }

  /** The dispatcher's tables: the queue of each transfer under way by client id; every queue ever created, as the
      log of the blocks put in it; the queues whose client worker is gone, so that sending to them fails; and the
      channel to the client workers. */
  datatype Tables = Tables(
    active: map<nat, nat>,
    queues: seq<seq<Block>>,
    gone: set<nat>,
    toClients: seq<(nat, nat)>)

  /** Queue `q` holds the projection of everything dispatched on its transfer, or an initial part of it once its
      worker is gone; and a transfer under way whose worker is there is the active one of its client. */
  ghost predicate QueueOk(items: seq<Item>, t: Tables, transferLength: nat, q: nat)
    requires |Starts(items)| == |t.queues| == |t.toClients| && q < |t.queues|
  {
    StartsAre(items);
    var s := Starts(items)[q];
    var id := StarterOf(items, s);
    && t.toClients[q] == (id, q)
    && t.queues[q] <= Projection(items, s, transferLength)
    && (q !in t.gone ==> t.queues[q] == Projection(items, s, transferLength))
    && (StillOpen(items, s) && q !in t.gone ==> id in t.active && t.active[id] == q)
  }

  ghost predicate ActiveOk(items: seq<Item>, t: Tables, transferLength: nat, id: nat)
    requires |Starts(items)| == |t.queues| == |t.toClients| && id in t.active
  {
    StartsAre(items);
    var q := t.active[id];
    q < |t.queues| && (
      var s := Starts(items)[q];
      && StarterOf(items, s) == id
      && StillOpen(items, s)
      && t.queues[q] == Projection(items, s, transferLength))
  }

  /** The tables are right for everything dispatched so far. */
  ghost predicate Sound(items: seq<Item>, t: Tables, transferLength: nat) {
    && |Starts(items)| == |t.queues| == |t.toClients|
    && (forall q :: 0 <= q < |t.queues| ==> QueueOk(items, t, transferLength, q))
    && (forall id <- t.active :: ActiveOk(items, t, transferLength, id))
  }

  /** Item `x` is passed on to queue `q` if that is an active one: delivered, or its worker turns out gone. */
  ghost predicate PassedOn(x: Item, t: Tables, u: Tables, transferLength: nat, q: nat)
    requires |t.queues| == |t.toClients| == |u.queues| && q < |t.queues|
  {
    var id := t.toClients[q].0;
    || u.queues[q] == t.queues[q] + (if id in t.active && t.active[id] == q then Collect([x], id, transferLength)
                                     else [])
    || (u.queues[q] == t.queues[q] && q in u.gone)
  }

  /** A client stays active exactly when the item leaves its transfer under way and reached it. */
  ghost predicate StaysActive(x: Item, t: Tables, u: Tables, transferLength: nat, id: nat)
    requires |t.queues| == |u.queues| && id in t.active
  {
    var q := t.active[id];
    q < |t.queues| &&
    if id in u.active then
      u.active[id] == q && Harmless(x, id) && u.queues[q] == t.queues[q] + Collect([x], id, transferLength)
    else
      !Harmless(x, id) || q in u.gone
  }

  /** Any item but a Start, passed on to the active queues, keeps the tables right. */
  lemma SoundAfter(items: seq<Item>, x: Item, t: Tables, u: Tables, transferLength: nat)
    requires Sound(items, t, transferLength) && !IsStart(x)
    requires |u.queues| == |t.queues| && u.toClients == t.toClients && t.gone <= u.gone
    requires u.active.Keys <= t.active.Keys
    requires forall q :: 0 <= q < |t.queues| ==> PassedOn(x, t, u, transferLength, q)
    requires forall id <- t.active :: StaysActive(x, t, u, transferLength, id)
    ensures Sound(items + [x], u, transferLength)
  {
    StartsSnoc(items, x);
    StartsAre(items);
    forall q | 0 <= q < |u.queues|
      ensures QueueOk(items + [x], u, transferLength, q)
    {
      assert QueueOk(items, t, transferLength, q) && PassedOn(x, t, u, transferLength, q);
      var s := Starts(items)[q];
      var id := StarterOf(items, s);
      ProjectionSnoc(items, x, s, transferLength);
      if id in t.active {
        assert ActiveOk(items, t, transferLength, id) && StaysActive(x, t, u, transferLength, id);
      }
    }
    forall id | id in u.active
      ensures ActiveOk(items + [x], u, transferLength, id)
    {
      assert ActiveOk(items, t, transferLength, id) && StaysActive(x, t, u, transferLength, id);
      ProjectionSnoc(items, x, Starts(items)[t.active[id]], transferLength);
    }
  }

  lemma ClientIdRange(b: Block)
    requires 4 <= |b.content|
    ensures ClientIdOf(b) < U32_LIMIT
  {
    Widths();
    BytesRoundTrip(b.content[..4]);
  }

  /** The queue of an active client is known under that client's id, a 32-bit number. */
  lemma ActiveClient(items: seq<Item>, t: Tables, transferLength: nat, id: nat)
    requires Sound(items, t, transferLength) && id in t.active
    ensures t.active[id] < |t.queues| && t.toClients[t.active[id]].0 == id && id < U32_LIMIT
  {
    StartsAre(items);
    assert ActiveOk(items, t, transferLength, id) && QueueOk(items, t, transferLength, t.active[id]);
    ClientIdRange(items[Starts(items)[t.active[id]]].value);
  }

  /** An item that belongs to no active transfer changes nothing. */
  lemma SoundAfterOther(items: seq<Item>, x: Item, t: Tables, transferLength: nat)
    requires Sound(items, t, transferLength) && x.Some? && !IsStart(x)
    requires forall id <- t.active :: !IsFor(x, id)
    ensures Sound(items + [x], t, transferLength)
  {
    forall id | id in t.active
      ensures StaysActive(x, t, t, transferLength, id)
    {
      ActiveClient(items, t, transferLength, id);
      assert Collect([x], id, transferLength) == Collect([x][1..], id, transferLength) == [];
    }
    forall q | 0 <= q < |t.queues|
      ensures PassedOn(x, t, t, transferLength, q)
    {
      var id := t.toClients[q].0;
      if id in t.active {
        assert StaysActive(x, t, t, transferLength, id);
      }
    }
    SoundAfter(items, x, t, t, transferLength);
  }

  /** How a Start changes the tables. */
  ghost predicate Started(x: Item, t: Tables, u: Tables)
    requires IsStart(x)
  {
    var id := ClientIdOf(x.value);
    var q := |t.queues|;
    && u.toClients == t.toClients + [(id, q)]
    && if q in u.gone then
         u.gone == t.gone + {q} && u.queues == t.queues + [[]] && u.active == t.active - {id}
       else
         u.gone == t.gone && u.queues == t.queues + [[x.value]] && u.active == t.active[id := q]
  }

  lemma QueueAfterStart(items: seq<Item>, x: Item, t: Tables, u: Tables, transferLength: nat, q: nat)
    requires Sound(items, t, transferLength) && IsStart(x) && Started(x, t, u) && q <= |t.queues|
    ensures |Starts(items + [x])| == |u.queues| == |u.toClients|
    ensures QueueOk(items + [x], u, transferLength, q)
  {
    StartsSnoc(items, x);
    StartsAre(items);
    if q < |t.queues| {
      assert QueueOk(items, t, transferLength, q);
      ProjectionSnoc(items, x, Starts(items)[q], transferLength);
    } else {
      assert (items + [x])[|items| + 1..] == [];
    }
  }

  /** A Start opens a new queue and takes its client over, whatever transfer of that client was under way. */
  lemma SoundAfterStart(items: seq<Item>, x: Item, t: Tables, u: Tables, transferLength: nat)
    requires Sound(items, t, transferLength) && IsStart(x) && Started(x, t, u)
    ensures Sound(items + [x], u, transferLength)
  {
    forall q | 0 <= q < |u.queues|
      ensures |Starts(items + [x])| == |u.queues| == |u.toClients|
      ensures QueueOk(items + [x], u, transferLength, q)
    {
      QueueAfterStart(items, x, t, u, transferLength, q);
    }
    StartsSnoc(items, x);
    StartsAre(items);
    forall other | other in u.active
      ensures ActiveOk(items + [x], u, transferLength, other)
    {
      if other == ClientIdOf(x.value) {
        assert (items + [x])[|items| + 1..] == [];
      } else {
        assert ActiveOk(items, t, transferLength, other);
        ProjectionSnoc(items, x, Starts(items)[t.active[other]], transferLength);
      }
    }
  }

  /** While transfers are being aborted: those of the clients in `left` are still untouched. */
  ghost predicate AbortedOrLeft(t: Tables, u: Tables, transferLength: nat, left: set<nat>, q: nat)
    requires |t.queues| == |t.toClients| == |u.queues| && q < |t.queues|
  {
    if t.toClients[q].0 in left then u.queues[q] == t.queues[q] else PassedOn(None, t, u, transferLength, q)
  }

  ghost predicate Aborting(t: Tables, u: Tables, transferLength: nat, left: set<nat>) {
    && |u.queues| == |t.queues| == |t.toClients|
    && u.toClients == t.toClients && t.gone <= u.gone && u.active == t.active
    && forall q :: 0 <= q < |t.queues| ==> AbortedOrLeft(t, u, transferLength, left, q)
  }

  lemma AbortingOne(t: Tables, u: Tables, v: Tables, transferLength: nat, left: set<nat>, id: nat)
    requires Aborting(t, u, transferLength, left) && id in left && id in t.active
    requires t.active[id] < |t.queues| && t.toClients[t.active[id]].0 == id
    requires v.active == u.active && v.toClients == u.toClients
    requires var q := t.active[id];
             || (v.gone == u.gone && v.queues == u.queues[q := u.queues[q] + [AbortBlock(id, transferLength)]])
             || (v.gone == u.gone + {q} && v.queues == u.queues)
    ensures Aborting(t, v, transferLength, left - {id})
  {
    forall q | 0 <= q < |t.queues|
      ensures AbortedOrLeft(t, v, transferLength, left - {id}, q)
    {
      assert AbortedOrLeft(t, u, transferLength, left, q);
    }
  }

  /** One more Abort in the queue of client `id`. */
  ghost predicate GotAbort(before: seq<Block>, after: seq<Block>, id: nat, transferLength: nat) {
    after != [] && after[..|after| - 1] == before && AbortOf(after[|after| - 1], id, transferLength)
  }

  /** The queue of every transfer under way got an Abort, unless its worker is gone; the others are as before. */
  ghost predicate AllAborted(t: Tables, u: Tables, transferLength: nat) {
    && |u.queues| == |t.queues|
    && (forall id <- t.active ::
          var q := t.active[id];
          q < |u.queues| && ((u.queues[q] == t.queues[q] && q in u.gone)
                             || GotAbort(t.queues[q], u.queues[q], id, transferLength)))
    && (forall q :: 0 <= q < |u.queues| && q !in t.active.Values ==> u.queues[q] == t.queues[q])
  }

  lemma AbortedQueues(items: seq<Item>, t: Tables, u: Tables, transferLength: nat)
    requires Sound(items, t, transferLength) && Aborting(t, u, transferLength, {})
    requires SERIALIZE_OVERHEAD <= transferLength
    ensures AllAborted(t, u, transferLength)
  {
    forall id | id in t.active
      ensures var q := t.active[id];
              q < |u.queues| && ((u.queues[q] == t.queues[q] && q in u.gone)
                                 || GotAbort(t.queues[q], u.queues[q], id, transferLength))
    {
      ActiveClient(items, t, transferLength, id);
      assert AbortedOrLeft(t, u, transferLength, {}, t.active[id]);
      AbortBlockIs(id, transferLength);
      assert Collect([None], id, transferLength) == [AbortBlock(id, transferLength)];
    }
    forall q | 0 <= q < |u.queues| && q !in t.active.Values
      ensures u.queues[q] == t.queues[q]
    {
      assert AbortedOrLeft(t, u, transferLength, {}, q);
    }
  }

  lemma AbortedAll(items: seq<Item>, t: Tables, u: Tables, transferLength: nat)
    requires Sound(items, t, transferLength) && Aborting(t, u, transferLength, {})
    ensures Sound(items + [None], u.(active := map[]), transferLength)
  {
    var v := u.(active := map[]);
    forall q | 0 <= q < |t.queues|
      ensures PassedOn(None, t, v, transferLength, q)
    {
      assert AbortedOrLeft(t, u, transferLength, {}, q);
    }
    forall id | id in t.active
      ensures StaysActive(None, t, v, transferLength, id)
    {
      ActiveClient(items, t, transferLength, id);
    }
    SoundAfter(items, None, t, v, transferLength);
  }

  /** A block of an active transfer is delivered, or its worker turns out gone; the transfer stays active when it
      was delivered and does not end it. */
  lemma SoundAfterBlock(items: seq<Item>, x: Item, t: Tables, u: Tables, transferLength: nat, id: nat)
    requires Sound(items, t, transferLength) && !IsStart(x) && IsFor(x, id) && id in t.active
    requires u.toClients == t.toClients
    requires var q := t.active[id];
             if q in u.gone then
               u.gone == t.gone + {q} && u.queues == t.queues && u.active == t.active - {id}
             else
               && u.gone == t.gone && q < |t.queues| && u.queues == t.queues[q := t.queues[q] + [x.value]]
               && u.active == if Harmless(x, id) then t.active else t.active - {id}
    ensures Sound(items + [x], u, transferLength)
  {
    assert [x][1..] == [];
    forall other: nat
      ensures Collect([x], other, transferLength) == if other == id then [x.value] else []
    {
    }
    ActiveClient(items, t, transferLength, id);
    forall q | 0 <= q < |t.queues|
      ensures PassedOn(x, t, u, transferLength, q)
    {
      assert QueueOk(items, t, transferLength, q);
    }
    forall other | other in t.active
      ensures StaysActive(x, t, u, transferLength, other)
    {
      ActiveClient(items, t, transferLength, other);
    }
    SoundAfter(items, x, t, u, transferLength);
  }

  method MakeAbort(id: nat, transferLength: nat) returns (b: Block)
    requires id < U32_LIMIT && SERIALIZE_OVERHEAD <= transferLength < U32_LIMIT
    ensures b == AbortBlock(id, transferLength)
  {
    var r := NewBlock(Abort, transferLength, id, None);
    b := r.value;
  }

  class Dispatcher {
    const transferLength: nat
    // no client worker goes away before the end of its transfer
    const reliable: bool
    var active: map<nat, nat>
    var queues: seq<seq<Block>>
    var gone: set<nat>
    var toClients: seq<(nat, nat)>
    // history: every item processed
    ghost var seen: seq<Item>

    function Now(): Tables
      reads this
    {
      Tables(active, queues, gone, toClients)
    }

    ghost predicate Valid()
      reads this
    {
      && SERIALIZE_OVERHEAD <= transferLength < U32_LIMIT
      && Sound(seen, Now(), transferLength)
      && (reliable ==> gone == {})
    }

    constructor (length: nat, sound: bool)
      requires SERIALIZE_OVERHEAD <= length < U32_LIMIT
      ensures Valid() && seen == [] && transferLength == length && reliable == sound
    {
      transferLength := length;
      reliable := sound;
      active := map[];
      queues := [];
      gone := {};
      toClients := [];
      seen := [];
    }

    /** Send on a queue; the worker at the other end may turn out to be gone, and then stays gone. */
    method Send(q: nat, b: Block) returns (ok: bool)
      requires q < |queues| && (reliable ==> gone == {})
      modifies this`queues, this`gone
      ensures gone == if ok then old(gone) else old(gone) + {q}
      ensures ok ==> q !in gone
      ensures reliable ==> ok
      ensures queues == if ok then old(queues)[q := old(queues)[q] + [b]] else old(queues)
    {
      var leaves := !reliable;
      if * {
        leaves := false;
      }
      if leaves {
        gone := gone + {q};
      }
      ok := q !in gone;
      if ok {
        queues := queues[q := queues[q] + [b]];
      }
    }

    /** Send an Abort to every active transfer. */
    method AbortEach()
      requires Valid()
      modifies this`queues, this`gone
      ensures Aborting(old(Now()), Now(), transferLength, {}) && (reliable ==> gone == {})
    {
      ghost var t := Now();
      var left := active.Keys;
      while left != {}
        invariant left <= active.Keys && active == t.active && toClients == t.toClients
        invariant Aborting(t, Now(), transferLength, left) && (reliable ==> gone == {})
        decreases |left|
      {
        var id :| id in left;
        ActiveClient(seen, t, transferLength, id);
        var block := MakeAbort(id, transferLength);
        ghost var u := Now();
        var ok := Send(active[id], block);
        AbortingOne(t, u, Now(), transferLength, left, id);
        left := left - {id};
      }
    }

    /** Synchronisation is lost: every active transfer gets an Abort. */
    method AbortAll()
      requires Valid()
      modifies this
      ensures Valid() && seen == old(seen) + [None] && active == map[]
      ensures AllAborted(old(Now()), Now(), transferLength)
    {
      ghost var t := Now();
      AbortEach();
      AbortedQueues(seen, t, Now(), transferLength);
      AbortedAll(seen, t, Now(), transferLength);
      active := map[];
      seen := seen + [None];
    }

    /** A new queue, offered to the client workers, with the Start itself in it. */
    method Offer(block: Block)
      requires IsStart(Some(block)) && (reliable ==> gone == {})
      modifies this`active, this`toClients, this`queues, this`gone
      ensures Started(Some(block), old(Now()), Now())
      ensures reliable ==> gone == {}
    {
      var id := ClientIdOf(block);
      var q := |queues|;
      ghost var before := active;
      active := active[id := q];
      toClients := toClients + [(id, q)];
      queues := queues + [[]];
      var ok := Send(q, block);
      if ok {
        var none: seq<Block> := [];
        assert none + [block] == [block];
      } else {
        active := active - {id};
        assert active == before - {id};
      }
    }

    method Begin(block: Block)
      requires Valid() && IsStart(Some(block))
      modifies this
      ensures Valid() && seen == old(seen) + [Some(block)]
    {
      ghost var t := Now();
      Offer(block);
      SoundAfterStart(seen, Some(block), t, Now(), transferLength);
      seen := seen + [Some(block)];
    }

    /** A block of an active transfer. */
    method Pass(block: Block, willEnd: bool)
      requires Valid() && TypeOf(block).Ok? && IsFor(Some(block), ClientIdOf(block)) && !IsStart(Some(block))
      requires ClientIdOf(block) in active && (willEnd <==> !Harmless(Some(block), ClientIdOf(block)))
      modifies this
      ensures Valid() && seen == old(seen) + [Some(block)]
    {
      ghost var t := Now();
      var id := ClientIdOf(block);
      ActiveClient(seen, t, transferLength, id);
      var ok := Send(active[id], block);
      if !ok || willEnd {
        active := active - {id};
      }
      SoundAfterBlock(seen, Some(block), t, Now(), transferLength, id);
      seen := seen + [Some(block)];
    }

    /** One item from the decoders. By Valid every queue is then the projection of all items so far on its transfer,
        or an initial part of it if its worker is gone; with none gone, exactly the projection. */
    method Process(x: Item)
      requires Valid()
      modifies this
      ensures Valid() && seen == old(seen) + [x]
    {
      if x.None? {
        AbortAll();
        return;
      }
      var block := x.value;
      var blockType := TypeOf(block);
      if blockType.Ok? && !blockType.value.Heartbeat? {
        if blockType.value.Start? {
          Begin(block);
          return;
        }
        if ClientIdOf(block) in active {
          Pass(block, blockType.value.Abort? || blockType.value.End?);
          return;
        }
      }
      SoundAfterOther(seen, x, Now(), transferLength);
      seen := seen + [x];
    }
  }
}
