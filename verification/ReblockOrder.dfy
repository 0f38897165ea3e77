/** Consequences of the window refinement for the 8-bit worker: batching and reordering inside a window. */
module ReblockOrder {
  import opened Words
  import opened ReblockModel
  import opened SlidingWindow
  import opened WindowRefinement

  /** Packets numbered by how far their ids lie ahead of the cursor `cur`, which stands at block `k`. */
  function Number(k: int, cur: U8, ps: seq<Packet>): seq<Numbered> {
    if ps == [] then [] else [Numbered(k + Ahead(ps[0].sbn, cur), ps[0])] + Number(k, cur, ps[1..])
  }

  function LiftSlots(s: State, count: nat): (slots: seq<seq<Numbered>>)
    requires count <= WIDTH
    ensures |slots| == count
    ensures forall i :: 0 <= i < count ==> slots[i] == Number(s.cur, s.cur, s.data[WrappingAdd(s.cur, i)])
  {
    if count == 0 then [] else LiftSlots(s, count - 1) + [Number(s.cur, s.cur, s.data[WrappingAdd(s.cur, count - 1)])]
  }

  function Lift(s: State): Window {
    Window(s.cur, LiftSlots(s, WIDTH))
  }

  lemma {:induction false} NumberFacts(k: int, cur: U8, ps: seq<Packet>)
    ensures Packets(Number(k, cur, ps)) == ps && |Number(k, cur, ps)| == |ps|
    ensures (forall p <- ps :: InWindow(p.sbn, cur)) ==> Within(Number(k, cur, ps), k)
  {
    if ps != [] {
      NumberFacts(k, cur, ps[1..]);
    }
  }

  /** Numbered this way, packets carry the ids of their numbers and stay within the skew bound, whatever they are. */
  lemma {:induction false} NumberGenuine(k: int, cur: U8, ps: seq<Packet>)
    requires cur == IdOf(k)
    ensures Genuine(Number(k, cur, ps))
    ensures forall x <- Number(k, cur, ps) :: Skewed(k, x.n)
  {
    if ps != [] {
      IdOfShift(k, Ahead(ps[0].sbn, cur));
      AheadInverse(ps[0].sbn, cur, 0);
      NumberGenuine(k, cur, ps[1..]);
    }
  }

  lemma LiftRefined(s: State)
    requires Inv(s) && !s.reset
    ensures Refines(s, Lift(s))
  {
    forall i | 0 <= i < WIDTH
      ensures s.data[WrappingAdd(s.cur, i)] == Packets(Lift(s).slots[i])
    {
      NumberFacts(s.cur, s.cur, s.data[WrappingAdd(s.cur, i)]);
    }
  }

  /** An 8-bit state is determined by the window it stands for. */
  lemma RefinedUnique(s: State, t: State, w: Window, v: Window)
    requires Refines(s, w) && Refines(t, v) && w.k == v.k
    requires forall i :: 0 <= i < WIDTH ==> Packets(w.slots[i]) == Packets(v.slots[i])
    ensures s == t
  {
    forall id: U8
      ensures s.data[id] == t.data[id] && s.ignore[id] == t.ignore[id]
    {
      assert s.ignore[id] <==> !InWindow(id, s.cur);
      assert t.ignore[id] <==> !InWindow(id, t.cur);
      if InWindow(id, s.cur) {
        var i := Ahead(id, s.cur);
        AheadInverse(id, s.cur, 0);
        assert s.data[WrappingAdd(s.cur, i)] == Packets(w.slots[i]);
        assert t.data[WrappingAdd(t.cur, i)] == Packets(v.slots[i]);
      }
    }
    assert s.data == t.data && s.ignore == t.ignore;
  }

  function Singly(xs: seq<Numbered>): seq<seq<Numbered>> {
    if xs == [] then [] else [[xs[0]]] + Singly(xs[1..])
  }

  lemma {:induction false} SinglyFacts(xs: seq<Numbered>)
    ensures Flatten(Singly(xs)) == xs && Filled(Singly(xs)) && |Singly(xs)| == |xs|
  {
    if xs != [] {
      SinglyFacts(xs[1..]);
    }
  }

  /** The same packets, handed over one datagram at a time. */
  function OneByOne(ps: seq<Packet>): seq<Event> {
    if ps == [] then [] else [Arrive(Single(ps[0]))] + OneByOne(ps[1..])
  }

  lemma {:induction false} OneByOneNonEmpty(ps: seq<Packet>)
    ensures NonEmpty(OneByOne(ps))
  {
    if ps != [] {
      OneByOneNonEmpty(ps[1..]);
    }
  }

  lemma {:induction false} OneByOneArrivals(s: State, xs: seq<Numbered>, min: nat)
    requires 1 <= min
    ensures NonEmpty(OneByOne(Packets(xs))) && NonEmpty(Arrivals(Singly(xs)))
    ensures Run(s, OneByOne(Packets(xs)), min) == Run(s, Arrivals(Singly(xs)), min)
    decreases xs
  {
    OneByOneNonEmpty(Packets(xs));
    SinglyFacts(xs);
    ArrivalsNonEmpty(Singly(xs));
    if xs != [] {
      assert Packets([xs[0]]) == [xs[0].packet];
      var p := xs[0].packet;
      assert Packets(xs)[1..] == Packets(xs[1..]);
      assert OneByOne(Packets(xs))[1..] == OneByOne(Packets(xs[1..]));
      assert Arrivals(Singly(xs))[1..] == Arrivals(Singly(xs[1..]));
      assert Turn(s, Arrive(Single(p)), min) == Turn(s, Arrive(Multiple([p])), min);
      OneByOneArrivals(Turn(s, Arrive(Single(p)), min).state, xs[1..], min);
    }
  }

  /** Packets of the starting window stay within the skew bound while they are fed. */
  lemma {:induction false} WithinSkewed(w: Window, batches: seq<seq<Numbered>>, min: nat, k: int)
    requires 1 <= min && k <= w.k <= k + WIDTH && Within(Flatten(batches), k)
    requires forall n :: n >= k + WIDTH ==> Slot(w, n) == []
    ensures SkewedAll(w, batches, min)
    decreases batches
  {
    if batches != [] {
      var first := Feed(w, batches[0], min);
      assert Within(batches[0], k) && Within(Flatten(batches[1..]), k) by {
        assert forall x <- batches[0] :: x in Flatten(batches);
        assert forall x <- Flatten(batches[1..]) :: x in Flatten(batches);
      }
      FeedFacts(w, batches[0], min);
      forall n | n >= k + WIDTH
        ensures Slot(first.window, n) == []
        ensures n == k + WIDTH ==> first.window.k <= n
      {
        OfBlockAdmitted(w, batches[0], n);
        OfBlockAbsent(batches[0], n);
        assert Fate(w, Admitted(w, batches[0]), first, min, n);
      }
      assert Slot(first.window, k + WIDTH) == [];
      WithinSkewed(first.window, batches[1..], min, k);
    }
  }

  /** The 8-bit worker fed packets of its current window, in any batches. */
  lemma FedWithin(s: State, batches: seq<seq<Numbered>>, min: nat)
    requires 1 <= min && Inv(s) && !s.reset && |s.data[s.cur]| < min
    requires Filled(batches) && Genuine(Flatten(batches)) && Within(Flatten(batches), s.cur)
    ensures NonEmpty(Arrivals(batches))
    ensures |Lift(s).slots[0]| < min
    ensures Refines(Run(s, Arrivals(batches), min).state, FeedAll(Lift(s), batches, min).window)
    ensures Run(s, Arrivals(batches), min).out == Emitted(FeedAll(Lift(s), batches, min).groups)
  {
    LiftRefined(s);
    NumberFacts(s.cur, s.cur, s.data[s.cur]);
    assert WrappingAdd(s.cur, 0) == s.cur;
    WithinSkewed(Lift(s), batches, min, s.cur);
    Refinement(s, Lift(s), batches, min);
  }

  /** The same, one datagram at a time. */
  lemma FedSingly(s: State, ps: seq<Packet>, min: nat)
    requires 1 <= min && Inv(s) && !s.reset && |s.data[s.cur]| < min
    requires forall p <- ps :: !s.ignore[p.sbn]
    ensures NonEmpty(OneByOne(ps))
    ensures |Lift(s).slots[0]| < min
    ensures Flatten(Singly(Number(s.cur, s.cur, ps))) == Number(s.cur, s.cur, ps)
    ensures Within(Number(s.cur, s.cur, ps), s.cur)
    ensures Run(s, OneByOne(ps), min).out == Emitted(FeedAll(Lift(s), Singly(Number(s.cur, s.cur, ps)), min).groups)
    ensures Refines(Run(s, OneByOne(ps), min).state, FeedAll(Lift(s), Singly(Number(s.cur, s.cur, ps)), min).window)
  {
    var xs := Number(s.cur, s.cur, ps);
    forall p <- ps
      ensures InWindow(p.sbn, s.cur)
    {
      assert s.ignore[p.sbn] <==> !InWindow(p.sbn, s.cur);
    }
    NumberFacts(s.cur, s.cur, ps);
    NumberGenuine(s.cur, s.cur, ps);
    SinglyFacts(xs);
    OneByOneArrivals(s, xs, min);
    FedWithin(s, Singly(xs), min);
  }

  /** The same blocks, the second time perhaps with fewer packets. */
  ghost predicate SameBlocks(whole: seq<Reassembled>, part: seq<Reassembled>) {
    && |whole| == |part|
    && forall i :: 0 <= i < |whole| ==>
         whole[i].Block? && part[i].Block? && whole[i].id == part[i].id && part[i].packets <= whole[i].packets
  }

  lemma {:induction false} PacketsPrefix(a: seq<Numbered>, b: seq<Numbered>)
    requires a <= b
    ensures Packets(a) <= Packets(b)
  {
    assert b == a + b[|a|..];
    PacketsConcat(a, b[|a|..]);
  }

  lemma SameBlocksEmitted(w: Window, xs: seq<Numbered>, r: Progress, t: Progress, min: nat)
    requires 1 <= min && Conserved(w, xs, r, min) && Within(xs, w.k)
    requires |r.groups| == |t.groups| && forall n :: Settled(w, xs, t, min, n)
    ensures SameBlocks(Emitted(r.groups), Emitted(t.groups))
  {
    EmittedAt(r.groups);
    EmittedAt(t.groups);
    forall i | 0 <= i < |r.groups|
      ensures r.groups[i].n == t.groups[i].n && Packets(t.groups[i].packets) <= Packets(r.groups[i].packets)
    {
      assert Fate(w, xs, r, min, w.k + i) && Settled(w, xs, t, min, w.k + i);
      PacketsPrefix(t.groups[i].packets, r.groups[i].packets);
    }
  }

  lemma {:induction false} AdmittedAll(w: Window, xs: seq<Numbered>)
    requires Within(xs, w.k)
    ensures Admitted(w, xs) == xs
  {
    if xs != [] {
      AdmittedAll(w, xs[1..]);
    }
  }

  /** Batching: a batch whose packets all fall in open slots leaves the worker in the same state as the same
      packets one at a time and hands over the same blocks. Each single-fed group is an initial part of the
      batched one: batching can only add packets to a group. */
  lemma BatchRefinesSingles(s: State, ps: seq<Packet>, min: nat)
    requires 1 <= min && Inv(s) && !s.reset && |s.data[s.cur]| < min
    requires forall p <- ps :: !s.ignore[p.sbn]
    ensures NonEmpty(OneByOne(ps))
    ensures Receive(s, Multiple(ps), min).state == Run(s, OneByOne(ps), min).state
    ensures SameBlocks(Receive(s, Multiple(ps), min).out, Run(s, OneByOne(ps), min).out)
  {
    var xs := Number(s.cur, s.cur, ps);
    var w := Lift(s);
    FedSingly(s, ps, min);
    NumberFacts(s.cur, s.cur, ps);
    NumberGenuine(s.cur, s.cur, ps);
    LiftRefined(s);
    PutAllRefines(s, w, xs);
    ReleaseRefines(AcceptAll(s, ps), PutAll(w, xs), min);
    var r, t := Feed(w, xs, min), FeedAll(w, Singly(xs), min);
    BatchAndSingles(w, xs, min);
    RefinedUnique(Receive(s, Multiple(ps), min).state, Run(s, OneByOne(ps), min).state, r.window, t.window);
  }

  /** The batch and the single packets stop at the same block. */
  lemma SameStop(w: Window, xs: seq<Numbered>, r: Progress, t: Progress, min: nat)
    requires Conserved(w, xs, r, min) && |r.window.slots[0]| < min && StopsAt(w, xs, min, t.window.k)
    ensures r.window.k == t.window.k
  {
    forall n | w.k <= n < r.window.k
      ensures |Slot(w, n) + OfBlock(xs, n)| >= min
    {
      assert Fate(w, xs, r, min, n);
    }
    assert Fate(w, xs, r, min, r.window.k);
    assert Slot(r.window, r.window.k) == r.window.slots[0];
    StopUnique(w, xs, xs, min, r.window.k, t.window.k);
  }

  lemma SameRest(w: Window, xs: seq<Numbered>, r: Progress, t: Progress, min: nat)
    requires Conserved(w, xs, r, min) && r.window.k == t.window.k && forall n :: Settled(w, xs, t, min, n)
    ensures r.window == t.window
  {
    forall i | 0 <= i < WIDTH
      ensures r.window.slots[i] == t.window.slots[i]
    {
      var n := r.window.k + i;
      assert Fate(w, xs, r, min, n) && Settled(w, xs, t, min, n);
      assert r.window.slots[i] == Slot(r.window, n) && t.window.slots[i] == Slot(t.window, n);
    }
    assert r.window.slots == t.window.slots;
  }

  lemma BatchAndSingles(w: Window, xs: seq<Numbered>, min: nat)
    requires 1 <= min && |w.slots[0]| < min && Within(xs, w.k)
    ensures Feed(w, xs, min).window == FeedAll(w, Singly(xs), min).window
    ensures SameBlocks(Emitted(Feed(w, xs, min).groups), Emitted(FeedAll(w, Singly(xs), min).groups))
  {
    var r, t := Feed(w, xs, min), FeedAll(w, Singly(xs), min);
    SinglyFacts(xs);
    AdmittedAll(w, xs);
    FeedFacts(w, xs, min);
    FeedWithin(w, Singly(xs), min);
    SameStop(w, xs, r, t, min);
    SameBlocksEmitted(w, xs, r, t, min);
    SameRest(w, xs, r, t, min);
  }

  /** Reordering: two sequences of the same packets, all in open slots, hand over the same block ids and end at
      the same cursor (which one, CursorStops says). */
  lemma ReorderingIsHarmless(s: State, ps: seq<Packet>, qs: seq<Packet>, min: nat)
    requires 1 <= min && Inv(s) && !s.reset && |s.data[s.cur]| < min
    requires forall p <- ps :: !s.ignore[p.sbn]
    requires multiset(ps) == multiset(qs)
    ensures NonEmpty(OneByOne(ps)) && NonEmpty(OneByOne(qs))
    ensures var a, b := Run(s, OneByOne(ps), min), Run(s, OneByOne(qs), min);
            && a.state.cur == b.state.cur && |a.out| == |b.out|
            && (forall i :: 0 <= i < |a.out| ==> a.out[i].Block? && b.out[i].Block? && a.out[i].id == b.out[i].id)
  {
    var xs, ys := Number(s.cur, s.cur, ps), Number(s.cur, s.cur, qs);
    var w := Lift(s);
    assert forall q <- qs :: q in multiset(ps);
    FedSingly(s, ps, min);
    FedSingly(s, qs, min);
    NumberPermuted(s.cur, s.cur, ps, qs);
    ReorderTolerance(w, Singly(xs), Singly(ys), min);
    SameIds(w, Singly(xs), Singly(ys), min);
  }

  lemma SameIds(w: Window, batches: seq<seq<Numbered>>, others: seq<seq<Numbered>>, min: nat)
    requires 1 <= min && |FeedAll(w, batches, min).groups| == |FeedAll(w, others, min).groups|
    ensures var a, b := Emitted(FeedAll(w, batches, min).groups), Emitted(FeedAll(w, others, min).groups);
            && |a| == |b|
            && (forall i :: 0 <= i < |a| ==> a[i].Block? && b[i].Block? && a[i].id == b[i].id)
  {
    var r, t := FeedAll(w, batches, min), FeedAll(w, others, min);
    EmittedAt(r.groups);
    EmittedAt(t.groups);
    Conservation(w, batches, min);
    Conservation(w, others, min);
    forall i | 0 <= i < |r.groups|
      ensures r.groups[i].n == t.groups[i].n
    {
      assert Fate(w, Accepted(w, batches, min), r, min, w.k + i);
      assert Fate(w, Accepted(w, others, min), t, min, w.k + i);
    }
  }

  function CountId(ps: seq<Packet>, id: U8): nat {
    if ps == [] then 0 else (if ps[0].sbn == id then 1 else 0) + CountId(ps[1..], id)
  }

  lemma {:induction false} CountNumbered(cur: U8, ps: seq<Packet>, i: nat)
    requires i < 256
    ensures |OfBlock(Number(cur, cur, ps), cur + i)| == CountId(ps, WrappingAdd(cur, i))
  {
    if ps != [] {
      AheadInverse(ps[0].sbn, cur, i);
      CountNumbered(cur, ps[1..], i);
    }
  }

  /** Are there `min` packets of the `i`-th block from the cursor on, counting the ones already buffered? */
  predicate Enough(s: State, ps: seq<Packet>, min: nat, i: U8) {
    var id := WrappingAdd(s.cur, i);
    |s.data[id]| + CountId(ps, id) >= min
  }

  lemma LiftedCount(s: State, i: nat)
    requires Inv(s) && !s.reset && i <= WIDTH
    ensures |Slot(Lift(s), s.cur + i)| == |s.data[WrappingAdd(s.cur, i)]|
  {
    var id := WrappingAdd(s.cur, i);
    AheadInverse(id, s.cur, i);
    if i < WIDTH {
      assert Slot(Lift(s), s.cur + i) == Number(s.cur, s.cur, s.data[id]);
      NumberFacts(s.cur, s.cur, s.data[id]);
    } else {
      assert !InWindow(id, s.cur) && s.ignore[id];
    }
  }

  /** The window `w` starts at the cursor and buffers as many packets for each block. */
  ghost predicate Counts(s: State, w: Window) {
    && w.k == s.cur
    && forall i :: 0 <= i <= WIDTH ==> |Slot(w, s.cur + i)| == |s.data[WrappingAdd(s.cur, i)]|
  }

  lemma LiftedCounts(s: State)
    requires Inv(s) && !s.reset
    ensures Counts(s, Lift(s))
  {
    forall i | 0 <= i <= WIDTH
      ensures |Slot(Lift(s), s.cur + i)| == |s.data[WrappingAdd(s.cur, i)]|
    {
      LiftedCount(s, i);
    }
  }

  /** Where the cursor goes: past exactly the leading blocks with enough packets, handing over one block each,
      at most a whole window of them. */
  lemma CursorStops(s: State, ps: seq<Packet>, min: nat)
    requires 1 <= min && Inv(s) && !s.reset && |s.data[s.cur]| < min
    requires forall p <- ps :: !s.ignore[p.sbn]
    ensures NonEmpty(OneByOne(ps))
    ensures var a := Run(s, OneByOne(ps), min);
            && |a.out| <= WIDTH && a.state.cur == WrappingAdd(s.cur, |a.out|)
            && (forall i :: 0 <= i < |a.out| ==> Enough(s, ps, min, i))
            && !Enough(s, ps, min, |a.out|)
  {
    SinglyCursor(s, ps, min);
    LiftedEnough(s, ps, min);
    IdOfShift(s.cur, |FeedAll(Lift(s), Singly(Number(s.cur, s.cur, ps)), min).groups|);
  }

  lemma LiftedEnough(s: State, ps: seq<Packet>, min: nat)
    requires 1 <= min && Inv(s) && !s.reset && |Lift(s).slots[0]| < min && Within(Number(s.cur, s.cur, ps), s.cur)
    ensures var r := FeedAll(Lift(s), Singly(Number(s.cur, s.cur, ps)), min);
            && |r.groups| <= WIDTH && |Emitted(r.groups)| == |r.groups| && r.window.k == s.cur + |r.groups|
            && (forall i :: 0 <= i < |r.groups| ==> Enough(s, ps, min, i))
            && !Enough(s, ps, min, |r.groups|)
  {
    LiftedCounts(s);
    EnoughUntil(s, Lift(s), ps, min);
  }

  /** Cursor and output of the 8-bit worker, fed one datagram at a time. */
  lemma SinglyCursor(s: State, ps: seq<Packet>, min: nat)
    requires 1 <= min && Inv(s) && !s.reset && |s.data[s.cur]| < min
    requires forall p <- ps :: !s.ignore[p.sbn]
    ensures NonEmpty(OneByOne(ps))
    ensures |Lift(s).slots[0]| < min && Within(Number(s.cur, s.cur, ps), s.cur)
    ensures var a, r := Run(s, OneByOne(ps), min), FeedAll(Lift(s), Singly(Number(s.cur, s.cur, ps)), min);
            a.out == Emitted(r.groups) && a.state.cur == IdOf(r.window.k)
  {
    FedSingly(s, ps, min);
  }

  lemma EnoughUntil(s: State, w: Window, ps: seq<Packet>, min: nat)
    requires 1 <= min && Counts(s, w) && |w.slots[0]| < min && Within(Number(s.cur, s.cur, ps), s.cur)
    ensures var r := FeedAll(w, Singly(Number(s.cur, s.cur, ps)), min);
            && |r.groups| <= WIDTH && |Emitted(r.groups)| == |r.groups| && r.window.k == s.cur + |r.groups|
            && forall i :: 0 <= i <= |r.groups| ==> (Enough(s, ps, min, i) <==> i < |r.groups|)
  {
    var xs := Number(s.cur, s.cur, ps);
    var r := FeedAll(w, Singly(xs), min);
    SinglyFacts(xs);
    FeedWithin(w, Singly(xs), min);
    EmittedAt(r.groups);
    StopsEarly(w, xs, min, r.window.k);
    forall i | 0 <= i <= |r.groups|
      ensures Enough(s, ps, min, i) <==> i < |r.groups|
    {
      CountNumbered(s.cur, ps, i);
      assert |Slot(w, s.cur + i)| == |s.data[WrappingAdd(s.cur, i)]|;
    }
  }

  lemma StopsEarly(w: Window, xs: seq<Numbered>, min: nat, stop: int)
    requires 1 <= min && Within(xs, w.k) && StopsAt(w, xs, min, stop)
    ensures stop <= w.k + WIDTH
  {
    OfBlockAbsent(xs, w.k + WIDTH);
    assert |Slot(w, w.k + WIDTH) + OfBlock(xs, w.k + WIDTH)| == 0;
  }

  lemma {:induction false} NumberCount(k: int, cur: U8, ps: seq<Packet>, x: Numbered)
    ensures multiset(Number(k, cur, ps))[x] == if x.n == k + Ahead(x.packet.sbn, cur) then multiset(ps)[x.packet] else 0
  {
    if ps != [] {
      assert ps == [ps[0]] + ps[1..];
      NumberCount(k, cur, ps[1..], x);
    }
  }

  lemma NumberPermuted(k: int, cur: U8, ps: seq<Packet>, qs: seq<Packet>)
    requires multiset(ps) == multiset(qs)
    ensures multiset(Number(k, cur, ps)) == multiset(Number(k, cur, qs))
  {
    forall x
      ensures multiset(Number(k, cur, ps))[x] == multiset(Number(k, cur, qs))[x]
    {
      NumberCount(k, cur, ps, x);
      NumberCount(k, cur, qs, x);
    }
  }
}
