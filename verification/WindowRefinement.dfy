/** The 8-bit worker refines the one with unbounded block numbers, as long as packets stray no further than the
    skew the window of 127 ids out of 256 can tell apart. */
module WindowRefinement {
  import opened Words
  import opened Sequences
  import opened Totals
  import opened ReblockModel
  import opened SlidingWindow

  function Packets(xs: seq<Numbered>): seq<Packet> {
    if xs == [] then [] else [xs[0].packet] + Packets(xs[1..])
  }

  lemma {:induction false} PacketsConcat(a: seq<Numbered>, b: seq<Numbered>)
    ensures Packets(a + b) == Packets(a) + Packets(b)
  {
    if a == [] {
      assert a + b == b;
    } else {
      PacketsConcat(a[1..], b);
      assert (a + b)[1..] == a[1..] + b;
      Associative([a[0].packet], Packets(a[1..]), Packets(b));
    }
  }

  lemma {:induction false} PacketsAt(xs: seq<Numbered>)
    ensures |Packets(xs)| == |xs|
    ensures forall i :: 0 <= i < |xs| ==> Packets(xs)[i] == xs[i].packet
  {
    if xs != [] {
      PacketsAt(xs[1..]);
    }
  }

  /** Each packet carries the 8-bit id of the block it was cut from. */
  ghost predicate Genuine(xs: seq<Numbered>) {
    forall x <- xs :: x.packet.sbn == IdOf(x.n)
  }

  /** The 8-bit state `s` stands for the window `w`. */
  ghost predicate Refines(s: State, w: Window) {
    && Inv(s) && !s.reset
    && s.cur == IdOf(w.k)
    && forall i :: 0 <= i < WIDTH ==> s.data[WrappingAdd(s.cur, i)] == Packets(w.slots[i])
  }

  /** How far packets may stray from the cursor `k`. */
  ghost predicate Skewed(k: int, n: int) {
    k - 129 <= n <= k + 255
  }

  ghost predicate SkewedAll(w: Window, batches: seq<seq<Numbered>>, min: nat)
    requires 1 <= min
    decreases batches
  {
    batches == [] || (
      && (forall x <- batches[0] :: Skewed(w.k, x.n))
      && SkewedAll(Feed(w, batches[0], min).window, batches[1..], min))
  }

  /** The 8-bit test decides the unbounded question exactly for the packets of the window and those whose distance
      from the cursor, full turns left out, is at least a window. That is everything within the skew bound, and on
      either side of it the first packets of a wrong block pass. */
  lemma IdTestExact(k: int, n: int)
    ensures (InWindow(IdOf(n), IdOf(k)) <==> k <= n < k + WIDTH) <==> k <= n < k + WIDTH || (n - k) % 256 >= WIDTH
    ensures Skewed(k, n) ==> (InWindow(IdOf(n), IdOf(k)) <==> k <= n < k + WIDTH)
    ensures n == k - 130 || n == k + 256 ==> InWindow(IdOf(n), IdOf(k))
  {
    AheadOfNumbers(n, k);
  }

  lemma PutRefines(s: State, w: Window, x: Numbered)
    requires Refines(s, w) && x.packet.sbn == IdOf(x.n) && Skewed(w.k, x.n)
    ensures Refines(Accept(s, x.packet), Put(w, x))
  {
    var id := x.packet.sbn;
    var t := Accept(s, x.packet);
    IdTestExact(w.k, x.n);
    assert s.ignore[id] <==> !InWindow(id, s.cur);
    if Covers(w, x.n) {
      var j := x.n - w.k;
      IdOfShift(w.k, j);
      PacketsConcat(w.slots[j], [x]);
      forall i | 0 <= i < WIDTH
        ensures t.data[WrappingAdd(t.cur, i)] == Packets(Put(w, x).slots[i])
      {
        assert s.data[WrappingAdd(s.cur, i)] == Packets(w.slots[i]);
      }
      AcceptAllInv(s, [x.packet]);
      assert [x.packet][1..] == [];
    }
  }

  lemma {:induction false} PutAllRefines(s: State, w: Window, xs: seq<Numbered>)
    requires Refines(s, w) && Genuine(xs) && forall x <- xs :: Skewed(w.k, x.n)
    ensures Refines(AcceptAll(s, Packets(xs)), PutAll(w, xs))
    decreases xs
  {
    if xs != [] {
      PutRefines(s, w, xs[0]);
      PutAllRefines(Accept(s, xs[0].packet), Put(w, xs[0]), xs[1..]);
      assert Packets(xs)[1..] == Packets(xs[1..]);
    }
  }

  function Emitted(groups: seq<Group>): seq<Reassembled> {
    if groups == [] then [] else [Block(IdOf(groups[0].n), Packets(groups[0].packets))] + Emitted(groups[1..])
  }

  lemma {:induction false} EmittedConcat(a: seq<Group>, b: seq<Group>)
    ensures Emitted(a + b) == Emitted(a) + Emitted(b)
  {
    if a == [] {
      assert a + b == b;
    } else {
      var first := [Block(IdOf(a[0].n), Packets(a[0].packets))];
      EmittedConcat(a[1..], b);
      assert (a + b)[1..] == a[1..] + b;
      Associative(first, Emitted(a[1..]), Emitted(b));
    }
  }

  lemma {:induction false} EmittedAt(groups: seq<Group>)
    ensures |Emitted(groups)| == |groups|
    ensures forall i :: 0 <= i < |groups| ==> Emitted(groups)[i] == Block(IdOf(groups[i].n), Packets(groups[i].packets))
  {
    if groups != [] {
      EmittedAt(groups[1..]);
    }
  }

  lemma AdvanceRefines(s: State, w: Window)
    requires Refines(s, w)
    ensures Refines(Advance(s), Shift(w))
  {
    AdvanceInv(s);
    IdOfShift(w.k, 1);
    forall i | 0 <= i < WIDTH
      ensures Advance(s).data[WrappingAdd(Advance(s).cur, i)] == Packets(Shift(w).slots[i])
    {
      assert WrappingAdd(Advance(s).cur, i) == WrappingAdd(s.cur, i + 1) != s.cur;
      if i < WIDTH - 1 {
        assert s.data[WrappingAdd(s.cur, i + 1)] == Packets(w.slots[i + 1]);
      }
    }
  }

  lemma {:induction false} ReleaseRefines(s: State, w: Window, min: nat)
    requires 1 <= min && Refines(s, w)
    ensures Refines(Drain(s, min).state, Release(w, min).window)
    ensures Drain(s, min).out == Emitted(Release(w, min).groups)
    decreases Total(w.slots)
  {
    PacketsAt(w.slots[0]);
    assert s.data[s.cur] == s.data[WrappingAdd(s.cur, 0)] == Packets(w.slots[0]);
    if |w.slots[0]| >= min {
      TotalShift(w.slots);
      AdvanceInv(s);
      AdvanceRefines(s, w);
      ReleaseRefines(Advance(s), Shift(w), min);
      var r := Release(w, min);
      assert r.groups[1..] == Release(Shift(w), min).groups;
    }
  }

  /** A worker turn for each batch. */
  function Arrivals(batches: seq<seq<Numbered>>): seq<Event> {
    if batches == [] then [] else [Arrive(Multiple(Packets(batches[0])))] + Arrivals(batches[1..])
  }

  ghost predicate Filled(batches: seq<seq<Numbered>>) {
    forall i :: 0 <= i < |batches| ==> batches[i] != []
  }

  lemma {:induction false} ArrivalsNonEmpty(batches: seq<seq<Numbered>>)
    requires Filled(batches)
    ensures NonEmpty(Arrivals(batches))
    ensures |Arrivals(batches)| == |batches|
  {
    if batches != [] {
      PacketsAt(batches[0]);
      ArrivalsNonEmpty(batches[1..]);
    }
  }

  /** Window refinement: over any run of batches within the skew bound, with the cursor wrapping any number
      of times, the 8-bit worker hands over exactly the groups of the unbounded one. */
  lemma {:induction false} Refinement(s: State, w: Window, batches: seq<seq<Numbered>>, min: nat)
    requires 1 <= min && Filled(batches) && Genuine(Flatten(batches))
    requires Refines(s, w) && SkewedAll(w, batches, min)
    ensures NonEmpty(Arrivals(batches))
    ensures Refines(Run(s, Arrivals(batches), min).state, FeedAll(w, batches, min).window)
    ensures Run(s, Arrivals(batches), min).out == Emitted(FeedAll(w, batches, min).groups)
    decreases batches
  {
    ArrivalsNonEmpty(batches);
    if batches != [] {
      var xs, more := batches[0], batches[1..];
      assert Genuine(xs) && Genuine(Flatten(more)) by {
        assert forall x <- xs :: x in Flatten(batches);
        assert forall x <- Flatten(more) :: x in Flatten(batches);
      }
      PutAllRefines(s, w, xs);
      ReleaseRefines(AcceptAll(s, Packets(xs)), PutAll(w, xs), min);
      var first := Feed(w, xs, min);
      Refinement(Receive(s, Multiple(Packets(xs)), min).state, first.window, more, min);
      EmittedConcat(first.groups, FeedAll(first.window, more, min).groups);
      assert Arrivals(batches)[1..] == Arrivals(more);
    }
  }

  lemma RestartRefines(k: int)
    ensures Refines(Restart(IdOf(k)), Fresh(k))
  {
    RestartInv(IdOf(k));
  }

  /** The window an epoch starts with: the first datagram sets the cursor. */
  function EpochWindow(batches: seq<seq<Numbered>>): Window
    requires batches != [] && batches[0] != []
  {
    Fresh(batches[0][0].n)
  }

  /** From any state with a reset pending, whatever its buffers hold, the worker behaves as the unbounded one
      started at the block of the first datagram. */
  lemma EpochRefinement(s: State, batches: seq<seq<Numbered>>, min: nat)
    requires 1 <= min && s.reset && batches != [] && Filled(batches) && Genuine(Flatten(batches))
    requires SkewedAll(EpochWindow(batches), batches, min)
    ensures NonEmpty(Arrivals(batches))
    ensures Refines(Run(s, Arrivals(batches), min).state, FeedAll(EpochWindow(batches), batches, min).window)
    ensures Run(s, Arrivals(batches), min).out == Emitted(FeedAll(EpochWindow(batches), batches, min).groups)
  {
    var x := batches[0][0];
    assert x in Flatten(batches);
    PacketsAt(batches[0]);
    RestartRefines(x.n);
    Refinement(Restart(IdOf(x.n)), EpochWindow(batches), batches, min);
    assert Turn(s, Arrivals(batches)[0], min) == Turn(Restart(IdOf(x.n)), Arrivals(batches)[0], min);
  }

  /** `b` is block `n` with exactly the packets of that block in `log`, in arrival order and enough of them. */
  ghost predicate Handed(b: Reassembled, n: int, log: seq<Numbered>, min: nat) {
    b == Block(IdOf(n), Packets(OfBlock(log, n))) && |b.packets| >= min
  }

  ghost predicate HandedAll(out: seq<Reassembled>, k: int, log: seq<Numbered>, min: nat) {
    forall i :: 0 <= i < |out| ==> Handed(out[i], k + i, log, min)
  }

  lemma EmittedHanded(k: int, log: seq<Numbered>, r: Progress, min: nat)
    requires Conserved(Fresh(k), log, r, min)
    ensures |Emitted(r.groups)| == |r.groups| && HandedAll(Emitted(r.groups), k, log, min)
  {
    EmittedAt(r.groups);
    forall i | 0 <= i < |r.groups|
      ensures Handed(Emitted(r.groups)[i], k + i, log, min)
    {
      assert Fate(Fresh(k), log, r, min, k + i);
      assert Slot(Fresh(k), k + i) + OfBlock(log, k + i) == OfBlock(log, k + i);
      PacketsAt(r.groups[i].packets);
    }
  }

  /** What an epoch hands to the decoders: consecutive blocks from the first datagram's on, each with exactly
      the packets accepted for it. So two sender blocks are never mixed, however often the ids wrap. */
  lemma EpochOutput(s: State, batches: seq<seq<Numbered>>, min: nat)
    requires 1 <= min && s.reset && batches != [] && Filled(batches) && Genuine(Flatten(batches))
    requires SkewedAll(EpochWindow(batches), batches, min)
    ensures NonEmpty(Arrivals(batches))
    ensures HandedAll(Run(s, Arrivals(batches), min).out, batches[0][0].n,
                      Accepted(EpochWindow(batches), batches, min), min)
  {
    var w := EpochWindow(batches);
    EpochRefinement(s, batches, min);
    Conservation(w, batches, min);
    EmittedHanded(w.k, Accepted(w, batches, min), FeedAll(w, batches, min), min);
  }

  lemma {:induction false} AcceptedGenuine(w: Window, batches: seq<seq<Numbered>>, min: nat, n: int)
    requires 1 <= min
    ensures forall x <- OfBlock(Accepted(w, batches, min), n) :: x.n == n && x in Flatten(batches)
    decreases batches
  {
    if batches != [] {
      var first := Feed(w, batches[0], min).window;
      var a, b := Admitted(w, batches[0]), Accepted(first, batches[1..], min);
      AcceptedGenuine(first, batches[1..], min, n);
      OfBlockAdmitted(w, batches[0], n);
      OfBlockConcat(a, b, n);
      OfBlockMembers(a, n);
    }
  }

  lemma {:induction false} OfBlockMembers(xs: seq<Numbered>, n: int)
    ensures forall x <- OfBlock(xs, n) :: x.n == n && x in xs
  {
    if xs != [] {
      OfBlockMembers(xs[1..], n);
    }
  }
}
