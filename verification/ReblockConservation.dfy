/** What the 8-bit worker does with any packets at all, however far they stray: nothing is lost or doubled between
    taking a packet in and handing it over, and a turn hands over at most a window of blocks. */
module ReblockConservation {
  import opened Words
  import opened ReblockModel
  import opened SlidingWindow
  import opened WindowRefinement
  import opened ReblockOrder

  function Arriving(arrivals: seq<Datagrams>): seq<Event> {
    if arrivals == [] then [] else [Arrive(arrivals[0])] + Arriving(arrivals[1..])
  }

  ghost predicate NoneEmpty(arrivals: seq<Datagrams>) {
    forall i :: 0 <= i < |arrivals| ==> arrivals[i].All() != []
  }

  lemma {:induction false} ArrivingNonEmpty(arrivals: seq<Datagrams>)
    requires NoneEmpty(arrivals)
    ensures NonEmpty(Arriving(arrivals))
  {
    if arrivals != [] {
      ArrivingNonEmpty(arrivals[1..]);
    }
  }

  /** The packets that find their slot open, in order of arrival, each with the number of the block it is taken for,
      when the cursor stands at block `k`. */
  function Kept(s: State, k: int, ps: seq<Packet>): seq<Numbered> {
    if ps == [] then
      []
    else
      (if s.ignore[ps[0].sbn] then [] else [Numbered(k + Ahead(ps[0].sbn, s.cur), ps[0])]) + Kept(s, k, ps[1..])
  }

  /** The packets the worker takes in over a run. */
  function TakenIn(s: State, k: int, arrivals: seq<Datagrams>, min: nat): seq<Numbered>
    requires 1 <= min && NoneEmpty(arrivals)
    decreases arrivals
  {
    if arrivals == [] then
      []
    else
      var first := Receive(s, arrivals[0], min);
      Kept(s, k, arrivals[0].All()) + TakenIn(first.state, k + |first.out|, arrivals[1..], min)
  }

  /** The unbounded window fed with the same packets, numbered as they arrive. */
  function Fed(w: Window, arrivals: seq<Datagrams>, min: nat): Progress
    requires 1 <= min
    decreases arrivals
  {
    if arrivals == [] then
      Progress(w, [])
    else
      var first := Feed(w, Number(w.k, IdOf(w.k), arrivals[0].All()), min);
      var rest := Fed(first.window, arrivals[1..], min);
      Progress(rest.window, first.groups + rest.groups)
  }

  lemma {:induction false} KeptAdmitted(s: State, w: Window, ps: seq<Packet>)
    requires Refines(s, w)
    ensures Kept(s, w.k, ps) == Admitted(w, Number(w.k, s.cur, ps))
  {
    if ps != [] {
      assert s.ignore[ps[0].sbn] <==> !InWindow(ps[0].sbn, s.cur);
      KeptAdmitted(s, w, ps[1..]);
    }
  }

  /** One turn, seen in both machines. */
  lemma TurnFed(s: State, w: Window, ps: seq<Packet>, min: nat)
    requires 1 <= min && Refines(s, w)
    ensures var xs := Number(w.k, s.cur, ps);
            && Refines(Drain(AcceptAll(s, ps), min).state, Feed(w, xs, min).window)
            && Drain(AcceptAll(s, ps), min).out == Emitted(Feed(w, xs, min).groups)
            && Conserved(w, Kept(s, w.k, ps), Feed(w, xs, min), min)
            && |Drain(AcceptAll(s, ps), min).out| == |Feed(w, xs, min).groups|
  {
    var xs := Number(w.k, s.cur, ps);
    NumberFacts(w.k, s.cur, ps);
    NumberGenuine(w.k, s.cur, ps);
    PutAllRefines(s, w, xs);
    ReleaseRefines(AcceptAll(s, ps), PutAll(w, xs), min);
    FeedFacts(w, xs, min);
    KeptAdmitted(s, w, ps);
    EmittedAt(Feed(w, xs, min).groups);
  }

  /** After `s` and `w`, related, both machines took in `log` and got to `o` and `r`. */
  ghost predicate Together(w: Window, log: seq<Numbered>, o: Outcome, r: Progress, min: nat) {
    Refines(o.state, r.window) && o.out == Emitted(r.groups) && Conserved(w, log, r, min)
  }

  lemma TogetherAtFirst(s: State, w: Window, min: nat)
    requires Refines(s, w)
    ensures Together(w, [], Outcome(s, []), Progress(w, []), min)
  {
    assert forall n :: Slot(w, n) + OfBlock([], n) == Slot(w, n);
  }

  lemma TogetherThrough(w: Window, a: seq<Numbered>, first: Outcome, f: Progress, b: seq<Numbered>, rest: Outcome,
                        g: Progress, log: seq<Numbered>, o: Outcome, r: Progress, min: nat)
    requires Together(w, a, first, f, min) && Together(f.window, b, rest, g, min)
    requires log == a + b
    requires o == Outcome(rest.state, first.out + rest.out) && r == Progress(g.window, f.groups + g.groups)
    ensures Together(w, log, o, r, min)
  {
    ConservedThrough(w, a, f, b, g, min);
    EmittedConcat(f.groups, g.groups);
  }

  lemma TurnTogether(s: State, w: Window, d: Datagrams, min: nat)
    requires 1 <= min && Refines(s, w)
    ensures Together(w, Kept(s, w.k, d.All()), Receive(s, d, min), Feed(w, Number(w.k, s.cur, d.All()), min), min)
    ensures Feed(w, Number(w.k, s.cur, d.All()), min).window.k == w.k + |Receive(s, d, min).out|
  {
    TurnFed(s, w, d.All(), min);
  }

  lemma RunFirst(s: State, arrivals: seq<Datagrams>, min: nat)
    requires 1 <= min && NoneEmpty(arrivals) && arrivals != []
    ensures NonEmpty(Arriving(arrivals)) && NonEmpty(Arriving(arrivals[1..]))
    ensures var first := Receive(s, arrivals[0], min);
            var rest := Run(first.state, Arriving(arrivals[1..]), min);
            Run(s, Arriving(arrivals), min) == Outcome(rest.state, first.out + rest.out)
  {
    ArrivingNonEmpty(arrivals);
    ArrivingNonEmpty(arrivals[1..]);
    assert Arriving(arrivals)[1..] == Arriving(arrivals[1..]);
  }

  /** Any run, seen in both machines. */
  lemma {:induction false} RunFed(s: State, w: Window, arrivals: seq<Datagrams>, min: nat)
    requires 1 <= min && Refines(s, w) && NoneEmpty(arrivals)
    ensures NonEmpty(Arriving(arrivals))
    ensures Together(w, TakenIn(s, w.k, arrivals, min), Run(s, Arriving(arrivals), min), Fed(w, arrivals, min), min)
    decreases arrivals
  {
    ArrivingNonEmpty(arrivals);
    if arrivals == [] {
      TogetherAtFirst(s, w, min);
    } else {
      var ps, more := arrivals[0].All(), arrivals[1..];
      var first, f := Receive(s, arrivals[0], min), Feed(w, Number(w.k, s.cur, ps), min);
      TurnTogether(s, w, arrivals[0], min);
      RunFirst(s, arrivals, min);
      RunFed(first.state, f.window, more, min);
      TogetherThrough(w, Kept(s, w.k, ps), first, f, TakenIn(first.state, f.window.k, more, min),
                      Run(first.state, Arriving(more), min), Fed(f.window, more, min),
                      TakenIn(s, w.k, arrivals, min), Run(s, Arriving(arrivals), min), Fed(w, arrivals, min), min);
    }
  }

  /** What the 8-bit state buffers for the `i`-th block from the cursor on. */
  function Buffered(s: State, i: nat): seq<Packet> {
    if i < WIDTH then s.data[WrappingAdd(s.cur, i)] else []
  }

  /** The `i`-th block handed over is the `i`-th from the old cursor on, with all packets that were buffered or taken in
      for it, in order of arrival, and enough of them. */
  ghost predicate HandsOver(s: State, k: int, log: seq<Numbered>, o: Outcome, min: nat, i: nat)
    requires i < |o.out|
  {
    o.out[i] == Block(IdOf(k + i), Buffered(s, i) + Packets(OfBlock(log, k + i))) && |o.out[i].packets| >= min
  }

  /** The `i`-th block from the new cursor on has all packets that were buffered or taken in for it in its buffer. */
  ghost predicate Keeps(s: State, k: int, log: seq<Numbered>, o: Outcome, i: nat) {
    Buffered(o.state, i) == Buffered(s, |o.out| + i) + Packets(OfBlock(log, k + |o.out| + i))
  }

  /** Where everything is after a run from state `s`, with the cursor at block `k`, that took in `log`: the blocks
      handed over are consecutive, and every packet is in one of them or in the buffer of a later block. */
  ghost predicate Accounted(s: State, k: int, log: seq<Numbered>, o: Outcome, min: nat) {
    && o.state.cur == IdOf(k + |o.out|)
    && (forall i :: 0 <= i < |o.out| ==> HandsOver(s, k, log, o, min, i))
    && (forall i: nat :: Keeps(s, k, log, o, i))
    && (forall x <- log :: k <= x.n < k + |o.out| + WIDTH)
  }

  lemma BufferedSlot(s: State, w: Window, i: nat)
    requires Refines(s, w)
    ensures Buffered(s, i) == Packets(Slot(w, w.k + i))
  {
  }

  lemma HandsOverGroup(s: State, w: Window, log: seq<Numbered>, o: Outcome, r: Progress, min: nat, i: nat)
    requires Refines(s, w) && o.out == Emitted(r.groups) && i < |r.groups| && Fate(w, log, r, min, w.k + i)
    ensures i < |o.out| && HandsOver(s, w.k, log, o, min, i)
  {
    EmittedAt(r.groups);
    BufferedSlot(s, w, i);
    PacketsConcat(Slot(w, w.k + i), OfBlock(log, w.k + i));
    PacketsAt(r.groups[i].packets);
  }

  lemma KeepsSlot(s: State, w: Window, log: seq<Numbered>, o: Outcome, v: Window, i: nat)
    requires Buffered(s, |o.out| + i) == Packets(Slot(w, w.k + |o.out| + i))
    requires Buffered(o.state, i) == Packets(Slot(v, w.k + |o.out| + i))
    requires Slot(v, w.k + |o.out| + i) == Slot(w, w.k + |o.out| + i) + OfBlock(log, w.k + |o.out| + i)
    ensures Keeps(s, w.k, log, o, i)
  {
    PacketsConcat(Slot(w, w.k + |o.out| + i), OfBlock(log, w.k + |o.out| + i));
  }

  lemma AccountedRefined(s: State, w: Window, log: seq<Numbered>, o: Outcome, r: Progress, min: nat)
    requires Refines(s, w) && Together(w, log, o, r, min)
    ensures Accounted(s, w.k, log, o, min)
  {
    EmittedAt(r.groups);
    forall i: nat | i < |o.out|
      ensures HandsOver(s, w.k, log, o, min, i)
    {
      assert Fate(w, log, r, min, w.k + i);
      HandsOverGroup(s, w, log, o, r, min, i);
    }
    forall i: nat
      ensures Keeps(s, w.k, log, o, i)
    {
      assert Fate(w, log, r, min, w.k + |o.out| + i);
      BufferedSlot(s, w, |o.out| + i);
      BufferedSlot(o.state, r.window, i);
      KeepsSlot(s, w, log, o, r.window, i);
    }
  }

  /** Conservation in the 8-bit worker, between resets, for any packets whatever. */
  lemma WorkerConservation(s: State, arrivals: seq<Datagrams>, min: nat)
    requires 1 <= min && Inv(s) && !s.reset && NoneEmpty(arrivals)
    ensures NonEmpty(Arriving(arrivals))
    ensures Accounted(s, s.cur, TakenIn(s, s.cur, arrivals, min), Run(s, Arriving(arrivals), min), min)
  {
    LiftRefined(s);
    RunFed(s, Lift(s), arrivals, min);
    AccountedRefined(s, Lift(s), TakenIn(s, s.cur, arrivals, min), Run(s, Arriving(arrivals), min),
                     Fed(Lift(s), arrivals, min), min);
  }

  /** The same for a whole epoch, from a pending reset on: it starts with empty buffers at the id of the first
      datagram, whatever the state was. */
  lemma EpochConservation(s: State, arrivals: seq<Datagrams>, min: nat)
    requires 1 <= min && s.reset && arrivals != [] && NoneEmpty(arrivals)
    ensures NonEmpty(Arriving(arrivals))
    ensures var start := Restart(arrivals[0].All()[0].sbn);
            && Accounted(start, start.cur, TakenIn(start, start.cur, arrivals, min),
                         Run(s, Arriving(arrivals), min), min)
            && forall i: nat :: Buffered(start, i) == []
  {
    var start := Restart(arrivals[0].All()[0].sbn);
    RestartInv(start.cur);
    WorkerConservation(start, arrivals, min);
    assert Turn(s, Arriving(arrivals)[0], min) == Turn(start, Arriving(arrivals)[0], min);
  }

  /** A turn hands over at most 127 blocks, so the loop makes at most 127 passes, whatever has arrived. */
  lemma TurnBound(s: State, ps: seq<Packet>, min: nat)
    requires 1 <= min && Inv(s) && !s.reset
    ensures |Drain(AcceptAll(s, ps), min).out| <= WIDTH
  {
    LiftRefined(s);
    TurnFed(s, Lift(s), ps, min);
    FeedBound(Lift(s), Number(s.cur, s.cur, ps), min);
  }

  /** Hence so does every turn in every run. */
  lemma EventBound(s: State, e: Event, min: nat)
    requires 1 <= min && Inv(s)
    requires e.Arrive? ==> e.datagrams.All() != []
    ensures |Turn(s, e, min).out| <= WIDTH
  {
    if e.Arrive? {
      var ps := e.datagrams.All();
      RestartInv(ps[0].sbn);
      TurnBound(if s.reset then Restart(ps[0].sbn) else s, ps, min);
    } else {
      TurnInv(s, e, min);
    }
  }
}
