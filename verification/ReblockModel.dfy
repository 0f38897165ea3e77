/** What the packet-grouping worker of src/receive/reblock.rs does to its state, as functions. */
module ReblockModel {
  import opened Words
  import opened Totals

  const WINDOW_WIDTH: U8 := 127

  /** A RaptorQ packet: source block number, encoding symbol id, symbol (section 3.2 of RFC 6330). */
  datatype Packet = Packet(sbn: U8, esi: nat, symbol: seq<U8>)

  /** What the UDP worker hands over: one datagram, or a batch of them. */
  datatype Datagrams = Single(packet: Packet) | Multiple(packets: seq<Packet>) {
    function All(): seq<Packet> {
      match this
      case Single(p) => [p]
      case Multiple(ps) => ps
    }
  }

  /** What is sent to the decoders. */
  datatype Reassembled = Block(id: U8, packets: seq<Packet>) | Error

  type Buffers = s: seq<seq<Packet>> | |s| == 256 witness seq(256, _ => [])
  type Flags = s: seq<bool> | |s| == 256 witness seq(256, _ => true)

  datatype State = State(data: Buffers, ignore: Flags, cur: U8, reset: bool)

  datatype Outcome = Outcome(state: State, out: seq<Reassembled>)

  datatype Event = Timeout | Arrive(datagrams: Datagrams)

  function Initial(): State {
    State(seq(256, _ => []), seq(256, _ => true), 0, true)
  }

  predicate InWindow(id: U8, cur: U8) {
    Ahead(id, cur) < WINDOW_WIDTH
  }

  /** A receive timeout: only the `damaged` test can produce output. */
  function OnTimeout(s: State): Outcome {
    var damaged := exists id: U8 :: s.ignore[id] && s.data[id] != [];
    Outcome(s.(reset := true), if damaged then [Error] else [])
  }

  /** The state right after a pending reset is served by a datagram of block `id`. */
  function Restart(id: U8): State {
    State(seq(256, _ => []), seq(256, i requires 0 <= i < 256 => !InWindow(i, id)), id, false)
  }

  function Accept(s: State, p: Packet): State {
    if s.ignore[p.sbn] then s else s.(data := s.data[p.sbn := s.data[p.sbn] + [p]])
  }

  function AcceptAll(s: State, ps: seq<Packet>): State
    decreases ps
  {
    if ps == [] then s else AcceptAll(Accept(s, ps[0]), ps[1..])
  }

  /** The loop that hands over every complete block at the cursor. */
  function Drain(s: State, min: nat): Outcome
    requires 1 <= min
    decreases Total(s.data)
  {
    if |s.data[s.cur]| < min then
      Outcome(s, [])
    else
      var opposite := WrappingAdd(s.cur, WINDOW_WIDTH);
      var block := Block(s.cur, s.data[s.cur]);
      var moved := s.(data := s.data[s.cur := []], ignore := s.ignore[s.cur := true][opposite := false]);
      if moved.data[opposite] != [] then
        Outcome(moved.(reset := true), [block, Error])
      else
        TotalUpdate(s.data, s.cur, []);
        var rest := Drain(moved.(cur := WrappingAdd(s.cur, 1)), min);
        Outcome(rest.state, [block] + rest.out)
  }

  /** One turn of the worker on datagrams. An empty batch is only a fault while a reset is pending. */
  function Receive(s: State, datagrams: Datagrams, min: nat): Outcome
    requires 1 <= min
    requires s.reset ==> datagrams.All() != []
  {
    var ready := if s.reset then Restart(datagrams.All()[0].sbn) else s;
    Drain(AcceptAll(ready, datagrams.All()), min)
  }

  predicate NonEmpty(events: seq<Event>) {
    forall e <- events :: e.Arrive? ==> e.datagrams.All() != []
  }

  function Turn(s: State, e: Event, min: nat): Outcome
    requires 1 <= min
    requires e.Arrive? ==> e.datagrams.All() != []
  {
    match e
    case Timeout => OnTimeout(s)
    case Arrive(datagrams) => Receive(s, datagrams, min)
  }

  /** The worker over a whole sequence of events. */
  function Run(s: State, events: seq<Event>, min: nat): Outcome
    requires 1 <= min && NonEmpty(events)
    decreases events
  {
    if events == [] then
      Outcome(s, [])
    else
      var first := Turn(s, events[0], min);
      var rest := Run(first.state, events[1..], min);
      Outcome(rest.state, first.out + rest.out)
  }

  // ---------------------------------------------------------------------------------------------
  // The invariant of every reachable state
  // ---------------------------------------------------------------------------------------------

  /** Unless a reset is pending the open slots are exactly the window; a closed slot holds nothing; and a
      slot holds only packets of its own block id. */
  ghost predicate Inv(s: State) {
    && (!s.reset ==> forall id: U8 :: s.ignore[id] <==> !InWindow(id, s.cur))
    && (forall id: U8 :: s.ignore[id] ==> s.data[id] == [])
    && (forall id: U8, p :: p in s.data[id] ==> p.sbn == id)
  }

  lemma InitialInv()
    ensures Inv(Initial())
  {
  }

  lemma RestartInv(id: U8)
    ensures Inv(Restart(id))
  {
  }

  lemma {:induction false} AcceptAllInv(s: State, ps: seq<Packet>)
    requires Inv(s)
    ensures Inv(AcceptAll(s, ps))
    ensures AcceptAll(s, ps).(data := s.data) == s
    decreases ps
  {
    if ps != [] {
      AcceptAllInv(Accept(s, ps[0]), ps[1..]);
    }
  }

  /** What one pass of the drain loop leaves behind, when the slot opposite is empty. */
  function Advance(s: State): State {
    State(s.data[s.cur := []],
          s.ignore[s.cur := true][WrappingAdd(s.cur, WINDOW_WIDTH) := false],
          WrappingAdd(s.cur, 1), s.reset)
  }

  /** The drain loop unfolded once. */
  lemma DrainPass(s: State, min: nat)
    requires 1 <= min <= |s.data[s.cur]|
    ensures Total(Advance(s).data) < Total(s.data)
    ensures var block := Block(s.cur, s.data[s.cur]);
            var next := Drain(Advance(s), min);
            Drain(s, min) ==
              if s.data[WrappingAdd(s.cur, WINDOW_WIDTH)] != [] then
                Outcome(Advance(s).(cur := s.cur, reset := true), [block, Error])
              else
                Outcome(next.state, [block] + next.out)
  {
    TotalUpdate(s.data, s.cur, []);
  }

  lemma AdvanceInv(s: State)
    requires Inv(s) && !s.reset
    ensures s.data[WrappingAdd(s.cur, WINDOW_WIDTH)] == []
    ensures Inv(Advance(s))
  {
    var opposite := WrappingAdd(s.cur, WINDOW_WIDTH);
    assert !InWindow(opposite, s.cur);
    var t := Advance(s);
    forall id: U8
      ensures t.ignore[id] <==> !InWindow(id, t.cur)
    {
      assert s.ignore[id] <==> !InWindow(id, s.cur);
    }
  }

  lemma {:induction false} DrainInv(s: State, min: nat)
    requires 1 <= min && Inv(s) && !s.reset
    ensures Inv(Drain(s, min).state) && !Drain(s, min).state.reset
    ensures Error !in Drain(s, min).out
    ensures |Drain(s, min).state.data[Drain(s, min).state.cur]| < min
    decreases Total(s.data)
  {
    if |s.data[s.cur]| >= min {
      AdvanceInv(s);
      TotalUpdate(s.data, s.cur, []);
      DrainInv(Advance(s), min);
    }
  }

  lemma TurnInv(s: State, e: Event, min: nat)
    requires 1 <= min && Inv(s)
    requires e.Arrive? ==> e.datagrams.All() != []
    ensures Inv(Turn(s, e, min).state) && Error !in Turn(s, e, min).out
    ensures Turn(s, e, min).state.reset <==> e.Timeout?
  {
    if e.Arrive? {
      var ps := e.datagrams.All();
      var ready := if s.reset then Restart(ps[0].sbn) else s;
      RestartInv(ps[0].sbn);
      AcceptAllInv(ready, ps);
      DrainInv(AcceptAll(ready, ps), min);
    }
  }

  /** The invariant holds in every reachable state, whatever arrives and whenever timeouts strike; so the
      "too far" branch and the `damaged` test never fire and no error marker is ever sent to the decoders. */
  lemma {:induction false} ReachableInv(s: State, events: seq<Event>, min: nat)
    requires 1 <= min && NonEmpty(events) && Inv(s)
    ensures Inv(Run(s, events, min).state)
    ensures Error !in Run(s, events, min).out
    decreases events
  {
    if events != [] {
      TurnInv(s, events[0], min);
      ReachableInv(Turn(s, events[0], min).state, events[1..], min);
    }
  }

  /** A timeout forgets everything: while a reset is pending the worker answers as if it had just started, so
      every packet still buffered is lost, and (by ReachableInv) without any marker. */
  lemma {:induction false} TimeoutForgets(s: State, events: seq<Event>, min: nat)
    requires 1 <= min && NonEmpty(events) && Inv(s) && s.reset
    ensures Run(s, events, min).out == Run(Initial(), events, min).out
    ensures (exists e <- events :: e.Arrive?) ==> Run(s, events, min) == Run(Initial(), events, min)
    decreases events
  {
    if events != [] && events[0].Timeout? {
      TimeoutForgets(s, events[1..], min);
    }
  }
}
