/** The sender between the client workers and the UDP worker: the ordering worker numbers blocks and hands them to
    the encoders (src/send/ordering.rs), whose turnstile restores the order. All three channels hold as many
    elements as there are encoders (src/send/mod.rs). */
module SendPipeline {
  import opened Words
  import opened Wrappers
  import opened Turnstile

  datatype Pipeline<I, O> = Pipeline(
    ordering: seq<I>,      // channel to the ordering worker
    pending: Option<I>,    // block in the ordering worker's hands
    stile: State<I, O>,    // encoders, with their channels
    submitted: seq<I>)     // history: every block ever sent to ordering

  datatype Action<I> = Submit(item: I) | Receive | Forward | Step(l: Label<I>)

  /** `n` encoders and channels of `n` places; encoding never fails. */
  ghost predicate Sizes<I(!new), O>(c: Config<I, O>, n: nat) {
    1 <= n <= 255 && c.room == Some(n) && Lossless(c)
  }

  function Start<I, O>(n: nat): Pipeline<I, O> {
    Pipeline([], None, Initial(0, n), [])
  }

  predicate Allowed<I, O>(c: Config<I, O>, s: Pipeline<I, O>, a: Action<I>) {
    match a
    case Submit(_) => HasRoom(c, |s.ordering|)
    case Receive => s.pending.None? && s.ordering != []
    case Forward => s.pending.Some? && Enabled(c, s.stile, Put(s.pending.value))
    case Step(l) => !l.Put? && Enabled(c, s.stile, l)
  }

  function Next<I, O>(c: Config<I, O>, s: Pipeline<I, O>, a: Action<I>): Pipeline<I, O>
    requires Allowed(c, s, a)
  {
    match a
    case Submit(item) => s.(ordering := s.ordering + [item], submitted := s.submitted + [item])
    case Receive => s.(pending := Some(s.ordering[0]), ordering := s.ordering[1..])
    case Forward => s.(pending := None, stile := Apply(c, s.stile, Put(s.pending.value)))
    case Step(l) => s.(stile := Apply(c, s.stile, l))
  }

  ghost predicate CanRun<I, O>(c: Config<I, O>, s: Pipeline<I, O>, acts: seq<Action<I>>)
    decreases acts
  {
    acts == [] || (Allowed(c, s, acts[0]) && CanRun(c, Next(c, s, acts[0]), acts[1..]))
  }

  ghost function Final<I, O>(c: Config<I, O>, s: Pipeline<I, O>, acts: seq<Action<I>>): Pipeline<I, O>
    requires CanRun(c, s, acts)
    decreases acts
  {
    if acts == [] then s else Final(c, Next(c, s, acts[0]), acts[1..])
  }

  function InHand<I>(pending: Option<I>): seq<I> {
    if pending.Some? then [pending.value] else []
  }

  ghost predicate PipelineInv<I(!new), O>(c: Config<I, O>, n: nat, s: Pipeline<I, O>) {
    && Sizes(c, n)
    && Inv(c, s.stile) && |s.stile.workers| == n && s.stile.base == 0
    && |Results(s.stile.out)| == |s.stile.out|
    && s.submitted == s.stile.accepted + InHand(s.pending) + s.ordering
  }

  lemma StartInv<I(!new), O>(c: Config<I, O>, n: nat)
    requires Sizes(c, n)
    ensures PipelineInv(c, n, Start(n))
  {
    InitialInv(c, 0, n);
  }

  lemma {:induction false} ResultsShorter<O>(out: seq<Option<O>>)
    ensures |Results(out)| <= |out|
  {
    if out != [] {
      ResultsShorter(out[1..]);
    }
  }

  lemma NextInv<I(!new), O>(c: Config<I, O>, n: nat, s: Pipeline<I, O>, a: Action<I>)
    requires PipelineInv(c, n, s) && Allowed(c, s, a)
    ensures PipelineInv(c, n, Next(c, s, a))
  {
    TakenWithinWorkers(c, s.stile);
    match a {
      case Submit(_) =>
      case Receive =>
      case Forward =>
        StepInv(c, s.stile, Put(s.pending.value));
      case Step(l) =>
        BoundedStep(c, s.stile, l);
        StepInv(c, s.stile, l);
        if l.Send? {
          var r := Some(s.stile.workers[l.w].o);
          ResultsConcat(s.stile.out, [r]);
          assert Results([r]) == [r.value];
        }
    }
  }

  lemma {:induction false} ReachableInv<I(!new), O>(c: Config<I, O>, n: nat, s: Pipeline<I, O>, acts: seq<Action<I>>)
    requires PipelineInv(c, n, s) && CanRun(c, s, acts)
    ensures PipelineInv(c, n, Final(c, s, acts))
    decreases acts
  {
    if acts != [] {
      NextInv(c, n, s, acts[0]);
      ReachableInv(c, n, Next(c, s, acts[0]), acts[1..]);
    }
  }

  /** The packet groups sent to the UDP worker are the encodings of the first submitted blocks, in the order of
      submission, the i-th under the id i mod 256. */
  ghost predicate SentInOrder<I, O>(c: Config<I, O>, submitted: seq<I>, out: seq<Option<O>>) {
    && |out| <= |submitted|
    && forall i :: 0 <= i < |out| ==> out[i].Some? && c.work(IdOf(i), submitted[i]) == out[i]
  }

  lemma {:induction false} AllResults<O>(out: seq<Option<O>>)
    requires |Results(out)| == |out|
    ensures forall i :: 0 <= i < |out| ==> out[i] == Some(Results(out)[i])
  {
    if out != [] {
      ResultsShorter(out[1..]);
      AllResults(out[1..]);
    }
  }

  lemma InvOrder<I(!new), O>(c: Config<I, O>, n: nat, s: Pipeline<I, O>)
    requires PipelineInv(c, n, s)
    ensures SentInOrder(c, s.submitted, s.stile.out)
  {
    AllResults(s.stile.out);
    forall i | 0 <= i < |s.stile.out|
      ensures c.work(IdOf(i), s.submitted[i]) == s.stile.out[i]
    {
      assert WorkAt(c, s.stile, i) == Some(Results(s.stile.out)[i]);
    }
  }

  /** Order of the sender, for 1 to 255 encoders and every schedule, over any number of wraps of the ids. */
  lemma SenderOrder<I(!new), O>(c: Config<I, O>, n: nat, acts: seq<Action<I>>)
    requires Sizes(c, n) && CanRun(c, Start(n), acts)
    ensures var s := Final(c, Start(n), acts); SentInOrder(c, s.submitted, s.stile.out)
  {
    StartInv(c, n);
    ReachableInv(c, n, Start(n), acts);
    InvOrder(c, n, Final(c, Start(n), acts));
  }

  /** No channel holds more than its `n` places. */
  predicate WithinRoom<I, O>(n: nat, s: Pipeline<I, O>) {
    |s.ordering| <= n && |s.stile.queue| <= n && 0 <= |s.stile.out| - s.stile.consumed <= n
  }

  lemma {:induction false} RunWithinRoom<I(!new), O>(c: Config<I, O>, n: nat, s: Pipeline<I, O>, acts: seq<Action<I>>)
    requires Sizes(c, n) && CanRun(c, s, acts) && WithinRoom(n, s)
    ensures WithinRoom(n, Final(c, s, acts))
    decreases acts
  {
    if acts != [] {
      RunWithinRoom(c, n, Next(c, s, acts[0]), acts[1..]);
    }
  }

  // ---------------------------------------------------------------------------------------------
  // Progress
  // ---------------------------------------------------------------------------------------------

  /** Steps of the sender's own threads; a spurious wake-up is nobody's work. */
  predicate Internal<I>(a: Action<I>) {
    match a
    case Submit(_) => false
    case Step(l) => !l.SpuriousWakeup?
    case _ => true
  }

  /** Nothing is left anywhere between the client workers and the network. */
  predicate Delivered<I, O>(s: Pipeline<I, O>) {
    |s.stile.out| == |s.submitted| == s.stile.consumed
  }

  function Times(count: nat, weight: nat): nat {
    if count == 0 then 0 else weight + Times(count - 1, weight)
  }

  function Weight<I, O>(n: nat, p: Phase<I, O>): nat {
    match p
    case Idle => 0
    case Notifying => n + 1
    case Sent(_, _) => n + 2
    case Locked(_, _) => n + 4
    case Asleep(_, _) => n + 4
    case Ready(_, _) => n + 5
    case Working(_) => n + 6
  }

  function Weights<I, O>(n: nat, workers: seq<Phase<I, O>>): nat {
    if workers == [] then 0 else Weight(n, workers[0]) + Weights(n, workers[1..])
  }

  /** How much work is left: each block weighs more the further it is from the network, and a notification
      outweighs everything it may wake up. */
  function Measure<I, O>(n: nat, s: Pipeline<I, O>): int {
    Times(|s.ordering|, n + 9) + Times(|InHand(s.pending)|, n + 8) + Times(|s.stile.queue|, n + 7)
    + Weights(n, s.stile.workers) + |s.stile.out| - s.stile.consumed
  }

  lemma {:induction false} WeightsUpdate<I, O>(n: nat, workers: seq<Phase<I, O>>, w: nat, p: Phase<I, O>)
    requires w < |workers|
    ensures Weights(n, workers[w := p]) == Weights(n, workers) - Weight(n, workers[w]) + Weight(n, p)
  {
    if w == 0 {
      assert workers[w := p][1..] == workers[1..];
    } else {
      assert workers[w := p][1..] == workers[1..][w - 1 := p];
      WeightsUpdate(n, workers[1..], w - 1, p);
    }
  }

  lemma {:induction false} WeightsWoken<I, O>(n: nat, workers: seq<Phase<I, O>>)
    ensures Weights(n, WakeAll(workers)) <= Weights(n, workers) + |workers|
  {
    if workers != [] {
      WeightsWoken(n, workers[1..]);
      assert WakeAll(workers)[1..] == WakeAll(workers[1..]);
    }
  }

  /** Every step of the workers shortens the queue or lowers their weight, with what is not yet consumed. */
  lemma StepLowers<I(!new), O>(c: Config<I, O>, n: nat, s: State<I, O>, l: Label<I>)
    requires Enabled(c, s, l) && !l.Put? && !l.SpuriousWakeup? && |s.workers| <= n
    ensures var t := Apply(c, s, l);
            && |t.queue| == |s.queue| - (if l.Take? then 1 else 0)
            && Weights(n, t.workers) + |t.out| - t.consumed
               < Weights(n, s.workers) + |s.out| - s.consumed + (if l.Take? then n + 7 else 0)
  {
    var t := Apply(c, s, l);
    if l.Notify? {
      WeightsUpdate(n, s.workers, l.w, Idle);
      WeightsWoken(n, s.workers[l.w := Idle]);
    } else if !l.Consume? {
      WeightsUpdate(n, s.workers, l.w, t.workers[l.w]);
      assert t.workers == s.workers[l.w := t.workers[l.w]];
    }
  }

  /** Every step of the sender's threads lowers the measure. */
  lemma InternalLowers<I(!new), O>(c: Config<I, O>, n: nat, s: Pipeline<I, O>, a: Action<I>)
    requires PipelineInv(c, n, s) && Allowed(c, s, a) && Internal(a)
    ensures 0 <= Measure(n, Next(c, s, a)) < Measure(n, s)
  {
    NextInv(c, n, s, a);
    var t := Next(c, s, a);
    if a.Receive? {
      assert t.ordering == s.ordering[1..];
    } else if a.Step? {
      StepLowers(c, n, s.stile, a.l);
    }
  }

  ghost predicate SomeInternal<I(!new), O>(c: Config<I, O>, s: Pipeline<I, O>) {
    exists a :: Internal(a) && Allowed(c, s, a)
  }

  /** While an entry is taken and not passed, somebody holds the next one, and its id is on the counter. */
  lemma HolderOfNext<I(!new), O>(c: Config<I, O>, s: State<I, O>) returns (w: nat)
    requires Inv(c, s) && Lossless(c) && s.passed < Taken(s)
    ensures w < |s.workers| && s.workers[w].HoldsEntry() && s.workers[w].e.id == s.counter
  {
    assert WorkAt(c, s, s.passed).Some?;
    assert Held(s.workers, s.passed);
    w :| HeldBy(s.workers, s.passed, w);
    assert WorkerInv(c, s, s.workers[w]);
  }

  /** When every worker is idle or asleep, a sleeper would be the next in turn with nobody to wake it: so all
      are idle. */
  lemma NobodySleepsForever<I(!new), O>(c: Config<I, O>, n: nat, s: Pipeline<I, O>)
    requires PipelineInv(c, n, s)
    requires forall w :: 0 <= w < n ==> s.stile.workers[w].Idle? || s.stile.workers[w].Asleep?
    ensures forall w :: 0 <= w < n ==> s.stile.workers[w].Idle?
    ensures Taken(s.stile) == s.stile.passed == |s.stile.out|
  {
    var t := s.stile;
    if t.passed < Taken(t) {
      var w := HolderOfNext(c, t);
      assert false;
    }
    forall w | 0 <= w < n
      ensures t.workers[w].Idle?
    {
      assert WorkerInv(c, t, t.workers[w]);
    }
  }

  /** No deadlock and no lost wake-up: unless everything is delivered, some thread can take a step. */
  lemma SomebodyCanMove<I(!new), O>(c: Config<I, O>, n: nat, s: Pipeline<I, O>)
    requires PipelineInv(c, n, s) && !Delivered(s)
    ensures SomeInternal(c, s)
  {
    var t := s.stile;
    var a: Action<I>;
    if t.consumed < |t.out| {
      a := Step(Consume);
    } else if w :| 0 <= w < n && !t.workers[w].Idle? && !t.workers[w].Asleep? && !t.workers[w].Ready? {
      var p := t.workers[w];
      a := Step(if p.Working? then Finish(w)
                else if p.Locked? then Send(w)
                else if p.Sent? then Bump(w)
                else Notify(w));
    } else if w :| 0 <= w < n && t.workers[w].Ready? {
      a := Step(Check(w));
    } else {
      NobodySleepsForever(c, n, s);
      a := if t.queue != [] then Step(Take(0)) else if s.pending.Some? then Forward else Receive;
    }
    assert Internal(a) && Allowed(c, s, a);
  }

  ghost predicate NoneSubmitted<I>(acts: seq<Action<I>>) {
    forall i :: 0 <= i < |acts| ==> !acts[i].Submit?
  }

  function Wakeups<I>(acts: seq<Action<I>>): nat {
    if acts == [] then 0 else (if Internal(acts[0]) then 0 else 1) + Wakeups(acts[1..])
  }

  /** A spurious wake-up makes work: the worker has to look at the counter again. */
  lemma WakeupRaises<I(!new), O>(c: Config<I, O>, n: nat, s: Pipeline<I, O>, a: Action<I>)
    requires PipelineInv(c, n, s) && Allowed(c, s, a) && !a.Submit? && !Internal(a)
    ensures Measure(n, Next(c, s, a)) == Measure(n, s) + 1
  {
    var w := a.l.w;
    WeightsUpdate(n, s.stile.workers, w, Woken(s.stile.workers[w]));
  }

  /** Progress of the sender: left to themselves its threads take at most as many steps as the measure says, with two
      more for each spurious wake-up, and they can only stop when every block ever submitted has gone out to the
      network, encoded and in order. */
  lemma {:induction false} SenderDelivers<I(!new), O>(c: Config<I, O>, n: nat, s: Pipeline<I, O>, acts: seq<Action<I>>)
    requires PipelineInv(c, n, s) && CanRun(c, s, acts) && NoneSubmitted(acts)
    ensures |acts| <= Measure(n, s) + 2 * Wakeups(acts)
    ensures var t := Final(c, s, acts);
            && t.submitted == s.submitted
            && (!SomeInternal(c, t) ==> Delivered(t) && SentInOrder(c, t.submitted, t.stile.out))
    decreases acts
  {
    if acts == [] {
      if !Delivered(s) {
        SomebodyCanMove(c, n, s);
      }
      InvOrder(c, n, s);
    } else {
      if Internal(acts[0]) {
        InternalLowers(c, n, s, acts[0]);
      } else {
        WakeupRaises(c, n, s, acts[0]);
      }
      NextInv(c, n, s, acts[0]);
      SenderDelivers(c, n, Next(c, s, acts[0]), acts[1..]);
    }
  }
}
