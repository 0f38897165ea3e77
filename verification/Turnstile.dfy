/** Workers that take numbered entries from a queue in any order they are scheduled, and must release their
    results in the order of the numbers. Each waits under a mutex, on a condition variable, until a shared 8-bit
    counter equals the 8-bit id of its entry, sends its result, bumps the counter and wakes the others up. Both the
    encoders (src/send/encoding.rs) and the decoders (src/receive/decode.rs) work this way.

    The guards of the steps read only what the threads can see: the 8-bit ids, the counter, the channels. The fields
    `seqno`, `accepted` and `passed` record history; no guard reads them. */
module Turnstile {
  import opened Words
  import opened Wrappers
  import opened Sequences

  datatype Entry<I> = Entry(id: U8, seqno: nat, item: I)

  /** Where a worker is in its loop. */
  datatype Phase<I, O> =
    | Idle
    | Working(e: Entry<I>)
    | Ready(e: Entry<I>, o: O)   // about to lock the mutex and look at the counter
    | Asleep(e: Entry<I>, o: O)  // saw another id and waits on the condition variable
    | Locked(e: Entry<I>, o: O)  // saw its id and holds the mutex, about to send
    | Sent(e: Entry<I>, o: O)    // has sent and still holds the mutex
    | Notifying                  // has bumped the counter and dropped the mutex, about to notify all
  {
    predicate HoldsEntry() {
      !Idle? && !Notifying?
    }

    predicate HoldsResult() {
      Ready? || Asleep? || Locked? || Sent?
    }

    predicate HoldsMutex() {
      Locked? || Sent?
    }
  }

  /** `work` encodes or decodes an entry, `None` being a failed decode; `room` bounds the channels, if anything does. */
  datatype Config<!I, !O> = Config(room: Option<nat>, work: (U8, I) -> Option<O>)

  datatype State<I, O> = State(
    base: U8,
    next: U8,
    queue: seq<Entry<I>>,
    workers: seq<Phase<I, O>>,
    counter: U8,
    out: seq<Option<O>>,
    consumed: nat,
    accepted: seq<I>,
    passed: nat)

  datatype Label<I> =
    | Put(item: I)
    | Take(w: nat)
    | Finish(w: nat)
    | Check(w: nat)
    | Send(w: nat)
    | Bump(w: nat)
    | Notify(w: nat)
    | SpuriousWakeup(w: nat)
    | Consume

  function Initial<I, O>(base: U8, workers: nat): State<I, O> {
    State(base, base, [], seq(workers, _ => Idle), base, [], 0, [], 0)
  }

  predicate HasRoom<I, O>(c: Config<I, O>, used: int) {
    c.room.Some? ==> used < c.room.value
  }

  predicate MutexFree<I, O>(s: State<I, O>) {
    forall w :: 0 <= w < |s.workers| ==> !s.workers[w].HoldsMutex()
  }

  predicate Enabled<I, O>(c: Config<I, O>, s: State<I, O>, l: Label<I>) {
    && (l.Put? || l.Consume? || l.w < |s.workers|)
    && match l {
         case Put(_) => HasRoom(c, |s.queue|)
         case Take(w) => s.workers[w].Idle? && s.queue != []
         case Finish(w) => s.workers[w].Working? &&
           (c.work(s.workers[w].e.id, s.workers[w].e.item).None? ==> HasRoom(c, |s.out| - s.consumed))
         case Check(w) => s.workers[w].Ready? && MutexFree(s)
         case Send(w) => s.workers[w].Locked? && HasRoom(c, |s.out| - s.consumed)
         case Bump(w) => s.workers[w].Sent?
         case Notify(w) => s.workers[w].Notifying?
         case SpuriousWakeup(w) => s.workers[w].Asleep?
         case Consume => s.consumed < |s.out|
       }
  }

  function Woken<I, O>(p: Phase<I, O>): Phase<I, O> {
    if p.Asleep? then Ready(p.e, p.o) else p
  }

  function WakeAll<I, O>(workers: seq<Phase<I, O>>): (woken: seq<Phase<I, O>>)
    ensures |woken| == |workers|
    ensures forall w :: 0 <= w < |workers| ==> woken[w] == Woken(workers[w])
  {
    if workers == [] then [] else [Woken(workers[0])] + WakeAll(workers[1..])
  }

  function Apply<I, O>(c: Config<I, O>, s: State<I, O>, l: Label<I>): State<I, O>
    requires Enabled(c, s, l)
  {
    match l
    case Put(item) =>
      Enqueued(s, item)
    case Take(w) =>
      s.(queue := s.queue[1..], workers := s.workers[w := Working(s.queue[0])])
    case Finish(w) =>
      var e := s.workers[w].e;
      (match c.work(e.id, e.item)
       case None => s.(workers := s.workers[w := Idle], out := s.out + [None])
       case Some(o) => s.(workers := s.workers[w := Ready(e, o)]))
    case Check(w) =>
      var p := s.workers[w];
      s.(workers := s.workers[w := if s.counter == p.e.id then Locked(p.e, p.o) else Asleep(p.e, p.o)])
    case Send(w) =>
      var p := s.workers[w];
      s.(workers := s.workers[w := Sent(p.e, p.o)], out := s.out + [Some(p.o)])
    case Bump(w) =>
      Bumped(s, w)
    case Notify(w) =>
      s.(workers := WakeAll(s.workers[w := Idle]))
    case SpuriousWakeup(w) =>
      s.(workers := s.workers[w := Woken(s.workers[w])])
    case Consume =>
      s.(consumed := s.consumed + 1)
  }

  ghost predicate Possible<I, O>(c: Config<I, O>, s: State<I, O>, ls: seq<Label<I>>)
    decreases ls
  {
    ls == [] || (Enabled(c, s, ls[0]) && Possible(c, Apply(c, s, ls[0]), ls[1..]))
  }

  ghost function After<I, O>(c: Config<I, O>, s: State<I, O>, ls: seq<Label<I>>): State<I, O>
    requires Possible(c, s, ls)
    decreases ls
  {
    if ls == [] then s else After(c, Apply(c, s, ls[0]), ls[1..])
  }

  // ---------------------------------------------------------------------------------------------
  // The invariant
  // ---------------------------------------------------------------------------------------------

  /** How many entries the workers have taken from the queue. */
  ghost function Taken<I, O>(s: State<I, O>): int {
    |s.accepted| - |s.queue|
  }

  ghost function EntryAt<I, O>(s: State<I, O>, n: nat): Entry<I>
    requires n < |s.accepted|
  {
    Entry(IdOf(s.base + n), n, s.accepted[n])
  }

  ghost function WorkAt<I, O>(c: Config<I, O>, s: State<I, O>, n: nat): Option<O>
    requires n < |s.accepted|
  {
    c.work(IdOf(s.base + n), s.accepted[n])
  }

  ghost predicate Counters<I, O>(s: State<I, O>) {
    && s.next == IdOf(s.base + |s.accepted|)
    && s.counter == IdOf(s.base + s.passed)
    && s.passed <= Taken(s)
    && s.consumed <= |s.out|
  }

  ghost predicate QueueInv<I, O>(s: State<I, O>) {
    && |s.queue| <= |s.accepted|
    && forall j :: 0 <= j < |s.queue| ==> s.queue[j] == EntryAt(s, Taken(s) + j)
  }

  /** A worker holds an entry not yet passed, under its true number and id, and the right result for it; with the
      mutex in hand and its id seen, the entry is the next one to release. */
  ghost predicate WorkerInv<I, O>(c: Config<I, O>, s: State<I, O>, p: Phase<I, O>) {
    && 0 <= Taken(s) <= |s.accepted|
    && (p.HoldsEntry() ==> s.passed <= p.e.seqno < Taken(s) && p.e == EntryAt(s, p.e.seqno))
    && (p.HoldsResult() ==> c.work(p.e.id, p.e.item) == Some(p.o))
    && (p.HoldsMutex() ==> p.e.seqno == s.passed)
  }

  ghost predicate Distinct<I, O>(workers: seq<Phase<I, O>>) {
    forall v, w :: 0 <= v < w < |workers| && workers[v].HoldsEntry() && workers[w].HoldsEntry() ==>
      workers[v].e.seqno != workers[w].e.seqno
  }

  ghost predicate HeldBy<I, O>(workers: seq<Phase<I, O>>, n: int, w: int) {
    0 <= w < |workers| && workers[w].HoldsEntry() && workers[w].e.seqno == n
  }

  ghost predicate Held<I, O>(workers: seq<Phase<I, O>>, n: int) {
    exists w :: HeldBy(workers, n, w)
  }

  /** An entry taken and not yet passed is in some worker's hands, unless its work failed. */
  ghost predicate Covered<I, O>(c: Config<I, O>, s: State<I, O>) {
    && 0 <= Taken(s) <= |s.accepted|
    && forall n :: s.passed <= n < Taken(s) ==> Held(s.workers, n) || WorkAt(c, s, n).None?
  }

  ghost predicate SomeSent<I, O>(workers: seq<Phase<I, O>>) {
    exists w :: 0 <= w < |workers| && workers[w].Sent?
  }

  /** The results among everything that was sent, failure markers left out. */
  function Results<O>(out: seq<Option<O>>): seq<O> {
    if out == [] then [] else (if out[0].Some? then [out[0].value] else []) + Results(out[1..])
  }

  ghost predicate InOrder<I, O>(c: Config<I, O>, s: State<I, O>) {
    && |Results(s.out)| <= |s.accepted|
    && |Results(s.out)| == s.passed + (if SomeSent(s.workers) then 1 else 0)
    && forall n :: 0 <= n < |Results(s.out)| ==> WorkAt(c, s, n) == Some(Results(s.out)[n])
  }

  ghost predicate SomeNotifying<I, O>(workers: seq<Phase<I, O>>) {
    exists w :: 0 <= w < |workers| && workers[w].Notifying?
  }

  /** No lost wake-up: a sleeper whose turn has come will be notified. */
  ghost predicate NoLostWakeup<I, O>(s: State<I, O>) {
    forall w :: 0 <= w < |s.workers| && s.workers[w].Asleep? && s.workers[w].e.id == s.counter ==>
      SomeNotifying(s.workers)
  }

  ghost predicate Inv<I, O>(c: Config<I, O>, s: State<I, O>) {
    && Counters(s)
    && QueueInv(s)
    && (forall w :: 0 <= w < |s.workers| ==> WorkerInv(c, s, s.workers[w]))
    && Distinct(s.workers)
    && Covered(c, s)
    && InOrder(c, s)
    && NoLostWakeup(s)
  }

  /** The entry a worker is about to compare with the counter is the next one to release, or does not lie a whole
      number of turns of the 8-bit counter past it. */
  predicate Safe<I, O>(s: State<I, O>, l: Label<I>) {
    l.Check? && l.w < |s.workers| && s.workers[l.w].Ready? ==>
      s.workers[l.w].e.seqno == s.passed || (s.workers[l.w].e.seqno - s.passed) % 256 != 0
  }

  ghost predicate AlwaysSafe<I, O>(c: Config<I, O>, s: State<I, O>, ls: seq<Label<I>>)
    requires Possible(c, s, ls)
    decreases ls
  {
    ls == [] || (Safe(s, ls[0]) && AlwaysSafe(c, Apply(c, s, ls[0]), ls[1..]))
  }

  ghost predicate AlwaysInv<I, O>(c: Config<I, O>, s: State<I, O>, ls: seq<Label<I>>)
    requires Possible(c, s, ls)
    decreases ls
  {
    Inv(c, s) && (ls != [] ==> AlwaysInv(c, Apply(c, s, ls[0]), ls[1..]))
  }

  /** No more than 256 entries were taken past the counter, so that equal ids are equal numbers. */
  ghost predicate Bounded<I, O>(s: State<I, O>) {
    Taken(s) <= s.passed + 256
  }

  ghost predicate AlwaysBounded<I, O>(c: Config<I, O>, s: State<I, O>, ls: seq<Label<I>>)
    requires Possible(c, s, ls)
    decreases ls
  {
    Bounded(s) && (ls != [] ==> AlwaysBounded(c, Apply(c, s, ls[0]), ls[1..]))
  }

  lemma InitialInv<I, O>(c: Config<I, O>, base: U8, workers: nat)
    ensures Inv(c, Initial(base, workers))
  {
  }

  lemma {:induction false} ResultsConcat<O>(a: seq<Option<O>>, b: seq<Option<O>>)
    ensures Results(a + b) == Results(a) + Results(b)
  {
    if a == [] {
      assert a + b == b;
    } else {
      var first := if a[0].Some? then [a[0].value] else [];
      ResultsConcat(a[1..], b);
      assert (a + b)[1..] == a[1..] + b;
      Associative(first, Results(a[1..]), Results(b));
    }
  }

  /** An id equals the counter exactly for the entries a whole number of turns past the next one to release. */
  lemma TurnExact(base: U8, passed: nat, n: nat)
    ensures IdOf(base + n) == IdOf(base + passed) <==> (n - passed) % 256 == 0
    ensures passed <= n < passed + 256 ==> ((n - passed) % 256 == 0 <==> n == passed)
  {
  }

  // ---------------------------------------------------------------------------------------------
  // Every step keeps the invariant
  // ---------------------------------------------------------------------------------------------

  /** Replacing the phase of one worker: what is held, and whether somebody has sent. */
  lemma OneWorker<I, O>(workers: seq<Phase<I, O>>, w: nat, p: Phase<I, O>)
    requires w < |workers|
    ensures var after := workers[w := p];
            && (forall n :: Held(workers, n) && !HeldBy(workers, n, w) ==> Held(after, n))
            && (p.HoldsEntry() ==> Held(after, p.e.seqno))
            && (SomeSent(after) ==> p.Sent? || SomeSent(workers))
            && (p.Sent? ==> SomeSent(after))
            && (!workers[w].Sent? && SomeSent(workers) ==> SomeSent(after))
            && (p.Notifying? ==> SomeNotifying(after))
            && (!workers[w].Notifying? && SomeNotifying(workers) ==> SomeNotifying(after))
  {
    var after := workers[w := p];
    forall n | Held(workers, n) && !HeldBy(workers, n, w)
      ensures Held(after, n)
    {
      var v :| HeldBy(workers, n, v);
      assert HeldBy(after, n, v);
    }
    if p.HoldsEntry() {
      assert HeldBy(after, p.e.seqno, w);
    }
    if SomeSent(workers) && !workers[w].Sent? {
      var v :| 0 <= v < |workers| && workers[v].Sent?;
      assert after[v].Sent?;
    }
    if SomeNotifying(workers) && !workers[w].Notifying? {
      var v :| 0 <= v < |workers| && workers[v].Notifying?;
      assert after[v].Notifying?;
    }
    assert after[w] == p;
  }

  lemma SameHistory<I, O>(c: Config<I, O>, s: State<I, O>, t: State<I, O>)
    requires t.base == s.base && s.accepted <= t.accepted
    ensures forall n: nat :: n < |s.accepted| ==> EntryAt(t, n) == EntryAt(s, n)
    ensures forall n: nat :: n < |s.accepted| ==> WorkAt(c, t, n) == WorkAt(c, s, n)
  {
  }

  /** Worker `w` moves on with the entry it has, the counter standing still. */
  lemma SameEntry<I, O>(c: Config<I, O>, s: State<I, O>, w: nat, p: Phase<I, O>)
    requires Inv(c, s) && w < |s.workers| && s.workers[w].HoldsEntry() && p.HoldsEntry() && p.e == s.workers[w].e
    requires WorkerInv(c, s, p) && !s.workers[w].Sent? && !p.Sent?
    requires p.Asleep? ==> p.e.id != s.counter
    ensures Inv(c, s.(workers := s.workers[w := p]))
  {
    var t := s.(workers := s.workers[w := p]);
    OneWorker(s.workers, w, p);
    assert forall n :: HeldBy(s.workers, n, w) ==> n == p.e.seqno;
    SameHistory(c, s, t);
    assert Covered(c, t);
    assert forall v :: 0 <= v < |t.workers| ==> WorkerInv(c, t, t.workers[v]);
  }

  function Enqueued<I, O>(s: State<I, O>, item: I): State<I, O> {
    s.(queue := s.queue + [Entry(s.next, |s.accepted|, item)],
       next := WrappingAdd(s.next, 1),
       accepted := s.accepted + [item])
  }

  lemma PutQueue<I, O>(s: State<I, O>, item: I)
    requires Counters(s) && QueueInv(s)
    ensures Counters(Enqueued(s, item)) && QueueInv(Enqueued(s, item)) && Taken(Enqueued(s, item)) == Taken(s)
  {
    var t := Enqueued(s, item);
    forall j | 0 <= j < |t.queue|
      ensures t.queue[j] == EntryAt(t, Taken(t) + j)
    {
      assert j < |s.queue| ==> s.queue[j] == EntryAt(s, Taken(s) + j);
    }
  }

  lemma PutWorkers<I, O>(c: Config<I, O>, s: State<I, O>, item: I)
    requires Inv(c, s)
    ensures var t := Enqueued(s, item);
            && (forall w :: 0 <= w < |t.workers| ==> WorkerInv(c, t, t.workers[w]))
            && Covered(c, t) && InOrder(c, t)
  {
    var t := Enqueued(s, item);
    SameHistory(c, s, t);
    forall w | 0 <= w < |t.workers|
      ensures WorkerInv(c, t, t.workers[w])
    {
      assert WorkerInv(c, s, s.workers[w]);
    }
  }

  lemma StepPut<I, O>(c: Config<I, O>, s: State<I, O>, item: I)
    requires Inv(c, s)
    ensures Inv(c, Enqueued(s, item))
  {
    PutQueue(s, item);
    PutWorkers(c, s, item);
    assert NoLostWakeup(Enqueued(s, item));
  }

  lemma StepTake<I, O>(c: Config<I, O>, s: State<I, O>, w: nat)
    requires Inv(c, s) && w < |s.workers| && s.workers[w].Idle? && s.queue != []
    ensures Inv(c, s.(queue := s.queue[1..], workers := s.workers[w := Working(s.queue[0])]))
  {
    var t := s.(queue := s.queue[1..], workers := s.workers[w := Working(s.queue[0])]);
    var e := s.queue[0];
    OneWorker(s.workers, w, Working(e));
    assert e == EntryAt(s, Taken(s) + 0);
    assert Taken(t) == Taken(s) + 1;
    SameHistory(c, s, t);
    forall j | 0 <= j < |t.queue|
      ensures t.queue[j] == EntryAt(t, Taken(t) + j)
    {
      assert t.queue[j] == s.queue[j + 1];
    }
    forall v | 0 <= v < |t.workers|
      ensures WorkerInv(c, t, t.workers[v])
    {
      assert WorkerInv(c, s, s.workers[v]);
    }
    assert forall v :: 0 <= v < |s.workers| && s.workers[v].HoldsEntry() ==> s.workers[v].e.seqno < Taken(s);
  }

  /** A failed decode is reported at once, out of turn, and leaves the counter alone. */
  lemma StepFail<I, O>(c: Config<I, O>, s: State<I, O>, w: nat)
    requires Inv(c, s) && Enabled(c, s, Finish(w))
    requires c.work(s.workers[w].e.id, s.workers[w].e.item).None?
    ensures var t := Apply(c, s, Finish(w));
            && Inv(c, t)
            && t == s.(workers := s.workers[w := Idle], out := s.out + [None])
  {
    var t := Apply(c, s, Finish(w));
    var e := s.workers[w].e;
    var failed: Option<O> := None;
    assert WorkerInv(c, s, s.workers[w]);
    OneWorker(s.workers, w, Idle);
    ResultsConcat(s.out, [failed]);
    assert Results([failed]) == [];
    SameHistory(c, s, t);
    forall v | 0 <= v < |t.workers|
      ensures WorkerInv(c, t, t.workers[v])
    {
      assert WorkerInv(c, s, s.workers[v]);
    }
    assert Covered(c, t) by {
      assert forall n :: HeldBy(s.workers, n, w) ==> n == e.seqno;
      assert WorkAt(c, s, e.seqno).None?;
    }
    assert InOrder(c, t) by {
      assert Results(t.out) == Results(s.out);
      assert SomeSent(t.workers) == SomeSent(s.workers);
    }
  }

  lemma StepFinish<I, O>(c: Config<I, O>, s: State<I, O>, w: nat)
    requires Inv(c, s) && Enabled(c, s, Finish(w))
    ensures Inv(c, Apply(c, s, Finish(w)))
  {
    var e := s.workers[w].e;
    assert WorkerInv(c, s, s.workers[w]);
    match c.work(e.id, e.item) {
      case Some(o) =>
        SameEntry(c, s, w, Ready(e, o));
      case None =>
        StepFail(c, s, w);
    }
  }

  lemma StepCheck<I, O>(c: Config<I, O>, s: State<I, O>, w: nat)
    requires Inv(c, s) && Safe(s, Check(w)) && Enabled(c, s, Check(w))
    ensures Inv(c, Apply(c, s, Check(w)))
  {
    var p := s.workers[w];
    assert WorkerInv(c, s, p);
    TurnExact(s.base, s.passed, p.e.seqno);
    SameEntry(c, s, w, if s.counter == p.e.id then Locked(p.e, p.o) else Asleep(p.e, p.o));
  }

  lemma StepSpuriousWakeup<I, O>(c: Config<I, O>, s: State<I, O>, w: nat)
    requires Inv(c, s) && Enabled(c, s, SpuriousWakeup(w))
    ensures Inv(c, Apply(c, s, SpuriousWakeup(w)))
  {
    assert WorkerInv(c, s, s.workers[w]);
    SameEntry(c, s, w, Woken(s.workers[w]));
  }

  /** The holder of the mutex is alone with the next entry to release. */
  lemma AloneWithNext<I, O>(c: Config<I, O>, s: State<I, O>, w: nat)
    requires Inv(c, s) && w < |s.workers| && s.workers[w].HoldsMutex()
    ensures s.workers[w].e == EntryAt(s, s.passed) && s.passed < Taken(s)
    ensures forall v :: 0 <= v < |s.workers| && s.workers[v].HoldsEntry() && v != w ==> s.workers[v].e.seqno > s.passed
    ensures SomeSent(s.workers) <==> s.workers[w].Sent?
  {
    assert WorkerInv(c, s, s.workers[w]);
    forall v | 0 <= v < |s.workers| && s.workers[v].HoldsEntry() && v != w
      ensures s.workers[v].e.seqno > s.passed && !s.workers[v].Sent?
    {
      assert WorkerInv(c, s, s.workers[v]);
    }
  }

  lemma StepSend<I, O>(c: Config<I, O>, s: State<I, O>, w: nat)
    requires Inv(c, s) && Enabled(c, s, Send(w))
    ensures Inv(c, Apply(c, s, Send(w)))
  {
    var p := s.workers[w];
    var t := Apply(c, s, Send(w));
    AloneWithNext(c, s, w);
    OneWorker(s.workers, w, Sent(p.e, p.o));
    assert WorkerInv(c, s, p);
    ResultsConcat(s.out, [Some(p.o)]);
    assert Results([Some(p.o)]) == [p.o];
    SameHistory(c, s, t);
    forall v | 0 <= v < |t.workers|
      ensures WorkerInv(c, t, t.workers[v])
    {
      assert WorkerInv(c, s, s.workers[v]);
    }
    assert forall n :: HeldBy(s.workers, n, w) ==> n == p.e.seqno;
    assert WorkAt(c, s, s.passed) == Some(p.o);
    assert InOrder(c, t);
  }

  function Bumped<I, O>(s: State<I, O>, w: nat): State<I, O>
    requires w < |s.workers|
  {
    s.(workers := s.workers[w := Notifying], counter := WrappingAdd(s.counter, 1), passed := s.passed + 1)
  }

  lemma BumpWorkers<I, O>(c: Config<I, O>, s: State<I, O>, w: nat)
    requires Inv(c, s) && w < |s.workers| && s.workers[w].Sent?
    ensures var t := Bumped(s, w);
            forall v :: 0 <= v < |t.workers| ==> WorkerInv(c, t, t.workers[v]) && !t.workers[v].Sent?
  {
    var t := Bumped(s, w);
    AloneWithNext(c, s, w);
    SameHistory(c, s, t);
    forall v | 0 <= v < |t.workers|
      ensures WorkerInv(c, t, t.workers[v]) && !t.workers[v].Sent?
    {
      assert WorkerInv(c, s, s.workers[v]);
    }
  }

  lemma BumpCovered<I, O>(c: Config<I, O>, s: State<I, O>, w: nat)
    requires Inv(c, s) && w < |s.workers| && s.workers[w].Sent?
    ensures Covered(c, Bumped(s, w)) && Distinct(Bumped(s, w).workers) && Counters(Bumped(s, w))
  {
    AloneWithNext(c, s, w);
    OneWorker(s.workers, w, Notifying);
    SameHistory(c, s, Bumped(s, w));
    assert forall n :: HeldBy(s.workers, n, w) ==> n == s.passed;
  }

  lemma StepBump<I, O>(c: Config<I, O>, s: State<I, O>, w: nat)
    requires Inv(c, s) && w < |s.workers| && s.workers[w].Sent?
    ensures Inv(c, Bumped(s, w))
  {
    var t := Bumped(s, w);
    BumpWorkers(c, s, w);
    BumpCovered(c, s, w);
    OneWorker(s.workers, w, Notifying);
    SameHistory(c, s, t);
    assert InOrder(c, t) by {
      assert !SomeSent(t.workers) && SomeSent(s.workers);
    }
    assert NoLostWakeup(t);
  }

  lemma StepNotify<I, O>(c: Config<I, O>, s: State<I, O>, w: nat)
    requires Inv(c, s) && w < |s.workers| && s.workers[w].Notifying?
    ensures Inv(c, s.(workers := WakeAll(s.workers[w := Idle])))
  {
    var t := s.(workers := WakeAll(s.workers[w := Idle]));
    OneWorker(s.workers, w, Idle);
    SameHistory(c, s, t);
    forall v | 0 <= v < |t.workers|
      ensures WorkerInv(c, t, t.workers[v]) && !t.workers[v].Asleep?
      ensures t.workers[v].HoldsEntry() ==> s.workers[v].HoldsEntry() && t.workers[v].e == s.workers[v].e
      ensures s.workers[v].HoldsEntry() ==> t.workers[v].HoldsEntry()
      ensures t.workers[v].Sent? <==> s.workers[v].Sent?
    {
      assert WorkerInv(c, s, s.workers[v]);
    }
    forall n | Held(s.workers, n)
      ensures Held(t.workers, n)
    {
      var v :| HeldBy(s.workers, n, v);
      assert HeldBy(t.workers, n, v);
    }
    assert SomeSent(t.workers) <==> SomeSent(s.workers) by {
      if SomeSent(s.workers) {
        var v :| 0 <= v < |s.workers| && s.workers[v].Sent?;
        assert t.workers[v].Sent?;
      }
    }
    assert InOrder(c, t);
  }

  /** Each safe step keeps the invariant, whichever worker takes it. */
  lemma StepInv<I, O>(c: Config<I, O>, s: State<I, O>, l: Label<I>)
    requires Inv(c, s) && Safe(s, l) && Enabled(c, s, l)
    ensures Inv(c, Apply(c, s, l))
  {
    match l
    case Put(item) => StepPut(c, s, item);
    case Take(w) => StepTake(c, s, w);
    case Finish(w) => StepFinish(c, s, w);
    case Check(w) => StepCheck(c, s, w);
    case Send(w) => StepSend(c, s, w);
    case Bump(w) => StepBump(c, s, w);
    case Notify(w) => StepNotify(c, s, w);
    case SpuriousWakeup(w) => StepSpuriousWakeup(c, s, w);
    case Consume => StepConsume(c, s);
  }

  lemma StepConsume<I, O>(c: Config<I, O>, s: State<I, O>)
    requires Inv(c, s) && s.consumed < |s.out|
    ensures Inv(c, s.(consumed := s.consumed + 1))
  {
    var t := s.(consumed := s.consumed + 1);
    SameHistory(c, s, t);
    forall v | 0 <= v < |t.workers|
      ensures WorkerInv(c, t, t.workers[v])
    {
      assert WorkerInv(c, s, s.workers[v]);
    }
  }

  lemma {:induction false} RunInv<I, O>(c: Config<I, O>, s: State<I, O>, ls: seq<Label<I>>)
    requires Inv(c, s) && Possible(c, s, ls) && AlwaysSafe(c, s, ls)
    ensures Inv(c, After(c, s, ls))
    decreases ls
  {
    if ls != [] {
      StepInv(c, s, ls[0]);
      RunInv(c, Apply(c, s, ls[0]), ls[1..]);
    }
  }

  /** Looking at the counter keeps the invariant exactly when it is safe. */
  lemma CheckSafeIff<I, O>(c: Config<I, O>, s: State<I, O>, w: nat)
    requires Inv(c, s) && Enabled(c, s, Check(w))
    ensures Inv(c, Apply(c, s, Check(w))) <==> Safe(s, Check(w))
  {
    if Safe(s, Check(w)) {
      StepCheck(c, s, w);
    } else {
      UnsafeCheck(c, s, w);
    }
  }

  /** An unsafe look lets a worker through before its turn. */
  lemma UnsafeCheck<I, O>(c: Config<I, O>, s: State<I, O>, w: nat)
    requires Inv(c, s) && Enabled(c, s, Check(w)) && !Safe(s, Check(w))
    ensures var p, t := s.workers[w], Apply(c, s, Check(w));
            && s.passed < p.e.seqno && p.e == EntryAt(s, p.e.seqno) && c.work(p.e.id, p.e.item) == Some(p.o)
            && t.workers[w] == Locked(p.e, p.o) && t.out == s.out && t.consumed == s.consumed
            && |Results(s.out)| == s.passed
            && !Inv(c, t)
  {
    var p, t := s.workers[w], Apply(c, s, Check(w));
    assert WorkerInv(c, s, p);
    TurnExact(s.base, s.passed, p.e.seqno);
    assert !SomeSent(s.workers);
    assert t.workers[w] == Locked(p.e, p.o);
    assert !WorkerInv(c, t, t.workers[w]);
  }

  /** The invariant holds all along a run exactly when the run is safe. */
  lemma {:induction false} RunInvIff<I, O>(c: Config<I, O>, s: State<I, O>, ls: seq<Label<I>>)
    requires Inv(c, s) && Possible(c, s, ls)
    ensures AlwaysInv(c, s, ls) <==> AlwaysSafe(c, s, ls)
    decreases ls
  {
    if ls != [] {
      var t := Apply(c, s, ls[0]);
      if Safe(s, ls[0]) {
        StepInv(c, s, ls[0]);
        RunInvIff(c, t, ls[1..]);
      } else {
        CheckSafeIff(c, s, ls[0].w);
        assert !AlwaysInv(c, t, ls[1..]);
      }
    }
  }

  /** Within 256 entries past the counter every step is safe. */
  lemma BoundedStep<I, O>(c: Config<I, O>, s: State<I, O>, l: Label<I>)
    requires Inv(c, s) && Bounded(s) && Enabled(c, s, l)
    ensures Safe(s, l)
  {
    if l.Check? {
      assert WorkerInv(c, s, s.workers[l.w]);
    }
  }

  lemma {:induction false} BoundedSafe<I, O>(c: Config<I, O>, s: State<I, O>, ls: seq<Label<I>>)
    requires Inv(c, s) && Possible(c, s, ls) && AlwaysBounded(c, s, ls)
    ensures AlwaysSafe(c, s, ls)
    decreases ls
  {
    if ls != [] {
      BoundedStep(c, s, ls[0]);
      StepInv(c, s, ls[0]);
      BoundedSafe(c, Apply(c, s, ls[0]), ls[1..]);
    }
  }

  // ---------------------------------------------------------------------------------------------
  // What is released
  // ---------------------------------------------------------------------------------------------

  /** Release order: whatever the schedule, while it is safe the results sent are those of the first entries, in order
      and without a gap. In particular nothing is released past an entry whose work failed. */
  lemma ReleasedInOrder<I, O>(c: Config<I, O>, base: U8, workers: nat, ls: seq<Label<I>>)
    requires Possible(c, Initial(base, workers), ls) && AlwaysSafe(c, Initial(base, workers), ls)
    ensures var s := After(c, Initial(base, workers), ls);
            && |Results(s.out)| <= |s.accepted|
            && (forall n :: 0 <= n < |Results(s.out)| ==>
                  c.work(IdOf(base + n), s.accepted[n]) == Some(Results(s.out)[n]))
            && (forall n :: 0 <= n < |s.accepted| && c.work(IdOf(base + n), s.accepted[n]).None? ==>
                  |Results(s.out)| <= n)
  {
    InitialInv(c, base, workers);
    RunInv(c, Initial(base, workers), ls);
    RunKeepsBase(c, Initial(base, workers), ls);
    var s := After(c, Initial(base, workers), ls);
    forall n | 0 <= n < |Results(s.out)|
      ensures c.work(IdOf(base + n), s.accepted[n]) == Some(Results(s.out)[n])
    {
      assert WorkAt(c, s, n) == Some(Results(s.out)[n]);
    }
  }

  lemma ReleasedResult<I, O>(c: Config<I, O>, base: U8, workers: nat, ls: seq<Label<I>>, n: nat)
    requires Possible(c, Initial(base, workers), ls) && AlwaysSafe(c, Initial(base, workers), ls)
    requires n < |Results(After(c, Initial(base, workers), ls).out)|
    ensures var s := After(c, Initial(base, workers), ls);
            n < |s.accepted| && c.work(IdOf(base + n), s.accepted[n]) == Some(Results(s.out)[n])
  {
    ReleasedInOrder(c, base, workers, ls);
  }

  lemma {:induction false} RunKeepsBase<I, O>(c: Config<I, O>, s: State<I, O>, ls: seq<Label<I>>)
    requires Possible(c, s, ls)
    ensures After(c, s, ls).base == s.base && |After(c, s, ls).workers| == |s.workers|
    decreases ls
  {
    if ls != [] {
      RunKeepsBase(c, Apply(c, s, ls[0]), ls[1..]);
    }
  }

  // ---------------------------------------------------------------------------------------------
  // Without failures, the number of workers bounds how far the entries taken run ahead
  // ---------------------------------------------------------------------------------------------

  ghost predicate Lossless<I(!new), O>(c: Config<I, O>) {
    forall id, item :: c.work(id, item).Some?
  }

  ghost function HeldNumbers<I, O>(workers: seq<Phase<I, O>>): (held: set<int>)
    ensures |held| <= |workers|
    ensures forall n :: Held(workers, n) ==> n in held
  {
    if workers == [] then
      {}
    else
      var last := |workers| - 1;
      var rest := HeldNumbers(workers[..last]);
      assert forall n, w :: HeldBy(workers, n, w) && w < last ==> HeldBy(workers[..last], n, w);
      if workers[last].HoldsEntry() then rest + {workers[last].e.seqno} else rest
  }

  ghost function Range(lo: int, hi: int): (r: set<int>)
    requires lo <= hi
    ensures |r| == hi - lo
    ensures forall n :: n in r <==> lo <= n < hi
    decreases hi - lo
  {
    if lo == hi then {} else Range(lo, hi - 1) + {hi - 1}
  }

  lemma SubsetSize(a: set<int>, b: set<int>)
    requires a <= b
    ensures |a| <= |b|
  {
    assert b == a + (b - a);
  }

  /** Entries taken and not yet passed are all in workers' hands, so there are at most as many as workers. */
  lemma TakenWithinWorkers<I(!new), O>(c: Config<I, O>, s: State<I, O>)
    requires Inv(c, s) && Lossless(c)
    ensures Taken(s) - s.passed <= |s.workers|
  {
    var range := Range(s.passed, Taken(s));
    assert range <= HeldNumbers(s.workers);
    SubsetSize(range, HeldNumbers(s.workers));
  }

  /** With at most 256 workers (a `u8` count is below that) and no failure, the bound and safety come for free. */
  lemma {:induction false} LosslessBounded<I(!new), O>(c: Config<I, O>, s: State<I, O>, ls: seq<Label<I>>)
    requires Inv(c, s) && Lossless(c) && |s.workers| <= 256 && Possible(c, s, ls)
    ensures AlwaysBounded(c, s, ls) && AlwaysSafe(c, s, ls)
    decreases ls
  {
    TakenWithinWorkers(c, s);
    if ls != [] {
      BoundedStep(c, s, ls[0]);
      StepInv(c, s, ls[0]);
      LosslessBounded(c, Apply(c, s, ls[0]), ls[1..]);
    }
  }
}
