/** When exactly a turnstile releases in order, where it stops, and how a full turn of its 8-bit counter defeats it. */
module TurnstileOrder {
  import opened Words
  import opened Wrappers
  import opened Turnstile

  /** Every result sent is that of the first entry whose result was not sent yet. */
  ghost predicate InTurn<I, O>(c: Config<I, O>, s: State<I, O>, ls: seq<Label<I>>)
    requires Possible(c, s, ls)
    decreases ls
  {
    ls == [] || (
      && (ls[0].Send? ==> s.workers[ls[0].w].e.seqno == |Results(s.out)|)
      && InTurn(c, Apply(c, s, ls[0]), ls[1..]))
  }

  lemma {:induction false} SafeInTurn<I, O>(c: Config<I, O>, s: State<I, O>, ls: seq<Label<I>>)
    requires Inv(c, s) && Possible(c, s, ls) && AlwaysSafe(c, s, ls)
    ensures InTurn(c, s, ls)
    decreases ls
  {
    if ls != [] {
      if ls[0].Send? {
        AloneWithNext(c, s, ls[0].w);
      }
      StepInv(c, s, ls[0]);
      SafeInTurn(c, Apply(c, s, ls[0]), ls[1..]);
    }
  }

  lemma OneStep<I, O>(c: Config<I, O>, s: State<I, O>, l: Label<I>)
    requires Enabled(c, s, l)
    ensures Possible(c, s, [l]) && After(c, s, [l]) == Apply(c, s, l)
    ensures InTurn(c, s, [l]) <==> (l.Send? ==> s.workers[l.w].e.seqno == |Results(s.out)|)
  {
    var one, none: seq<Label<I>> := [l], [];
    assert one[1..] == none;
    assert Possible(c, Apply(c, s, l), none) && After(c, Apply(c, s, l), none) == Apply(c, s, l);
    assert InTurn(c, Apply(c, s, l), none);
  }

  lemma TwoSteps<I, O>(c: Config<I, O>, s: State<I, O>, a: Label<I>, b: Label<I>)
    requires Enabled(c, s, a) && Enabled(c, Apply(c, s, a), b)
    ensures Possible(c, s, [a, b]) && After(c, s, [a, b]) == Apply(c, Apply(c, s, a), b)
    ensures b.Send? && Apply(c, s, a).workers[b.w].e.seqno != |Results(Apply(c, s, a).out)| ==> !InTurn(c, s, [a, b])
  {
    var both, last: seq<Label<I>> := [a, b], [b];
    assert both[0] == a && both[1..] == last;
    OneStep(c, Apply(c, s, a), b);
  }

  /** After an unsafe look the worker can send, and its result takes the place of another entry's. */
  lemma UnsafeRelease<I, O>(c: Config<I, O>, s: State<I, O>, w: nat)
    requires c.room.None? && Inv(c, s) && Enabled(c, s, Check(w)) && !Safe(s, Check(w))
    ensures var p := s.workers[w];
            && Possible(c, s, [Check(w), Send(w)]) && !InTurn(c, s, [Check(w), Send(w)])
            && s.passed < p.e.seqno < |s.accepted| && WorkAt(c, s, p.e.seqno) == Some(p.o)
            && |Results(s.out)| == s.passed
            && Results(After(c, s, [Check(w), Send(w)]).out) == Results(s.out) + [p.o]
  {
    var p := s.workers[w];
    UnsafeCheck(c, s, w);
    TwoSteps(c, s, Check(w), Send(w));
    assert WorkerInv(c, s, p);
    ResultsConcat(s.out, [Some(p.o)]);
    assert Results([Some(p.o)]) == [p.o];
  }

  /** `ms` is an initial part of `ls`, or one with a Send after it. */
  ghost predicate PartAndSend<I>(ms: seq<Label<I>>, ls: seq<Label<I>>) {
    ms <= ls || (ms != [] && ms[..|ms| - 1] <= ls && ms[|ms| - 1].Send?)
  }

  lemma PartTail<I>(ms: seq<Label<I>>, ls: seq<Label<I>>)
    requires ls != [] && ms != [] && ms[0] == ls[0]
    ensures PartAndSend(ms, ls) <==> PartAndSend(ms[1..], ls[1..]) || (|ms| == 1 && ms[0].Send?)
  {
    if |ms| > 1 {
      assert ms[1..][..|ms| - 2] == ms[..|ms| - 1][1..];
      assert ms[..|ms| - 1] == [ms[0]] + ms[..|ms| - 1][1..];
    }
    assert ls == [ls[0]] + ls[1..] && ms == [ms[0]] + ms[1..];
  }

  lemma {:induction false} PartSafe<I, O>(c: Config<I, O>, s: State<I, O>, ms: seq<Label<I>>, ls: seq<Label<I>>)
    requires Possible(c, s, ms) && Possible(c, s, ls) && AlwaysSafe(c, s, ls) && PartAndSend(ms, ls)
    ensures AlwaysSafe(c, s, ms)
    decreases ms
  {
    if ms != [] && !(|ms| == 1 && ms[0].Send?) {
      assert |ms| > 1 ==> ms[..|ms| - 1][0] == ms[0];
      PartTail(ms, ls);
      PartSafe(c, Apply(c, s, ms[0]), ms[1..], ls[1..]);
    }
  }

  /** An unsafe run can be cut short and end in a release out of turn. */
  lemma {:induction false} UnsafeBreaks<I, O>(c: Config<I, O>, s: State<I, O>, ls: seq<Label<I>>)
    returns (ms: seq<Label<I>>)
    requires c.room.None? && Inv(c, s) && Possible(c, s, ls) && !AlwaysSafe(c, s, ls)
    ensures PartAndSend(ms, ls) && Possible(c, s, ms) && !InTurn(c, s, ms)
    decreases ls
  {
    if Safe(s, ls[0]) {
      StepInv(c, s, ls[0]);
      var rest := UnsafeBreaks(c, Apply(c, s, ls[0]), ls[1..]);
      ms := [ls[0]] + rest;
      assert ms[1..] == rest;
      PartTail(ms, ls);
    } else {
      var w := ls[0].w;
      UnsafeRelease(c, s, w);
      ms := [Check(w), Send(w)];
      assert ms[..1] == [ls[0]] == ls[..1];
    }
  }

  /** Release order, exactly: with unbounded channels, a run is safe if and only if neither it nor any initial part of
      it, possibly with one more result sent, releases anything out of turn. */
  lemma OrderExact<I(!new), O>(c: Config<I, O>, s: State<I, O>, ls: seq<Label<I>>)
    requires c.room.None? && Inv(c, s) && Possible(c, s, ls)
    ensures AlwaysSafe(c, s, ls) <==>
            forall ms :: PartAndSend(ms, ls) && Possible(c, s, ms) ==> InTurn(c, s, ms)
  {
    if AlwaysSafe(c, s, ls) {
      forall ms | PartAndSend(ms, ls) && Possible(c, s, ms)
        ensures InTurn(c, s, ms)
      {
        PartSafe(c, s, ms, ls);
        SafeInTurn(c, s, ms);
      }
    } else {
      var ms := UnsafeBreaks(c, s, ls);
    }
  }

  // ---------------------------------------------------------------------------------------------
  // Where the workers stop
  // ---------------------------------------------------------------------------------------------

  /** No worker and no consumer can take a step. */
  ghost predicate Stuck<I(!new), O>(c: Config<I, O>, s: State<I, O>) {
    forall l :: Enabled(c, s, l) ==> l.Put? || l.SpuriousWakeup?
  }

  lemma StuckPhases<I(!new), O>(c: Config<I, O>, s: State<I, O>)
    requires c.room.None? && Stuck(c, s)
    ensures forall w: nat :: w < |s.workers| ==> s.workers[w].Idle? || s.workers[w].Asleep?
    ensures |s.out| <= s.consumed
    ensures s.queue != [] ==> forall w: nat :: w < |s.workers| ==> s.workers[w].Asleep?
  {
    forall w: nat | w < |s.workers|
      ensures !s.workers[w].Working? && !s.workers[w].Locked? && !s.workers[w].Sent? && !s.workers[w].Notifying?
      ensures s.queue != [] ==> !s.workers[w].Idle?
    {
      assert !Enabled(c, s, Take(w)) && !Enabled(c, s, Finish(w)) && !Enabled(c, s, Send(w));
      assert !Enabled(c, s, Bump(w)) && !Enabled(c, s, Notify(w));
    }
    assert MutexFree(s);
    forall w: nat | w < |s.workers|
      ensures !s.workers[w].Ready?
    {
      assert !Enabled(c, s, Check(w));
    }
    assert !Enabled(c, s, Consume);
  }

  /** Progress: with unbounded channels the workers stop only when everything accepted was released, or at an entry
      whose work failed. Nobody sleeps through its turn. */
  lemma StopsAtFailure<I(!new), O>(c: Config<I, O>, s: State<I, O>)
    requires c.room.None? && Inv(c, s) && Stuck(c, s) && 1 <= |s.workers|
    ensures |Results(s.out)| == s.passed && s.consumed == |s.out|
    ensures s.passed < |s.accepted| ==> WorkAt(c, s, s.passed).None?
  {
    StuckPhases(c, s);
    if s.passed < Taken(s) {
      forall w
        ensures !HeldBy(s.workers, s.passed, w)
      {
      }
      assert !Held(s.workers, s.passed);
    } else {
      assert WorkerInv(c, s, s.workers[0]);
    }
  }

  // ---------------------------------------------------------------------------------------------
  // With failures, a full turn of the counter defeats the order
  // ---------------------------------------------------------------------------------------------

  /** Decoding fails for the first 256 entries and succeeds from then on. */
  function FailingConfig(): Config<int, int> {
    Config(None, (id, item) => if item < 256 then None else Some(item))
  }

  function Counting(count: nat): seq<int> {
    if count == 0 then [] else Counting(count - 1) + [count - 1]
  }

  function Failures(count: nat): seq<Option<int>> {
    if count == 0 then [] else Failures(count - 1) + [None]
  }

  /** One worker, after `count` failed decodes. */
  function Failed(count: nat): State<int, int> {
    State(0, IdOf(count), [], [Idle], 0, Failures(count), 0, Counting(count), 0)
  }

  function FailingRun(count: nat): seq<Label<int>> {
    if count == 0 then [] else FailingRun(count - 1) + [Put(count - 1)] + [Take(0)] + [Finish(0)]
  }

  lemma {:induction false} OneMore<I, O>(c: Config<I, O>, s: State<I, O>, ls: seq<Label<I>>, l: Label<I>)
    requires Possible(c, s, ls) && Enabled(c, After(c, s, ls), l)
    ensures Possible(c, s, ls + [l])
    ensures After(c, s, ls + [l]) == Apply(c, After(c, s, ls), l)
    decreases ls
  {
    if ls == [] {
      assert ls + [l] == [l] && [l][1..] == [];
    } else {
      assert (ls + [l])[1..] == ls[1..] + [l];
      OneMore(c, Apply(c, s, ls[0]), ls[1..], l);
    }
  }

  /** An entry travels to a lone idle worker, which works on it. */
  lemma OneEntry(s: State<int, int>, ls: seq<Label<int>>, item: int)
    requires var c := FailingConfig(); Possible(c, Initial(0, 1), ls) && After(c, Initial(0, 1), ls) == s
    requires s.queue == [] && s.workers == [Idle]
    ensures var c := FailingConfig();
            var ms := ls + [Put(item)] + [Take(0)];
            var e := Entry(s.next, |s.accepted|, item);
            && Possible(c, Initial(0, 1), ms)
            && After(c, Initial(0, 1), ms) ==
                 s.(next := WrappingAdd(s.next, 1), workers := [Working(e)], accepted := s.accepted + [item])
  {
    var c := FailingConfig();
    OneMore(c, Initial(0, 1), ls, Put(item));
    var t := Apply(c, s, Put(item));
    assert t.queue == [Entry(s.next, |s.accepted|, item)];
    OneMore(c, Initial(0, 1), ls + [Put(item)], Take(0));
    assert t.queue[1..] == [];
  }

  /** The lone worker with entry `count` in hand, after `count` failures. */
  function InHand(count: nat): State<int, int>
    requires |Counting(count)| == count
  {
    var s := Failed(count);
    s.(next := WrappingAdd(s.next, 1), workers := [Working(Entry(s.next, count, count))],
       accepted := Counting(count) + [count])
  }

  lemma FailedNext(count: nat)
    requires count < 256 && |Counting(count)| == count
    ensures Enabled(FailingConfig(), InHand(count), Finish(0))
    ensures Apply(FailingConfig(), InHand(count), Finish(0)) == Failed(count + 1)
  {
    assert InHand(count).workers[0 := Idle] == [Idle];
    IdOfShift(count, 1);
  }

  lemma FailOnce(count: nat, ls: seq<Label<int>>)
    requires count < 256 && |Counting(count)| == count
    requires var c := FailingConfig(); Possible(c, Initial(0, 1), ls) && After(c, Initial(0, 1), ls) == Failed(count)
    ensures var c := FailingConfig();
            var ms := ls + [Put(count)] + [Take(0)] + [Finish(0)];
            Possible(c, Initial(0, 1), ms) && After(c, Initial(0, 1), ms) == Failed(count + 1)
  {
    OneEntry(Failed(count), ls, count);
    FailedNext(count);
    OneMore(FailingConfig(), Initial(0, 1), ls + [Put(count)] + [Take(0)], Finish(0));
  }

  lemma {:induction false} FailingRunReaches(count: nat)
    requires count <= 256
    ensures Possible(FailingConfig(), Initial(0, 1), FailingRun(count))
    ensures After(FailingConfig(), Initial(0, 1), FailingRun(count)) == Failed(count)
    ensures |Counting(count)| == count && Results(Failures(count)) == []
  {
    if count == 0 {
      assert Initial<int, int>(0, 1).workers == [Idle];
    } else {
      FailingRunReaches(count - 1);
      FailOnce(count - 1, FailingRun(count - 1));
      var failed: Option<int> := None;
      ResultsConcat(Failures(count - 1), [failed]);
      assert Results([failed]) == [];
    }
  }

  lemma ReleasedAfterFailures(count: nat, ls: seq<Label<int>>) returns (ms: seq<Label<int>>)
    requires count == 256 && |Counting(count)| == count && Results(Failures(count)) == []
    requires var c := FailingConfig(); Possible(c, Initial(0, 1), ls) && After(c, Initial(0, 1), ls) == Failed(count)
    ensures Possible(FailingConfig(), Initial(0, 1), ms)
    ensures Results(After(FailingConfig(), Initial(0, 1), ms).out) == [count]
  {
    var c := FailingConfig();
    var start := Initial<int, int>(0, 1);
    OneEntry(Failed(count), ls, count);
    var taken := ls + [Put(count)] + [Take(0)];
    OneMore(c, start, taken, Finish(0));
    OneMore(c, start, taken + [Finish(0)], Check(0));
    OneMore(c, start, taken + [Finish(0)] + [Check(0)], Send(0));
    ms := taken + [Finish(0)] + [Check(0)] + [Send(0)];
    ResultsConcat(Failures(count), [Some(count)]);
    assert Results([Some(count)]) == [count];
  }

  /** One worker suffices: after 256 failures the 257th entry has the id the counter still waits for, so it is
      released first, although every entry before it was lost. */
  lemma OrderLostAfterFullTurn()
    ensures exists ls ::
              && Possible(FailingConfig(), Initial(0, 1), ls)
              && Results(After(FailingConfig(), Initial(0, 1), ls).out) == [256]
  {
    var count: nat :| count == 256;
    FailingRunReaches(count);
    var ls := ReleasedAfterFailures(count, FailingRun(count));
  }
}
