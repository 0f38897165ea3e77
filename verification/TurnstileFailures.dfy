/** Failed work is reported: one marker for each entry whose work failed and that its worker has put down. */
module TurnstileFailures {
  import opened Words
  import opened Wrappers
  import opened Turnstile
  import opened TurnstileOrder

  /** Entry `n` failed, and no worker holds it any more. */
  ghost predicate PutDown<I, O>(c: Config<I, O>, s: State<I, O>, n: nat)
    requires n < |s.accepted|
  {
    WorkAt(c, s, n).None? && !Held(s.workers, n)
  }

  /** How many of the first `upto` entries failed and were put down. */
  ghost function Lost<I, O>(c: Config<I, O>, s: State<I, O>, upto: nat): nat
    requires upto <= |s.accepted|
  {
    if upto == 0 then 0 else Lost(c, s, upto - 1) + if PutDown(c, s, upto - 1) then 1 else 0
  }

  /** How many of the first `upto` entries fail at all. */
  ghost function Failing<I, O>(c: Config<I, O>, s: State<I, O>, upto: nat): nat
    requires upto <= |s.accepted|
  {
    if upto == 0 then 0 else Failing(c, s, upto - 1) + if WorkAt(c, s, upto - 1).None? then 1 else 0
  }

  /** What was sent is the results and one marker for each failure put down. */
  ghost predicate MarkersExact<I, O>(c: Config<I, O>, s: State<I, O>) {
    0 <= Taken(s) <= |s.accepted| && |s.out| == |Results(s.out)| + Lost(c, s, Taken(s))
  }

  lemma {:induction false} LostSame<I, O>(c: Config<I, O>, s: State<I, O>, t: State<I, O>, upto: nat)
    requires upto <= |s.accepted| && upto <= |t.accepted|
    requires forall n: nat :: n < upto ==> (PutDown(c, s, n) <==> PutDown(c, t, n))
    ensures Lost(c, s, upto) == Lost(c, t, upto)
  {
    if upto > 0 {
      LostSame(c, s, t, upto - 1);
    }
  }

  lemma {:induction false} LostOneMore<I, O>(c: Config<I, O>, s: State<I, O>, t: State<I, O>, upto: nat, m: nat)
    requires m < upto <= |s.accepted| && upto <= |t.accepted|
    requires !PutDown(c, s, m) && PutDown(c, t, m)
    requires forall n: nat :: n < upto && n != m ==> (PutDown(c, s, n) <==> PutDown(c, t, n))
    ensures Lost(c, t, upto) == Lost(c, s, upto) + 1
  {
    if m == upto - 1 {
      LostSame(c, s, t, upto - 1);
    } else {
      LostOneMore(c, s, t, upto - 1, m);
    }
  }

  /** Other entries are held as before when one worker changes its phase. */
  lemma HeldElsewhere<I, O>(workers: seq<Phase<I, O>>, w: nat, p: Phase<I, O>, n: int)
    requires w < |workers| && !HeldBy(workers, n, w) && !(p.HoldsEntry() && p.e.seqno == n)
    ensures Held(workers[w := p], n) <==> Held(workers, n)
  {
    var after := workers[w := p];
    if v :| HeldBy(workers, n, v) {
      assert HeldBy(after, n, v);
    }
    if v :| HeldBy(after, n, v) {
      assert HeldBy(workers, n, v);
    }
  }

  lemma HeldHere<I, O>(workers: seq<Phase<I, O>>, w: nat, p: Phase<I, O>)
    requires w < |workers| && p.HoldsEntry()
    ensures Held(workers[w := p], p.e.seqno)
  {
    assert HeldBy(workers[w := p], p.e.seqno, w);
  }

  /** Once put down by its only holder, an entry is held by nobody. */
  lemma HeldNoMore<I, O>(workers: seq<Phase<I, O>>, w: nat, p: Phase<I, O>)
    requires w < |workers| && Distinct(workers) && workers[w].HoldsEntry() && !p.HoldsEntry()
    ensures !Held(workers[w := p], workers[w].e.seqno)
    ensures Held(workers, workers[w].e.seqno)
  {
    assert HeldBy(workers, workers[w].e.seqno, w);
  }

  ghost predicate SameHeld<I, O>(s: State<I, O>, t: State<I, O>) {
    forall n :: Held(s.workers, n) <==> Held(t.workers, n)
  }

  /** A worker goes on with the entry it has, or with none. */
  lemma SameHolder<I, O>(s: State<I, O>, t: State<I, O>, w: nat, p: Phase<I, O>)
    requires w < |s.workers| && t.workers == s.workers[w := p]
    requires p.HoldsEntry() == s.workers[w].HoldsEntry() && (p.HoldsEntry() ==> p.e == s.workers[w].e)
    ensures SameHeld(s, t)
  {
    forall n
      ensures Held(s.workers, n) <==> Held(t.workers, n)
    {
      if HeldBy(s.workers, n, w) {
        HeldHere(s.workers, w, p);
      } else {
        HeldElsewhere(s.workers, w, p, n);
      }
    }
  }

  lemma WokenHeld<I, O>(workers: seq<Phase<I, O>>, n: int)
    ensures Held(WakeAll(workers), n) <==> Held(workers, n)
  {
    if v :| HeldBy(workers, n, v) {
      assert HeldBy(WakeAll(workers), n, v);
    }
    if v :| HeldBy(WakeAll(workers), n, v) {
      assert HeldBy(workers, n, v);
    }
  }

  /** A step that changes neither who holds what nor how many markers were sent. */
  lemma SameMarkers<I, O>(c: Config<I, O>, s: State<I, O>, t: State<I, O>)
    requires MarkersExact(c, s) && Taken(t) == Taken(s) && t.base == s.base && s.accepted <= t.accepted
    requires SameHeld(s, t) && |t.out| - |Results(t.out)| == |s.out| - |Results(s.out)|
    ensures MarkersExact(c, t)
  {
    SameHistory(c, s, t);
    LostSame(c, s, t, Taken(s));
  }

  lemma TakeMarkers<I, O>(c: Config<I, O>, s: State<I, O>, w: nat)
    requires Inv(c, s) && Enabled(c, s, Take(w)) && MarkersExact(c, s)
    ensures MarkersExact(c, Apply(c, s, Take(w)))
  {
    var t := Apply(c, s, Take(w));
    var e := s.queue[0];
    assert e == EntryAt(s, Taken(s) + 0);
    SameHistory(c, s, t);
    HeldHere(s.workers, w, Working(e));
    forall n: nat | n < Taken(s)
      ensures PutDown(c, s, n) <==> PutDown(c, t, n)
    {
      HeldElsewhere(s.workers, w, Working(e), n);
    }
    LostSame(c, s, t, Taken(s));
  }

  /** A failure puts its entry down and sends the marker. */
  lemma FailMarkers<I, O>(c: Config<I, O>, s: State<I, O>, w: nat)
    requires Inv(c, s) && Enabled(c, s, Finish(w)) && MarkersExact(c, s)
    requires c.work(s.workers[w].e.id, s.workers[w].e.item).None?
    ensures MarkersExact(c, Apply(c, s, Finish(w)))
    ensures Apply(c, s, Finish(w)).out == s.out + [None]
  {
    var t := Apply(c, s, Finish(w));
    var m := s.workers[w].e.seqno;
    var failed: Option<O> := None;
    assert WorkerInv(c, s, s.workers[w]);
    ResultsConcat(s.out, [failed]);
    assert Results([failed]) == [];
    SameHistory(c, s, t);
    HeldNoMore(s.workers, w, Idle);
    forall n: nat | n < Taken(s) && n != m
      ensures PutDown(c, s, n) <==> PutDown(c, t, n)
    {
      HeldElsewhere(s.workers, w, Idle, n);
    }
    assert WorkAt(c, s, m).None?;
    LostOneMore(c, s, t, Taken(s), m);
  }

  lemma BumpMarkers<I, O>(c: Config<I, O>, s: State<I, O>, w: nat)
    requires Inv(c, s) && w < |s.workers| && s.workers[w].Sent? && MarkersExact(c, s)
    ensures MarkersExact(c, Bumped(s, w))
  {
    var t := Bumped(s, w);
    var m := s.workers[w].e.seqno;
    assert WorkerInv(c, s, s.workers[w]);
    SameHistory(c, s, t);
    forall n: nat | n < Taken(s)
      ensures PutDown(c, s, n) <==> PutDown(c, t, n)
    {
      if n == m {
        assert WorkAt(c, s, m).Some?;
      } else {
        HeldElsewhere(s.workers, w, Notifying, n);
      }
    }
    LostSame(c, s, t, Taken(s));
  }

  lemma NotifyMarkers<I, O>(c: Config<I, O>, s: State<I, O>, w: nat)
    requires Inv(c, s) && Enabled(c, s, Notify(w)) && MarkersExact(c, s)
    ensures MarkersExact(c, Apply(c, s, Notify(w)))
  {
    var t := Apply(c, s, Notify(w));
    forall n
      ensures Held(s.workers, n) <==> Held(t.workers, n)
    {
      HeldElsewhere(s.workers, w, Idle, n);
      WokenHeld(s.workers[w := Idle], n);
    }
    SameMarkers(c, s, t);
  }

  lemma SendMarkers<I, O>(c: Config<I, O>, s: State<I, O>, w: nat)
    requires Inv(c, s) && Enabled(c, s, Send(w)) && MarkersExact(c, s)
    ensures MarkersExact(c, Apply(c, s, Send(w)))
  {
    var p, t := s.workers[w], Apply(c, s, Send(w));
    ResultsConcat(s.out, [Some(p.o)]);
    assert Results([Some(p.o)]) == [p.o];
    SameHolder(s, t, w, t.workers[w]);
    SameMarkers(c, s, t);
  }

  /** A worker goes on with its entry and sends nothing. */
  lemma QuietMarkers<I, O>(c: Config<I, O>, s: State<I, O>, l: Label<I>)
    requires Inv(c, s) && Enabled(c, s, l) && MarkersExact(c, s)
    requires l.Check? || l.SpuriousWakeup?
             || (l.Finish? && c.work(s.workers[l.w].e.id, s.workers[l.w].e.item).Some?)
    ensures MarkersExact(c, Apply(c, s, l))
  {
    var t := Apply(c, s, l);
    SameHolder(s, t, l.w, t.workers[l.w]);
    SameMarkers(c, s, t);
  }

  lemma StepMarkers<I, O>(c: Config<I, O>, s: State<I, O>, l: Label<I>)
    requires Inv(c, s) && Enabled(c, s, l) && MarkersExact(c, s)
    ensures MarkersExact(c, Apply(c, s, l))
  {
    match l
    case Take(w) => TakeMarkers(c, s, w);
    case Finish(w) =>
      if c.work(s.workers[w].e.id, s.workers[w].e.item).None? {
        FailMarkers(c, s, w);
      } else {
        QuietMarkers(c, s, l);
      }
    case Send(w) => SendMarkers(c, s, w);
    case Bump(w) => BumpMarkers(c, s, w);
    case Notify(w) => NotifyMarkers(c, s, w);
    case Check(_) => QuietMarkers(c, s, l);
    case SpuriousWakeup(_) => QuietMarkers(c, s, l);
    case _ => SameMarkers(c, s, Apply(c, s, l));
  }

  /** In every safe run the markers sent are exactly as many as the entries taken whose work failed and that no worker
      holds any more. */
  lemma {:induction false} RunMarkers<I, O>(c: Config<I, O>, s: State<I, O>, ls: seq<Label<I>>)
    requires Inv(c, s) && Possible(c, s, ls) && AlwaysSafe(c, s, ls) && MarkersExact(c, s)
    ensures MarkersExact(c, After(c, s, ls))
    decreases ls
  {
    if ls != [] {
      StepMarkers(c, s, ls[0]);
      StepInv(c, s, ls[0]);
      RunMarkers(c, Apply(c, s, ls[0]), ls[1..]);
    }
  }

  lemma {:induction false} LostAll<I, O>(c: Config<I, O>, s: State<I, O>, upto: nat)
    requires upto <= |s.accepted| && forall n: nat :: n < upto && WorkAt(c, s, n).None? ==> !Held(s.workers, n)
    ensures Lost(c, s, upto) == Failing(c, s, upto)
  {
    if upto > 0 {
      LostAll(c, s, upto - 1);
    }
  }

  /** At rest, every failure among the entries taken has its marker. */
  lemma AllReported<I(!new), O>(c: Config<I, O>, s: State<I, O>)
    requires c.room.None? && Inv(c, s) && MarkersExact(c, s) && Stuck(c, s)
    ensures 0 <= Taken(s) <= |s.accepted| && |s.out| == |Results(s.out)| + Failing(c, s, Taken(s))
  {
    StuckPhases(c, s);
    forall n: nat | n < Taken(s) && WorkAt(c, s, n).None?
      ensures !Held(s.workers, n)
    {
      forall w
        ensures !HeldBy(s.workers, n, w)
      {
        assert 0 <= w < |s.workers| ==> WorkerInv(c, s, s.workers[w]);
      }
    }
    LostAll(c, s, Taken(s));
  }

  lemma {:induction false} NoneFailing<I, O>(c: Config<I, O>, s: State<I, O>, upto: nat)
    requires upto <= |s.accepted|
    ensures Lost(c, s, upto) <= Failing(c, s, upto)
    ensures Failing(c, s, upto) == 0 <==> forall n: nat :: n < upto ==> WorkAt(c, s, n).Some?
  {
    if upto > 0 {
      NoneFailing(c, s, upto - 1);
    }
  }
}
