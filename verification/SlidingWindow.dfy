/** The same worker with unbounded block numbers: no wrap-around, no flags, just a window of 127 buffers that
    starts at the first block not yet handed over. */
module SlidingWindow {
  import opened Sequences
  import opened Totals
  import opened ReblockModel

  const WIDTH := WINDOW_WIDTH as int

  /** A packet together with the number of the sender block it was cut from. */
  datatype Numbered = Numbered(n: int, packet: Packet)

  type Slots = s: seq<seq<Numbered>> | |s| == WIDTH witness seq(WIDTH, _ => [])

  /** `slots[i]` buffers block `k + i`. */
  datatype Window = Window(k: int, slots: Slots)

  datatype Group = Group(n: int, packets: seq<Numbered>)

  datatype Progress = Progress(window: Window, groups: seq<Group>)

  function Fresh(k: int): Window {
    Window(k, seq(WIDTH, _ => []))
  }

  predicate Covers(w: Window, n: int) {
    w.k <= n < w.k + WIDTH
  }

  function Put(w: Window, x: Numbered): Window {
    if Covers(w, x.n) then w.(slots := w.slots[x.n - w.k := w.slots[x.n - w.k] + [x]]) else w
  }

  function PutAll(w: Window, xs: seq<Numbered>): Window
    decreases xs
  {
    if xs == [] then w else PutAll(Put(w, xs[0]), xs[1..])
  }

  function Shift(w: Window): Window {
    Window(w.k + 1, w.slots[1..] + [[]])
  }

  function Release(w: Window, min: nat): Progress
    requires 1 <= min
    decreases Total(w.slots)
  {
    if |w.slots[0]| < min then
      Progress(w, [])
    else
      TotalShift(w.slots);
      var rest := Release(Shift(w), min);
      Progress(rest.window, [Group(w.k, w.slots[0])] + rest.groups)
  }

  function Feed(w: Window, xs: seq<Numbered>, min: nat): Progress
    requires 1 <= min
  {
    Release(PutAll(w, xs), min)
  }

  function FeedAll(w: Window, batches: seq<seq<Numbered>>, min: nat): Progress
    requires 1 <= min
    decreases batches
  {
    if batches == [] then
      Progress(w, [])
    else
      var first := Feed(w, batches[0], min);
      var rest := FeedAll(first.window, batches[1..], min);
      Progress(rest.window, first.groups + rest.groups)
  }

  // ---------------------------------------------------------------------------------------------
  // What a window holds, block by block
  // ---------------------------------------------------------------------------------------------

  /** The packets of block `n`, in arrival order. */
  function OfBlock(xs: seq<Numbered>, n: int): seq<Numbered> {
    if xs == [] then [] else (if xs[0].n == n then [xs[0]] else []) + OfBlock(xs[1..], n)
  }

  function Flatten(batches: seq<seq<Numbered>>): seq<Numbered> {
    if batches == [] then [] else batches[0] + Flatten(batches[1..])
  }

  /** What is buffered for block `n`; nothing outside the window. */
  function Slot(w: Window, n: int): seq<Numbered> {
    if Covers(w, n) then w.slots[n - w.k] else []
  }

  /** The packets a window takes in, over a whole run. */
  function Accepted(w: Window, batches: seq<seq<Numbered>>, min: nat): seq<Numbered>
    requires 1 <= min
    decreases batches
  {
    if batches == [] then
      []
    else
      Admitted(w, batches[0]) + Accepted(Feed(w, batches[0], min).window, batches[1..], min)
  }

  function Admitted(w: Window, xs: seq<Numbered>): seq<Numbered> {
    if xs == [] then [] else (if Covers(w, xs[0].n) then [xs[0]] else []) + Admitted(w, xs[1..])
  }

  lemma {:induction false} OfBlockConcat(a: seq<Numbered>, b: seq<Numbered>, n: int)
    ensures OfBlock(a + b, n) == OfBlock(a, n) + OfBlock(b, n)
  {
    if a == [] {
      assert a + b == b;
    } else {
      var first := if a[0].n == n then [a[0]] else [];
      OfBlockConcat(a[1..], b, n);
      assert (a + b)[1..] == a[1..] + b;
      Associative(first, OfBlock(a[1..], n), OfBlock(b, n));
    }
  }

  lemma {:induction false} OfBlockAbsent(xs: seq<Numbered>, n: int)
    requires forall x <- xs :: x.n != n
    ensures OfBlock(xs, n) == []
  {
    if xs != [] {
      OfBlockAbsent(xs[1..], n);
    }
  }

  lemma {:induction false} OfBlockAdmitted(w: Window, xs: seq<Numbered>, n: int)
    ensures OfBlock(Admitted(w, xs), n) == if Covers(w, n) then OfBlock(xs, n) else []
    ensures forall x <- Admitted(w, xs) :: Covers(w, x.n) && x in xs
  {
    if xs != [] {
      OfBlockAdmitted(w, xs[1..], n);
      OfBlockConcat(if Covers(w, xs[0].n) then [xs[0]] else [], Admitted(w, xs[1..]), n);
    }
  }

  lemma PutSlot(w: Window, x: Numbered, n: int)
    ensures Slot(Put(w, x), n) == Slot(w, n) + if Covers(w, n) && x.n == n then [x] else []
  {
  }

  lemma {:induction false} PutAllSlot(w: Window, xs: seq<Numbered>, n: int)
    ensures PutAll(w, xs).k == w.k
    ensures Slot(PutAll(w, xs), n) == Slot(w, n) + if Covers(w, n) then OfBlock(xs, n) else []
    decreases xs
  {
    if xs != [] {
      var first := if xs[0].n == n then [xs[0]] else [];
      PutSlot(w, xs[0], n);
      PutAllSlot(Put(w, xs[0]), xs[1..], n);
      Associative(Slot(w, n), first, OfBlock(xs[1..], n));
    }
  }

  // ---------------------------------------------------------------------------------------------
  // Conservation
  // ---------------------------------------------------------------------------------------------

  /** Where the packets of block `n` are once a window `w` took in `log`: all in the group of that block if
      the cursor passed it, all in its buffer otherwise, in arrival order either way. */
  ghost predicate Fate(w: Window, log: seq<Numbered>, r: Progress, min: nat, n: int) {
    && (w.k <= n < w.k + |r.groups| ==>
          r.groups[n - w.k] == Group(n, Slot(w, n) + OfBlock(log, n)) && |r.groups[n - w.k].packets| >= min)
    && (n >= r.window.k ==> Slot(r.window, n) == Slot(w, n) + OfBlock(log, n))
  }

  /** Every accepted packet is in exactly one place, and groups carry consecutive numbers. */
  ghost predicate Conserved(w: Window, log: seq<Numbered>, r: Progress, min: nat) {
    && r.window.k == w.k + |r.groups|
    && (forall n :: Fate(w, log, r, min, n))
    && (forall x <- log :: w.k <= x.n < r.window.k + WIDTH)
  }

  /** Releasing hands over, in order, whole buffers that reached the threshold, stops at the first that did
      not, and leaves every later buffer alone. */
  lemma {:induction false} ReleaseFacts(w: Window, min: nat)
    requires 1 <= min
    ensures Conserved(w, [], Release(w, min), min)
    ensures |Release(w, min).window.slots[0]| < min
    decreases Total(w.slots)
  {
    if |w.slots[0]| >= min {
      TotalShift(w.slots);
      ReleaseFacts(Shift(w), min);
      forall n
        ensures Fate(w, [], Release(w, min), min, n)
      {
        assert Fate(Shift(w), [], Release(Shift(w), min), min, n);
        assert n > w.k ==> Slot(Shift(w), n) == Slot(w, n);
      }
    } else {
      assert forall n :: Slot(w, n) + OfBlock([], n) == Slot(w, n);
    }
  }

  /** One batch: the window takes in what it covers, and the leading blocks that reach the threshold go out. */
  lemma FeedFacts(w: Window, xs: seq<Numbered>, min: nat)
    requires 1 <= min
    ensures Conserved(w, Admitted(w, xs), Feed(w, xs, min), min)
    ensures |Feed(w, xs, min).window.slots[0]| < min
  {
    var full := PutAll(w, xs);
    var r := Feed(w, xs, min);
    PutAllSlot(w, xs, w.k);
    ReleaseFacts(full, min);
    forall n
      ensures Fate(w, Admitted(w, xs), r, min, n)
    {
      PutAllSlot(w, xs, n);
      OfBlockAdmitted(w, xs, n);
      assert Fate(full, [], r, min, n);
    }
    OfBlockAdmitted(w, xs, w.k);
  }

  /** A single batch releases at most 127 blocks. */
  lemma FeedBound(w: Window, xs: seq<Numbered>, min: nat)
    requires 1 <= min
    ensures |Feed(w, xs, min).groups| <= WIDTH
  {
    var r := Feed(w, xs, min);
    FeedFacts(w, xs, min);
    OfBlockAdmitted(w, xs, w.k + WIDTH);
    assert Fate(w, Admitted(w, xs), r, min, w.k + WIDTH);
  }

  /** One run after another. */
  lemma ConservedThrough(w: Window, a: seq<Numbered>, first: Progress, b: seq<Numbered>, rest: Progress, min: nat)
    requires Conserved(w, a, first, min) && Conserved(first.window, b, rest, min)
    ensures Conserved(w, a + b, Progress(rest.window, first.groups + rest.groups), min)
  {
    var r := Progress(rest.window, first.groups + rest.groups);
    forall n
      ensures Fate(w, a + b, r, min, n)
    {
      assert Fate(w, a, first, min, n) && Fate(first.window, b, rest, min, n);
      OfBlockConcat(a, b, n);
      if n < first.window.k {
        OfBlockAbsent(b, n);
      }
    }
  }

  lemma {:induction false} Conservation(w: Window, batches: seq<seq<Numbered>>, min: nat)
    requires 1 <= min
    ensures Conserved(w, Accepted(w, batches, min), FeedAll(w, batches, min), min)
    ensures batches != [] ==> |FeedAll(w, batches, min).window.slots[0]| < min
    decreases batches
  {
    if batches == [] {
      assert forall n :: Slot(w, n) + OfBlock([], n) == Slot(w, n);
    } else {
      var a := Admitted(w, batches[0]);
      var first := Feed(w, batches[0], min);
      var b := Accepted(first.window, batches[1..], min);
      FeedFacts(w, batches[0], min);
      Conservation(first.window, batches[1..], min);
      ConservedThrough(w, a, first, b, FeedAll(first.window, batches[1..], min), min);
    }
  }

  // ---------------------------------------------------------------------------------------------
  // Packets of one window: order and batching do not matter
  // ---------------------------------------------------------------------------------------------

  ghost predicate Within(xs: seq<Numbered>, k: int) {
    forall x <- xs :: k <= x.n < k + WIDTH
  }

  /** When all packets lie in a window starting no later than the cursor, a block still waiting has taken in
      all its packets, and any other an initial part of them. */
  lemma {:induction false} AcceptedWithin(w: Window, batches: seq<seq<Numbered>>, min: nat, k: int, n: int)
    requires 1 <= min && k <= w.k && Within(Flatten(batches), k)
    ensures OfBlock(Accepted(w, batches, min), n) <= OfBlock(Flatten(batches), n)
    ensures n >= FeedAll(w, batches, min).window.k ==>
              OfBlock(Accepted(w, batches, min), n) == OfBlock(Flatten(batches), n)
    decreases batches
  {
    if batches != [] {
      var xs, more := batches[0], batches[1..];
      var first := Feed(w, xs, min);
      var rest := Accepted(first.window, more, min);
      FeedFacts(w, xs, min);
      Conservation(first.window, more, min);
      assert Within(xs, k) && Within(Flatten(more), k) by {
        assert forall x <- xs :: x in Flatten(batches);
        assert forall x <- Flatten(more) :: x in Flatten(batches);
      }
      AcceptedWithin(first.window, more, min, k, n);
      OfBlockConcat(xs, Flatten(more), n);
      OfBlockConcat(Admitted(w, xs), rest, n);
      OfBlockAdmitted(w, xs, n);
      if n >= w.k + WIDTH {
        OfBlockAbsent(xs, n);
      }
      if n < first.window.k {
        OfBlockAbsent(rest, n);
      }
      if n < w.k {
        OfBlockAbsent(Admitted(w, xs), n);
      }
    }
  }

  /** The cursor where a run must stop: every earlier block has enough packets and this one has not. */
  ghost predicate StopsAt(w: Window, xs: seq<Numbered>, min: nat, stop: int) {
    && w.k <= stop
    && (forall n :: w.k <= n < stop ==> |Slot(w, n) + OfBlock(xs, n)| >= min)
    && |Slot(w, stop) + OfBlock(xs, stop)| < min
  }

  /** Block `n` after packets `xs` of the current window: an initial part of its packets, long enough to
      decode, went out, or all of them are buffered. */
  ghost predicate Settled(w: Window, xs: seq<Numbered>, r: Progress, min: nat, n: int) {
    && (w.k <= n < w.k + |r.groups| ==>
          var g := r.groups[n - w.k];
          g.n == n && min <= |g.packets| && g.packets <= Slot(w, n) + OfBlock(xs, n))
    && (n >= r.window.k ==> Slot(r.window, n) == Slot(w, n) + OfBlock(xs, n))
  }

  /** Feeding packets of the current window, in any batches: the cursor stops at the first block short of
      packets, the blocks from there on hold all their packets, and each group is an initial part of its
      block's packets, long enough to decode. */
  lemma FeedWithin(w: Window, batches: seq<seq<Numbered>>, min: nat)
    requires 1 <= min && Within(Flatten(batches), w.k)
    requires |w.slots[0]| < min || batches != []
    ensures var r := FeedAll(w, batches, min);
            && StopsAt(w, Flatten(batches), min, r.window.k)
            && |r.groups| == r.window.k - w.k
            && (forall n :: Settled(w, Flatten(batches), r, min, n))
  {
    var r := FeedAll(w, batches, min);
    var all := Flatten(batches);
    var log := Accepted(w, batches, min);
    Conservation(w, batches, min);
    forall n
      ensures Settled(w, all, r, min, n)
      ensures w.k <= n < r.window.k ==> |Slot(w, n) + OfBlock(all, n)| >= min
    {
      AcceptedWithin(w, batches, min, w.k, n);
      assert Fate(w, log, r, min, n);
    }
    assert Settled(w, all, r, min, r.window.k);
  }

  lemma StopUnique(w: Window, xs: seq<Numbered>, ys: seq<Numbered>, min: nat, a: int, b: int)
    requires StopsAt(w, xs, min, a) && StopsAt(w, ys, min, b)
    requires forall n :: |OfBlock(xs, n)| == |OfBlock(ys, n)|
    ensures a == b
  {
    assert !(a < b);
  }

  lemma {:induction false} OfBlockCount(xs: seq<Numbered>, n: int, x: Numbered)
    ensures multiset(OfBlock(xs, n))[x] == if x.n == n then multiset(xs)[x] else 0
  {
    if xs != [] {
      assert xs == [xs[0]] + xs[1..];
      OfBlockCount(xs[1..], n, x);
    }
  }

  lemma OfBlockPermuted(xs: seq<Numbered>, ys: seq<Numbered>, n: int)
    requires multiset(xs) == multiset(ys)
    ensures multiset(OfBlock(xs, n)) == multiset(OfBlock(ys, n))
    ensures |OfBlock(xs, n)| == |OfBlock(ys, n)|
  {
    forall x
      ensures multiset(OfBlock(xs, n))[x] == multiset(OfBlock(ys, n))[x]
    {
      OfBlockCount(xs, n, x);
      OfBlockCount(ys, n, x);
    }
    assert |OfBlock(xs, n)| == |multiset(OfBlock(xs, n))|;
    assert |OfBlock(ys, n)| == |multiset(OfBlock(ys, n))|;
  }

  ghost predicate SamePackets(r: Window, t: Window, n: int) {
    multiset(Slot(r, n)) == multiset(Slot(t, n))
  }

  /** Reordering: the same packets of the current window, permuted and batched in any other way, release the
      same blocks and leave the same packets buffered for every other block. */
  lemma ReorderTolerance(w: Window, batches: seq<seq<Numbered>>, others: seq<seq<Numbered>>, min: nat)
    requires 1 <= min && |w.slots[0]| < min
    requires Within(Flatten(batches), w.k) && multiset(Flatten(batches)) == multiset(Flatten(others))
    ensures var r, t := FeedAll(w, batches, min), FeedAll(w, others, min);
            && r.window.k == t.window.k == w.k + |r.groups| == w.k + |t.groups|
            && (forall n :: n >= r.window.k ==> SamePackets(r.window, t.window, n))
  {
    var xs, ys := Flatten(batches), Flatten(others);
    var r, t := FeedAll(w, batches, min), FeedAll(w, others, min);
    assert forall y <- ys :: y in multiset(xs);
    FeedWithin(w, batches, min);
    FeedWithin(w, others, min);
    forall n
      ensures |OfBlock(xs, n)| == |OfBlock(ys, n)|
    {
      OfBlockPermuted(xs, ys, n);
    }
    StopUnique(w, xs, ys, min, r.window.k, t.window.k);
    forall n | n >= r.window.k
      ensures SamePackets(r.window, t.window, n)
    {
      OfBlockPermuted(xs, ys, n);
      assert Settled(w, xs, r, min, n) && Settled(w, ys, t, min, n);
    }
  }
}
