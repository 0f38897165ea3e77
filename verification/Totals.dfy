/** The number of elements held by a sequence of buffers. */
module Totals {
  function Total<T>(buffers: seq<seq<T>>): nat {
    if buffers == [] then 0 else |buffers[0]| + Total(buffers[1..])
  }

  lemma {:induction false} TotalUpdate<T>(buffers: seq<seq<T>>, i: nat, v: seq<T>)
    requires i < |buffers|
    ensures Total(buffers[i := v]) + |buffers[i]| == Total(buffers) + |v|
  {
    if i == 0 {
      assert buffers[i := v][1..] == buffers[1..];
    } else {
      TotalUpdate(buffers[1..], i - 1, v);
      assert buffers[i := v][1..] == buffers[1..][i - 1 := v];
    }
  }

  lemma {:induction false} TotalConcat<T>(a: seq<seq<T>>, b: seq<seq<T>>)
    ensures Total(a + b) == Total(a) + Total(b)
  {
    if a == [] {
      assert a + b == b;
    } else {
      TotalConcat(a[1..], b);
      assert (a + b)[1..] == a[1..] + b;
    }
  }

  /** Dropping the first buffer and opening an empty one at the end loses just the first buffer. */
  lemma TotalShift<T>(buffers: seq<seq<T>>)
    requires buffers != []
    ensures Total(buffers[1..] + [[]]) + |buffers[0]| == Total(buffers)
  {
    var last: seq<seq<T>> := [[]];
    assert last[1..] == [];
    TotalConcat(buffers[1..], last);
  }
}
