/** Facts about sequences that proofs about concatenation call by name. */
module Sequences {
  lemma Associative<X>(a: seq<X>, b: seq<X>, c: seq<X>)
    ensures a + (b + c) == (a + b) + c
  {
  }

  lemma SplitAt<X>(s: seq<X>, i: nat)
    requires i < |s|
    ensures s == s[..i] + ([s[i]] + s[i + 1..])
  {
  }

  lemma SplitLast<X>(s: seq<X>, t: seq<X>)
    requires t != []
    ensures t == t[..|t| - 1] + [t[|t| - 1]]
    ensures s + t == (s + t[..|t| - 1]) + [t[|t| - 1]]
  {
  }

  /** The four parts of a concatenation. */
  lemma FourParts<X>(a: seq<X>, b: seq<X>, c: seq<X>, d: seq<X>)
    ensures var s, i, j, k := a + b + c + d, |a|, |a| + |b|, |a| + |b| + |c|;
            && |s| == k + |d|
            && s[0..i] == a && s[i..j] == b && s[j..k] == c && s[k..k + |d|] == d
  {
    var s, j, k := a + b + c + d, |a| + |b|, |a| + |b| + |c|;
    assert s[..k] == a + b + c;
    assert (a + b + c)[..j] == a + b;
    assert s[..j] == a + b;
  }

  /** The whole of a sequence, read up to its end. */
  lemma UpToTheEnd<X>(done: seq<X>, all: seq<X>, position: nat)
    requires position == |all| && done == all[..position]
    ensures done == all
  {
  }

  lemma Adjacent<X>(s: seq<X>, i: nat, j: nat, k: nat)
    requires i <= j <= k <= |s|
    ensures s[i..j] + s[j..k] == s[i..k]
  {
  }

  lemma PartOfPart<X>(s: seq<X>, i: nat, k: nat, a: nat, b: nat)
    requires a <= b <= k - i && k <= |s|
    ensures s[i..k][a..b] == s[i + a..i + b]
  {
    forall j | 0 <= j < b - a
      ensures s[i..k][a..b][j] == s[i + a..i + b][j]
    {
      assert s[i..k][a + j] == s[i + (a + j)];
    }
  }

  lemma TailPart<X>(s: seq<X>, i: nat, k: nat)
    requires i <= k < |s|
    ensures s[i..][k - i] == s[k] && s[i..][..k - i] == s[i..k]
  {
  }
}
