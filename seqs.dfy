/** Small facts about sequences, stated once for any element type so that
    the solver never unfolds the elements (strings are sequences too). */
module Seqs {

  lemma TakeAll<T>(xs: seq<T>)
    ensures xs[..|xs|] == xs
  {
  }

  lemma TakeTake<T>(xs: seq<T>, i: nat)
    requires i < |xs|
    ensures xs[..i + 1][..i] == xs[..i]
  {
  }

  lemma InitOfSnoc<T>(xs: seq<T>, x: T)
    ensures (xs + [x])[..|xs|] == xs
    ensures (xs + [x])[|xs|] == x
  {
  }

  /** A sequence is its front part followed by its last element. */
  lemma SnocEq<T>(s: seq<T>, xs: seq<T>, x: T)
    requires |s| == |xs| + 1 && s[..|xs|] == xs && s[|xs|] == x
    ensures s == xs + [x]
  {
  }

  lemma InitOfConcat<T>(a: seq<T>, c: seq<T>)
    requires c != []
    ensures (a + c)[..|a + c| - 1] == a + c[..|c| - 1]
    ensures (a + c)[|a + c| - 1] == c[|c| - 1]
  {
  }

  lemma ConcatEmpty<T>(a: seq<T>)
    ensures a + [] == a && [] + a == a
  {
  }

  lemma ConcatAssoc<T>(a: seq<T>, b: seq<T>, c: seq<T>)
    ensures (a + b) + c == a + (b + c)
  {
  }

  lemma TakeIndex<T>(xs: seq<T>, n: nat, i: nat)
    requires i < n <= |xs|
    ensures xs[..n][i] == xs[i]
  {
  }

  lemma SplitAt<T>(xs: seq<T>, i: nat)
    requires i <= |xs|
    ensures xs == xs[..i] + xs[i..]
  {
  }

  lemma TakeOfTake<T>(xs: seq<T>, n: nat, m: nat)
    requires m <= n <= |xs|
    ensures xs[..n][..m] == xs[..m]
  {
  }

  lemma SplitAround<T>(xs: seq<T>, j: nat)
    requires j < |xs|
    ensures xs == (xs[..j] + [xs[j]]) + xs[j + 1..]
  {
  }

  lemma MultisetRemove<T>(xs: seq<T>, j: nat)
    requires j < |xs|
    ensures multiset(xs[..j] + xs[j + 1..]) == multiset(xs) - multiset{xs[j]}
  {
    assert xs == xs[..j] + [xs[j]] + xs[j + 1..];
  }

  lemma MultisetInit<T>(xs: seq<T>)
    requires xs != []
    ensures multiset(xs[..|xs| - 1]) == multiset(xs) - multiset{xs[|xs| - 1]}
  {
    assert xs == xs[..|xs| - 1] + [xs[|xs| - 1]];
  }

  lemma InMultiset<T>(xs: seq<T>, x: T)
    requires x in multiset(xs)
    ensures exists j :: 0 <= j < |xs| && xs[j] == x
  {
    assert x in xs;
  }

  lemma Unit<T>(x: T)
    ensures [x][..0] == [] && [x][0] == x
  {
  }

  /** Membership in a non-empty sequence: in its front part or its last element. */
  lemma InLastSplit<T>(xs: seq<T>, x: T)
    requires xs != []
    ensures x in xs <==> x in xs[..|xs| - 1] || x == xs[|xs| - 1]
  {
    if x in xs {
      var i :| 0 <= i < |xs| && xs[i] == x;
      if i < |xs| - 1 {
        assert xs[..|xs| - 1][i] == x;
      }
    }
    if x in xs[..|xs| - 1] {
      var i :| 0 <= i < |xs| - 1 && xs[..|xs| - 1][i] == x;
      assert xs[i] == x;
    }
  }
}
