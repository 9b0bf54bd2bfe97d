/** `Array.prototype.sort` with a name comparator. The collation itself
    (`localeCompare(…, "zh-Hans-CN")`) is a parameter: `le(a, b)` holds when
    name `a` may come before name `b`. */
module Sorting {

  ghost predicate TotalPreorder(le: (string, string) -> bool) {
    && (forall a, b :: le(a, b) || le(b, a))
    && (forall a, b, c :: le(a, b) && le(b, c) ==> le(a, c))
  }

  ghost predicate SortedBy<T>(xs: seq<T>, key: T -> string, le: (string, string) -> bool) {
    forall i, j :: 0 <= i < j < |xs| ==> le(key(xs[i]), key(xs[j]))
  }

  /** Places `x` after every element that may precede it, so equal names keep
      their order. */
  function Insert<T>(x: T, xs: seq<T>, key: T -> string, le: (string, string) -> bool): seq<T> {
    if xs == [] then [x]
    else if !le(key(xs[0]), key(x)) then [x] + xs
    else [xs[0]] + Insert(x, xs[1..], key, le)
  }

  /** Insertion sort, taking the elements in their original order. */
  function SortBy<T>(xs: seq<T>, key: T -> string, le: (string, string) -> bool): seq<T> {
    if xs == [] then []
    else Insert(xs[|xs| - 1], SortBy(xs[..|xs| - 1], key, le), key, le)
  }

  lemma {:induction false} InsertPermutes<T>(x: T, xs: seq<T>, key: T -> string, le: (string, string) -> bool)
    ensures multiset(Insert(x, xs, key, le)) == multiset(xs) + multiset{x}
  {
    if xs != [] && le(key(xs[0]), key(x)) {
      InsertPermutes(x, xs[1..], key, le);
      assert xs == [xs[0]] + xs[1..];
    }
  }

  lemma {:induction false} InsertSorted<T>(x: T, xs: seq<T>, key: T -> string, le: (string, string) -> bool)
    requires TotalPreorder(le)
    requires SortedBy(xs, key, le)
    ensures SortedBy(Insert(x, xs, key, le), key, le)
  {
    if xs == [] {
    } else if !le(key(xs[0]), key(x)) {
      assert le(key(x), key(xs[0]));
      var r := [x] + xs;
      forall i, j | 0 <= i < j < |r| ensures le(key(r[i]), key(r[j])) {
        if i == 0 && j > 1 {
          assert le(key(xs[0]), key(xs[j - 1]));
        }
      }
    } else {
      var tail := Insert(x, xs[1..], key, le);
      InsertSorted(x, xs[1..], key, le);
      InsertPermutes(x, xs[1..], key, le);
      var r := [xs[0]] + tail;
      forall i, j | 0 <= i < j < |r| ensures le(key(r[i]), key(r[j])) {
        assert r[j] == tail[j - 1];
        if i == 0 {
          var y := tail[j - 1];
          assert y in multiset(tail);
          if y != x {
            assert y in multiset(xs[1..]);
            assert y in xs[1..];
            var k :| 0 <= k < |xs[1..]| && xs[1..][k] == y;
            assert xs[k + 1] == y;
          }
        } else {
          assert r[i] == tail[i - 1];
        }
      }
    }
  }

  /** Under a total preorder the result is ordered by the comparator. */
  lemma {:induction false} SortBySorts<T>(xs: seq<T>, key: T -> string, le: (string, string) -> bool)
    requires TotalPreorder(le)
    ensures SortedBy(SortBy(xs, key, le), key, le)
  {
    if xs != [] {
      var init := xs[..|xs| - 1];
      SortBySorts(init, key, le);
      InsertSorted(xs[|xs| - 1], SortBy(init, key, le), key, le);
    }
  }

  /** Whatever the comparator, the result holds exactly the input's elements,
      as many times each. */
  lemma {:induction false} SortByPermutes<T>(xs: seq<T>, key: T -> string, le: (string, string) -> bool)
    ensures multiset(SortBy(xs, key, le)) == multiset(xs)
    ensures |SortBy(xs, key, le)| == |xs|
  {
    if xs != [] {
      var init := xs[..|xs| - 1];
      SortByPermutes(init, key, le);
      InsertPermutes(xs[|xs| - 1], SortBy(init, key, le), key, le);
      assert xs == init + [xs[|xs| - 1]];
      assert |multiset(SortBy(xs, key, le))| == |multiset(xs)|;
    }
  }
}
