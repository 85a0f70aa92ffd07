/** A stable descending sort, as Python's `list.sort(key=..., reverse=True)`
    performs it and as the model uses it for MongoDB's `sort(field, -1)`.
    `geq(a, b)` means "a ranks at least as high as b". */
module Sorting {

  /** `geq` is total and transitive: a total preorder. */
  ghost predicate TotalPreorder<T(!new)>(geq: (T, T) -> bool)
  {
    && (forall a, b :: geq(a, b) || geq(b, a))
    && (forall a, b, c :: geq(a, b) && geq(b, c) ==> geq(a, c))
  }

  /** Every element ranks at least as high as every later one. */
  ghost predicate SortedBy<T>(s: seq<T>, geq: (T, T) -> bool)
  {
    forall i, j :: 0 <= i < j < |s| ==> geq(s[i], s[j])
  }

  /** Places `x` in front of the first element it ranks at least as high
      as, so that `x` stays ahead of every element it ties with. */
  function Insert<T>(x: T, ys: seq<T>, geq: (T, T) -> bool): (r: seq<T>)
    ensures multiset(r) == multiset(ys) + multiset{x}
    ensures |r| == |ys| + 1
  {
    if ys == [] || geq(x, ys[0]) then [x] + ys
    else
      assert ys == [ys[0]] + ys[1..];
      [ys[0]] + Insert(x, ys[1..], geq)
  }

  /** Stable insertion sort, highest rank first. */
  function SortDesc<T>(xs: seq<T>, geq: (T, T) -> bool): (r: seq<T>)
    ensures multiset(r) == multiset(xs)
    ensures |r| == |xs|
  {
    if xs == [] then []
    else
      assert xs == [xs[0]] + xs[1..];
      Insert(xs[0], SortDesc(xs[1..], geq), geq)
  }

  lemma {:induction false} InsertSorted<T(!new)>(x: T, ys: seq<T>, geq: (T, T) -> bool)
    requires TotalPreorder(geq)
    requires SortedBy(ys, geq)
    ensures SortedBy(Insert(x, ys, geq), geq)
  {
    if ys == [] || geq(x, ys[0]) {
      var r := [x] + ys;
      forall i, j | 0 <= i < j < |r| ensures geq(r[i], r[j]) {
        if i == 0 && j > 1 {
          assert geq(ys[0], ys[j - 1]);
        }
      }
    } else {
      InsertSorted(x, ys[1..], geq);
      var tail := Insert(x, ys[1..], geq);
      var r := [ys[0]] + tail;
      forall j | 0 <= j < |tail| ensures geq(ys[0], tail[j]) {
        assert tail[j] in multiset(tail);
        if tail[j] != x {
          assert tail[j] in multiset(ys[1..]);
          var k :| 0 <= k < |ys[1..]| && ys[1..][k] == tail[j];
          assert geq(ys[0], ys[k + 1]);
        }
      }
      forall i, j | 0 <= i < j < |r| ensures geq(r[i], r[j]) {
        if i == 0 {
          assert r[j] == tail[j - 1];
        } else {
          assert r[i] == tail[i - 1] && r[j] == tail[j - 1];
        }
      }
    }
  }

  /** The sort returns its input in rank order. */
  lemma {:induction false} SortDescSorted<T(!new)>(xs: seq<T>, geq: (T, T) -> bool)
    requires TotalPreorder(geq)
    ensures SortedBy(SortDesc(xs, geq), geq)
  {
    if xs != [] {
      SortDescSorted(xs[1..], geq);
      InsertSorted(xs[0], SortDesc(xs[1..], geq), geq);
    }
  }

  /** Elements whose `key`s increase along the sequence keep that order
      among the elements they tie with. */
  ghost predicate StableBy<T>(s: seq<T>, geq: (T, T) -> bool, key: T -> int)
  {
    forall i, j :: 0 <= i < j < |s| && geq(s[j], s[i]) ==> key(s[i]) < key(s[j])
  }

  /** Every element of `Insert(x, ys, geq)` is `x` or an element of `ys`. */
  lemma InsertMembers<T>(x: T, ys: seq<T>, geq: (T, T) -> bool, t: T)
    requires t in Insert(x, ys, geq)
    ensures t == x || t in ys
  {
    assert t in multiset(Insert(x, ys, geq));
  }

  lemma {:induction false} InsertStable<T>(x: T, ys: seq<T>, geq: (T, T) -> bool, key: T -> int)
    requires StableBy(ys, geq, key)
    requires forall y :: y in ys ==> key(x) < key(y)
    ensures StableBy(Insert(x, ys, geq), geq, key)
  {
    if ys == [] || geq(x, ys[0]) {
      var r := [x] + ys;
      forall i, j | 0 <= i < j < |r| && geq(r[j], r[i]) ensures key(r[i]) < key(r[j]) {
        if i == 0 {
          assert r[j] == ys[j - 1] && r[j] in ys;
        } else {
          assert r[i] == ys[i - 1] && r[j] == ys[j - 1];
        }
      }
    } else {
      var tail := Insert(x, ys[1..], geq);
      assert StableBy(tail, geq, key) by {
        InsertStable(x, ys[1..], geq, key);
      }
      var r := [ys[0]] + tail;
      forall i, j | 0 <= i < j < |r| && geq(r[j], r[i]) ensures key(r[i]) < key(r[j]) {
        if i == 0 {
          var t := tail[j - 1];
          assert t == r[j] && t in tail;
          assert t != x by {
            assert geq(t, ys[0]) && !geq(x, ys[0]);
          }
          InsertMembers(x, ys[1..], geq, t);
          var k :| 0 <= k < |ys[1..]| && ys[1..][k] == t;
          assert ys[k + 1] == t;
        } else {
          assert r[i] == tail[i - 1] && r[j] == tail[j - 1];
        }
      }
    }
  }

  /** Stability: given an input whose keys strictly increase (for instance
      the original positions), tied elements leave the sort in input order. */
  lemma {:induction false} SortDescStable<T>(xs: seq<T>, geq: (T, T) -> bool, key: T -> int)
    requires forall i, j :: 0 <= i < j < |xs| ==> key(xs[i]) < key(xs[j])
    ensures StableBy(SortDesc(xs, geq), geq, key)
  {
    if xs != [] {
      SortDescStable(xs[1..], geq, key);
      var ys := SortDesc(xs[1..], geq);
      forall y | y in ys ensures key(xs[0]) < key(y) {
        assert y in multiset(xs[1..]);
        var k :| 0 <= k < |xs[1..]| && xs[1..][k] == y;
        assert xs[k + 1] == y;
      }
      InsertStable(xs[0], ys, geq, key);
    }
  }
}
