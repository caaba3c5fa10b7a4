/**
 * `Array.prototype.filter` and the engine's stable `Array.prototype.sort`
 * with a numeric comparator, over sequences, and what the catalog query
 * needs to know about them.
 */
module Seqs {

  // ---------------------------------------------------------------- filter

  /** `xs.filter(p)`: the elements satisfying `p`, in their original order. */
  function Filter<T(!new)>(xs: seq<T>, p: T -> bool): (r: seq<T>)
    ensures |r| <= |xs|
  {
    if xs == [] then []
    else (if p(xs[0]) then [xs[0]] else []) + Filter(xs[1..], p)
  }

  /** Filtering only removes: each element is kept at most as often as it occurs. */
  lemma {:induction false} FilterShrinks<T(!new)>(xs: seq<T>, p: T -> bool)
    ensures multiset(Filter(xs, p)) <= multiset(xs)
    decreases |xs|
  {
    if xs != [] {
      FilterShrinks(xs[1..], p);
      assert xs == [xs[0]] + xs[1..];
    }
  }

  /** The elements kept are exactly those of `xs` that pass. */
  lemma {:induction false} FilterMembers<T(!new)>(xs: seq<T>, p: T -> bool)
    ensures forall x :: x in Filter(xs, p) <==> x in xs && p(x)
    decreases |xs|
  {
    if xs != [] {
      FilterMembers(xs[1..], p);
      assert forall x :: x in xs <==> x == xs[0] || x in xs[1..];
    }
  }

  /** `a` is `b` with some elements removed and the rest in the same order. */
  ghost predicate SubseqOf<T(!new)>(a: seq<T>, b: seq<T>)
    decreases |b|
  {
    a == [] || (b != [] && ((a[0] == b[0] && SubseqOf(a[1..], b[1..])) || SubseqOf(a, b[1..])))
  }

  /** Filtering only removes elements and keeps the order of the rest. */
  lemma {:induction false} FilterIsSubseq<T(!new)>(xs: seq<T>, p: T -> bool)
    ensures SubseqOf(Filter(xs, p), xs)
    decreases |xs|
  {
    if xs != [] {
      FilterIsSubseq(xs[1..], p);
      var r := Filter(xs, p);
      if p(xs[0]) {
        assert r[0] == xs[0] && r[1..] == Filter(xs[1..], p);
      } else {
        assert r == Filter(xs[1..], p);
      }
    }
  }


  /** Filtering by `p` then by `q` is filtering once by both. */
  lemma {:induction false} FilterTwice<T(!new)>(xs: seq<T>, p: T -> bool, q: T -> bool, pq: T -> bool)
    requires forall x :: x in xs ==> pq(x) == (p(x) && q(x))
    ensures Filter(Filter(xs, p), q) == Filter(xs, pq)
    decreases |xs|
  {
    if xs != [] {
      FilterTwice(xs[1..], p, q, pq);
      var f := Filter(xs, p);
      if p(xs[0]) {
        assert f != [] && f[0] == xs[0] && f[1..] == Filter(xs[1..], p);
        assert Filter(f, q) == (if q(xs[0]) then [xs[0]] else []) + Filter(f[1..], q);
      } else {
        assert f == Filter(xs[1..], p);
      }
    }
  }

  /** Two tests that agree on every element filter alike. */
  lemma {:induction false} FilterAgree<T(!new)>(xs: seq<T>, p: T -> bool, q: T -> bool)
    requires forall x :: x in xs ==> p(x) == q(x)
    ensures Filter(xs, p) == Filter(xs, q)
    decreases |xs|
  {
    if xs != [] {
      FilterAgree(xs[1..], p, q);
    }
  }

  /** Nothing is removed exactly when every element passes. */
  lemma {:induction false} FilterKeepsAll<T(!new)>(xs: seq<T>, p: T -> bool)
    ensures |Filter(xs, p)| == |xs| <==> forall x :: x in xs ==> p(x)
    ensures (forall x :: x in xs ==> p(x)) ==> Filter(xs, p) == xs
    decreases |xs|
  {
    if xs != [] {
      FilterKeepsAll(xs[1..], p);
      assert forall x :: x in xs <==> x == xs[0] || x in xs[1..];
    }
  }


  /** A filter step that may be switched off: `if (on) xs = xs.filter(test)`. */
  datatype Stage<!T> = Stage(on: bool, test: T -> bool)

  function Narrow<T(!new)>(xs: seq<T>, s: Stage<T>): seq<T> {
    if s.on then Filter(xs, s.test) else xs
  }

  /** The steps applied in turn, first to last. */
  function Cascade<T(!new)>(xs: seq<T>, stages: seq<Stage<T>>): seq<T>
    decreases |stages|
  {
    if stages == [] then xs else Cascade(Narrow(xs, stages[0]), stages[1..])
  }

  /** One more step of a cascade. */
  lemma CascadeStep<T(!new)>(xs: seq<T>, stages: seq<Stage<T>>, k: nat)
    requires k < |stages|
    ensures Cascade(xs, stages[k..]) == Cascade(Narrow(xs, stages[k]), stages[k + 1..])
  {
    assert stages[k..][0] == stages[k] && stages[k..][1..] == stages[k + 1..];
  }

  /** Seven steps applied one after another keep what passes them all. */
  lemma CascadeOfSeven<T(!new)>(xs: seq<T>, stages: seq<Stage<T>>,
                                 y1: seq<T>, y2: seq<T>, y3: seq<T>, y4: seq<T>,
                                 y5: seq<T>, y6: seq<T>, y7: seq<T>)
    requires |stages| == 7
    requires y1 == Narrow(xs, stages[0]) && y2 == Narrow(y1, stages[1])
    requires y3 == Narrow(y2, stages[2]) && y4 == Narrow(y3, stages[3])
    requires y5 == Narrow(y4, stages[4]) && y6 == Narrow(y5, stages[5])
    requires y7 == Narrow(y6, stages[6])
    ensures y7 == Filter(xs, x => PassesAll(stages, x))
  {
    assert stages[0..] == stages;
    CascadeStep(xs, stages, 0);
    CascadeStep(y1, stages, 1);
    CascadeStep(y2, stages, 2);
    CascadeStep(y3, stages, 3);
    CascadeStep(y4, stages, 4);
    CascadeStep(y5, stages, 5);
    CascadeStep(y6, stages, 6);
    assert stages[7..] == [];
    CascadeFilters(xs, stages);
  }

  /** `x` passes every step that is switched on. */
  predicate PassesAll<T(!new)>(stages: seq<Stage<T>>, x: T) {
    forall i :: 0 <= i < |stages| ==> !stages[i].on || stages[i].test(x)
  }

  /** Applying the steps in turn keeps exactly the elements passing all of them, in their original order. */
  lemma {:induction false} CascadeFilters<T(!new)>(xs: seq<T>, stages: seq<Stage<T>>)
    ensures Cascade(xs, stages) == Filter(xs, x => PassesAll(stages, x))
    decreases |stages|
  {
    var all := x => PassesAll(stages, x);
    if stages == [] {
      FilterKeepsAll(xs, all);
    } else {
      var s, rest := stages[0], stages[1..];
      var later := x => PassesAll(rest, x);
      CascadeFilters(Narrow(xs, s), rest);
      forall x ensures PassesAll(stages, x) <==> (!s.on || s.test(x)) && PassesAll(rest, x) {
        if PassesAll(stages, x) {
          forall i | 0 <= i < |rest| ensures !rest[i].on || rest[i].test(x) {
            assert rest[i] == stages[i + 1];
          }
        }
        if (!s.on || s.test(x)) && PassesAll(rest, x) {
          forall i | 0 <= i < |stages| ensures !stages[i].on || stages[i].test(x) {
            if i > 0 {
              assert stages[i] == rest[i - 1];
            }
          }
        }
      }
      if s.on {
        FilterTwice(xs, s.test, later, all);
      } else {
        FilterAgree(xs, later, all);
      }
    }
  }

  // ---------------------------------------------------------------- sort

  /** Ascending by a numeric key. */
  predicate SortedBy<T(!new)>(xs: seq<T>, key: T -> real) {
    forall i, j :: 0 <= i < j < |xs| ==> key(xs[i]) <= key(xs[j])
  }

  /** The elements whose key is `k`. */
  function KeyIs<T(!new)>(key: T -> real, k: real): T -> bool {
    x => key(x) == k
  }

  /** Puts `x` before the first element whose key is not smaller. */
  function InsertBy<T(!new)>(x: T, xs: seq<T>, key: T -> real): (r: seq<T>)
    ensures multiset(r) == multiset(xs) + multiset{x}
  {
    if xs == [] || key(x) <= key(xs[0]) then [x] + xs
    else
      assert xs == [xs[0]] + xs[1..];
      [xs[0]] + InsertBy(x, xs[1..], key)
  }

  lemma {:induction false} InsertBySorted<T(!new)>(x: T, xs: seq<T>, key: T -> real)
    requires SortedBy(xs, key)
    ensures SortedBy(InsertBy(x, xs, key), key)
    decreases |xs|
  {
    if xs != [] && key(x) > key(xs[0]) {
      var rest := InsertBy(x, xs[1..], key);
      InsertBySorted(x, xs[1..], key);
      forall i | 0 <= i < |rest|
        ensures key(xs[0]) <= key(rest[i])
      {
        assert rest[i] in multiset(rest);
        if rest[i] != x {
          assert rest[i] in multiset(xs[1..]);
          var j :| 0 <= j < |xs[1..]| && xs[1..][j] == rest[i];
          assert xs[j + 1] == rest[i];
        }
      }
    }
  }

  /**
   * `xs.sort((a, b) => key(a) - key(b))` as a stable sort: ascending by key,
   * elements with equal keys in their original order.
   */
  function SortBy<T(!new)>(xs: seq<T>, key: T -> real): (r: seq<T>)
    ensures multiset(r) == multiset(xs)
    ensures SortedBy(r, key)
  {
    if xs == [] then []
    else
      assert xs == [xs[0]] + xs[1..];
      InsertBySorted(xs[0], SortBy(xs[1..], key), key);
      InsertBy(xs[0], SortBy(xs[1..], key), key)
  }

  lemma FilterCons<T(!new)>(y: T, ys: seq<T>, p: T -> bool)
    ensures Filter([y] + ys, p) == (if p(y) then [y] else []) + Filter(ys, p)
  {
    assert ([y] + ys)[0] == y && ([y] + ys)[1..] == ys;
  }

  lemma {:induction false} InsertByKeyClass<T(!new)>(x: T, xs: seq<T>, key: T -> real, k: real)
    ensures Filter(InsertBy(x, xs, key), KeyIs(key, k)) ==
      (if key(x) == k then [x] else []) + Filter(xs, KeyIs(key, k))
    decreases |xs|
  {
    var same := KeyIs(key, k);
    var r := InsertBy(x, xs, key);
    if xs == [] || key(x) <= key(xs[0]) {
      assert r == [x] + xs;
      FilterCons(x, xs, same);
    } else {
      var rest := InsertBy(x, xs[1..], key);
      assert r == [xs[0]] + rest;
      InsertByKeyClass(x, xs[1..], key, k);
      FilterCons(xs[0], rest, same);
      var tail := Filter(xs[1..], same);
      if key(x) == k {
        assert !same(xs[0]);
        assert Filter(r, same) == Filter(rest, same) == [x] + tail;
        assert Filter(xs, same) == tail;
      } else {
        assert Filter(rest, same) == tail;
      }
    }
  }

  /** Stability: the elements sharing a key keep their original relative order. */
  lemma {:induction false} SortByStable<T(!new)>(xs: seq<T>, key: T -> real, k: real)
    ensures Filter(SortBy(xs, key), KeyIs(key, k)) == Filter(xs, KeyIs(key, k))
    decreases |xs|
  {
    if xs != [] {
      SortByStable(xs[1..], key, k);
      InsertByKeyClass(xs[0], SortBy(xs[1..], key), key, k);
    }
  }

  /** Sorting what is already sorted changes nothing. */
  lemma {:induction false} SortBySorted<T(!new)>(xs: seq<T>, key: T -> real)
    requires SortedBy(xs, key)
    ensures SortBy(xs, key) == xs
    decreases |xs|
  {
    if xs != [] {
      SortBySorted(xs[1..], key);
      assert SortBy(xs[1..], key) == xs[1..];
      assert xs == [xs[0]] + xs[1..];
    }
  }
}
