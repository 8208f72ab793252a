/**
  Array.prototype.sort with a comparator, as the engine uses it on copies
  (`[...xs].sort(cmp)`). Since ECMAScript 2019 that sort is stable, so for a
  comparator that is consistent (a strict weak order) its result is the unique
  stable sorted permutation, which the insertion sort below computes.

  A comparator `cmp` is represented by `before(a, b)`, which holds exactly when
  `cmp(a, b) < 0`, i.e. when a must be placed ahead of b.
 */
module Sorting {
  import opened Base

  /** The comparator is consistent: irreflexive, transitive, and incomparability is transitive. */
  ghost predicate StrictWeakOrder<T(!new)>(before: (T, T) -> bool)
  {
    && (forall a :: !before(a, a))
    && (forall a, b, c :: before(a, b) && before(b, c) ==> before(a, c))
    && (forall a, b, c :: before(a, c) ==> before(a, b) || before(b, c))
  }

  /** No element is placed ahead of one that the comparator puts before it. */
  ghost predicate SortedBy<T>(xs: seq<T>, before: (T, T) -> bool)
  {
    forall i, j :: 0 <= i < j < |xs| ==> !before(xs[j], xs[i])
  }

  /** Neither element goes before the other: the comparator returns 0. */
  function EquivalentTo<T>(before: (T, T) -> bool, x: T): T -> bool
  {
    (y: T) => !before(y, x) && !before(x, y)
  }

  /** Inserts x ahead of the first element it does not come after; x is earlier in the input than all of r. */
  function Insert<T>(x: T, r: seq<T>, before: (T, T) -> bool): (out: seq<T>)
    ensures |out| == |r| + 1
    ensures multiset(out) == multiset{x} + multiset(r)
  {
    if r == [] || !before(r[0], x) then [x] + r
    else
      assert r == [r[0]] + r[1..];
      [r[0]] + Insert(x, r[1..], before)
  }

  /** The stable sort of xs by the comparator `before`. */
  function Sort<T>(xs: seq<T>, before: (T, T) -> bool): (r: seq<T>)
    ensures |r| == |xs|
    ensures multiset(r) == multiset(xs)
  {
    if xs == [] then []
    else
      assert xs == [xs[0]] + xs[1..];
      Insert(xs[0], Sort(xs[1..], before), before)
  }

  lemma {:induction false} InsertSorted<T(!new)>(x: T, r: seq<T>, before: (T, T) -> bool)
    requires StrictWeakOrder(before) && SortedBy(r, before)
    ensures SortedBy(Insert(x, r, before), before)
  {
    var out := Insert(x, r, before);
    if r == [] || !before(r[0], x) {
      assert out == [x] + r;
      forall j | 1 <= j < |out|
        ensures !before(out[j], out[0])
      {
        assert out[j] == r[j - 1];
      }
    } else {
      var rest := Insert(x, r[1..], before);
      InsertSorted(x, r[1..], before);
      assert out == [r[0]] + rest;
      forall j | 0 <= j < |rest|
        ensures !before(rest[j], r[0])
      {
        assert rest[j] in multiset(rest);
        if rest[j] != x {
          assert rest[j] in multiset(r[1..]);
          var m :| 0 <= m < |r[1..]| && r[1..][m] == rest[j];
          assert r[m + 1] == rest[j];
        }
      }
    }
  }

  /** Sorting with a consistent comparator yields a sorted sequence. */
  lemma {:induction false} SortIsSorted<T(!new)>(xs: seq<T>, before: (T, T) -> bool)
    requires StrictWeakOrder(before)
    ensures SortedBy(Sort(xs, before), before)
  {
    if xs != [] {
      SortIsSorted(xs[1..], before);
      InsertSorted(xs[0], Sort(xs[1..], before), before);
    }
  }

  /** Where Insert put x: after exactly the elements of r that go strictly before it. */
  lemma {:induction false} InsertPosition<T>(x: T, r: seq<T>, before: (T, T) -> bool) returns (k: nat)
    ensures k <= |r|
    ensures Insert(x, r, before) == r[..k] + [x] + r[k..]
    ensures forall i :: 0 <= i < k ==> before(r[i], x)
  {
    if r == [] || !before(r[0], x) {
      k := 0;
    } else {
      var k' := InsertPosition(x, r[1..], before);
      k := k' + 1;
      InsertPositionStep(x, r, before, k');
    }
  }

  lemma {:induction false} InsertPositionStep<T>(x: T, r: seq<T>, before: (T, T) -> bool, k: nat)
    requires r != [] && before(r[0], x) && k <= |r| - 1
    requires Insert(x, r[1..], before) == r[1..][..k] + [x] + r[1..][k..]
    requires forall i :: 0 <= i < k ==> before(r[1..][i], x)
    ensures Insert(x, r, before) == r[..k + 1] + [x] + r[k + 1..]
    ensures forall i :: 0 <= i < k + 1 ==> before(r[i], x)
  {
    assert Insert(x, r, before) == [r[0]] + Insert(x, r[1..], before);
    ConsSplit(r, k);
    forall i | 1 <= i < k + 1
      ensures before(r[i], x)
    {
      assert r[i] == r[1..][i - 1];
    }
  }

  lemma {:induction false} ConsSplit<T>(r: seq<T>, k: nat)
    requires k < |r|
    ensures r[..k + 1] == [r[0]] + r[1..][..k] && r[k + 1..] == r[1..][k..]
  {
    assert r[..k + 1] == [r[0]] + r[1..][..k];
  }

  lemma {:induction false} FilterNone<T>(xs: seq<T>, p: T -> bool)
    requires forall i :: 0 <= i < |xs| ==> !p(xs[i])
    ensures Filter(xs, p) == []
  {
    if xs != [] {
      FilterNone(xs[1..], p);
    }
  }

  /** Elements strictly ahead of a member of x's class are outside that class. */
  lemma {:induction false} AheadOfClassIsOutside<T(!new)>(p: seq<T>, x0: T, before: (T, T) -> bool, x: T)
    requires StrictWeakOrder(before)
    requires forall i :: 0 <= i < |p| ==> before(p[i], x0)
    requires EquivalentTo(before, x)(x0)
    ensures Filter(p, EquivalentTo(before, x)) == []
  {
    forall i | 0 <= i < |p|
      ensures !EquivalentTo(before, x)(p[i])
    {
      assert before(p[i], x) || before(x, x0);
    }
    FilterNone(p, EquivalentTo(before, x));
  }

  lemma {:induction false} FilterAround<T>(p: seq<T>, x0: T, q: seq<T>, keep: T -> bool)
    ensures Filter(p + [x0] + q, keep) == Filter(p, keep) + Filter([x0], keep) + Filter(q, keep)
  {
    FilterAppend(p + [x0], q, keep);
    FilterAppend(p, [x0], keep);
  }

  /** Filtering Insert(x0, r) keeps x0 ahead of the kept elements of r when none of those precede x0. */
  lemma {:induction false} InsertFilter<T>(x0: T, r: seq<T>, inserted: seq<T>, keep: T -> bool, k: nat)
    requires k <= |r| && inserted == r[..k] + [x0] + r[k..]
    requires keep(x0) ==> Filter(r[..k], keep) == []
    ensures Filter(inserted, keep) == Filter([x0], keep) + Filter(r, keep)
  {
    var p, q := r[..k], r[k..];
    assert r == p + q;
    FilterAround(p, x0, q, keep);
    FilterAppend(p, q, keep);
    if keep(x0) {
      calc {
        Filter(inserted, keep);
        Filter(p, keep) + Filter([x0], keep) + Filter(q, keep);
        [] + Filter([x0], keep) + Filter(q, keep);
        { assert [] + Filter([x0], keep) == Filter([x0], keep); }
        Filter([x0], keep) + Filter(q, keep);
        { assert Filter(r, keep) == [] + Filter(q, keep) == Filter(q, keep); }
        Filter([x0], keep) + Filter(r, keep);
      }
    } else {
      calc {
        Filter(inserted, keep);
        Filter(p, keep) + Filter([x0], keep) + Filter(q, keep);
        { assert Filter([x0], keep) == []; }
        Filter(p, keep) + [] + Filter(q, keep);
        { assert Filter(p, keep) + [] == Filter(p, keep); }
        Filter(r, keep);
        [] + Filter(r, keep);
      }
    }
  }

  /**
    The sort is stable: for every class of mutually equivalent elements, the sorted
    sequence lists that class's members in their input order.
   */
  lemma {:induction false} SortIsStable<T(!new)>(xs: seq<T>, before: (T, T) -> bool, x: T)
    requires StrictWeakOrder(before)
    ensures Filter(Sort(xs, before), EquivalentTo(before, x)) == Filter(xs, EquivalentTo(before, x))
  {
    if xs != [] {
      var same := EquivalentTo(before, x);
      var r := Sort(xs[1..], before);
      SortIsStable(xs[1..], before, x);
      InsertIsStable(xs[0], r, before, x);
      assert xs == [xs[0]] + xs[1..];
      FilterAppend([xs[0]], xs[1..], same);
    }
  }

  /** Inserting x0 puts it ahead of every member of its class already in r. */
  lemma {:induction false} InsertIsStable<T(!new)>(x0: T, r: seq<T>, before: (T, T) -> bool, x: T)
    requires StrictWeakOrder(before)
    ensures Filter(Insert(x0, r, before), EquivalentTo(before, x))
      == Filter([x0], EquivalentTo(before, x)) + Filter(r, EquivalentTo(before, x))
  {
    var same := EquivalentTo(before, x);
    var k := InsertPosition(x0, r, before);
    if same(x0) {
      AheadOfClassIsOutside(r[..k], x0, before, x);
    }
    InsertFilter(x0, r, Insert(x0, r, before), same, k);
  }

  /**
    xs[k] is the first element that nothing goes before: no element of xs is placed
    ahead of it, and it is placed ahead of every element that precedes it in xs.
   */
  ghost predicate IsFirstMinimal<T>(xs: seq<T>, k: int, before: (T, T) -> bool)
  {
    && 0 <= k < |xs|
    && (forall j :: 0 <= j < |xs| ==> !before(xs[j], xs[k]))
    && (forall j :: 0 <= j < k ==> before(xs[k], xs[j]))
  }

  /** The head of the stable sort is the first minimal element of the input. */
  lemma {:induction false} SortHead<T(!new)>(xs: seq<T>, before: (T, T) -> bool) returns (k: nat)
    requires StrictWeakOrder(before) && |xs| > 0
    ensures IsFirstMinimal(xs, k, before)
    ensures Sort(xs, before)[0] == xs[k]
  {
    var r := Sort(xs[1..], before);
    if |xs| == 1 {
      k := 0;
    } else {
      var k' := SortHead(xs[1..], before);
      if !before(r[0], xs[0]) {
        k := 0;
        forall j | 1 <= j < |xs|
          ensures !before(xs[j], xs[0])
        {
          assert xs[j] == xs[1..][j - 1];
        }
      } else {
        k := k' + 1;
        forall j | 0 <= j < |xs|
          ensures !before(xs[j], xs[k])
        {
          if j > 0 {
            assert xs[j] == xs[1..][j - 1];
          }
        }
        forall j | 1 <= j < k
          ensures before(xs[k], xs[j])
        {
          assert xs[j] == xs[1..][j - 1];
        }
      }
    }
  }

  /** Orders by a group rank first and, inside a group, by an ascending value. */
  function RankThenValue<T>(rank: T -> int, value: T -> real): (T, T) -> bool
  {
    (a: T, b: T) => rank(a) < rank(b) || (rank(a) == rank(b) && value(a) < value(b))
  }

  lemma {:induction false} RankThenValueIsConsistent<T(!new)>(rank: T -> int, value: T -> real)
    ensures StrictWeakOrder(RankThenValue(rank, value))
  {
  }

  /** A comparator that agrees everywhere with a consistent one is consistent. */
  lemma {:induction false} SameOrder<T(!new)>(before: (T, T) -> bool, other: (T, T) -> bool)
    requires forall a, b :: before(a, b) == other(a, b)
    requires StrictWeakOrder(other)
    ensures StrictWeakOrder(before)
  {
  }
}
