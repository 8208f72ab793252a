/**
  Shared vocabulary of the poll-projection engine: optional values, party keys,
  and the sums, counts and first-occurrence groupings that the engine takes with
  d3.sum, Array.filter(...).length and d3.rollup.
 */
module Base {

  datatype Option<T> = None | Some(value: T)

  /** Party keys as they appear in the poll data ("spd", "cxu", ...). */
  type PartyKey = string

  /** d3.sum(xs, f): the sum of a real-valued projection. */
  function SumOf<T>(xs: seq<T>, f: T -> real): real
  {
    if xs == [] then 0.0 else f(xs[0]) + SumOf(xs[1..], f)
  }

  /** d3.sum over an integer-valued projection. */
  function TotalOf<T>(xs: seq<T>, f: T -> int): int
  {
    if xs == [] then 0 else f(xs[0]) + TotalOf(xs[1..], f)
  }

  /** xs.filter(p).length */
  function CountWhere<T>(xs: seq<T>, p: T -> bool): (n: nat)
    ensures n <= |xs|
  {
    if xs == [] then 0 else (if p(xs[0]) then 1 else 0) + CountWhere(xs[1..], p)
  }

  /** Every element satisfies p exactly when all of them are counted. */
  lemma {:induction false} CountWhereAll<T>(xs: seq<T>, p: T -> bool)
    ensures CountWhere(xs, p) == |xs| <==> forall i :: 0 <= i < |xs| ==> p(xs[i])
  {
    if xs != [] {
      CountWhereAll(xs[1..], p);
      assert forall i :: 1 <= i < |xs| ==> xs[i] == xs[1..][i - 1];
    }
  }

  /** No element satisfies p exactly when none is counted. */
  lemma {:induction false} CountWhereNone<T>(xs: seq<T>, p: T -> bool)
    ensures CountWhere(xs, p) == 0 <==> forall i :: 0 <= i < |xs| ==> !p(xs[i])
  {
    if xs != [] {
      CountWhereNone(xs[1..], p);
      assert forall i :: 1 <= i < |xs| ==> xs[i] == xs[1..][i - 1];
    }
  }

  /** xs.filter(p), keeping the order of xs. */
  function Filter<T>(xs: seq<T>, p: T -> bool): (r: seq<T>)
    ensures |r| == CountWhere(xs, p)
  {
    if xs == [] then []
    else (if p(xs[0]) then [xs[0]] else []) + Filter(xs[1..], p)
  }

  lemma {:induction false} FilterAppend<T>(a: seq<T>, b: seq<T>, p: T -> bool)
    ensures Filter(a + b, p) == Filter(a, p) + Filter(b, p)
  {
    if a != [] {
      assert (a + b)[1..] == a[1..] + b;
      FilterAppend(a[1..], b, p);
    } else {
      assert a + b == b;
    }
  }

  /** A filter and its complement split a sequence without losing or adding anything. */
  lemma {:induction false} FilterSplit<T>(xs: seq<T>, p: T -> bool, q: T -> bool)
    requires forall i :: 0 <= i < |xs| ==> q(xs[i]) == !p(xs[i])
    ensures multiset(Filter(xs, p)) + multiset(Filter(xs, q)) == multiset(xs)
  {
    if xs != [] {
      FilterSplit(xs[1..], p, q);
      assert xs == [xs[0]] + xs[1..];
    }
  }

  /** xs.map(f) */
  function Map<T, U>(xs: seq<T>, f: T -> U): (ys: seq<U>)
    ensures |ys| == |xs|
    ensures forall i :: 0 <= i < |xs| ==> ys[i] == f(xs[i])
  {
    seq(|xs|, i requires 0 <= i < |xs| => f(xs[i]))
  }

  /** Mapping a reordered sequence gives a reordering of the mapped sequence. */
  lemma {:induction false} MapPermutation<T, U>(a: seq<T>, b: seq<T>, f: T -> U)
    requires multiset(a) == multiset(b)
    ensures multiset(Map(a, f)) == multiset(Map(b, f))
  {
    if a != [] {
      var k := PermutationHead(a, b);
      var rest := b[..k] + b[k + 1..];
      MapPermutation(a[1..], rest, f);
      assert Map(a, f) == [f(a[0])] + Map(a[1..], f);
      assert Map(b, f) == Map(b[..k], f) + [f(b[k])] + Map(b[k + 1..], f);
      assert Map(rest, f) == Map(b[..k], f) + Map(b[k + 1..], f);
    } else {
      assert b == [];
    }
  }

  /** A filter that every element passes keeps the whole sequence. */
  lemma {:induction false} FilterAll<T>(xs: seq<T>, p: T -> bool)
    requires forall i :: 0 <= i < |xs| ==> p(xs[i])
    ensures Filter(xs, p) == xs
  {
    if xs != [] {
      FilterAll(xs[1..], p);
      assert xs == [xs[0]] + xs[1..];
    }
  }

  /** Every element a filter keeps satisfies its predicate. */
  lemma {:induction false} FilterKeeps<T>(xs: seq<T>, p: T -> bool)
    ensures forall i :: 0 <= i < |Filter(xs, p)| ==> p(Filter(xs, p)[i])
  {
    if xs != [] {
      FilterKeeps(xs[1..], p);
      var rest := Filter(xs[1..], p);
      assert Filter(xs, p) == (if p(xs[0]) then [xs[0]] else []) + rest;
    }
  }

  lemma {:induction false} SumOfAppend<T>(a: seq<T>, b: seq<T>, f: T -> real)
    ensures SumOf(a + b, f) == SumOf(a, f) + SumOf(b, f)
  {
    if a == [] {
      assert a + b == b;
    } else {
      assert (a + b)[1..] == a[1..] + b;
      SumOfAppend(a[1..], b, f);
    }
  }

  lemma {:induction false} TotalOfAppend<T>(a: seq<T>, b: seq<T>, f: T -> int)
    ensures TotalOf(a + b, f) == TotalOf(a, f) + TotalOf(b, f)
  {
    if a == [] {
      assert a + b == b;
    } else {
      assert (a + b)[1..] == a[1..] + b;
      TotalOfAppend(a[1..], b, f);
    }
  }

  /** Summing, entry by entry, a constant multiple of another sum's terms scales that sum. */
  lemma {:induction false} SumOfScaled<T, U>(xs: seq<T>, f: T -> real, ys: seq<U>, g: U -> real, c: real)
    requires |xs| == |ys|
    requires forall i :: 0 <= i < |xs| ==> g(ys[i]) == f(xs[i]) * c
    ensures SumOf(ys, g) == SumOf(xs, f) * c
  {
    if xs != [] {
      SumOfScaled(xs[1..], f, ys[1..], g, c);
      assert g(ys[0]) == f(xs[0]) * c;
    }
  }

  /** Sums whose terms agree entry by entry are equal. */
  lemma {:induction false} SumOfPointwise<T, U>(xs: seq<T>, f: T -> real, ys: seq<U>, g: U -> real)
    requires |xs| == |ys|
    requires forall i :: 0 <= i < |xs| ==> g(ys[i]) == f(xs[i])
    ensures SumOf(ys, g) == SumOf(xs, f)
  {
    if xs != [] {
      SumOfPointwise(xs[1..], f, ys[1..], g);
    }
  }

  lemma {:induction false} SumOfNonNegative<T>(xs: seq<T>, f: T -> real)
    requires forall i :: 0 <= i < |xs| ==> f(xs[i]) >= 0.0
    ensures SumOf(xs, f) >= 0.0
  {
    if xs != [] {
      SumOfNonNegative(xs[1..], f);
    }
  }

  /** A sum of non-negative terms is positive exactly when one of its terms is. */
  lemma {:induction false} SumOfPositive<T>(xs: seq<T>, f: T -> real)
    requires forall i :: 0 <= i < |xs| ==> f(xs[i]) >= 0.0
    ensures SumOf(xs, f) > 0.0 <==> exists i :: 0 <= i < |xs| && f(xs[i]) > 0.0
  {
    if xs != [] {
      SumOfPositive(xs[1..], f);
      SumOfNonNegative(xs[1..], f);
      if exists i :: 0 <= i < |xs[1..]| && f(xs[1..][i]) > 0.0 {
        var i :| 0 <= i < |xs[1..]| && f(xs[1..][i]) > 0.0;
        assert f(xs[i + 1]) > 0.0;
      }
      if exists i :: 0 <= i < |xs| && f(xs[i]) > 0.0 {
        var i :| 0 <= i < |xs| && f(xs[i]) > 0.0;
        if i > 0 {
          assert f(xs[1..][i - 1]) > 0.0;
        }
      }
    }
  }

  /** d3.sum over a filtered array equals the sum over the whole array with the dropped terms counted as 0. */
  lemma {:induction false} SumOfFilter<T>(xs: seq<T>, p: T -> bool, f: T -> real, g: T -> real)
    requires forall i :: 0 <= i < |xs| ==> g(xs[i]) == if p(xs[i]) then f(xs[i]) else 0.0
    ensures SumOf(Filter(xs, p), f) == SumOf(xs, g)
  {
    if xs != [] {
      SumOfFilter(xs[1..], p, f, g);
      SumOfAppend(if p(xs[0]) then [xs[0]] else [], Filter(xs[1..], p), f);
    }
  }

  /** Removing the head of a, and an occurrence of it from its permutation b, leaves permutations. */
  lemma {:induction false} PermutationWithout<T>(a: seq<T>, b: seq<T>, k: nat)
    requires multiset(a) == multiset(b) && a != []
    requires k < |b| && b[k] == a[0]
    ensures multiset(a[1..]) == multiset(b[..k] + b[k + 1..])
  {
    assert b == b[..k] + [b[k]] + b[k + 1..];
    assert a == [a[0]] + a[1..];
    assert multiset(a) == multiset{a[0]} + multiset(a[1..]);
    assert multiset(b) == multiset(b[..k]) + multiset{b[k]} + multiset(b[k + 1..]);
    assert multiset(a[1..]) == multiset(a) - multiset{a[0]};
  }

  /** Locates the head of a in its permutation b; the rest of a is a permutation of b without it. */
  lemma {:induction false} PermutationHead<T>(a: seq<T>, b: seq<T>) returns (k: nat)
    requires multiset(a) == multiset(b) && a != []
    ensures k < |b| && b[k] == a[0]
    ensures multiset(a[1..]) == multiset(b[..k] + b[k + 1..])
  {
    assert a[0] in multiset(b);
    k :| 0 <= k < |b| && b[k] == a[0];
    PermutationWithout(a, b, k);
  }

  /** Summing in another order gives the same total. */
  lemma {:induction false} SumOfPermutation<T>(a: seq<T>, b: seq<T>, f: T -> real)
    requires multiset(a) == multiset(b)
    ensures SumOf(a, f) == SumOf(b, f)
  {
    if a != [] {
      var k := PermutationHead(a, b);
      SumOfPermutation(a[1..], b[..k] + b[k + 1..], f);
      assert b == b[..k] + [b[k]] + b[k + 1..];
      SumOfAppend(b[..k] + [b[k]], b[k + 1..], f);
      SumOfAppend(b[..k], [b[k]], f);
      SumOfAppend(b[..k], b[k + 1..], f);
    } else {
      assert b == [];
    }
  }

  lemma {:induction false} TotalOfPermutation<T>(a: seq<T>, b: seq<T>, f: T -> int)
    requires multiset(a) == multiset(b)
    ensures TotalOf(a, f) == TotalOf(b, f)
  {
    if a != [] {
      var k := PermutationHead(a, b);
      TotalOfPermutation(a[1..], b[..k] + b[k + 1..], f);
      assert b == b[..k] + [b[k]] + b[k + 1..];
      TotalOfAppend(b[..k] + [b[k]], b[k + 1..], f);
      TotalOfAppend(b[..k], [b[k]], f);
      TotalOfAppend(b[..k], b[k + 1..], f);
    } else {
      assert b == [];
    }
  }

  /**
    The distinct values of xs in the order of their first occurrence: the key order
    of a d3.rollup (a JavaScript Map keeps insertion order).
   */
  function Distinct<T(==, !new)>(xs: seq<T>): (d: seq<T>)
    ensures forall x :: x in d <==> x in xs
    ensures forall i, j :: 0 <= i < j < |d| ==> d[i] != d[j]
  {
    if xs == [] then []
    else
      var d := Distinct(xs[..|xs| - 1]);
      assert forall x :: x in xs[..|xs| - 1] ==> x in xs;
      assert forall x :: x in xs ==> x in xs[..|xs| - 1] || x == xs[|xs| - 1];
      if xs[|xs| - 1] in d then d else d + [xs[|xs| - 1]]
  }

  /** The total of the group sizes of a rollup over xs is |xs|: the groups partition xs. */
  lemma {:induction false} GroupSizesPartition<T(!new)>(xs: seq<T>)
    ensures TotalOf(Distinct(xs), (k: T) => multiset(xs)[k]) == |xs|
  {
    if xs != [] {
      var init := xs[..|xs| - 1];
      var last := xs[|xs| - 1];
      var d := Distinct(init);
      assert xs == init + [last];
      GroupSizesPartition(init);
      GroupSizesShift(d, init, last);
      if last !in d {
        TotalOfAppend(d, [last], (k: T) => multiset(xs)[k]);
        assert last !in init;
        assert multiset(xs)[last] == 1;
      }
    }
  }

  /** Adding one occurrence of `last` raises the rollup total over keys d by one iff last is a key. */
  lemma {:induction false} GroupSizesShift<T(!new)>(d: seq<T>, init: seq<T>, last: T)
    requires forall i, j :: 0 <= i < j < |d| ==> d[i] != d[j]
    ensures TotalOf(d, (k: T) => multiset(init + [last])[k])
         == TotalOf(d, (k: T) => multiset(init)[k]) + (if last in d then 1 else 0)
  {
    if d != [] {
      GroupSizesShift(d[1..], init, last);
      assert last in d <==> last == d[0] || last in d[1..];
      assert forall j :: 0 <= j < |d[1..]| ==> d[1..][j] == d[j + 1];
      assert d[0] !in d[1..];
    }
  }

  /** A value that occurs before the first occurrence of y also comes before y among the distinct values. */
  lemma {:induction false} DistinctKeepsFirstOccurrenceOrder<T(!new)>(xs: seq<T>, i: nat, y: T) returns (ia: nat, ib: nat)
    requires i < |xs| && y in xs
    requires forall t :: 0 <= t <= i ==> xs[t] != y
    ensures ia < ib < |Distinct(xs)|
    ensures Distinct(xs)[ia] == xs[i] && Distinct(xs)[ib] == y
  {
    var init := xs[..|xs| - 1];
    var last := xs[|xs| - 1];
    var d := Distinct(init);
    assert xs == init + [last];
    if y in init {
      var t :| 0 <= t < |init| && init[t] == y;
      assert i < t;
      assert xs[i] == init[i];
      ia, ib := DistinctKeepsFirstOccurrenceOrder(init, i, y);
    } else {
      assert y == last;
      assert i < |init|;
      assert xs[i] in init;
      ia :| 0 <= ia < |d| && d[ia] == xs[i];
      ib := |d|;
    }
  }

  /** The multiplicity of a value is the number of entries equal to it. */
  lemma {:induction false} MultiplicityCounts<T>(xs: seq<T>, x: T, p: T -> bool)
    requires forall y :: p(y) <==> y == x
    ensures multiset(xs)[x] == CountWhere(xs, p)
  {
    if xs != [] {
      MultiplicityCounts(xs[1..], x, p);
      assert xs == [xs[0]] + xs[1..];
    }
  }

  lemma {:induction false} CountWhereAppend<T>(a: seq<T>, b: seq<T>, p: T -> bool)
    ensures CountWhere(a + b, p) == CountWhere(a, p) + CountWhere(b, p)
  {
    FilterAppend(a, b, p);
  }

  /** Elements that satisfy p and those that satisfy its complement q add up to all of them. */
  lemma {:induction false} CountWhereComplement<T>(xs: seq<T>, p: T -> bool, q: T -> bool)
    requires forall i :: 0 <= i < |xs| ==> q(xs[i]) == !p(xs[i])
    ensures CountWhere(xs, p) + CountWhere(xs, q) == |xs|
  {
    if xs != [] {
      CountWhereComplement(xs[1..], p, q);
    }
  }

  lemma {:induction false} CountWhereSame<T>(xs: seq<T>, p: T -> bool, q: T -> bool)
    requires forall i :: 0 <= i < |xs| ==> p(xs[i]) == q(xs[i])
    ensures CountWhere(xs, p) == CountWhere(xs, q)
  {
    if xs != [] {
      CountWhereSame(xs[1..], p, q);
    }
  }

  /** Reordering a sequence does not change how many of its elements satisfy p. */
  lemma {:induction false} CountWherePermutation<T>(a: seq<T>, b: seq<T>, p: T -> bool)
    requires multiset(a) == multiset(b)
    ensures CountWhere(a, p) == CountWhere(b, p)
  {
    if a != [] {
      var k := PermutationHead(a, b);
      CountWherePermutation(a[1..], b[..k] + b[k + 1..], p);
      assert b == b[..k] + [b[k]] + b[k + 1..];
      CountWhereAppend(b[..k] + [b[k]], b[k + 1..], p);
      CountWhereAppend(b[..k], [b[k]], p);
      CountWhereAppend(b[..k], b[k + 1..], p);
    } else {
      assert b == [];
    }
  }

  /** A sequence without repeated elements holds each value at most once. */
  lemma {:induction false} NoRepeatsMultiplicity<T>(xs: seq<T>, x: T)
    requires forall i, j :: 0 <= i < j < |xs| ==> xs[i] != xs[j]
    ensures multiset(xs)[x] <= 1
  {
    if xs != [] {
      NoRepeatsMultiplicity(xs[1..], x);
      assert xs == [xs[0]] + xs[1..];
      if x == xs[0] {
        assert x !in xs[1..];
      }
    }
  }

  /** A reordering of a sequence without repeated elements has none either. */
  lemma {:induction false} NoRepeatsPermutation<T>(a: seq<T>, b: seq<T>)
    requires multiset(a) == multiset(b)
    requires forall i, j :: 0 <= i < j < |a| ==> a[i] != a[j]
    ensures forall i, j :: 0 <= i < j < |b| ==> b[i] != b[j]
  {
    forall i, j | 0 <= i < j < |b|
      ensures b[i] != b[j]
    {
      NoRepeatsMultiplicity(a, b[i]);
      TwoOccurrences(b, i, j);
    }
  }

  lemma {:induction false} TwoOccurrences<T>(xs: seq<T>, i: nat, j: nat)
    requires i < j < |xs|
    ensures xs[i] == xs[j] ==> multiset(xs)[xs[i]] >= 2
  {
    assert xs == xs[..i] + [xs[i]] + xs[i + 1..j] + [xs[j]] + xs[j + 1..];
  }
}
