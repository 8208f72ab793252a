/**
  Coalition enumeration: the k-element selections of a fixed party pool
  (combinations), the seat-share majority test (coalitionMajority,
  coalitionSurplus), and the list of coalitions that reach a majority in at least
  one scenario (buildCoalitionOptions, strongestCoalition).
 */
module Coalitions {
  import opened Base
  import opened Sorting
  import opened Scenarios

  /** Every coalition is drawn from these parties, in this order. */
  const COALITION_PARTY_POOL: seq<PartyKey> := ["cxu", "spd", "gru", "fdp", "lin", "bsw"]

  /** Coalition seat share needed for a majority, in percent. */
  const MAJORITY: real := 50.0

  /** Prepends x to every selection. */
  function PrefixAll<T>(x: seq<T>, combos: seq<seq<T>>): (r: seq<seq<T>>)
    ensures |r| == |combos|
    ensures forall i :: 0 <= i < |combos| ==> r[i] == x + combos[i]
  {
    seq(|combos|, i requires 0 <= i < |combos| => x + combos[i])
  }

  /**
    The k-element selections from values[start..] that keep the order of values, in
    the order in which the recursive helper of combinations emits them: first those
    that take values[start], then those that skip it.
   */
  function Choose<T>(values: seq<T>, start: nat, k: nat): seq<seq<T>>
    decreases |values| - start
  {
    if k == 0 then [[]]
    else if start >= |values| then []
    else PrefixAll([values[start]], Choose(values, start + 1, k - 1)) + Choose(values, start + 1, k)
  }

  /** The selections from values[start..] that take values[start], then those that skip it. */
  lemma {:induction false} ChooseUnfold<T>(values: seq<T>, start: nat, k: nat)
    requires start < |values| && k > 0
    ensures Choose(values, start, k) == PrefixAll([values[start]], Choose(values, start + 1, k - 1)) + Choose(values, start + 1, k)
  {
  }

  lemma {:induction false} PrefixAllAppend<T>(x: seq<T>, a: seq<seq<T>>, b: seq<seq<T>>)
    ensures PrefixAll(x, a + b) == PrefixAll(x, a) + PrefixAll(x, b)
  {
  }

  lemma {:induction false} PrefixAllTwice<T>(x: seq<T>, v: T, a: seq<seq<T>>)
    ensures PrefixAll(x, PrefixAll([v], a)) == PrefixAll(x + [v], a)
  {
    forall i | 0 <= i < |a|
      ensures PrefixAll(x, PrefixAll([v], a))[i] == PrefixAll(x + [v], a)[i]
    {
      assert x + ([v] + a[i]) == x + [v] + a[i];
    }
  }

  /**
    helper(start, current) of combinations: appends to `result` every completion of
    `current` to `size` elements by values taken, in order, from values[start..].
    The for loop pushes a value, recurses and pops it again.
   */
  method Extend<T>(values: seq<T>, size: nat, start: nat, current: seq<T>, result: seq<seq<T>>)
      returns (out: seq<seq<T>>)
    requires |current| <= size && start <= |values|
    ensures out == result + PrefixAll(current, Choose(values, start, size - |current|))
    decreases size - |current|
  {
    if |current| == size {
      assert current + [] == current;
      return result + [current];
    }
    var k := size - |current|;
    var cur := current;
    out := result;
    var index := start;
    assert ExtendedUpTo(values, start, index, k, current, result, out);
    while index < |values|
      invariant start <= index <= |values|
      invariant cur == current
      invariant ExtendedUpTo(values, start, index, k, current, result, out)
      decreases |values| - index
    {
      var v := values[index];
      ghost var before := out;
      cur := cur + [v];
      out := Extend(values, size, index + 1, cur, out);
      cur := cur[..|cur| - 1];
      ExtendRound(values, start, index, k, current, result, before, out);
      index := index + 1;
    }
    ExtendDone(values, start, k, current, result, out);
  }

  /** Invariant of the for loop in helper: out holds the selections before values[index]. */
  ghost predicate ExtendedUpTo<T>(values: seq<T>, start: nat, index: nat, k: nat, current: seq<T>,
                                  result: seq<seq<T>>, out: seq<seq<T>>)
  {
    out + PrefixAll(current, Choose(values, index, k)) == result + PrefixAll(current, Choose(values, start, k))
  }

  /** Once the loop has passed the last value, out holds every selection. */
  lemma {:induction false} ExtendDone<T>(values: seq<T>, start: nat, k: nat, current: seq<T>,
                                         result: seq<seq<T>>, out: seq<seq<T>>)
    requires 0 < k
    requires ExtendedUpTo(values, start, |values|, k, current, result, out)
    ensures out == result + PrefixAll(current, Choose(values, start, k))
  {
    assert Choose(values, |values|, k) == [];
    assert out + PrefixAll(current, []) == out;
  }

  /** One round of the for loop in helper: the selections taking values[index], then those skipping it. */
  lemma {:induction false} ExtendRound<T>(values: seq<T>, start: nat, index: nat, k: nat, current: seq<T>,
                       result: seq<seq<T>>, before: seq<seq<T>>, out: seq<seq<T>>)
    requires 0 < k && index < |values|
    requires ExtendedUpTo(values, start, index, k, current, result, before)
    requires out == before + PrefixAll(current + [values[index]], Choose(values, index + 1, k - 1))
    ensures ExtendedUpTo(values, start, index + 1, k, current, result, out)
  {
    var v := values[index];
    var taken := Choose(values, index + 1, k - 1);
    var skipped := Choose(values, index + 1, k);
    ExtendStep(current, v, taken, skipped, Choose(values, index, k));
    calc {
      out + PrefixAll(current, skipped);
      before + PrefixAll(current + [v], taken) + PrefixAll(current, skipped);
      before + (PrefixAll(current + [v], taken) + PrefixAll(current, skipped));
      before + PrefixAll(current, Choose(values, index, k));
    }
  }

  /** The selections taking v, then those skipping it, each completed from current. */
  lemma {:induction false} ExtendStep<T>(current: seq<T>, v: T, taken: seq<seq<T>>, skipped: seq<seq<T>>, all: seq<seq<T>>)
    requires all == PrefixAll([v], taken) + skipped
    ensures PrefixAll(current, all) == PrefixAll(current + [v], taken) + PrefixAll(current, skipped)
  {
    PrefixAllAppend(current, PrefixAll([v], taken), skipped);
    PrefixAllTwice(current, v, taken);
  }

  /** combinations(values, size) */
  method Combinations<T>(values: seq<T>, size: nat) returns (result: seq<seq<T>>)
    ensures result == Choose(values, 0, size)
  {
    result := Extend(values, size, 0, [], []);
    var all := Choose(values, 0, size);
    assert forall i :: 0 <= i < |all| ==> PrefixAll([], all)[i] == all[i];
  }

  // ---- properties of the selections, stated on positions in the pool

  function Positions(n: nat): (ix: seq<nat>)
    ensures |ix| == n && forall i :: 0 <= i < n ==> ix[i] == i
  {
    seq(n, i requires 0 <= i < n => i as nat)
  }

  /** c lists k positions in [start, n), strictly increasing: a k-subset kept in pool order. */
  ghost predicate Selection(c: seq<nat>, start: nat, n: nat, k: nat)
  {
    && |c| == k
    && (forall i, j :: 0 <= i < j < |c| ==> c[i] < c[j])
    && (forall i :: 0 <= i < |c| ==> start <= c[i] < n)
  }

  /** Lexicographic order on position lists. */
  predicate LexLess(a: seq<nat>, b: seq<nat>)
  {
    a != [] && b != [] && (a[0] < b[0] || (a[0] == b[0] && LexLess(a[1..], b[1..])))
  }

  lemma {:induction false} LexLessIrreflexive(a: seq<nat>)
    ensures !LexLess(a, a)
  {
    if a != [] {
      LexLessIrreflexive(a[1..]);
    }
  }

  /** Every list in combos is a k-subset of [start, n) in increasing order. */
  ghost predicate AllSelections(combos: seq<seq<nat>>, start: nat, n: nat, k: nat)
  {
    forall i :: 0 <= i < |combos| ==> Selection(combos[i], start, n, k)
  }

  /** Every emitted position list is a k-subset of [start, n) in increasing order. */
  lemma {:induction false} ChooseSelections(n: nat, start: nat, k: nat)
    ensures AllSelections(Choose(Positions(n), start, k), start, n, k)
    decreases n - start
  {
    if k > 0 && start < n {
      ChooseSelections(n, start + 1, k - 1);
      ChooseSelections(n, start + 1, k);
      ChooseSelectionsStep(n, start, k);
    }
  }

  lemma {:induction false} ChooseSelectionsStep(n: nat, start: nat, k: nat)
    requires k > 0 && start < n
    requires AllSelections(Choose(Positions(n), start + 1, k - 1), start + 1, n, k - 1)
    requires AllSelections(Choose(Positions(n), start + 1, k), start + 1, n, k)
    ensures AllSelections(Choose(Positions(n), start, k), start, n, k)
  {
    var ix := Positions(n);
    var taken := Choose(ix, start + 1, k - 1);
    var skipped := Choose(ix, start + 1, k);
    ChooseUnfold(ix, start, k);
    assert [ix[start]] == [start];
    PrefixedSelections(taken, start, n, k);
    WidenedSelections(skipped, start, n, k);
    AllSelectionsAppend(PrefixAll([start], taken), skipped, start, n, k);
  }

  lemma {:induction false} PrefixedSelections(taken: seq<seq<nat>>, start: nat, n: nat, k: nat)
    requires k > 0 && start < n && AllSelections(taken, start + 1, n, k - 1)
    ensures AllSelections(PrefixAll([start], taken), start, n, k)
  {
    var a := PrefixAll([start], taken);
    forall i | 0 <= i < |a|
      ensures Selection(a[i], start, n, k)
    {
      assert a[i] == [start] + taken[i];
      assert Selection(taken[i], start + 1, n, k - 1);
    }
  }

  lemma {:induction false} WidenedSelections(skipped: seq<seq<nat>>, start: nat, n: nat, k: nat)
    requires AllSelections(skipped, start + 1, n, k)
    ensures AllSelections(skipped, start, n, k)
  {
    forall i | 0 <= i < |skipped|
      ensures Selection(skipped[i], start, n, k)
    {
      assert Selection(skipped[i], start + 1, n, k);
    }
  }

  lemma {:induction false} AllSelectionsAppend(a: seq<seq<nat>>, b: seq<seq<nat>>, start: nat, n: nat, k: nat)
    requires AllSelections(a, start, n, k) && AllSelections(b, start, n, k)
    ensures AllSelections(a + b, start, n, k)
  {
    forall i | 0 <= i < |a + b|
      ensures Selection((a + b)[i], start, n, k)
    {
      if i >= |a| {
        assert (a + b)[i] == b[i - |a|];
      }
    }
  }

  /** Every k-subset of [start, n), in increasing order, is emitted. */
  lemma {:induction false} ChooseComplete(n: nat, start: nat, k: nat)
    ensures forall c :: Selection(c, start, n, k) ==> c in Choose(Positions(n), start, k)
  {
    forall c | Selection(c, start, n, k)
      ensures c in Choose(Positions(n), start, k)
    {
      ChooseHas(n, start, k, c);
    }
  }

  lemma {:induction false} ChooseHas(n: nat, start: nat, k: nat, c: seq<nat>)
    requires Selection(c, start, n, k)
    ensures c in Choose(Positions(n), start, k)
    decreases n - start, 1
  {
    if k == 0 {
      assert c == [];
    } else {
      assert start <= c[0] < n;
      ChooseUnfold(Positions(n), start, k);
      if c[0] == start {
        ChooseHasTaking(n, start, k, c);
      } else {
        assert Selection(c, start + 1, n, k);
        ChooseHas(n, start + 1, k, c);
      }
    }
  }

  /** A selection that starts at `start` comes from those that take it. */
  lemma {:induction false} ChooseHasTaking(n: nat, start: nat, k: nat, c: seq<nat>)
    requires Selection(c, start, n, k) && k > 0 && c[0] == start
    ensures c in PrefixAll([Positions(n)[start]], Choose(Positions(n), start + 1, k - 1))
    decreases n - start, 0
  {
    var ix := Positions(n);
    assert Selection(c[1..], start + 1, n, k - 1);
    ChooseHas(n, start + 1, k - 1, c[1..]);
    PrefixedMember([ix[start]], Choose(ix, start + 1, k - 1), c[1..]);
    assert c == [ix[start]] + c[1..];
  }

  lemma {:induction false} PrefixedMember<T>(x: seq<T>, combos: seq<seq<T>>, c: seq<T>)
    requires c in combos
    ensures x + c in PrefixAll(x, combos)
  {
    var m :| 0 <= m < |combos| && combos[m] == c;
    assert PrefixAll(x, combos)[m] == x + c;
  }

  /** Each list in combos comes lexicographically before every later one. */
  ghost predicate LexOrdered(combos: seq<seq<nat>>)
  {
    forall i, j :: 0 <= i < j < |combos| ==> LexLess(combos[i], combos[j])
  }

  /** The emitted position lists are in strictly increasing lexicographic order. */
  lemma {:induction false} ChooseLexOrdered(n: nat, start: nat, k: nat)
    ensures LexOrdered(Choose(Positions(n), start, k))
    decreases n - start
  {
    if k > 0 && start < n {
      ChooseLexOrdered(n, start + 1, k - 1);
      ChooseLexOrdered(n, start + 1, k);
      ChooseLexStep(n, start, k);
    }
  }

  lemma {:induction false} ChooseLexStep(n: nat, start: nat, k: nat)
    requires k > 0 && start < n
    requires LexOrdered(Choose(Positions(n), start + 1, k - 1)) && LexOrdered(Choose(Positions(n), start + 1, k))
    ensures LexOrdered(Choose(Positions(n), start, k))
  {
    var ix := Positions(n);
    ChooseSelections(n, start + 1, k);
    ChooseUnfold(ix, start, k);
    assert ix[start] == start;
    LexOrderedStep(start, n, k, Choose(ix, start + 1, k - 1), Choose(ix, start + 1, k), Choose(ix, start, k));
  }

  /** Prefixing start keeps order, and every such list precedes the selections from start + 1. */
  lemma {:induction false} LexOrderedStep(start: nat, n: nat, k: nat, taken: seq<seq<nat>>, skipped: seq<seq<nat>>,
                                          all: seq<seq<nat>>)
    requires LexOrdered(taken) && LexOrdered(skipped) && AllSelections(skipped, start + 1, n, k) && k > 0
    requires all == PrefixAll([start], taken) + skipped
    ensures LexOrdered(all)
  {
    var a := PrefixAll([start], taken);
    forall i, j | 0 <= i < j < |all|
      ensures LexLess(all[i], all[j])
    {
      if j < |a| {
        assert all[i] == [start] + taken[i] && all[j] == [start] + taken[j];
        assert all[i][1..] == taken[i] && all[j][1..] == taken[j];
      } else if i < |a| {
        assert all[i] == [start] + taken[i];
        assert all[j] == skipped[j - |a|];
        assert Selection(skipped[j - |a|], start + 1, n, k);
      } else {
        assert all[i] == skipped[i - |a|] && all[j] == skipped[j - |a|];
      }
    }
  }

  /** Each k-subset is emitted exactly once. */
  lemma {:induction false} ChooseNoRepeats(n: nat, k: nat)
    ensures forall i, j :: 0 <= i < j < |Choose(Positions(n), 0, k)| ==> Choose(Positions(n), 0, k)[i] != Choose(Positions(n), 0, k)[j]
  {
    ChooseLexOrdered(n, 0, k);
    forall a: seq<nat> {
      LexLessIrreflexive(a);
    }
  }

  function Binomial(m: nat, k: nat): nat
  {
    if k == 0 then 1 else if m == 0 then 0 else Binomial(m - 1, k - 1) + Binomial(m - 1, k)
  }

  lemma {:induction false} ChooseCount<T>(values: seq<T>, start: nat, k: nat)
    requires start <= |values|
    ensures |Choose(values, start, k)| == Binomial(|values| - start, k)
    decreases |values| - start
  {
    if k > 0 && start < |values| {
      ChooseCount(values, start + 1, k - 1);
      ChooseCount(values, start + 1, k);
      ChooseUnfold(values, start, k);
    }
  }

  /** Every position in c is a valid index for a sequence of length n. */
  predicate InRange(c: seq<nat>, n: nat)
  {
    forall i :: 0 <= i < |c| ==> c[i] < n
  }

  function Pick<T>(values: seq<T>, c: seq<nat>): (picked: seq<T>)
    requires InRange(c, |values|)
    ensures |picked| == |c|
  {
    seq(|c|, i requires 0 <= i < |c| => values[c[i]])
  }

  lemma {:induction false} PickCons<T>(values: seq<T>, s: nat, c: seq<nat>)
    requires s < |values| && InRange(c, |values|)
    ensures InRange([s] + c, |values|)
    ensures Pick(values, [s] + c) == [values[s]] + Pick(values, c)
  {
  }

  /** Each selection in `picked` is the values at the position list in the same place of `positions`. */
  ghost predicate PickedAt<T>(values: seq<T>, picked: seq<seq<T>>, positions: seq<seq<nat>>)
  {
    && |picked| == |positions|
    && forall i :: 0 <= i < |picked| ==> InRange(positions[i], |values|) && picked[i] == Pick(values, positions[i])
  }

  /** The selections of values are the values at the emitted position lists. */
  lemma {:induction false} ChooseIsPicked<T>(values: seq<T>, start: nat, k: nat)
    requires start <= |values|
    ensures PickedAt(values, Choose(values, start, k), Choose(Positions(|values|), start, k))
    decreases |values| - start
  {
    var n := |values|;
    var ix := Positions(n);
    if k > 0 && start < n {
      ChooseIsPicked(values, start + 1, k - 1);
      ChooseIsPicked(values, start + 1, k);
      assert [ix[start]] == [start as nat];
      PickedStep(values, start, Choose(values, start + 1, k - 1), Choose(ix, start + 1, k - 1),
                 Choose(values, start + 1, k), Choose(ix, start + 1, k));
    } else if k == 0 {
      assert Choose(ix, start, k) == [[]];
    }
  }

  lemma {:induction false} PickedStep<T>(values: seq<T>, start: nat, vt: seq<seq<T>>, it: seq<seq<nat>>, vs: seq<seq<T>>, iskip: seq<seq<nat>>)
    requires start < |values|
    requires PickedAt(values, vt, it) && PickedAt(values, vs, iskip)
    ensures PickedAt(values, PrefixAll([values[start]], vt) + vs, PrefixAll([start as nat], it) + iskip)
  {
    var all := PrefixAll([start as nat], it) + iskip;
    var picked := PrefixAll([values[start]], vt) + vs;
    forall i | 0 <= i < |all|
      ensures InRange(all[i], |values|) && picked[i] == Pick(values, all[i])
    {
      if i < |it| {
        PickCons(values, start, it[i]);
      }
    }
  }

  // ---- the majority test

  function InCoalition(parties: seq<PartyKey>): SeatShare -> bool
  {
    (e: SeatShare) => e.party in parties
  }

  /** The summed seat share of the coalition's parties in one scenario. */
  function CoalitionSeatShare(s: Scenario, parties: seq<PartyKey>): real
  {
    SumOf(Filter(s.seatShares, InCoalition(parties)), SeatShareOf)
  }

  /** coalitionSurplus: seat-share points above (or, negative, below) 50. */
  function CoalitionSurplus(s: Scenario, parties: seq<PartyKey>): real
  {
    CoalitionSeatShare(s, parties) - MAJORITY
  }

  /** coalitionMajority: the coalition holds at least 50% of the seats. */
  predicate CoalitionMajority(s: Scenario, parties: seq<PartyKey>)
  {
    CoalitionSeatShare(s, parties) >= MAJORITY
  }

  lemma {:induction false} MajorityIffSurplus(s: Scenario, parties: seq<PartyKey>)
    ensures CoalitionMajority(s, parties) <==> CoalitionSurplus(s, parties) >= 0.0
  {
  }

  function HasMajority(parties: seq<PartyKey>): Scenario -> bool
  {
    (s: Scenario) => CoalitionMajority(s, parties)
  }

  /** The number of scenarios in which the coalition has a majority. */
  function MajorityCount(scenarios: seq<Scenario>, parties: seq<PartyKey>): nat
  {
    CountWhere(scenarios, HasMajority(parties))
  }

  // ---- the option list

  /** A coalition offered for selection; `caption` is the label ordered by a locale collation. */
  datatype CoalitionOption = CoalitionOption(id: string, caption: string, parties: seq<PartyKey>, count: nat)

  /** Joins the parts with a separator between consecutive parts. */
  function Join(parts: seq<string>, sep: string): string
  {
    if |parts| == 0 then "" else if |parts| == 1 then parts[0] else parts[0] + sep + Join(parts[1..], sep)
  }

  function UpperCase(key: string): (upper: string)
    ensures |upper| == |key|
  {
    seq(|key|, i requires 0 <= i < |key| => if 'a' <= key[i] <= 'z' then (key[i] as int - 32) as char else key[i])
  }

  /** partyName: the display label of a party, or its key in upper case when it has none. */
  function PartyName(key: PartyKey): string
  {
    if key == "spd" then "SPD"
    else if key == "cxu" then "Union"
    else if key == "gru" then "GRÜNE"
    else if key == "lin" then "LINKE"
    else if key == "fdp" then "FDP"
    else if key == "afd" then "AfD"
    else if key == "bsw" then "BSW"
    else UpperCase(key)
  }

  function PartyNames(parties: seq<PartyKey>): (names: seq<string>)
    ensures |names| == |parties|
  {
    seq(|parties|, i requires 0 <= i < |parties| => PartyName(parties[i]))
  }

  /** A coalition of the Union with the Left is never offered. */
  predicate Excluded(parties: seq<PartyKey>)
  {
    "cxu" in parties && "lin" in parties
  }

  predicate Admissible(parties: seq<PartyKey>)
  {
    !Excluded(parties)
  }

  function Candidate(scenarios: seq<Scenario>, parties: seq<PartyKey>): CoalitionOption
  {
    CoalitionOption(Join(parties, "-"), Join(PartyNames(parties), " + "), parties, MajorityCount(scenarios, parties))
  }

  /** Whether a selection of parties is pushed onto the candidate list. */
  predicate Offered(scenarios: seq<Scenario>, parties: seq<PartyKey>)
  {
    Admissible(parties) && MajorityCount(scenarios, parties) > 0
  }

  /** What one selection pushes: its option when it is offered, nothing otherwise. */
  function CandidateOf(scenarios: seq<Scenario>, parties: seq<PartyKey>): seq<CoalitionOption>
  {
    if Offered(scenarios, parties) then [Candidate(scenarios, parties)] else []
  }

  /** The candidates pushed while going through `combos` in order. */
  function Candidates(scenarios: seq<Scenario>, combos: seq<seq<PartyKey>>): seq<CoalitionOption>
  {
    if combos == [] then [] else CandidateOf(scenarios, combos[0]) + Candidates(scenarios, combos[1..])
  }

  lemma {:induction false} CandidatesAppend(scenarios: seq<Scenario>, a: seq<seq<PartyKey>>, b: seq<seq<PartyKey>>)
    ensures Candidates(scenarios, a + b) == Candidates(scenarios, a) + Candidates(scenarios, b)
  {
    if a == [] {
      assert a + b == b;
    } else {
      var head := CandidateOf(scenarios, a[0]);
      assert (a + b)[0] == a[0] && (a + b)[1..] == a[1..] + b;
      CandidatesAppend(scenarios, a[1..], b);
      calc {
        Candidates(scenarios, a + b);
        head + Candidates(scenarios, a[1..] + b);
        head + (Candidates(scenarios, a[1..]) + Candidates(scenarios, b));
        (head + Candidates(scenarios, a[1..])) + Candidates(scenarios, b);
      }
    }
  }

  /** Going one selection further pushes that selection's candidate. */
  lemma {:induction false} CandidatesStep(scenarios: seq<Scenario>, combos: seq<seq<PartyKey>>, j: nat)
    requires j < |combos|
    ensures Candidates(scenarios, combos[..j + 1]) == Candidates(scenarios, combos[..j]) + CandidateOf(scenarios, combos[j])
  {
    var c := combos[j];
    assert combos[..j + 1] == combos[..j] + [c];
    CandidatesAppend(scenarios, combos[..j], [c]);
    CandidatesSingle(scenarios, c);
  }

  lemma {:induction false} CandidatesSingle(scenarios: seq<Scenario>, c: seq<PartyKey>)
    ensures Candidates(scenarios, [c]) == CandidateOf(scenarios, c)
  {
    assert [c][1..] == [];
  }

  /** The candidates are exactly the offered selections of `combos`, one per selection. */
  lemma {:induction false} CandidatesMembers(scenarios: seq<Scenario>, combos: seq<seq<PartyKey>>)
    ensures forall o :: o in Candidates(scenarios, combos) <==>
      exists c :: c in combos && Offered(scenarios, c) && o == Candidate(scenarios, c)
    ensures |Candidates(scenarios, combos)| <= CountWhere(combos, Admissible)
  {
    if combos != [] {
      CandidatesMembers(scenarios, combos[1..]);
      assert forall c :: c in combos <==> c == combos[0] || c in combos[1..];
    }
  }

  /** The coalition sizes considered, in the order of the forEach. */
  const COALITION_SIZES: seq<nat> := [2, 3, 4]

  /** All selections of the given sizes from the pool, size by size. */
  function PoolSelections(pool: seq<PartyKey>, sizes: seq<nat>): seq<seq<PartyKey>>
  {
    if sizes == [] then []
    else PoolSelections(pool, sizes[..|sizes| - 1]) + Choose(pool, 0, sizes[|sizes| - 1])
  }

  /** Comparator `(a, b) => b.count - a.count || a.label.localeCompare(b.label, "de")`. */
  function OptionOrder(collate: (string, string) -> bool): (CoalitionOption, CoalitionOption) -> bool
  {
    (a: CoalitionOption, b: CoalitionOption) => a.count > b.count || (a.count == b.count && collate(a.caption, b.caption))
  }

  lemma {:induction false} OptionOrderIsConsistent(collate: (string, string) -> bool)
    requires StrictWeakOrder(collate)
    ensures StrictWeakOrder(OptionOrder(collate))
  {
    var before := OptionOrder(collate);
    forall a
      ensures !before(a, a)
    {
      assert !collate(a.caption, a.caption);
    }
    forall a, b, c | before(a, b) && before(b, c)
      ensures before(a, c)
    {
      if a.count == c.count {
        assert collate(a.caption, b.caption) && collate(b.caption, c.caption);
      }
    }
    forall a, b, c | before(a, c)
      ensures before(a, b) || before(b, c)
    {
      if a.count == b.count && b.count == c.count {
        assert collate(a.caption, c.caption);
      }
    }
  }

  /** The option list for a population: the candidates sorted by count, then by label. */
  function CoalitionOptions(scenarios: seq<Scenario>, collate: (string, string) -> bool): seq<CoalitionOption>
  {
    Sort(Candidates(scenarios, PoolSelections(COALITION_PARTY_POOL, COALITION_SIZES)), OptionOrder(collate))
  }

  /** One step of the inner forEach: pushes the selection when it is not excluded and has a majority. */
  method PushCandidate(scenarios: seq<Scenario>, parties: seq<PartyKey>, candidates: seq<CoalitionOption>)
      returns (pushed: seq<CoalitionOption>)
    ensures pushed == candidates + CandidateOf(scenarios, parties)
  {
    pushed := candidates;
    if !("cxu" in parties && "lin" in parties) {
      var count := MajorityCount(scenarios, parties);
      if count > 0 {
        pushed := pushed + [CoalitionOption(Join(parties, "-"), Join(PartyNames(parties), " + "), parties, count)];
      }
    }
  }

  /**
    The inner forEach of buildCoalitionOptions: pushes every selection of `combos`
    that is not excluded and has a majority in some scenario, with its count.
   */
  method PushCandidates(scenarios: seq<Scenario>, combos: seq<seq<PartyKey>>, candidates: seq<CoalitionOption>)
      returns (pushed: seq<CoalitionOption>)
    ensures pushed == candidates + Candidates(scenarios, combos)
  {
    pushed := candidates;
    var j := 0;
    while j < |combos|
      invariant 0 <= j <= |combos|
      invariant pushed == candidates + Candidates(scenarios, combos[..j])
    {
      var parties := combos[j];
      pushed := PushCandidate(scenarios, parties, pushed);
      CandidatesStep(scenarios, combos, j);
      j := j + 1;
    }
    assert combos[..j] == combos;
  }

  /** The outer forEach of buildCoalitionOptions, over the coalition sizes. */
  method CollectCandidates(scenarios: seq<Scenario>, pool: seq<PartyKey>, sizes: seq<nat>)
      returns (candidates: seq<CoalitionOption>)
    ensures candidates == Candidates(scenarios, PoolSelections(pool, sizes))
  {
    candidates := [];
    var s := 0;
    while s < |sizes|
      invariant 0 <= s <= |sizes|
      invariant candidates == Candidates(scenarios, PoolSelections(pool, sizes[..s]))
    {
      var combos := Combinations(pool, sizes[s]);
      ghost var done := PoolSelections(pool, sizes[..s]);
      candidates := PushCandidates(scenarios, combos, candidates);
      CandidatesAppend(scenarios, done, combos);
      assert sizes[..s + 1][..s] == sizes[..s];
      s := s + 1;
    }
    assert sizes[..s] == sizes;
  }

  /**
    buildCoalitionOptions: the candidates of sizes 2, 3 and 4, sorted by count and
    then by label. `collate` stands for localeCompare(…, "de") on the labels.
   */
  method BuildCoalitionOptions(scenarios: seq<Scenario>, collate: (string, string) -> bool)
      returns (options: seq<CoalitionOption>)
    ensures options == CoalitionOptions(scenarios, collate)
  {
    var candidates := CollectCandidates(scenarios, COALITION_PARTY_POOL, COALITION_SIZES);
    options := Sort(candidates, OptionOrder(collate));
  }

  // ---- how many selections can be offered

  /** The selection does not hold x. */
  function Avoids<T(==)>(x: T): seq<T> -> bool
  {
    (c: seq<T>) => x !in c
  }

  /** Counting prefixed selections by p is counting the unprefixed ones by q. */
  lemma {:induction false} CountPrefixed<T>(v: T, a: seq<seq<T>>, p: seq<T> -> bool, q: seq<T> -> bool)
    requires forall c :: p([v] + c) <==> q(c)
    ensures CountWhere(PrefixAll([v], a), p) == CountWhere(a, q)
  {
    if a != [] {
      CountPrefixed(v, a[1..], p, q);
      assert PrefixAll([v], a)[1..] == PrefixAll([v], a[1..]);
    }
  }

  /** Prefixing a value other than x keeps the count of selections without x. */
  lemma {:induction false} PrefixKeepsAvoiding<T>(x: T, v: T, a: seq<seq<T>>)
    requires v != x
    ensures CountWhere(PrefixAll([v], a), Avoids(x)) == CountWhere(a, Avoids(x))
  {
    if a != [] {
      PrefixKeepsAvoiding(x, v, a[1..]);
      assert PrefixAll([v], a)[1..] == PrefixAll([v], a[1..]);
      assert x in [v] + a[0] <==> x in a[0];
    }
  }

  /** Prefixing x itself leaves no selection without x. */
  lemma {:induction false} PrefixNeverAvoids<T>(x: T, a: seq<seq<T>>)
    ensures CountWhere(PrefixAll([x], a), Avoids(x)) == 0
  {
    var prefixed := PrefixAll([x], a);
    forall i | 0 <= i < |prefixed|
      ensures !Avoids(x)(prefixed[i])
    {
      assert prefixed[i][0] == x;
    }
    CountWhereNone(prefixed, Avoids(x));
  }

  /** When x is not among values[start..], no selection from there holds it. */
  lemma {:induction false} AbsentCount<T>(values: seq<T>, start: nat, k: nat, x: T)
    requires start <= |values|
    requires forall j :: start <= j < |values| ==> values[j] != x
    ensures CountWhere(Choose(values, start, k), Avoids(x)) == Binomial(|values| - start, k)
    decreases |values| - start
  {
    if k == 0 {
      assert Choose(values, start, k) == [[]];
    } else if start < |values| {
      var next, fewer := start + 1, k - 1;
      var v := values[start];
      var taken := Choose(values, next, fewer);
      var skipped := Choose(values, next, k);
      assert Choose(values, start, k) == PrefixAll([v], taken) + skipped;
      AbsentCount(values, next, fewer, x);
      AbsentCount(values, next, k, x);
      PrefixKeepsAvoiding(x, v, taken);
      CountWhereAppend(PrefixAll([v], taken), skipped, Avoids(x));
      calc {
        CountWhere(Choose(values, start, k), Avoids(x));
        CountWhere(taken, Avoids(x)) + CountWhere(skipped, Avoids(x));
        Binomial(|values| - next, fewer) + Binomial(|values| - next, k);
        Binomial(|values| - start, k);
      }
    } else {
      assert Choose(values, start, k) == [];
    }
  }

  /** No value occurs twice. */
  predicate AllDifferent<T(==)>(values: seq<T>)
  {
    forall a, b :: 0 <= a < b < |values| ==> values[a] != values[b]
  }

  /** values[i] occurs nowhere else in values[start..]. */
  predicate OnlyAt<T(==)>(values: seq<T>, start: nat, i: nat)
  {
    i < |values| && forall j :: start <= j < |values| && j != i ==> values[j] != values[i]
  }

  /** Of the k-selections from values[start..], C(m, k) leave out values[i]. */
  ghost predicate AvoidingCounted<T>(values: seq<T>, start: nat, k: nat, i: nat, m: nat)
    requires i < |values|
  {
    CountWhere(Choose(values, start, k), Avoids(values[i])) == Binomial(m, k)
  }

  /**
    When x occurs once among values[start..], at position i, the selections without it
    number C(m, k), where m = |values| - start - 1 is the number of the other values.
   */
  lemma {:induction false} AvoidingCount<T>(values: seq<T>, start: nat, k: nat, i: nat, m: nat)
    requires start <= i && OnlyAt(values, start, i)
    requires m == |values| - start - 1
    ensures AvoidingCounted(values, start, k, i, m)
    decreases m, 1
  {
    if k == 0 {
      assert Choose(values, start, k) == [[]];
    } else if start == i {
      AvoidingCountHere(values, k, i, m);
    } else {
      AvoidingCountLater(values, start, k, i, m);
    }
  }

  /** The selections that take x itself all hold it; those that skip it cannot. */
  lemma {:induction false} AvoidingCountHere<T>(values: seq<T>, k: nat, i: nat, m: nat)
    requires k > 0 && OnlyAt(values, i, i)
    requires m == |values| - i - 1
    ensures AvoidingCounted(values, i, k, i, m)
  {
    var x := values[i];
    var taken := Choose(values, i + 1, k - 1);
    var skipped := Choose(values, i + 1, k);
    assert Choose(values, i, k) == PrefixAll([x], taken) + skipped;
    CountWhereAppend(PrefixAll([x], taken), skipped, Avoids(x));
    PrefixNeverAvoids(x, taken);
    AbsentCount(values, i + 1, k, x);
  }

  /** A first value other than x: Pascal's rule on the selections that take it and those that skip it. */
  lemma {:induction false} AvoidingCountLater<T>(values: seq<T>, start: nat, k: nat, i: nat, m: nat)
    requires k > 0 && start < i && OnlyAt(values, start, i)
    requires m == |values| - start - 1
    ensures AvoidingCounted(values, start, k, i, m)
    decreases m, 0
  {
    assert OnlyAt(values, start + 1, i);
    AvoidingCount(values, start + 1, k - 1, i, m - 1);
    AvoidingCount(values, start + 1, k, i, m - 1);
    AvoidingCombine(values, start, k, i, m);
  }

  /** Pascal's rule on the selections from values[start..] that avoid values[i]. */
  lemma {:induction false} AvoidingCombine<T>(values: seq<T>, start: nat, k: nat, i: nat, m: nat)
    requires k > 0 && start < i && OnlyAt(values, start, i)
    requires m == |values| - start - 1
    requires AvoidingCounted(values, start + 1, k - 1, i, m - 1)
    requires AvoidingCounted(values, start + 1, k, i, m - 1)
    ensures AvoidingCounted(values, start, k, i, m)
  {
    ChooseUnfold(values, start, k);
    AvoidingStep(values[i], values[start], Choose(values, start + 1, k - 1), Choose(values, start + 1, k),
                 Choose(values, start, k), m, k);
  }

  /** Selections avoiding x: those that take v != x and those that skip it, by Pascal's rule. */
  lemma {:induction false} AvoidingStep<T>(x: T, v: T, taken: seq<seq<T>>, skipped: seq<seq<T>>, all: seq<seq<T>>, m: nat, k: nat)
    requires v != x && m > 0 && k > 0
    requires all == PrefixAll([v], taken) + skipped
    requires CountWhere(taken, Avoids(x)) == Binomial(m - 1, k - 1)
    requires CountWhere(skipped, Avoids(x)) == Binomial(m - 1, k)
    ensures CountWhere(all, Avoids(x)) == Binomial(m, k)
  {
    CountWhereAppend(PrefixAll([v], taken), skipped, Avoids(x));
    PrefixKeepsAvoiding(x, v, taken);
  }

  /** Pascal's rule. */
  lemma {:induction false} BinomialStep(m: nat, k: nat)
    requires m > 0 && k > 0
    ensures Binomial(m, k) == Binomial(m - 1, k - 1) + Binomial(m - 1, k)
  {
  }

  /** The number of k-selections from n distinct values that do not hold both of two given ones. */
  function PairFree(n: nat, k: nat): nat
    requires n >= 2
  {
    if k == 0 then 1 else Binomial(n - 1, k) + Binomial(n - 2, k - 1)
  }

  /** The selection does not hold both a and b. */
  function NotBoth<T(==)>(a: T, b: T): seq<T> -> bool
  {
    (c: seq<T>) => !(a in c && b in c)
  }

  /** The selections that skip values[0] all lack it, so none holds both. */
  lemma {:induction false} PairFreeWithoutFirst<T>(values: seq<T>, k: nat, j: nat)
    requires AllDifferent(values)
    requires 0 < j < |values|
    ensures CountWhere(Choose(values, 1, k), NotBoth(values[0], values[j])) == Binomial(|values| - 1, k)
  {
    var first := values[0];
    var skipped := Choose(values, 1, k);
    AbsentCount(values, 1, k, first);
    ChooseCount(values, 1, k);
    CountWhereAll(skipped, Avoids(first));
    forall i | 0 <= i < |skipped|
      ensures NotBoth(first, values[j])(skipped[i])
    {
      assert Avoids(first)(skipped[i]);
    }
    CountWhereAll(skipped, NotBoth(first, values[j]));
  }

  /** For two different values, a selection with first prepended holds both exactly when it holds other. */
  lemma {:induction false} NotBothPrefixed<T>(first: T, other: T)
    requires first != other
    ensures forall c :: NotBoth(first, other)([first] + c) <==> Avoids(other)(c)
  {
    forall c
      ensures NotBoth(first, other)([first] + c) <==> Avoids(other)(c)
    {
      assert first in [first] + c;
      assert other in [first] + c <==> other in c;
    }
  }

  /** In a list of different values each occurs only at its own position. */
  lemma {:induction false} DifferentOnlyAt<T>(values: seq<T>, start: nat, i: nat)
    requires AllDifferent(values) && i < |values|
    ensures OnlyAt(values, start, i)
  {
  }

  /** The selections that take values[0] hold both exactly when they also take values[j]. */
  lemma {:induction false} PairFreeWithFirst<T>(values: seq<T>, k: nat, j: nat)
    requires AllDifferent(values)
    requires 0 < j < |values|
    ensures CountWhere(PrefixAll([values[0]], Choose(values, 1, k)), NotBoth(values[0], values[j])) == Binomial(|values| - 2, k)
  {
    var first, other := values[0], values[j];
    NotBothPrefixed(first, other);
    CountPrefixed(first, Choose(values, 1, k), NotBoth(first, other), Avoids(other));
    DifferentOnlyAt(values, 1, j);
    AvoidingCount(values, 1, k, j, |values| - 2);
  }

  /**
    Counting the k-selections that do not hold both values[0] and values[j]: those
    without values[0], and those with values[0] but without values[j].
   */
  lemma {:induction false} PairFreeCount<T>(values: seq<T>, k: nat, j: nat)
    requires AllDifferent(values)
    requires 0 < j < |values|
    ensures CountWhere(Choose(values, 0, k), NotBoth(values[0], values[j])) == PairFree(|values|, k)
  {
    if k == 0 {
      assert Choose(values, 0, k) == [[]];
    } else {
      var fewer := k - 1;
      var taken := PrefixAll([values[0]], Choose(values, 1, fewer));
      var skipped := Choose(values, 1, k);
      assert Choose(values, 0, k) == taken + skipped;
      CountWhereAppend(taken, skipped, NotBoth(values[0], values[j]));
      PairFreeWithFirst(values, fewer, j);
      PairFreeWithoutFirst(values, k, j);
    }
  }

  /** PairFree summed over the sizes. */
  function PairFreeTotal(n: nat, sizes: seq<nat>): nat
    requires n >= 2
  {
    if sizes == [] then 0 else PairFreeTotal(n, sizes[..|sizes| - 1]) + PairFree(n, sizes[|sizes| - 1])
  }

  /** Summing PairFreeCount over the sizes. */
  lemma {:induction false} PairFreeSelections(pool: seq<PartyKey>, sizes: seq<nat>, j: nat)
    requires AllDifferent(pool)
    requires 0 < j < |pool|
    ensures CountWhere(PoolSelections(pool, sizes), NotBoth(pool[0], pool[j])) == PairFreeTotal(|pool|, sizes)
  {
    if sizes != [] {
      var p := NotBoth(pool[0], pool[j]);
      var init, last := sizes[..|sizes| - 1], sizes[|sizes| - 1];
      PairFreeSelections(pool, init, j);
      PairFreeCount(pool, last, j);
      CountWhereAppend(PoolSelections(pool, init), Choose(pool, 0, last), p);
    }
  }

  /** The pool lists six different parties, the Union first and the Left fifth. */
  lemma {:induction false} PoolParties()
    ensures AllDifferent(COALITION_PARTY_POOL)
    ensures COALITION_PARTY_POOL[0] == "cxu" && COALITION_PARTY_POOL[4] == "lin"
  {
  }

  /** Without the Union-Left pairs there are 14 pairs, 16 triples and 9 quadruples of pool parties. */
  lemma {:induction false} PairFreeTotalPool()
    ensures PairFreeTotal(|COALITION_PARTY_POOL|, COALITION_SIZES) == 39
  {
    assert PairFree(6, 2) == 14 && PairFree(6, 3) == 16 && PairFree(6, 4) == 9;
    assert COALITION_SIZES[..2] == [2, 3] && [2, 3][..1] == [2] && [2][..0] == [];
  }

  /** At most 39 selections can be offered: 50 selections of 2 to 4 parties, 11 of them excluded. */
  lemma {:induction false} AdmissibleSelections()
    ensures CountWhere(PoolSelections(COALITION_PARTY_POOL, COALITION_SIZES), Admissible) == 39
  {
    var pool := COALITION_PARTY_POOL;
    var all := PoolSelections(pool, COALITION_SIZES);
    PoolParties();
    PairFreeSelections(pool, COALITION_SIZES, 4);
    CountWhereSame(all, Admissible, NotBoth(pool[0], pool[4]));
    PairFreeTotalPool();
  }

  /**
    The option list holds exactly the offered selections of 2 to 4 pool parties, each
    with its id, label and majority count; no option pairs the Union with the Left;
    the list runs by count descending, then by label; it has at most 39 entries.
   */
  lemma {:induction false} CoalitionOptionsSound(scenarios: seq<Scenario>, collate: (string, string) -> bool, options: seq<CoalitionOption>)
    requires StrictWeakOrder(collate)
    requires options == CoalitionOptions(scenarios, collate)
    ensures forall o :: o in options <==>
      exists c :: c in PoolSelections(COALITION_PARTY_POOL, COALITION_SIZES) && Offered(scenarios, c) && o == Candidate(scenarios, c)
    ensures forall o :: o in options ==>
      && o.id == Join(o.parties, "-")
      && !Excluded(o.parties)
      && o.count == MajorityCount(scenarios, o.parties) > 0
    ensures forall i, j :: 0 <= i < j < |options| ==>
      && options[i].count >= options[j].count
      && (options[i].count == options[j].count ==> !collate(options[j].caption, options[i].caption))
    ensures |options| <= 39
  {
    var combos := PoolSelections(COALITION_PARTY_POOL, COALITION_SIZES);
    var candidates := Candidates(scenarios, combos);
    CandidatesMembers(scenarios, combos);
    AdmissibleSelections();
    assert forall o :: o in options <==> o in candidates by {
      assert multiset(options) == multiset(candidates);
      forall o
        ensures o in options <==> o in candidates
      {
        assert o in options <==> o in multiset(options);
        assert o in candidates <==> o in multiset(candidates);
      }
    }
    OptionOrderIsConsistent(collate);
    SortIsSorted(candidates, OptionOrder(collate));
    forall i, j | 0 <= i < j < |options|
      ensures options[i].count >= options[j].count
      ensures options[i].count == options[j].count ==> !collate(options[j].caption, options[i].caption)
    {
      assert !OptionOrder(collate)(options[j], options[i]);
    }
  }

  /** strongestCoalition: the id of the first option, if any. */
  function StrongestCoalition(options: seq<CoalitionOption>): (id: Option<string>)
    ensures id.None? <==> options == []
    ensures options != [] ==> id == Some(options[0].id)
  {
    if options == [] then None else Some(options[0].id)
  }
}
