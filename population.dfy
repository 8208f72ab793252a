/**
  Aggregates over a whole population of scenarios: the party that leads most
  often (dominantLeader), the party whose poll average is closest to the hurdle
  (partyAtHurdle), and the seat-signature frequency ranking
  (buildSeatSignature, rebuildFrequencyRanking).
 */
module Population {
  import opened Base
  import opened Sorting
  import opened Scenarios

  /** The parties in the fixed order of the party metadata table. */
  const PARTY_ORDER: seq<PartyKey> := ["spd", "cxu", "gru", "lin", "fdp", "afd", "bsw"]

  /** Width of a signature bucket, in seat-share percentage points. */
  const FREQUENCY_BUCKET: int := 1

  function FirstParties(scenarios: seq<Scenario>): (firsts: seq<PartyKey>)
    ensures |firsts| == |scenarios|
    ensures forall i :: 0 <= i < |scenarios| ==> firsts[i] == scenarios[i].firstParty
  {
    seq(|scenarios|, i requires 0 <= i < |scenarios| => scenarios[i].firstParty)
  }

  /** The number of scenarios that `party` leads. */
  function LeadCount(scenarios: seq<Scenario>, party: PartyKey): nat
  {
    multiset(FirstParties(scenarios))[party]
  }

  /** One entry of a rollup that counts scenarios per party. */
  datatype Tally = Tally(party: PartyKey, count: nat)

  /** The entries of d3.rollup(scenarios, arr => arr.length, d => d.firstParty), in key insertion order. */
  function LeadTallies(scenarios: seq<Scenario>): seq<Tally>
  {
    var keys := Distinct(FirstParties(scenarios));
    seq(|keys|, i requires 0 <= i < |keys| => Tally(keys[i], LeadCount(scenarios, keys[i])))
  }

  /** Comparator `(a, b) => b[1] - a[1]`: larger count first. */
  predicate MoreLeads(a: Tally, b: Tally) { a.count > b.count }

  lemma {:induction false} MoreLeadsIsConsistent()
    ensures StrictWeakOrder(MoreLeads)
  {
  }

  /** dominantLeader: the head of the tallies sorted by count, or "cxu" when there are none. */
  function DominantLeader(scenarios: seq<Scenario>): PartyKey
  {
    var ranked := Sort(LeadTallies(scenarios), MoreLeads);
    if ranked == [] then "cxu" else ranked[0].party
  }

  /**
    The dominant leader leads at least as many scenarios as any party; every scenario
    before the first one it leads is led by a party with strictly fewer first places.
   */
  lemma {:induction false} DominantLeaderLeadsMost(scenarios: seq<Scenario>)
    ensures scenarios == [] ==> DominantLeader(scenarios) == "cxu"
    ensures scenarios != [] ==> DominantLeader(scenarios) in FirstParties(scenarios)
    ensures forall p :: LeadCount(scenarios, p) <= LeadCount(scenarios, DominantLeader(scenarios))
    ensures forall j :: 0 <= j < |scenarios| && (forall t :: 0 <= t <= j ==> scenarios[t].firstParty != DominantLeader(scenarios))
              ==> LeadCount(scenarios, scenarios[j].firstParty) < LeadCount(scenarios, DominantLeader(scenarios))
  {
    if scenarios != [] {
      var k := LeaderPosition(scenarios);
      LeaderLeadsMost(scenarios, k);
      LeaderBeatsEarlierLeaders(scenarios, k);
    }
  }

  /** The dominant leader is the key of the first tally with the largest count. */
  lemma {:induction false} LeaderPosition(scenarios: seq<Scenario>) returns (k: nat)
    requires scenarios != []
    ensures IsFirstMinimal(LeadTallies(scenarios), k, MoreLeads)
    ensures k < |Distinct(FirstParties(scenarios))| && DominantLeader(scenarios) == Distinct(FirstParties(scenarios))[k]
  {
    var firsts := FirstParties(scenarios);
    assert firsts[0] in Distinct(firsts);
    MoreLeadsIsConsistent();
    k := SortHead(LeadTallies(scenarios), MoreLeads);
  }

  lemma {:induction false} LeaderLeadsMost(scenarios: seq<Scenario>, k: nat)
    requires IsFirstMinimal(LeadTallies(scenarios), k, MoreLeads)
    requires k < |Distinct(FirstParties(scenarios))| && DominantLeader(scenarios) == Distinct(FirstParties(scenarios))[k]
    ensures DominantLeader(scenarios) in FirstParties(scenarios)
    ensures forall p :: LeadCount(scenarios, p) <= LeadCount(scenarios, DominantLeader(scenarios))
  {
    var firsts := FirstParties(scenarios);
    var keys := Distinct(firsts);
    var tallies := LeadTallies(scenarios);
    var leader := DominantLeader(scenarios);
    assert keys[k] in keys;
    forall p
      ensures LeadCount(scenarios, p) <= LeadCount(scenarios, leader)
    {
      if p in firsts {
        var j :| 0 <= j < |keys| && keys[j] == p;
        assert !MoreLeads(tallies[j], tallies[k]);
      }
    }
  }

  lemma {:induction false} LeaderBeatsEarlierLeaders(scenarios: seq<Scenario>, k: nat)
    requires IsFirstMinimal(LeadTallies(scenarios), k, MoreLeads)
    requires k < |Distinct(FirstParties(scenarios))| && DominantLeader(scenarios) == Distinct(FirstParties(scenarios))[k]
    ensures forall j :: 0 <= j < |scenarios| && (forall t :: 0 <= t <= j ==> scenarios[t].firstParty != DominantLeader(scenarios))
              ==> LeadCount(scenarios, scenarios[j].firstParty) < LeadCount(scenarios, DominantLeader(scenarios))
  {
    var firsts := FirstParties(scenarios);
    var keys := Distinct(firsts);
    var tallies := LeadTallies(scenarios);
    var leader := DominantLeader(scenarios);
    assert keys[k] in keys;
    forall j | 0 <= j < |scenarios| && (forall t :: 0 <= t <= j ==> scenarios[t].firstParty != leader)
      ensures LeadCount(scenarios, scenarios[j].firstParty) < LeadCount(scenarios, leader)
    {
      var ia, ib := DistinctKeepsFirstOccurrenceOrder(firsts, j, leader);
      assert ib == k;
      assert MoreLeads(tallies[k], tallies[ia]);
    }
  }

  function Abs(x: real): real { if x < 0.0 then -x else x }

  /** Math.abs(avg - 5): how far a party's poll average is from the hurdle. */
  function HurdleDistance(p: PartyPoll): real { Abs(p.avg - HURDLE) }

  /** Comparator `(a, b) => |a.avg - 5| - |b.avg - 5|`: closer to the hurdle first. */
  predicate CloserToHurdle(a: PartyPoll, b: PartyPoll) { HurdleDistance(a) < HurdleDistance(b) }

  lemma {:induction false} CloserToHurdleIsConsistent()
    ensures StrictWeakOrder(CloserToHurdle)
  {
  }

  /** partyAtHurdle: the key of the party closest to the hurdle, or "fdp" when there are no parties. */
  function PartyAtHurdle(parties: seq<PartyPoll>): PartyKey
  {
    var ranked := Sort(parties, CloserToHurdle);
    if ranked == [] then "fdp" else ranked[0].key
  }

  /** parties[k] is the earliest party with the smallest distance to the hurdle. */
  ghost predicate ClosestToHurdleAt(parties: seq<PartyPoll>, k: int)
  {
    && 0 <= k < |parties|
    && (forall j :: 0 <= j < |parties| ==> HurdleDistance(parties[k]) <= HurdleDistance(parties[j]))
    && (forall j :: 0 <= j < k ==> HurdleDistance(parties[k]) < HurdleDistance(parties[j]))
  }

  lemma {:induction false} PartyAtHurdleIsClosest(parties: seq<PartyPoll>)
    ensures parties == [] ==> PartyAtHurdle(parties) == "fdp"
    ensures parties != [] ==> exists k :: ClosestToHurdleAt(parties, k) && parties[k].key == PartyAtHurdle(parties)
  {
    if parties != [] {
      CloserToHurdleIsConsistent();
      var k := SortHead(parties, CloserToHurdle);
      assert ClosestToHurdleAt(parties, k);
    }
  }

  /** Math.round: the nearest integer, halves rounded up. */
  function RoundHalfUp(x: real): (n: int)
    ensures n as real - 0.5 <= x < n as real + 0.5
  {
    (x + 0.5).Floor
  }

  /** A seat share rounded to the nearest multiple of the bucket width. */
  function Bucketed(share: real): int
  {
    RoundHalfUp(share / FREQUENCY_BUCKET as real) * FREQUENCY_BUCKET
  }

  /**
    buildSeatSignature: every party's seat share, rounded to whole percentage points,
    in the fixed party order. The source joins these into a string such as
    "spd:21|cxu:30|..."; that encoding is injective, so the list of numbers stands for it.
   */
  function Signature(s: Scenario): (sig: seq<int>)
    ensures |sig| == |PARTY_ORDER|
    ensures forall i :: 0 <= i < |sig| ==> sig[i] as real - 0.5 <= SeatShareOfParty(s, PARTY_ORDER[i]) < sig[i] as real + 0.5
  {
    seq(|PARTY_ORDER|, i requires 0 <= i < |PARTY_ORDER| => Bucketed(SeatShareOfParty(s, PARTY_ORDER[i])))
  }

  function Signatures(scenarios: seq<Scenario>): (sigs: seq<seq<int>>)
    ensures |sigs| == |scenarios|
    ensures forall i :: 0 <= i < |scenarios| ==> sigs[i] == Signature(scenarios[i])
  {
    seq(|scenarios|, i requires 0 <= i < |scenarios| => Signature(scenarios[i]))
  }

  function SameSignatureAs(sig: seq<int>): Scenario -> bool
  {
    (s: Scenario) => Signature(s) == sig
  }

  /** The frequency count written onto a scenario, 0 before the ranking is built. */
  function FrequencyCount(s: Scenario): nat
  {
    match s.frequency
    case Some(f) => f.count
    case None => 0
  }

  /** One step of the forEach in rebuildFrequencyRanking: signature, count and share of one scenario. */
  function WithFrequency(s: Scenario, counts: multiset<seq<int>>, scenarioCount: nat): Scenario
  {
    var sig := Signature(s);
    var count := counts[sig];
    s.(frequency := Some(Frequency(sig, count, if scenarioCount > 0 then count as real / scenarioCount as real else 0.0)))
  }

  /** Every scenario annotated with its frequency; the rollup of signatures is their multiset. */
  function Annotate(scenarios: seq<Scenario>, scenarioCount: nat): (annotated: seq<Scenario>)
    ensures |annotated| == |scenarios|
  {
    var counts := multiset(Signatures(scenarios));
    seq(|scenarios|, i requires 0 <= i < |scenarios| => WithFrequency(scenarios[i], counts, scenarioCount))
  }

  /**
    `annotated` is `original` with its frequency filled in: its signature, the number
    of scenarios with that signature (at least the original itself), and that count
    over the scenario count, or 0 when the scenario count is 0.
   */
  ghost predicate FrequencyAnnotated(original: Scenario, annotated: Scenario, scenarios: seq<Scenario>, scenarioCount: nat)
  {
    && annotated.(frequency := None) == original.(frequency := None)
    && Signature(annotated) == Signature(original)
    && annotated.frequency.Some?
    && var f := annotated.frequency.value;
       && f.signature == Signature(original)
       && f.count == CountWhere(scenarios, SameSignatureAs(f.signature))
       && f.count >= 1
       && f.share == (if scenarioCount > 0 then f.count as real / scenarioCount as real else 0.0)
  }

  lemma {:induction false} AnnotateOne(scenarios: seq<Scenario>, scenarioCount: nat, i: nat)
    requires i < |scenarios|
    ensures FrequencyAnnotated(scenarios[i], Annotate(scenarios, scenarioCount)[i], scenarios, scenarioCount)
  {
    var sigs := Signatures(scenarios);
    var sig := Signature(scenarios[i]);
    var annotated := Annotate(scenarios, scenarioCount)[i];
    assert annotated == WithFrequency(scenarios[i], multiset(sigs), scenarioCount);
    assert annotated.seatShares == scenarios[i].seatShares;
    SignatureMultiplicity(scenarios, sig);
    assert sigs[i] == sig;
    assert sig in multiset(sigs);
  }

  lemma {:induction false} AnnotateCountsSignatures(scenarios: seq<Scenario>, scenarioCount: nat)
    ensures forall i :: 0 <= i < |scenarios| ==>
      FrequencyAnnotated(scenarios[i], Annotate(scenarios, scenarioCount)[i], scenarios, scenarioCount)
  {
    forall i | 0 <= i < |scenarios|
      ensures FrequencyAnnotated(scenarios[i], Annotate(scenarios, scenarioCount)[i], scenarios, scenarioCount)
    {
      AnnotateOne(scenarios, scenarioCount, i);
    }
  }

  lemma {:induction false} SignatureMultiplicity(scenarios: seq<Scenario>, sig: seq<int>)
    ensures multiset(Signatures(scenarios))[sig] == CountWhere(scenarios, SameSignatureAs(sig))
  {
    if scenarios != [] {
      SignatureMultiplicity(scenarios[1..], sig);
      assert Signatures(scenarios) == [Signature(scenarios[0])] + Signatures(scenarios[1..]);
    }
  }

  /** The signature groups partition the scenarios: their counts add up to the number of scenarios. */
  lemma {:induction false} SignatureGroupsPartition(scenarios: seq<Scenario>)
    ensures TotalOf(Distinct(Signatures(scenarios)), (sig: seq<int>) => multiset(Signatures(scenarios))[sig]) == |scenarios|
  {
    GroupSizesPartition(Signatures(scenarios));
  }

  /**
    Comparator of the frequency ranking: larger count first, then larger top seat
    share, then smaller id.
   */
  predicate MoreFrequent(a: Scenario, b: Scenario)
  {
    || FrequencyCount(a) > FrequencyCount(b)
    || (FrequencyCount(a) == FrequencyCount(b) && TopSeatShare(a) > TopSeatShare(b))
    || (FrequencyCount(a) == FrequencyCount(b) && TopSeatShare(a) == TopSeatShare(b) && a.id < b.id)
  }

  lemma {:induction false} MoreFrequentIsConsistent()
    ensures StrictWeakOrder(MoreFrequent)
  {
  }

  /** Ordered by count descending, then top seat share descending, then id ascending. */
  ghost predicate FrequencyRanked(ordered: seq<Scenario>)
  {
    forall i, j :: 0 <= i < j < |ordered| ==>
      || FrequencyCount(ordered[i]) > FrequencyCount(ordered[j])
      || (FrequencyCount(ordered[i]) == FrequencyCount(ordered[j]) && TopSeatShare(ordered[i]) > TopSeatShare(ordered[j]))
      || (FrequencyCount(ordered[i]) == FrequencyCount(ordered[j]) && TopSeatShare(ordered[i]) == TopSeatShare(ordered[j])
          && ordered[i].id <= ordered[j].id)
  }

  /** frequencyOrderedScenarios is a permutation of the scenarios in frequency order. */
  lemma {:induction false} FrequencyOrdering(scenarios: seq<Scenario>)
    ensures multiset(Sort(scenarios, MoreFrequent)) == multiset(scenarios)
    ensures FrequencyRanked(Sort(scenarios, MoreFrequent))
  {
    MoreFrequentIsConsistent();
    SortIsSorted(scenarios, MoreFrequent);
  }
}
