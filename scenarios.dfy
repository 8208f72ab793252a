/**
  One simulated election outcome (buildScenario): sampled votes per party are
  clamped at zero and normalised to vote shares, the 5% hurdle is applied and the
  qualifying parties are renormalised to seat shares, and the two strongest
  parties by vote share give the lead margin.
 */
module Scenarios {
  import opened Base
  import opened Sorting

  /** Minimum vote share (in percent) for a party to receive seats. */
  const HURDLE: real := 5.0

  /** One party's poll average and 95% confidence interval, in percent. */
  datatype PartyPoll = PartyPoll(key: PartyKey, avg: real, ciLower: real, ciUpper: real)

  /** One party's clamped sampled vote. */
  datatype Draw = Draw(party: PartyKey, vote: real)

  /** One party's sampled vote and its share of all sampled votes (0-100). */
  datatype Vote = Vote(party: PartyKey, vote: real, voteShare: real)

  /** One party's vote share and its seat share after the hurdle (0-100). */
  datatype SeatShare = SeatShare(party: PartyKey, voteShare: real, seatShare: real)

  /** What the frequency ranking attaches to a scenario. */
  datatype Frequency = Frequency(signature: seq<int>, count: nat, share: real)

  datatype Scenario = Scenario(
    id: int,
    votes: seq<Vote>,
    seatShares: seq<SeatShare>,
    rankedSeat: seq<SeatShare>,
    firstParty: PartyKey,
    secondParty: PartyKey,
    leadMargin: real,
    frequency: Option<Frequency>)

  function VoteOfDraw(d: Draw): real { d.vote }
  function VoteOf(v: Vote): real { v.vote }
  function VoteShareOf(v: Vote): real { v.voteShare }
  function SeatShareOf(s: SeatShare): real { s.seatShare }

  /** Standard deviation of a party's sampling distribution: the CI width over 3.92, at least 0.15. */
  function Spread(p: PartyPoll): (sigma: real)
    ensures sigma >= 0.15 && sigma >= (p.ciUpper - p.ciLower) / 3.92
    ensures sigma == 0.15 || sigma == (p.ciUpper - p.ciLower) / 3.92
  {
    var width := (p.ciUpper - p.ciLower) / 3.92;
    if width > 0.15 then width else 0.15
  }

  /**
    The sampled vote of one party: d3.randomNormal(avg, spread)() returns avg + spread * z
    for the standard normal deviate z it generates, and the result is clamped at 0.
   */
  function Simulate(p: PartyPoll, z: real): (d: Draw)
    ensures d.party == p.key && d.vote >= 0.0
    ensures p.avg + Spread(p) * z >= 0.0 ==> d.vote == p.avg + Spread(p) * z
    ensures p.avg + Spread(p) * z <= 0.0 ==> d.vote == 0.0
  {
    var raw := p.avg + Spread(p) * z;
    Draw(p.key, if raw > 0.0 then raw else 0.0)
  }

  /** Each draw divided by the sum of all draws, in percent; all zero when that sum is zero. */
  function Normalize(draws: seq<Draw>): (votes: seq<Vote>)
    ensures |votes| == |draws|
    ensures forall i :: 0 <= i < |draws| ==> votes[i].party == draws[i].party && votes[i].vote == draws[i].vote
  {
    var voteSum := SumOf(draws, VoteOfDraw);
    seq(|draws|, i requires 0 <= i < |draws| =>
      Vote(draws[i].party, draws[i].vote, if voteSum > 0.0 then draws[i].vote / voteSum * 100.0 else 0.0))
  }

  /** Vote shares are non-negative and sum to 100, or are all 0 when no votes were drawn. */
  ghost predicate SharesNormalised(votes: seq<Vote>)
  {
    && (forall i :: 0 <= i < |votes| ==> votes[i].voteShare >= 0.0)
    && (SumOf(votes, VoteOf) > 0.0 ==> SumOf(votes, VoteShareOf) == 100.0)
    && (SumOf(votes, VoteOf) <= 0.0 ==> forall i :: 0 <= i < |votes| ==> votes[i].voteShare == 0.0)
  }

  /** A percentage of a positive total, as a multiple of 100 / total. */
  lemma {:induction false} PercentOf(a: real, total: real)
    requires total > 0.0 && a >= 0.0
    ensures a / total * 100.0 == a * (100.0 / total) >= 0.0
  {
  }

  lemma {:induction false} WholePercent(total: real)
    requires total > 0.0
    ensures total * (100.0 / total) == 100.0
  {
  }

  lemma {:induction false} NormalizeShares(draws: seq<Draw>)
    requires forall i :: 0 <= i < |draws| ==> draws[i].vote >= 0.0
    ensures SharesNormalised(Normalize(draws))
  {
    var votes := Normalize(draws);
    var voteSum := SumOf(draws, VoteOfDraw);
    SumOfPointwise(draws, VoteOfDraw, votes, VoteOf);
    if voteSum > 0.0 {
      NormalizePositive(draws, votes, voteSum);
    }
  }

  /** With votes drawn, the shares add up to 100. */
  lemma {:induction false} NormalizePositive(draws: seq<Draw>, votes: seq<Vote>, voteSum: real)
    requires forall i :: 0 <= i < |draws| ==> draws[i].vote >= 0.0
    requires voteSum == SumOf(draws, VoteOfDraw) && voteSum > 0.0
    requires votes == Normalize(draws)
    ensures forall i :: 0 <= i < |votes| ==> votes[i].voteShare >= 0.0
    ensures SumOf(votes, VoteShareOf) == 100.0
  {
    var c := 100.0 / voteSum;
    NormalizeScales(draws, votes, voteSum, c);
    ScaledToHundred(draws, votes, voteSum, c);
  }

  /** Shares that are the votes times 100 / voteSum add up to 100. */
  lemma {:induction false} ScaledToHundred(draws: seq<Draw>, votes: seq<Vote>, voteSum: real, c: real)
    requires voteSum == SumOf(draws, VoteOfDraw) && voteSum > 0.0 && c == 100.0 / voteSum
    requires |votes| == |draws|
    requires forall i :: 0 <= i < |draws| ==> VoteShareOf(votes[i]) == VoteOfDraw(draws[i]) * c
    ensures SumOf(votes, VoteShareOf) == 100.0
  {
    SumOfScaled(draws, VoteOfDraw, votes, VoteShareOf, c);
    WholePercent(voteSum);
  }

  /** With votes drawn, every share is a non-negative multiple of 100 / voteSum. */
  lemma {:induction false} NormalizeScales(draws: seq<Draw>, votes: seq<Vote>, voteSum: real, c: real)
    requires forall i :: 0 <= i < |draws| ==> draws[i].vote >= 0.0
    requires voteSum == SumOf(draws, VoteOfDraw) && voteSum > 0.0 && c == 100.0 / voteSum
    requires votes == Normalize(draws)
    ensures |votes| == |draws|
    ensures forall i :: 0 <= i < |draws| ==> VoteShareOf(votes[i]) == VoteOfDraw(draws[i]) * c && votes[i].voteShare >= 0.0
  {
    forall i | 0 <= i < |draws|
      ensures VoteShareOf(votes[i]) == VoteOfDraw(draws[i]) * c && votes[i].voteShare >= 0.0
    {
      assert votes[i].voteShare == draws[i].vote / voteSum * 100.0;
      PercentOf(draws[i].vote, voteSum);
    }
  }

  /** The hurdle test of buildScenario: at least 5% of the vote. */
  predicate Qualifies(v: Vote) { v.voteShare >= HURDLE }

  function QualifyingShare(v: Vote): real { if Qualifies(v) then v.voteShare else 0.0 }

  /** Sum of the vote shares of the parties that pass the hurdle. */
  function ValidSum(votes: seq<Vote>): real
  {
    SumOf(Filter(votes, Qualifies), VoteShareOf)
  }

  /** One party's seat share: its vote share renormalised over `validSum`, or 0 below the hurdle. */
  function HurdleSeat(v: Vote, validSum: real): SeatShare
  {
    SeatShare(v.party, v.voteShare,
      if v.voteShare >= HURDLE && validSum > 0.0 then v.voteShare / validSum * 100.0 else 0.0)
  }

  lemma {:induction false} HurdleSeatScaled(v: Vote, validSum: real)
    requires validSum > 0.0 && v.voteShare >= 0.0
    ensures SeatShareOf(HurdleSeat(v, validSum)) == QualifyingShare(v) * (100.0 / validSum)
    ensures HurdleSeat(v, validSum).seatShare >= 0.0
  {
    if Qualifies(v) {
      PercentOf(v.voteShare, validSum);
    }
  }

  /** Seat shares: qualifying vote shares renormalised over their own sum; 0 below the hurdle. */
  function ApplyHurdle(votes: seq<Vote>): (seats: seq<SeatShare>)
    ensures |seats| == |votes|
  {
    var validSum := ValidSum(votes);
    seq(|votes|, i requires 0 <= i < |votes| => HurdleSeat(votes[i], validSum))
  }

  /** Some party reaches the hurdle. */
  ghost predicate AnyQualifies(votes: seq<Vote>)
  {
    exists i :: 0 <= i < |votes| && votes[i].voteShare >= HURDLE
  }

  /**
    Seat shares line up with the vote shares, are 0 below the hurdle, and sum to 100
    when some party qualifies; when none does they are all 0.
   */
  ghost predicate HurdleApplied(votes: seq<Vote>, seats: seq<SeatShare>)
  {
    && |seats| == |votes|
    && (forall i :: 0 <= i < |votes| ==>
          && seats[i].party == votes[i].party
          && seats[i].voteShare == votes[i].voteShare
          && seats[i].seatShare >= 0.0
          && (votes[i].voteShare < HURDLE ==> seats[i].seatShare == 0.0))
    && (AnyQualifies(votes) ==> SumOf(seats, SeatShareOf) == 100.0)
    && (!AnyQualifies(votes) ==> forall i :: 0 <= i < |seats| ==> seats[i].seatShare == 0.0)
  }

  /** The valid sum counts the shares below the hurdle as 0. */
  lemma {:induction false} ValidSumIsTotal(votes: seq<Vote>)
    ensures ValidSum(votes) == SumOf(votes, QualifyingShare)
  {
    SumOfFilter(votes, Qualifies, VoteShareOf, QualifyingShare);
  }

  lemma {:induction false} ValidSumPositive(votes: seq<Vote>, k: nat)
    requires forall i :: 0 <= i < |votes| ==> votes[i].voteShare >= 0.0
    requires k < |votes| && votes[k].voteShare >= HURDLE
    ensures ValidSum(votes) > 0.0
  {
    ValidSumIsTotal(votes);
    SumOfPositive(votes, QualifyingShare);
    assert QualifyingShare(votes[k]) > 0.0;
  }

  lemma {:induction false} SeatSharesSum(votes: seq<Vote>)
    requires forall i :: 0 <= i < |votes| ==> votes[i].voteShare >= 0.0
    requires ValidSum(votes) > 0.0
    ensures SumOf(ApplyHurdle(votes), SeatShareOf) == 100.0
    ensures forall i :: 0 <= i < |votes| ==> ApplyHurdle(votes)[i].seatShare >= 0.0
  {
    var seats := ApplyHurdle(votes);
    var validSum := ValidSum(votes);
    var c := 100.0 / validSum;
    forall i | 0 <= i < |votes|
      ensures SeatShareOf(seats[i]) == QualifyingShare(votes[i]) * c && seats[i].seatShare >= 0.0
    {
      HurdleSeatScaled(votes[i], validSum);
    }
    ScaleSeatShares(votes, seats, c);
    ValidSumIsTotal(votes);
    assert SumOf(seats, SeatShareOf) == validSum * c;
    WholePercent(validSum);
  }

  lemma {:induction false} ScaleSeatShares(votes: seq<Vote>, seats: seq<SeatShare>, c: real)
    requires |seats| == |votes|
    requires forall i :: 0 <= i < |votes| ==> SeatShareOf(seats[i]) == QualifyingShare(votes[i]) * c
    ensures SumOf(seats, SeatShareOf) == SumOf(votes, QualifyingShare) * c
  {
    SumOfScaled(votes, QualifyingShare, seats, SeatShareOf, c);
  }

  lemma {:induction false} ApplyHurdleShares(votes: seq<Vote>)
    requires forall i :: 0 <= i < |votes| ==> votes[i].voteShare >= 0.0
    ensures HurdleApplied(votes, ApplyHurdle(votes))
  {
    var seats := ApplyHurdle(votes);
    var validSum := ValidSum(votes);
    if AnyQualifies(votes) {
      var k :| 0 <= k < |votes| && votes[k].voteShare >= HURDLE;
      ValidSumPositive(votes, k);
      SeatSharesSum(votes);
    } else {
      forall i | 0 <= i < |seats|
        ensures seats[i].seatShare == 0.0
      {
        assert votes[i].voteShare < HURDLE;
      }
    }
  }

  /** Comparator `(a, b) => b.voteShare - a.voteShare`: larger vote share first. */
  predicate MoreVotes(a: Vote, b: Vote) { a.voteShare > b.voteShare }

  /** Comparator `(a, b) => b.seatShare - a.seatShare`: larger seat share first. */
  predicate MoreSeats(a: SeatShare, b: SeatShare) { a.seatShare > b.seatShare }

  lemma {:induction false} MoreVotesIsConsistent()
    ensures StrictWeakOrder(MoreVotes)
  {
  }

  lemma {:induction false} MoreSeatsIsConsistent()
    ensures StrictWeakOrder(MoreSeats)
  {
  }

  /**
    rankedSeat: the seat shares, largest first; entries with equal seat share keep
    their party order.
   */
  ghost predicate RankedBySeats(seats: seq<SeatShare>, ranked: seq<SeatShare>)
  {
    && multiset(ranked) == multiset(seats)
    && (forall i, j :: 0 <= i < j < |ranked| ==> ranked[i].seatShare >= ranked[j].seatShare)
    && (forall x :: Filter(ranked, EquivalentTo(MoreSeats, x)) == Filter(seats, EquivalentTo(MoreSeats, x)))
  }

  lemma {:induction false} RankSeats(seats: seq<SeatShare>)
    ensures RankedBySeats(seats, Sort(seats, MoreSeats))
  {
    MoreSeatsIsConsistent();
    SortIsSorted(seats, MoreSeats);
    forall x
      ensures Filter(Sort(seats, MoreSeats), EquivalentTo(MoreSeats, x)) == Filter(seats, EquivalentTo(MoreSeats, x))
    {
      SortIsStable(seats, MoreSeats, x);
    }
  }

  /**
    votes[f] is the earliest entry with the largest vote share, votes[g] another entry
    with the largest share among the rest, and the margin is the difference of the two.
   */
  ghost predicate LeadAt(votes: seq<Vote>, f: int, g: int, margin: real)
  {
    && 0 <= f < |votes| && 0 <= g < |votes| && f != g
    && margin == votes[f].voteShare - votes[g].voteShare
    && IsFirstMinimal(votes, f, MoreVotes)
    && (forall j :: 0 <= j < |votes| && j != f ==> votes[j].voteShare <= votes[g].voteShare)
  }

  /** The first and second parties and the lead margin come from the two strongest entries. */
  ghost predicate LeadDetermined(votes: seq<Vote>, first: PartyKey, second: PartyKey, margin: real)
  {
    exists f, g {:trigger LeadAt(votes, f, g, margin)} :: LeadAt(votes, f, g, margin) && votes[f].party == first && votes[g].party == second
  }

  /** The vote-share ranking is ordered by share and headed by the first entry with the largest share. */
  lemma {:induction false} RankVotes(votes: seq<Vote>) returns (f: nat)
    requires |votes| > 0
    ensures forall i, j :: 0 <= i < j < |votes| ==> Sort(votes, MoreVotes)[i].voteShare >= Sort(votes, MoreVotes)[j].voteShare
    ensures IsFirstMinimal(votes, f, MoreVotes) && Sort(votes, MoreVotes)[0] == votes[f]
  {
    MoreVotesIsConsistent();
    SortIsSorted(votes, MoreVotes);
    f := SortHead(votes, MoreVotes);
  }

  /** An element of votes without votes[f] sits at some other index of votes. */
  lemma {:induction false} IndexOutside(votes: seq<Vote>, f: nat, x: Vote) returns (g: nat)
    requires f < |votes| && x in multiset(votes[..f] + votes[f + 1..])
    ensures g < |votes| && g != f && votes[g] == x
  {
    var rest := votes[..f] + votes[f + 1..];
    var m :| 0 <= m < |rest| && rest[m] == x;
    g := if m < f then m else m + 1;
  }

  /** Every entry after the head of a ranking ordered by share has at most the second share. */
  lemma {:induction false} BelowSecond(sorted: seq<Vote>, x: Vote)
    requires |sorted| >= 2
    requires forall i, j :: 0 <= i < j < |sorted| ==> sorted[i].voteShare >= sorted[j].voteShare
    requires x in multiset(sorted[1..])
    ensures x.voteShare <= sorted[1].voteShare
  {
    var t :| 0 <= t < |sorted[1..]| && sorted[1..][t] == x;
    assert sorted[t + 1] == x;
  }

  /** Where the first two entries of the vote-share ranking sit in the unsorted votes. */
  lemma {:induction false} Podium(votes: seq<Vote>) returns (f: nat, g: nat)
    requires |votes| >= 2
    ensures f < |votes| && g < |votes| && f != g
    ensures Sort(votes, MoreVotes)[0] == votes[f] && Sort(votes, MoreVotes)[1] == votes[g]
    ensures IsFirstMinimal(votes, f, MoreVotes)
    ensures forall j :: 0 <= j < |votes| && j != f ==> votes[j].voteShare <= votes[g].voteShare
  {
    var sorted := Sort(votes, MoreVotes);
    f := RankVotes(votes);
    var rest := votes[..f] + votes[f + 1..];
    PermutationWithout(sorted, votes, f);
    assert sorted[1] in multiset(sorted[1..]);
    g := IndexOutside(votes, f, sorted[1]);
    SecondBeatsRest(votes, sorted, f, g);
  }

  /** Every entry other than the first-ranked one has at most the share of the second-ranked one. */
  lemma {:induction false} SecondBeatsRest(votes: seq<Vote>, sorted: seq<Vote>, f: nat, g: nat)
    requires |sorted| >= 2 && f < |votes| && g < |votes|
    requires forall i, j :: 0 <= i < j < |sorted| ==> sorted[i].voteShare >= sorted[j].voteShare
    requires multiset(sorted[1..]) == multiset(votes[..f] + votes[f + 1..])
    requires votes[g] == sorted[1]
    ensures forall j :: 0 <= j < |votes| && j != f ==> votes[j].voteShare <= votes[g].voteShare
  {
    var rest := votes[..f] + votes[f + 1..];
    forall j | 0 <= j < |votes| && j != f
      ensures votes[j].voteShare <= votes[g].voteShare
    {
      var r := if j < f then j else j - 1;
      assert rest[r] == votes[j];
      BelowSecond(sorted, votes[j]);
    }
  }

  /** The first two entries of the vote-share ranking determine the lead. */
  lemma {:induction false} LeadOfRanking(votes: seq<Vote>, ranked: seq<Vote>)
    requires |votes| >= 2 && ranked == Sort(votes, MoreVotes)
    ensures LeadDetermined(votes, ranked[0].party, ranked[1].party, ranked[0].voteShare - ranked[1].voteShare)
    ensures ranked[0].voteShare >= ranked[1].voteShare
  {
    var f, g := Podium(votes);
    assert LeadAt(votes, f, g, ranked[0].voteShare - ranked[1].voteShare);
  }

  datatype Lead = Lead(first: PartyKey, second: PartyKey, margin: real)

  /** The two strongest parties by vote share (stable ranking) and the margin between them. */
  function LeadOf(votes: seq<Vote>): (lead: Lead)
    requires |votes| >= 2
    ensures LeadDetermined(votes, lead.first, lead.second, lead.margin)
    ensures lead.margin >= 0.0
  {
    var ranked := Sort(votes, MoreVotes);
    LeadOfRanking(votes, ranked);
    Lead(ranked[0].party, ranked[1].party, ranked[0].voteShare - ranked[1].voteShare)
  }

  /**
    buildScenario for the scenario at position `index`, the parties' polls and one
    standard normal deviate per party. With fewer than two parties the source reads
    the vote share of a missing runner-up, so two are required.
   */
  function BuildScenario(index: nat, parties: seq<PartyPoll>, deviates: seq<real>): (s: Scenario)
    requires |parties| >= 2 && |deviates| == |parties|
    ensures s.id == index + 1 && s.frequency == None
    ensures |s.votes| == |parties|
    ensures forall i :: 0 <= i < |parties| ==> s.votes[i].party == parties[i].key && s.votes[i].vote >= 0.0
    ensures SharesNormalised(s.votes)
    ensures HurdleApplied(s.votes, s.seatShares)
    ensures RankedBySeats(s.seatShares, s.rankedSeat)
    ensures LeadDetermined(s.votes, s.firstParty, s.secondParty, s.leadMargin)
    ensures s.leadMargin >= 0.0
  {
    var draws := seq(|parties|, i requires 0 <= i < |parties| => Simulate(parties[i], deviates[i]));
    var votes := Normalize(draws);
    var lead := LeadOf(votes);
    var seatShares := ApplyHurdle(votes);
    var rankedSeat := Sort(seatShares, MoreSeats);
    NormalizeShares(draws);
    SumOfPointwise(draws, VoteOfDraw, votes, VoteOf);
    ApplyHurdleShares(votes);
    RankSeats(seatShares);
    Scenario(index + 1, votes, seatShares, rankedSeat, lead.first, lead.second, lead.margin, None)
  }

  /** shareOf: the vote share of the first entry for `party`, or 0 when it has none. */
  function ShareOf(s: Scenario, party: PartyKey): (share: real)
    ensures forall i :: 0 <= i < |s.votes| && s.votes[i].party == party && (forall j :: 0 <= j < i ==> s.votes[j].party != party)
              ==> share == s.votes[i].voteShare
    ensures (forall i :: 0 <= i < |s.votes| ==> s.votes[i].party != party) ==> share == 0.0
  {
    FindVoteShare(s.votes, party)
  }

  function FindVoteShare(votes: seq<Vote>, party: PartyKey): (share: real)
    ensures forall i :: 0 <= i < |votes| && votes[i].party == party && (forall j :: 0 <= j < i ==> votes[j].party != party)
              ==> share == votes[i].voteShare
    ensures (forall i :: 0 <= i < |votes| ==> votes[i].party != party) ==> share == 0.0
  {
    if votes == [] then 0.0
    else if votes[0].party == party then votes[0].voteShare
    else
      var share := FindVoteShare(votes[1..], party);
      assert forall i :: 1 <= i < |votes| ==> votes[i] == votes[1..][i - 1];
      share
  }

  /** seatShareOfParty: the seat share of the first entry for `party`, or 0 when it has none. */
  function SeatShareOfParty(s: Scenario, party: PartyKey): (share: real)
    ensures forall i :: 0 <= i < |s.seatShares| && s.seatShares[i].party == party && (forall j :: 0 <= j < i ==> s.seatShares[j].party != party)
              ==> share == s.seatShares[i].seatShare
    ensures (forall i :: 0 <= i < |s.seatShares| ==> s.seatShares[i].party != party) ==> share == 0.0
  {
    FindSeatShare(s.seatShares, party)
  }

  function FindSeatShare(seats: seq<SeatShare>, party: PartyKey): (share: real)
    ensures forall i :: 0 <= i < |seats| && seats[i].party == party && (forall j :: 0 <= j < i ==> seats[j].party != party)
              ==> share == seats[i].seatShare
    ensures (forall i :: 0 <= i < |seats| ==> seats[i].party != party) ==> share == 0.0
  {
    if seats == [] then 0.0
    else if seats[0].party == party then seats[0].seatShare
    else
      var share := FindSeatShare(seats[1..], party);
      assert forall i :: 1 <= i < |seats| ==> seats[i] == seats[1..][i - 1];
      share
  }

  /** The largest seat share of a scenario: rankedSeat[0].seatShare (0 for an empty ranking). */
  function TopSeatShare(s: Scenario): real
  {
    if s.rankedSeat == [] then 0.0 else s.rankedSeat[0].seatShare
  }
}
