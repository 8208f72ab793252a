/**
  The four task views (task1View, task2aView, task2bView, task3View) and deriveView.
  Each view orders a copy of the scenarios with a stable sort under a task-specific
  comparator, marks some scenarios with a highlight, reports counts for its headline
  and offers the controls of its task. The texts (title, headline, detail, card
  text) are not part of the model; the numbers that go into them are.
 */
module Views {
  import opened Base
  import opened Sorting
  import opened Scenarios
  import opened Population
  import opened Coalitions

  /** A lead of at most this many points is a very close race. */
  const CLOSE_MARGIN: real := 1.5

  /** A lead above CLOSE_MARGIN and at most this many points is a medium race. */
  const MEDIUM_MARGIN: real := 4.0

  /** The highlight callback of a view, as data. */
  datatype Highlight =
    | LeadsBy(party: PartyKey)
    | CloseRace
    | BelowHurdle(party: PartyKey)
    | MajorityFor(parties: seq<PartyKey>)
    | NoHighlight

  predicate Highlighted(h: Highlight, s: Scenario)
  {
    match h
    case LeadsBy(party) => s.firstParty == party
    case CloseRace => s.leadMargin <= CLOSE_MARGIN
    case BelowHurdle(party) => ShareOf(s, party) < HURDLE
    case MajorityFor(parties) => CoalitionMajority(s, parties)
    case NoHighlight => false
  }

  function IsHighlighted(h: Highlight): Scenario -> bool
  {
    (s: Scenario) => Highlighted(h, s)
  }

  /** The `controls` object of a view. */
  datatype Controls =
    | NoControls
    | LeaderControls(leaders: seq<PartyKey>, leader: PartyKey)
    | ThresholdControls(parties: seq<PartyKey>, party: PartyKey)
    | CoalitionControls(ids: seq<string>, coalition: Option<string>)

  /** The numbers a view's headline and detail text report. */
  datatype Counts =
    | LeaderCounts(selectedCount: nat, secondLeader: Option<Tally>)
    | MarginCounts(close: nat, medium: nat, clear: int)
    | ThresholdCounts(below: nat, above: int)
    | MajorityCounts(majority: nat)
    | NoCounts

  datatype View = View(ordered: seq<Scenario>, highlight: Highlight, counts: Counts, controls: Controls)

  // ---- task1: who leads?

  predicate Leads(s: Scenario, party: PartyKey) { s.firstParty == party }

  /** |top seat share - selected party's vote share|: how far the party is from the top. */
  function LeaderGap(s: Scenario, selected: PartyKey): real
  {
    Abs(TopSeatShare(s) - ShareOf(s, selected))
  }

  /** The comparator of task1View, `cmp(a, b) < 0`. */
  function LeaderOrder(selected: PartyKey): (Scenario, Scenario) -> bool
  {
    (a: Scenario, b: Scenario) =>
      var aLead := Leads(a, selected);
      var bLead := Leads(b, selected);
      if aLead != bLead then aLead
      else if aLead && bLead then b.leadMargin - a.leadMargin < 0.0
      else LeaderGap(a, selected) - LeaderGap(b, selected) < 0.0
  }

  /** Scenarios the party leads form group 0, the others group 1. */
  function LeaderRank(selected: PartyKey): Scenario -> int
  {
    (s: Scenario) => if Leads(s, selected) then 0 else 1
  }

  /** Inside group 0 a larger lead margin comes first; inside group 1 a smaller gap. */
  function LeaderValue(selected: PartyKey): Scenario -> real
  {
    (s: Scenario) => if Leads(s, selected) then -s.leadMargin else LeaderGap(s, selected)
  }

  lemma {:induction false} LeaderOrderIsConsistent(selected: PartyKey)
    ensures StrictWeakOrder(LeaderOrder(selected))
  {
    var other := RankThenValue(LeaderRank(selected), LeaderValue(selected));
    RankThenValueIsConsistent(LeaderRank(selected), LeaderValue(selected));
    assert forall a, b :: LeaderOrder(selected)(a, b) == other(a, b);
    SameOrder(LeaderOrder(selected), other);
  }

  function TallyParties(tallies: seq<Tally>): (parties: seq<PartyKey>)
    ensures |parties| == |tallies|
    ensures forall i :: 0 <= i < |tallies| ==> parties[i] == tallies[i].party
  {
    seq(|tallies|, i requires 0 <= i < |tallies| => tallies[i].party)
  }

  /** The lead tallies by count, larger first (ties keep first-occurrence order). */
  function RankedLeaders(scenarios: seq<Scenario>): seq<Tally>
  {
    Sort(LeadTallies(scenarios), MoreLeads)
  }

  /** task1View for the selected leader. */
  function LeaderView(scenarios: seq<Scenario>, selected: PartyKey): View
  {
    var ranked := RankedLeaders(scenarios);
    View(
      Sort(scenarios, LeaderOrder(selected)),
      LeadsBy(selected),
      LeaderCounts(LeadCount(scenarios, selected), if |ranked| >= 2 then Some(ranked[1]) else None),
      LeaderControls(TallyParties(ranked), selected))
  }

  /**
    task1View orders the scenarios the selected party leads first, by lead margin
    descending, and then the others by how far the selected party is from the top
    seat share, ascending.
   */
  lemma {:induction false} LeaderViewOrder(scenarios: seq<Scenario>, selected: PartyKey, ordered: seq<Scenario>)
    requires ordered == LeaderView(scenarios, selected).ordered
    ensures multiset(ordered) == multiset(scenarios)
    ensures forall i, j :: 0 <= i < j < |ordered| && Leads(ordered[j], selected) ==> Leads(ordered[i], selected)
    ensures forall i, j :: 0 <= i < j < |ordered| && Leads(ordered[i], selected) && Leads(ordered[j], selected) ==>
      ordered[i].leadMargin >= ordered[j].leadMargin
    ensures forall i, j :: 0 <= i < j < |ordered| && !Leads(ordered[i], selected) && !Leads(ordered[j], selected) ==>
      LeaderGap(ordered[i], selected) <= LeaderGap(ordered[j], selected)
  {
    LeaderOrderIsConsistent(selected);
    SortIsSorted(scenarios, LeaderOrder(selected));
    forall i, j | 0 <= i < j < |ordered|
      ensures !LeaderOrder(selected)(ordered[j], ordered[i])
    {
    }
  }

  /** The number of scenarios the party leads, as a count over the scenarios. */
  lemma {:induction false} LeadCountIsCount(scenarios: seq<Scenario>, party: PartyKey)
    ensures LeadCount(scenarios, party) == CountWhere(scenarios, (s: Scenario) => Leads(s, party))
  {
    if scenarios != [] {
      LeadCountIsCount(scenarios[1..], party);
      var firsts := FirstParties(scenarios);
      assert firsts == [firsts[0]] + FirstParties(scenarios[1..]);
    }
  }

  /**
    The highlighted scenarios of task1View are those the selected party leads, and
    the headline count is their number.
   */
  lemma {:induction false} LeaderViewCount(scenarios: seq<Scenario>, selected: PartyKey, view: View)
    requires view == LeaderView(scenarios, selected)
    ensures forall s :: Highlighted(view.highlight, s) <==> s.firstParty == selected
    ensures view.counts.LeaderCounts?
    ensures view.counts.selectedCount == CountWhere(scenarios, (s: Scenario) => Leads(s, selected))
    ensures view.counts.selectedCount == CountWhere(view.ordered, IsHighlighted(view.highlight))
  {
    LeadCountIsCount(scenarios, selected);
    CountWherePermutation(scenarios, view.ordered, (s: Scenario) => Leads(s, selected));
    CountWhereSame(view.ordered, (s: Scenario) => Leads(s, selected), IsHighlighted(view.highlight));
  }

  /** The tallies of the rollup hold each party that leads at least once, once, with its lead count. */
  lemma {:induction false} LeadTalliesEntries(scenarios: seq<Scenario>, tallies: seq<Tally>)
    requires tallies == LeadTallies(scenarios)
    ensures forall i :: 0 <= i < |tallies| ==> tallies[i].count == LeadCount(scenarios, tallies[i].party) > 0
    ensures forall p :: p in TallyParties(tallies) <==> LeadCount(scenarios, p) > 0
    ensures forall i, j :: 0 <= i < j < |tallies| ==> tallies[i].party != tallies[j].party
  {
    var firsts := FirstParties(scenarios);
    var keys := Distinct(firsts);
    assert |tallies| == |keys|;
    assert forall i :: 0 <= i < |keys| ==> tallies[i] == Tally(keys[i], LeadCount(scenarios, keys[i]));
    forall p
      ensures p in keys <==> LeadCount(scenarios, p) > 0
    {
      assert p in firsts <==> p in multiset(firsts);
    }
    forall p
      ensures p in TallyParties(tallies) <==> p in keys
    {
      if p in keys {
        var i :| 0 <= i < |keys| && keys[i] == p;
        assert TallyParties(tallies)[i] == p;
      }
    }
  }

  /**
    The ranked tallies of task1View hold each party that leads at least once, once,
    with its lead count, larger counts first.
   */
  lemma {:induction false} RankedLeadersEntries(scenarios: seq<Scenario>, ranked: seq<Tally>)
    requires ranked == RankedLeaders(scenarios)
    ensures forall i :: 0 <= i < |ranked| ==> ranked[i].count == LeadCount(scenarios, ranked[i].party) > 0
    ensures forall p :: p in TallyParties(ranked) <==> LeadCount(scenarios, p) > 0
    ensures forall i, j :: 0 <= i < j < |ranked| ==> ranked[i].party != ranked[j].party
    ensures forall i, j :: 0 <= i < j < |ranked| ==> ranked[i].count >= ranked[j].count
  {
    var tallies := LeadTallies(scenarios);
    LeadTalliesEntries(scenarios, tallies);
    RankedAreTallies(tallies, ranked);
    forall i | 0 <= i < |ranked|
      ensures ranked[i].count == LeadCount(scenarios, ranked[i].party) > 0
    {
      assert ranked[i] in tallies;
    }
    MoreLeadsIsConsistent();
    SortIsSorted(tallies, MoreLeads);
    forall i, j | 0 <= i < j < |ranked|
      ensures ranked[i].count >= ranked[j].count
    {
      assert !MoreLeads(ranked[j], ranked[i]);
    }
  }

  /** Reordering a list of tallies keeps its entries, its parties and their distinctness. */
  lemma {:induction false} RankedAreTallies(tallies: seq<Tally>, ranked: seq<Tally>)
    requires multiset(ranked) == multiset(tallies)
    requires forall i, j :: 0 <= i < j < |tallies| ==> tallies[i].party != tallies[j].party
    ensures forall t :: t in ranked <==> t in tallies
    ensures forall p :: p in TallyParties(ranked) <==> p in TallyParties(tallies)
    ensures forall i, j :: 0 <= i < j < |ranked| ==> ranked[i].party != ranked[j].party
  {
    forall t
      ensures t in ranked <==> t in tallies
    {
      assert t in ranked <==> t in multiset(ranked);
      assert t in tallies <==> t in multiset(tallies);
    }
    forall p
      ensures p in TallyParties(ranked) <==> p in TallyParties(tallies)
    {
      if p in TallyParties(ranked) {
        var i :| 0 <= i < |ranked| && TallyParties(ranked)[i] == p;
        assert ranked[i] in tallies;
        var j :| 0 <= j < |tallies| && tallies[j] == ranked[i];
        assert TallyParties(tallies)[j] == p;
      }
      if p in TallyParties(tallies) {
        var i :| 0 <= i < |tallies| && TallyParties(tallies)[i] == p;
        assert tallies[i] in ranked;
        var j :| 0 <= j < |ranked| && ranked[j] == tallies[i];
        assert TallyParties(ranked)[j] == p;
      }
    }
    assert forall i, j :: 0 <= i < j < |tallies| ==> tallies[i] != tallies[j];
    NoRepeatsPermutation(tallies, ranked);
    forall i, j | 0 <= i < j < |ranked|
      ensures ranked[i].party != ranked[j].party
    {
      assert ranked[i] in tallies && ranked[j] in tallies;
      var a :| 0 <= a < |tallies| && tallies[a] == ranked[i];
      var b :| 0 <= b < |tallies| && tallies[b] == ranked[j];
      assert a != b;
    }
  }

  /**
    The leader control offers every party that leads at least once, each once, by
    lead count descending; the second leader of the detail text is the second entry.
   */
  lemma {:induction false} LeaderViewControls(scenarios: seq<Scenario>, selected: PartyKey, view: View)
    requires view == LeaderView(scenarios, selected)
    ensures view.controls == LeaderControls(view.controls.leaders, selected)
    ensures forall p :: p in view.controls.leaders <==> LeadCount(scenarios, p) > 0
    ensures forall i, j :: 0 <= i < j < |view.controls.leaders| ==> view.controls.leaders[i] != view.controls.leaders[j]
    ensures forall i, j :: 0 <= i < j < |view.controls.leaders| ==>
      LeadCount(scenarios, view.controls.leaders[i]) >= LeadCount(scenarios, view.controls.leaders[j])
  {
    RankedLeadersEntries(scenarios, RankedLeaders(scenarios));
  }

  /** The second leader of task1View's detail text is the second entry of the leader control, with its lead count. */
  lemma {:induction false} LeaderViewSecond(scenarios: seq<Scenario>, selected: PartyKey, view: View)
    requires view == LeaderView(scenarios, selected)
    ensures view.counts.LeaderCounts? && view.controls.LeaderControls?
    ensures view.counts.secondLeader.Some? <==> |view.controls.leaders| >= 2
    ensures view.counts.secondLeader.Some? ==>
      && view.counts.secondLeader.value.party == view.controls.leaders[1]
      && view.counts.secondLeader.value.count == LeadCount(scenarios, view.controls.leaders[1])
  {
    RankedLeadersEntries(scenarios, RankedLeaders(scenarios));
  }

  // ---- task2a: how close is the race at the top?

  /** The comparator of task2aView: smaller lead margin first. */
  predicate SmallerMargin(a: Scenario, b: Scenario) { a.leadMargin - b.leadMargin < 0.0 }

  lemma {:induction false} SmallerMarginIsConsistent()
    ensures StrictWeakOrder(SmallerMargin)
  {
  }

  predicate IsClose(s: Scenario) { s.leadMargin <= CLOSE_MARGIN }

  predicate IsMedium(s: Scenario) { s.leadMargin > CLOSE_MARGIN && s.leadMargin <= MEDIUM_MARGIN }

  predicate IsClear(s: Scenario) { s.leadMargin > MEDIUM_MARGIN }

  /** task2aView; `scenarioCount` is the configured number of scenarios. */
  function MarginView(scenarios: seq<Scenario>, scenarioCount: int): View
  {
    var ordered := Sort(scenarios, SmallerMargin);
    var close := CountWhere(ordered, IsClose);
    var medium := CountWhere(ordered, IsMedium);
    View(ordered, CloseRace, MarginCounts(close, medium, scenarioCount - close - medium), NoControls)
  }

  /** Every scenario is exactly one of close, medium and clear. */
  lemma {:induction false} MarginClasses(scenarios: seq<Scenario>)
    ensures CountWhere(scenarios, IsClose) + CountWhere(scenarios, IsMedium) + CountWhere(scenarios, IsClear) == |scenarios|
  {
    if scenarios != [] {
      MarginClasses(scenarios[1..]);
    }
  }

  /** task2aView orders the scenarios by lead margin ascending. */
  lemma {:induction false} MarginViewOrder(scenarios: seq<Scenario>, scenarioCount: int, ordered: seq<Scenario>)
    requires ordered == MarginView(scenarios, scenarioCount).ordered
    ensures multiset(ordered) == multiset(scenarios)
    ensures forall i, j :: 0 <= i < j < |ordered| ==> ordered[i].leadMargin <= ordered[j].leadMargin
  {
    SmallerMarginIsConsistent();
    SortIsSorted(scenarios, SmallerMargin);
    forall i, j | 0 <= i < j < |ordered|
      ensures ordered[i].leadMargin <= ordered[j].leadMargin
    {
      assert !SmallerMargin(ordered[j], ordered[i]);
    }
  }

  /** task2aView highlights the close races and offers no controls. */
  lemma {:induction false} MarginViewHighlight(scenarios: seq<Scenario>, scenarioCount: int, view: View)
    requires view == MarginView(scenarios, scenarioCount)
    ensures forall s :: Highlighted(view.highlight, s) <==> IsClose(s)
    ensures view.controls == NoControls
  {
  }

  /** The close and medium counts of task2aView count those races among the scenarios. */
  lemma {:induction false} MarginViewCounts(scenarios: seq<Scenario>, scenarioCount: int, view: View)
    requires view == MarginView(scenarios, scenarioCount)
    ensures view.counts.MarginCounts?
    ensures view.counts.close == CountWhere(scenarios, IsClose)
    ensures view.counts.medium == CountWhere(scenarios, IsMedium)
  {
    CountWherePermutation(scenarios, view.ordered, IsClose);
    CountWherePermutation(scenarios, view.ordered, IsMedium);
  }

  /**
    The close, medium and clear counts of task2aView add up to the configured scenario
    count; when that is the number of scenarios, clear counts the races above 4 points.
   */
  lemma {:induction false} MarginViewTotal(scenarios: seq<Scenario>, scenarioCount: int, view: View)
    requires view == MarginView(scenarios, scenarioCount)
    ensures view.counts.MarginCounts?
    ensures view.counts.close + view.counts.medium + view.counts.clear == scenarioCount
    ensures scenarioCount == |scenarios| ==> view.counts.clear == CountWhere(scenarios, IsClear)
  {
    MarginViewCounts(scenarios, scenarioCount, view);
    ClearIsRest(scenarios, scenarioCount, view.counts.clear);
  }

  /** What the configured count leaves after the close and medium races is the clear ones, when it is the scenario count. */
  lemma {:induction false} ClearIsRest(scenarios: seq<Scenario>, scenarioCount: int, clear: int)
    requires clear == scenarioCount - CountWhere(scenarios, IsClose) - CountWhere(scenarios, IsMedium)
    ensures scenarioCount == |scenarios| ==> clear == CountWhere(scenarios, IsClear)
  {
    MarginClasses(scenarios);
  }

  // ---- task2b: who drops below 5%?

  function Below(selected: PartyKey): Scenario -> bool
  {
    (s: Scenario) => ShareOf(s, selected) < HURDLE
  }

  function AtOrAbove(selected: PartyKey): Scenario -> bool
  {
    (s: Scenario) => ShareOf(s, selected) >= HURDLE
  }

  /** The comparator of task2bView: scenarios below the hurdle first, each group by share. */
  function ThresholdOrder(selected: PartyKey): (Scenario, Scenario) -> bool
  {
    (a: Scenario, b: Scenario) =>
      var aShare := ShareOf(a, selected);
      var bShare := ShareOf(b, selected);
      var aBelow := aShare < HURDLE;
      var bBelow := bShare < HURDLE;
      if aBelow != bBelow then aBelow
      else if aBelow && bBelow then HURDLE - bShare - (HURDLE - aShare) < 0.0
      else aShare - HURDLE - (bShare - HURDLE) < 0.0
  }

  /** Both groups are ordered by ascending share, so the whole comparator is share ascending. */
  lemma {:induction false} ThresholdOrderIsByShare(selected: PartyKey)
    ensures forall a, b :: ThresholdOrder(selected)(a, b) <==> ShareOf(a, selected) < ShareOf(b, selected)
    ensures StrictWeakOrder(ThresholdOrder(selected))
  {
    var byShare := (a: Scenario, b: Scenario) => ShareOf(a, selected) < ShareOf(b, selected);
    assert StrictWeakOrder(byShare);
    SameOrder(ThresholdOrder(selected), byShare);
  }

  /** task2bView for the selected party. */
  function ThresholdView(scenarios: seq<Scenario>, scenarioCount: int, selected: PartyKey): View
  {
    var ordered := Sort(scenarios, ThresholdOrder(selected));
    var below := CountWhere(ordered, Below(selected));
    View(ordered, BelowHurdle(selected), ThresholdCounts(below, scenarioCount - below),
      ThresholdControls(PARTY_ORDER, selected))
  }

  /**
    task2bView orders by the selected party's vote share ascending, so the scenarios
    below 5% come first, deepest shortfall first.
   */
  lemma {:induction false} ThresholdViewOrder(scenarios: seq<Scenario>, scenarioCount: int, selected: PartyKey, ordered: seq<Scenario>)
    requires ordered == ThresholdView(scenarios, scenarioCount, selected).ordered
    ensures multiset(ordered) == multiset(scenarios)
    ensures forall i, j :: 0 <= i < j < |ordered| ==> ShareOf(ordered[i], selected) <= ShareOf(ordered[j], selected)
    ensures forall i, j :: 0 <= i < j < |ordered| && Below(selected)(ordered[j]) ==> Below(selected)(ordered[i])
  {
    ThresholdOrderIsByShare(selected);
    SortIsSorted(scenarios, ThresholdOrder(selected));
    forall i, j | 0 <= i < j < |ordered|
      ensures ShareOf(ordered[i], selected) <= ShareOf(ordered[j], selected)
    {
      assert !ThresholdOrder(selected)(ordered[j], ordered[i]);
    }
  }

  /** task2bView highlights the scenarios where the selected party is below 5% and offers every party. */
  lemma {:induction false} ThresholdViewHighlight(scenarios: seq<Scenario>, scenarioCount: int, selected: PartyKey, view: View)
    requires view == ThresholdView(scenarios, scenarioCount, selected)
    ensures forall s :: Highlighted(view.highlight, s) <==> Below(selected)(s)
    ensures view.controls == ThresholdControls(PARTY_ORDER, selected)
  {
  }

  /**
    The below count of task2bView is the number of scenarios under 5%; below and above
    add up to the configured count.
   */
  lemma {:induction false} ThresholdViewCounts(scenarios: seq<Scenario>, scenarioCount: int, selected: PartyKey, view: View)
    requires view == ThresholdView(scenarios, scenarioCount, selected)
    ensures view.counts.ThresholdCounts?
    ensures view.counts.below == CountWhere(scenarios, Below(selected))
    ensures view.counts.below + view.counts.above == scenarioCount
  {
    CountWherePermutation(scenarios, view.ordered, Below(selected));
  }

  /**
    When below counts the scenarios under 5% and below and above add up to the number
    of scenarios, as in task2bView when the configured count is met, above counts the
    scenarios at or over 5%.
   */
  lemma {:induction false} AboveIsRest(scenarios: seq<Scenario>, selected: PartyKey, below: int, above: int)
    requires below == CountWhere(scenarios, Below(selected))
    requires below + above == |scenarios|
    ensures above == CountWhere(scenarios, AtOrAbove(selected))
  {
    CountWhereComplement(scenarios, Below(selected), AtOrAbove(selected));
  }

  // ---- task3: which majorities are possible?

  /** The first option whose id is `id`, if any (`options.find`). */
  function FindOption(options: seq<CoalitionOption>, id: Option<string>): (found: Option<CoalitionOption>)
    ensures found.Some? <==> exists i :: 0 <= i < |options| && Some(options[i].id) == id
    ensures found.Some? ==> exists i :: (0 <= i < |options| && options[i] == found.value
      && Some(found.value.id) == id && forall j :: 0 <= j < i ==> Some(options[j].id) != id)
  {
    if options == [] then None
    else if Some(options[0].id) == id then Some(options[0])
    else
      var found := FindOption(options[1..], id);
      assert forall i :: 1 <= i < |options| ==> options[i] == options[1..][i - 1];
      assert found.Some? ==> exists i :: 0 <= i < |options| && Some(options[i].id) == id by {
        if found.Some? {
          var i :| 0 <= i < |options[1..]| && Some(options[1..][i].id) == id;
          assert Some(options[i + 1].id) == id;
        }
      }
      found
  }

  /** The coalition shown: the selected one when it is offered, otherwise the first option. */
  function ShownCoalition(options: seq<CoalitionOption>, selected: Option<string>): Option<CoalitionOption>
  {
    match FindOption(options, selected)
    case Some(o) => Some(o)
    case None => if options == [] then None else Some(options[0])
  }

  /** The comparator of task3View: majorities first, each group by surplus. */
  function SurplusOrder(parties: seq<PartyKey>): (Scenario, Scenario) -> bool
  {
    (a: Scenario, b: Scenario) =>
      var aSurplus := CoalitionSurplus(a, parties);
      var bSurplus := CoalitionSurplus(b, parties);
      var aMajority := aSurplus >= 0.0;
      var bMajority := bSurplus >= 0.0;
      if aMajority != bMajority then aMajority
      else if aMajority && bMajority then bSurplus - aSurplus < 0.0
      else Abs(aSurplus) - Abs(bSurplus) < 0.0
  }

  /** On negative surpluses a smaller magnitude is a larger surplus, so the comparator is surplus descending. */
  lemma {:induction false} SurplusOrderIsBySurplus(parties: seq<PartyKey>)
    ensures forall a, b :: SurplusOrder(parties)(a, b) <==> CoalitionSurplus(a, parties) > CoalitionSurplus(b, parties)
    ensures StrictWeakOrder(SurplusOrder(parties))
  {
    var bySurplus := (a: Scenario, b: Scenario) => CoalitionSurplus(a, parties) > CoalitionSurplus(b, parties);
    assert StrictWeakOrder(bySurplus);
    SameOrder(SurplusOrder(parties), bySurplus);
  }

  function OptionIds(options: seq<CoalitionOption>): (ids: seq<string>)
    ensures |ids| == |options|
    ensures forall i :: 0 <= i < |options| ==> ids[i] == options[i].id
  {
    seq(|options|, i requires 0 <= i < |options| => options[i].id)
  }

  /** task3View for the coalition options and the selected coalition id. */
  function CoalitionView(scenarios: seq<Scenario>, options: seq<CoalitionOption>, selected: Option<string>): View
  {
    match ShownCoalition(options, selected)
    case None => View(scenarios, NoHighlight, NoCounts, CoalitionControls([], None))
    case Some(coalition) =>
      var ordered := Sort(scenarios, SurplusOrder(coalition.parties));
      View(ordered, MajorityFor(coalition.parties),
        MajorityCounts(CountWhere(ordered, HasMajority(coalition.parties))),
        CoalitionControls(OptionIds(options), Some(coalition.id)))
  }

  /** Without coalition options task3View shows the scenarios unchanged, nothing highlighted and no choices. */
  lemma {:induction false} CoalitionViewPlaceholder(scenarios: seq<Scenario>, options: seq<CoalitionOption>, selected: Option<string>, view: View)
    requires view == CoalitionView(scenarios, options, selected)
    ensures options == [] <==> view.controls == CoalitionControls([], None)
    ensures options == [] ==> view.ordered == scenarios && forall s :: !Highlighted(view.highlight, s)
  {
  }

  /**
    With coalition options, task3View shows the selected coalition when it is offered
    and the first option otherwise.
   */
  lemma {:induction false} ShownCoalitionChoice(options: seq<CoalitionOption>, selected: Option<string>, coalition: CoalitionOption)
    requires ShownCoalition(options, selected) == Some(coalition)
    ensures coalition in options
    ensures (exists i :: 0 <= i < |options| && Some(options[i].id) == selected) ==> Some(coalition.id) == selected
    ensures (forall i :: 0 <= i < |options| ==> Some(options[i].id) != selected) ==> coalition == options[0]
  {
  }

  /**
    task3View orders the scenarios by the shown coalition's surplus descending, so every
    scenario where it has a majority comes before every scenario where it has none.
   */
  lemma {:induction false} CoalitionViewOrder(scenarios: seq<Scenario>, options: seq<CoalitionOption>, selected: Option<string>,
                           coalition: CoalitionOption, ordered: seq<Scenario>)
    requires ShownCoalition(options, selected) == Some(coalition)
    requires ordered == CoalitionView(scenarios, options, selected).ordered
    ensures multiset(ordered) == multiset(scenarios)
    ensures forall i, j :: 0 <= i < j < |ordered| ==>
      CoalitionSurplus(ordered[i], coalition.parties) >= CoalitionSurplus(ordered[j], coalition.parties)
    ensures forall i, j :: 0 <= i < j < |ordered| && CoalitionMajority(ordered[j], coalition.parties) ==>
      CoalitionMajority(ordered[i], coalition.parties)
  {
    var parties := coalition.parties;
    SurplusOrderIsBySurplus(parties);
    SortIsSorted(scenarios, SurplusOrder(parties));
    forall i, j | 0 <= i < j < |ordered|
      ensures CoalitionSurplus(ordered[i], parties) >= CoalitionSurplus(ordered[j], parties)
    {
      assert !SurplusOrder(parties)(ordered[j], ordered[i]);
    }
  }

  /**
    task3View highlights the scenarios where the shown coalition has a majority and
    offers every option, with the shown one selected.
   */
  lemma {:induction false} CoalitionViewHighlight(scenarios: seq<Scenario>, options: seq<CoalitionOption>, selected: Option<string>,
                               coalition: CoalitionOption, view: View)
    requires ShownCoalition(options, selected) == Some(coalition)
    requires view == CoalitionView(scenarios, options, selected)
    ensures forall s :: Highlighted(view.highlight, s) <==> CoalitionMajority(s, coalition.parties)
    ensures view.controls == CoalitionControls(OptionIds(options), Some(coalition.id))
  {
  }

  /** The headline count of task3View is the number of scenarios where the shown coalition has a majority. */
  lemma {:induction false} CoalitionViewCount(scenarios: seq<Scenario>, options: seq<CoalitionOption>, selected: Option<string>,
                           coalition: CoalitionOption, view: View)
    requires ShownCoalition(options, selected) == Some(coalition)
    requires view == CoalitionView(scenarios, options, selected)
    ensures view.counts == MajorityCounts(MajorityCount(scenarios, coalition.parties))
  {
    CountWherePermutation(scenarios, view.ordered, HasMajority(coalition.parties));
  }

  /** The headline count of task3View is also the number of highlighted scenarios. */
  lemma {:induction false} CoalitionViewCountsHighlighted(scenarios: seq<Scenario>, options: seq<CoalitionOption>, selected: Option<string>,
                                       view: View)
    requires options != []
    requires view == CoalitionView(scenarios, options, selected)
    ensures view.counts.MajorityCounts?
    ensures view.counts.majority == CountWhere(view.ordered, IsHighlighted(view.highlight))
  {
    var coalition := ShownCoalition(options, selected).value;
    CountWhereSame(view.ordered, HasMajority(coalition.parties), IsHighlighted(view.highlight));
  }

  // ---- deriveView

  /**
    deriveView: the view of the current task; any task other than the first three is
    task3. Every view shows the same scenarios, only reordered.
   */
  function DeriveView(task: string, scenarios: seq<Scenario>, scenarioCount: int, selectedLeader: PartyKey,
                      selectedThresholdParty: PartyKey, options: seq<CoalitionOption>, selectedCoalition: Option<string>): (view: View)
    ensures multiset(view.ordered) == multiset(scenarios)
  {
    if task == "task1" then LeaderView(scenarios, selectedLeader)
    else if task == "task2a" then MarginView(scenarios, scenarioCount)
    else if task == "task2b" then ThresholdView(scenarios, scenarioCount, selectedThresholdParty)
    else CoalitionView(scenarios, options, selectedCoalition)
  }
}
