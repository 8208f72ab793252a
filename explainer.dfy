/**
  The explainer's state object and the operations that update it: init,
  regenerateScenarios, rebuildFrequencyRanking, and deriveView reading the current
  state. The poll data and the random draws come in as parameters.
 */
module Explainer {
  import opened Base
  import opened Sorting
  import opened Scenarios
  import opened Population
  import opened Coalitions
  import opened Views

  /**
    d3.range(n).map((index) => buildScenario(index, parties)): one scenario per row of
    deviates, numbered from 1.
   */
  function BuildScenarios(parties: seq<PartyPoll>, deviates: seq<seq<real>>): (scenarios: seq<Scenario>)
    requires |parties| >= 2
    requires forall i :: 0 <= i < |deviates| ==> |deviates[i]| == |parties|
    ensures |scenarios| == |deviates|
    ensures forall i :: 0 <= i < |deviates| ==> scenarios[i].id == i + 1 && scenarios[i].frequency == None
  {
    seq(|deviates|, i requires 0 <= i < |deviates| => BuildScenario(i, parties, deviates[i]))
  }

  /**
    The forEach of rebuildFrequencyRanking: writes signature, count and share onto
    each scenario in turn, the counts taken from the rollup of all signatures.
   */
  method AnnotateScenarios(scenarios: seq<Scenario>, scenarioCount: nat) returns (annotated: seq<Scenario>)
    ensures annotated == Annotate(scenarios, scenarioCount)
  {
    var counts := multiset(Signatures(scenarios));
    annotated := scenarios;
    var i := 0;
    while i < |annotated|
      invariant |annotated| == |scenarios|
      invariant 0 <= i <= |annotated|
      invariant forall k :: 0 <= k < i ==> annotated[k] == WithFrequency(scenarios[k], counts, scenarioCount)
      invariant forall k :: i <= k < |annotated| ==> annotated[k] == scenarios[k]
    {
      annotated := annotated[i := WithFrequency(annotated[i], counts, scenarioCount)];
      i := i + 1;
    }
  }

  /** Whether `id` is the id of one of the options (`options.some(...)`). */
  predicate Offered(options: seq<CoalitionOption>, id: string)
  {
    exists i :: 0 <= i < |options| && options[i].id == id
  }

  /**
    The coalition selected after a regeneration: the previous one when it is set (not
    null and not empty) and still offered, otherwise the strongest option.
   */
  function KeptCoalition(previous: Option<string>, options: seq<CoalitionOption>): (selected: Option<string>)
    ensures previous.Some? && previous.value != "" && Offered(options, previous.value) ==> selected == previous
    ensures !(previous.Some? && previous.value != "" && Offered(options, previous.value)) ==> selected == StrongestCoalition(options)
    ensures selected.None? <==> options == []
    ensures selected.Some? ==> Offered(options, selected.value)
  {
    if previous.None? || previous.value == "" || !Offered(options, previous.value) then StrongestCoalition(options)
    else previous
  }

  /** The `state` object of the explainer. */
  class State {
    var task: string
    var scenarioCount: nat
    var selectedLeader: Option<PartyKey>
    var selectedThresholdParty: Option<PartyKey>
    var selectedCoalition: Option<string>
    var coalitionOptions: seq<CoalitionOption>
    var scenarios: seq<Scenario>
    var frequencyOrderedScenarios: seq<Scenario>
    var parties: seq<PartyPoll>

    /** The state before init: task 1, 100 scenarios, nothing selected, no data. */
    constructor()
      ensures task == "task1" && scenarioCount == 100
      ensures selectedLeader == None && selectedThresholdParty == None && selectedCoalition == None
      ensures coalitionOptions == [] && scenarios == [] && frequencyOrderedScenarios == [] && parties == []
    {
      task := "task1";
      scenarioCount := 100;
      selectedLeader := None;
      selectedThresholdParty := None;
      selectedCoalition := None;
      coalitionOptions := [];
      scenarios := [];
      frequencyOrderedScenarios := [];
      parties := [];
    }

    /**
      rebuildFrequencyRanking: writes signature, count and share onto every scenario,
      then orders a copy by frequency.
     */
    method RebuildFrequencyRanking()
      modifies this
      ensures scenarios == Annotate(old(scenarios), scenarioCount)
      ensures frequencyOrderedScenarios == Sort(scenarios, MoreFrequent)
      ensures task == old(task) && scenarioCount == old(scenarioCount) && parties == old(parties)
      ensures selectedLeader == old(selectedLeader) && selectedThresholdParty == old(selectedThresholdParty)
      ensures selectedCoalition == old(selectedCoalition) && coalitionOptions == old(coalitionOptions)
    {
      scenarios := AnnotateScenarios(scenarios, scenarioCount);
      frequencyOrderedScenarios := Sort(scenarios, MoreFrequent);
    }

    /**
      The middle of regenerateScenarios: stores the new scenarios, leader and coalition
      options, then rebuilds the frequency ranking.
     */
    method Install(built: seq<Scenario>, leader: PartyKey, options: seq<CoalitionOption>)
      modifies this
      ensures task == old(task) && scenarioCount == old(scenarioCount) && parties == old(parties)
      ensures selectedThresholdParty == old(selectedThresholdParty) && selectedCoalition == old(selectedCoalition)
      ensures scenarios == Annotate(built, scenarioCount)
      ensures selectedLeader == Some(leader) && coalitionOptions == options
      ensures frequencyOrderedScenarios == Sort(scenarios, MoreFrequent)
    {
      scenarios, selectedLeader, coalitionOptions := built, Some(leader), options;
      RebuildFrequencyRanking();
    }

    /** The coalition selection step of regenerateScenarios. */
    method KeepCoalition()
      modifies this
      ensures task == old(task) && scenarioCount == old(scenarioCount) && parties == old(parties)
      ensures selectedThresholdParty == old(selectedThresholdParty) && selectedLeader == old(selectedLeader)
      ensures scenarios == old(scenarios) && frequencyOrderedScenarios == old(frequencyOrderedScenarios)
      ensures coalitionOptions == old(coalitionOptions)
      ensures selectedCoalition == KeptCoalition(old(selectedCoalition), coalitionOptions)
    {
      selectedCoalition := KeptCoalition(selectedCoalition, coalitionOptions);
    }

    /**
      regenerateScenarios: builds `scenarioCount` scenarios from one row of deviates
      each, picks the dominant leader, rebuilds the coalition options and the frequency
      ranking, and keeps the selected coalition only while it is still offered.
     */
    method Regenerate(deviates: seq<seq<real>>, collate: (string, string) -> bool)
      requires |parties| >= 2
      requires |deviates| == scenarioCount
      requires forall i :: 0 <= i < |deviates| ==> |deviates[i]| == |parties|
      modifies this
      ensures task == old(task) && scenarioCount == old(scenarioCount) && parties == old(parties)
      ensures selectedThresholdParty == old(selectedThresholdParty)
      ensures var built := BuildScenarios(parties, deviates);
        && scenarios == Annotate(built, scenarioCount)
        && selectedLeader == Some(DominantLeader(built))
        && coalitionOptions == CoalitionOptions(built, collate)
      ensures frequencyOrderedScenarios == Sort(scenarios, MoreFrequent)
      ensures selectedCoalition == KeptCoalition(old(selectedCoalition), coalitionOptions)
    {
      var built := BuildScenarios(parties, deviates);
      var options := BuildCoalitionOptions(built, collate);
      Install(built, DominantLeader(built), options);
      KeepCoalition();
    }

    /** init: loads the parties, regenerates, and selects the party closest to the hurdle. */
    method Init(polls: seq<PartyPoll>, deviates: seq<seq<real>>, collate: (string, string) -> bool)
      requires |polls| >= 2
      requires |deviates| == scenarioCount
      requires forall i :: 0 <= i < |deviates| ==> |deviates[i]| == |polls|
      modifies this
      ensures parties == polls
      ensures task == old(task) && scenarioCount == old(scenarioCount)
      ensures var built := BuildScenarios(parties, deviates);
        && scenarios == Annotate(built, scenarioCount)
        && selectedLeader == Some(DominantLeader(built))
        && coalitionOptions == CoalitionOptions(built, collate)
      ensures frequencyOrderedScenarios == Sort(scenarios, MoreFrequent)
      ensures selectedCoalition == KeptCoalition(old(selectedCoalition), coalitionOptions)
      ensures selectedThresholdParty == Some(PartyAtHurdle(parties))
      ensures Initialized()
    {
      parties := polls;
      Regenerate(deviates, collate);
      SelectHurdleParty();
    }

    /** The last step of init: selects the party whose share is closest to the hurdle. */
    method SelectHurdleParty()
      modifies this
      ensures task == old(task) && scenarioCount == old(scenarioCount) && parties == old(parties)
      ensures scenarios == old(scenarios) && frequencyOrderedScenarios == old(frequencyOrderedScenarios)
      ensures selectedLeader == old(selectedLeader) && coalitionOptions == old(coalitionOptions)
      ensures selectedCoalition == old(selectedCoalition)
      ensures selectedThresholdParty == Some(PartyAtHurdle(parties))
    {
      selectedThresholdParty := Some(PartyAtHurdle(parties));
    }

    /** Both party selections are made, as they are from init on. */
    predicate Initialized()
      reads this
    {
      selectedLeader.Some? && selectedThresholdParty.Some?
    }

    /** deriveView on the current state: the stored scenarios, ordered for the current task. */
    function CurrentView(): (view: View)
      reads this
      requires Initialized()
      ensures multiset(view.ordered) == multiset(scenarios)
    {
      DeriveView(task, scenarios, scenarioCount, selectedLeader.value, selectedThresholdParty.value,
                 coalitionOptions, selectedCoalition)
    }
  }

  /**
    After a regeneration the scenarios are numbered 1..scenarioCount and each carries
    its frequency annotation.
   */
  lemma {:induction false} RegeneratedScenarios(parties: seq<PartyPoll>, deviates: seq<seq<real>>, scenarioCount: nat, scenarios: seq<Scenario>)
    requires |parties| >= 2
    requires |deviates| == scenarioCount
    requires forall i :: 0 <= i < |deviates| ==> |deviates[i]| == |parties|
    requires scenarios == Annotate(BuildScenarios(parties, deviates), scenarioCount)
    ensures |scenarios| == scenarioCount
    ensures forall i :: 0 <= i < scenarioCount ==> scenarios[i].id == i + 1
    ensures forall i :: 0 <= i < scenarioCount ==>
      FrequencyAnnotated(BuildScenarios(parties, deviates)[i], scenarios[i], BuildScenarios(parties, deviates), scenarioCount)
  {
    var built := BuildScenarios(parties, deviates);
    AnnotateCountsSignatures(built, scenarioCount);
  }
}
