# Poll projection explainer: a Dafny model

The explainer takes a poll average and a 95% confidence interval for each German party. From them it simulates a population of election outcomes ("scenarios"). It then shows that population under four perspectives:

- who leads (task1);
- how close the race at the top is (task2a);
- which party falls below the 5% hurdle (task2b);
- which coalitions reach a majority (task3).

This project models the engine behind those views and proves what each part promises. The engine lives in `src/main-stable.js`. `src/main-start.js` is an earlier version with the same functions except the frequency ranking, the seat signature, the band grouping and the seat rows, so every row below that cites `main-stable.js` also covers the corresponding function of `main-start.js` (for example, `buildScenario` is `main-start.js:76-114` there).

The modules follow the program:

| module | what it models |
|---|---|
| `Base` | `d3.sum`, `filter(...).length`, `map`, and the key order of `d3.rollup` |
| `Sorting` | `Array.prototype.sort` with a comparator. It is stable since ECMAScript 2019, so it is modelled as a stable insertion sort. |
| `Scenarios` | `buildScenario`, `shareOf`, `seatShareOfParty` |
| `Population` | `dominantLeader`, `partyAtHurdle`, `buildSeatSignature`, `rebuildFrequencyRanking` |
| `Coalitions` | `combinations`, `coalitionMajority`, `coalitionSurplus`, `buildCoalitionOptions`, `strongestCoalition` |
| `Views` | `task1View`, `task2aView`, `task2bView`, `task3View`, `deriveView` |
| `Bands` | `rankCards`, `buildGroupedBands`, `buildFrequencyBands` |
| `Seats` | `buildAbsoluteSeatRows`: largest-remainder seat allocation for 630 seats |
| `Explainer` | the `state` object as a class, with `init`, `regenerateScenarios` and `rebuildFrequencyRanking` as methods that update it |

Modelling conventions:

- **Random draws.** The normal deviates that `d3.randomNormal` would draw are inputs: one standard normal `z` per party and scenario. The sampled vote is `avg + spread * z`, clamped at 0.
- **Numbers.** Shares are exact `real`s.
  - `Math.round` is `floor(x + 1/2)`.
  - `Math.ceil` and `Math.floor` are the exact functions on reals.
- **Sorting.** Every `sort` call is `Sorting.Sort(xs, before)`. `before(a, b)` holds exactly when the comparator returns a negative number. Each comparator is proved to be a strict weak order, so the stable sort's result is the one the browser computes.
- **Locale order.** `localeCompare(…, "de")` is a caller-supplied strict weak order `collate` on labels.
- **Highlights.** The `highlight` closures of the views are a datatype (`Views.Highlight`), read by `Views.Highlighted`.
- **Seat signature.** The signature string `"spd:21|cxu:30|…"` is the list of its numbers in the fixed party order. The string encoding is injective, so equal strings are equal lists.

Where the code and its documentation disagree, the model follows the code:

- **task2b order.** `task2bView` sorts the scenarios below 5% by ascending share, so the deepest shortfall comes first. It does not sort them nearest-to-5% first. The whole comparator is "share ascending" (`Views.ThresholdOrderIsByShare`).
- **Frequency shares.** `frequencyShare` is `count / scenarioCount` for each scenario. Summed over all scenarios it gives Σ count² / n, not 1. What does add up is the count per distinct signature, which totals the number of scenarios (`Population.SignatureGroupsPartition`).

## Model

| member | source | states |
|---|---|---|
| Sorting.Sort | src/main-stable.js:116-124 | the sorted copy has the input's length and is a permutation of it |
| Sorting.SortIsSorted | src/main-stable.js:116-124 | with a consistent comparator, no element is placed ahead of one that the comparator puts before it |
| Sorting.SortIsStable | src/main-stable.js:116-124 | stability: for every class of mutually equivalent elements, the sorted copy lists that class in input order |
| Sorting.SortHead | src/main-stable.js:189 | the head of the sorted copy is the first input element that nothing goes before (what `sort(...)[0]` picks) |
| Sorting.InsertPosition | src/main-stable.js:116-124 | one insertion step places the element after exactly the elements that go strictly before it |
| Sorting.InsertIsStable | src/main-stable.js:116-124 | an inserted element goes ahead of the members of its class that are already placed |
| Base.Distinct | src/main-stable.js:100-104 | the keys of a rollup: exactly the values that occur, each once |
| Base.DistinctKeepsFirstOccurrenceOrder | src/main-stable.js:184-188 | rollup keys come in first-occurrence order |
| Base.GroupSizesPartition | src/main-stable.js:100-104 | the rollup group sizes add up to the number of grouped elements |
| Base.SumOfPermutation | src/main-stable.js:1173 | `d3.sum` does not depend on the order of the array |
| Base.SumOfFilter | src/main-stable.js:254-257 | `d3.sum` over a filter equals the sum over all entries with the dropped ones counted as 0 |
| Base.FilterSplit | src/main-stable.js:960-965 | a filter and its complement together hold every element once |
| Base.CountWhereComplement | src/main-stable.js:963-965 | the counts of a filter and its complement add up to the length |
| Base.CountWherePermutation | src/main-stable.js:473-475 | counting after a reorder gives the same count |
| Scenarios.Spread | src/main-stable.js:145 | the spread is the CI width over 3.92, or 0.15 when that is smaller |
| Scenarios.Simulate | src/main-stable.js:146-147 | the sampled vote is `avg + spread * z` when that is non-negative, and 0 otherwise |
| Scenarios.Normalize | src/main-stable.js:150-154 | each vote keeps its party and its sampled vote, in input order |
| Scenarios.NormalizeShares | src/main-stable.js:150-154 | vote shares are non-negative and sum to 100, or are all 0 when nothing was drawn |
| Scenarios.NormalizePositive | src/main-stable.js:153 | with a positive vote sum, the shares are non-negative and add up to 100 |
| Scenarios.HurdleSeatScaled | src/main-stable.js:166-167 | a seat share is the vote share times 100 / validSum at or above 5%, and 0 below |
| Scenarios.SeatSharesSum | src/main-stable.js:161-168 | when some party passes the hurdle, seat shares are non-negative and sum to 100 |
| Scenarios.ApplyHurdleShares | src/main-stable.js:161-168 | seat shares line up with the votes, are 0 below 5%, sum to 100 if some party qualifies and are all 0 otherwise |
| Scenarios.ValidSumPositive | src/main-stable.js:161-162 | the valid sum is positive as soon as one party reaches 5% |
| Scenarios.RankSeats | src/main-stable.js:170 | rankedSeat is a permutation of the seat shares, largest first, ties in party order |
| Scenarios.RankVotes | src/main-stable.js:156-157 | the vote ranking is ordered by share and headed by the first party with the largest share |
| Scenarios.Podium | src/main-stable.js:156-158 | the first two ranked entries sit at two different positions of the votes, and every other entry has at most the second's share |
| Scenarios.LeadOfRanking | src/main-stable.js:157-159 | first, second and leadMargin come from the two strongest parties, and the margin is non-negative |
| Scenarios.LeadOf | src/main-stable.js:156-159 | the lead of a scenario is determined by its two strongest parties |
| Scenarios.BuildScenario | src/main-stable.js:143-181 | id is index + 1; votes are normalised; seat shares apply the hurdle; rankedSeat is ranked; the lead is determined; the margin is non-negative |
| Scenarios.ShareOf | src/main-stable.js:1304-1306 | the vote share of the first entry for the party, or 0 when there is none |
| Scenarios.SeatShareOfParty | src/main-stable.js:137-141 | the seat share of the first entry for the party, or 0 when there is none |
| Population.DominantLeaderLeadsMost | src/main-stable.js:183-191 | "cxu" without scenarios; otherwise a party that leads some scenario, leads at least as often as any party, and beats in count every party that takes the lead earlier |
| Population.LeaderPosition | src/main-stable.js:189-190 | the dominant leader is the key of the first rollup entry with the largest count |
| Population.PartyAtHurdleIsClosest | src/main-stable.js:193-198 | "fdp" without parties; otherwise the earliest party whose average is closest to 5 |
| Population.RoundHalfUp | src/main-stable.js:131 | `Math.round` gives the integer within half a point, halves rounded up |
| Population.Signature | src/main-stable.js:127-135 | one number per party of the metadata table, each the party's seat share rounded to a whole point |
| Population.AnnotateCountsSignatures | src/main-stable.js:106-114 | each scenario gets its signature and the number of scenarios with that signature (at least 1), with count / scenarioCount as its share (0 when scenarioCount is 0) |
| Population.SignatureMultiplicity | src/main-stable.js:100-109 | the rollup count of a signature is the number of scenarios that have it |
| Population.SignatureGroupsPartition | src/main-stable.js:100-104 | the signature groups partition the scenarios |
| Population.FrequencyOrdering | src/main-stable.js:116-124 | frequencyOrderedScenarios is a permutation ordered by count descending, then top seat share descending, then id ascending |
| Coalitions.Combinations | src/main-stable.js:233-251 | the recursive helper emits exactly the selections of Choose, in order |
| Coalitions.Extend | src/main-stable.js:236-247 | one helper call appends, to the result so far, the completions of `current` from `values[start..]` |
| Coalitions.ChooseSelections | src/main-stable.js:233-251 | every emitted selection takes `size` different values in pool order |
| Coalitions.ChooseComplete | src/main-stable.js:233-251 | every subset of `size` values, in pool order, is emitted |
| Coalitions.ChooseNoRepeats | src/main-stable.js:233-251 | no selection is emitted twice |
| Coalitions.ChooseLexOrdered | src/main-stable.js:242-246 | the selections come in increasing lexicographic order of positions |
| Coalitions.ChooseCount | src/main-stable.js:233-251 | there are C(n, size) selections |
| Coalitions.ChooseIsPicked | src/main-stable.js:233-251 | the value selections are the pool values at the position selections |
| Coalitions.MajorityIffSurplus | src/main-stable.js:253-268 | a coalition has a majority exactly when its surplus over 50 is non-negative |
| Coalitions.PushCandidate | src/main-stable.js:209-224 | one selection is pushed exactly when it does not pair cxu with lin and has a majority somewhere |
| Coalitions.PushCandidates | src/main-stable.js:208-225 | the inner forEach appends the candidates of every selection, in order |
| Coalitions.CollectCandidates | src/main-stable.js:207-226 | the outer forEach collects the candidates of sizes 2, 3 and 4 in that order |
| Coalitions.BuildCoalitionOptions | src/main-stable.js:204-231 | the result is the candidates sorted by count, then by label |
| Coalitions.CandidatesMembers | src/main-stable.js:209-224 | a candidate exists exactly for each offered selection; there are at most as many as admissible selections |
| Coalitions.OptionOrderIsConsistent | src/main-stable.js:228-230 | count descending, then label by the collation, is a strict weak order |
| Coalitions.AbsentCount | src/main-stable.js:233-251 | when x is not among the values, all C(n, k) selections avoid it |
| Coalitions.AvoidingCount | src/main-stable.js:233-251 | of the selections from n values containing x once, C(n - 1, k) avoid x |
| Coalitions.PairFreeCount | src/main-stable.js:209-214 | selections that do not hold both of two values number C(n-1, k) + C(n-2, k-1) |
| Coalitions.AdmissibleSelections | src/main-stable.js:207-214 | exactly 39 of the selections of 2 to 4 pool parties do not pair cxu with lin |
| Coalitions.CoalitionOptionsSound | src/main-stable.js:204-231 | each option is an offered selection with its id, label and majority count; none pairs cxu with lin; count descending, then label; at most 39 options |
| Coalitions.StrongestCoalition | src/main-stable.js:200-202 | the id of the first option, or none when there are no options |
| Views.LeaderOrderIsConsistent | src/main-stable.js:339-351 | task1View's comparator is a strict weak order |
| Views.LeaderViewOrder | src/main-stable.js:339-351 | scenarios the selected party leads come first, by margin descending; the rest by distance to the top seat share ascending |
| Views.LeaderViewCount | src/main-stable.js:353-365 | it highlights exactly the scenarios the selected party leads, and the headline count is their number |
| Views.RankedLeadersEntries | src/main-stable.js:354-372 | the ranked rollup holds each leading party once, with its lead count, larger counts first |
| Views.LeaderViewControls | src/main-stable.js:368-374 | the leader control offers exactly the parties that lead somewhere, each once, by lead count descending |
| Views.LeaderViewSecond | src/main-stable.js:354-358 | the second leader of the detail text exists iff two parties lead somewhere, and is the second control entry with its count |
| Views.MarginViewOrder | src/main-stable.js:379-381 | task2a orders by lead margin ascending, as a permutation |
| Views.MarginViewHighlight | src/main-stable.js:393-396 | it highlights exactly the races within 1.5 points and has no controls |
| Views.MarginViewCounts | src/main-stable.js:382-385 | close and medium count the races up to 1.5 and in (1.5, 4] |
| Views.MarginViewTotal | src/main-stable.js:386 | close + medium + clear is the configured count; clear counts the races above 4 when that count is the number of scenarios |
| Views.MarginClasses | src/main-stable.js:382-386 | every scenario is exactly one of close, medium and clear |
| Views.ThresholdOrderIsByShare | src/main-stable.js:402-414 | task2bView's comparator is share ascending and a strict weak order |
| Views.ThresholdViewOrder | src/main-stable.js:402-414 | task2b orders by the party's share ascending, so every scenario below 5% comes first |
| Views.ThresholdViewHighlight | src/main-stable.js:424-431 | it highlights exactly the scenarios below 5% and offers every party |
| Views.ThresholdViewCounts | src/main-stable.js:416-417 | below counts the scenarios under 5%; below + above is the configured count |
| Views.AboveIsRest | src/main-stable.js:416-417 | when that count is the number of scenarios, above counts those at or over 5% |
| Views.FindOption | src/main-stable.js:436-438 | `find`: the first option with the id, present exactly when some option has it |
| Views.ShownCoalitionChoice | src/main-stable.js:436-439 | the shown coalition is the selected one when offered, else the first option |
| Views.CoalitionViewPlaceholder | src/main-stable.js:441-457 | without options: scenarios unchanged, nothing highlighted, empty controls; and only then |
| Views.SurplusOrderIsBySurplus | src/main-stable.js:459-471 | task3View's comparator is surplus descending and a strict weak order |
| Views.CoalitionViewOrder | src/main-stable.js:459-471 | task3 orders by surplus descending, so every majority comes before every non-majority |
| Views.CoalitionViewHighlight | src/main-stable.js:483-493 | it highlights exactly the majorities and offers every option id with the shown one selected |
| Views.CoalitionViewCount | src/main-stable.js:473-475 | the headline count is the number of scenarios with a majority |
| Views.CoalitionViewCountsHighlighted | src/main-stable.js:473-483 | the headline count is the number of highlighted cards |
| Views.DeriveView | src/main-stable.js:318-329 | every task's view shows the same scenarios, only reordered |
| Bands.RankCards | src/main-stable.js:952-957 | card i holds scenario i with rank i + 1 |
| Bands.GroupedBandsShape | src/main-stable.js:959-1003 | the one- and two-band cases: focus cards then the rest, each in input order, each title showing its count |
| Bands.GroupedBandsKeepCards | src/main-stable.js:959-1003 | the grouped bands hold exactly the input cards, in one or two bands |
| Bands.GroupedBandsSides | src/main-stable.js:960-965 | a card is in the focus band exactly when it is highlighted |
| Bands.GroupedBandsNonEmpty | src/main-stable.js:967-1002 | unless the input is empty, no grouped band is empty |
| Bands.ZoneBounds | src/main-stable.js:914-918 | the centre holds at least one card and at least a fifth of them; the middle is non-empty whenever cards remain |
| Bands.FrequencyZonesSound | src/main-stable.js:913-933 | the zones read in order are the cards; no zone is empty; titles show sizes; the centre holds the first cards |
| Bands.FrequencyBandsSound | src/main-stable.js:913-942 | the bands hold exactly the cards, none empty; in standard grouping, in order |
| Seats.FloorRow | src/main-stable.js:1176-1180 | seats + remainder is the exact seat number, with remainder in [0, 1) |
| Seats.HandOutMissing | src/main-stable.js:1182-1188 | the forEach gives one more seat to each of the first `missing` rows in remainder order |
| Seats.AbsoluteSeatRows | src/main-stable.js:1164-1193 | the method computes the largest-remainder rows |
| Seats.SeatRowsOrdered | src/main-stable.js:1190-1192 | the rows come by seats, largest first |
| Seats.SeatRowsParties | src/main-stable.js:1164-1193 | one row per seat-share entry, with the same parties |
| Seats.SeatRowsRounded | src/main-stable.js:1168-1188 | every row holds the integer part of its party's exact seat number, or one more |
| Seats.LargestRemaindersFirst | src/main-stable.js:1182-1188 | a row that got an extra seat never has a smaller remainder than one that did not |
| Seats.SeatRowsTotal | src/main-stable.js:1164-1193 | when the seat shares sum to 100, the rows hold exactly 630 seats |
| Seats.MissingFitsRows | src/main-stable.js:1173-1174 | when the shares sum to 100, fewer seats are missing than there are rows |
| Seats.AllZeroSharesGiveOneSeatEach | src/main-stable.js:1173-1188 | with every seat share 0, all 630 are missing and each row (at most 630) gets exactly one seat |
| Explainer.BuildScenarios | src/main-stable.js:81-83 | one scenario per row of deviates, numbered 1..n, not yet annotated |
| Explainer.AnnotateScenarios | src/main-stable.js:106-114 | the loop writes every scenario's frequency annotation |
| Explainer.KeptCoalition | src/main-stable.js:89-96 | the previous selection is kept iff it is set and still offered; otherwise the strongest option; the result is none iff there are no options, and always offered |
| Explainer.State.constructor | src/main-stable.js:37-55 | the initial state: task1, 100 scenarios, nothing selected, no data |
| Explainer.State.RebuildFrequencyRanking | src/main-stable.js:99-125 | the scenarios are annotated in place and the frequency order is their sorted copy; nothing else changes |
| Explainer.State.Install | src/main-stable.js:81-87 | stores scenarios, leader and options, then rebuilds the ranking |
| Explainer.State.KeepCoalition | src/main-stable.js:89-96 | only the selected coalition changes, as KeptCoalition says |
| Explainer.State.Regenerate | src/main-stable.js:80-97 | the new state: annotated scenarios, dominant leader, coalition options, frequency order and kept coalition; the threshold party is unchanged |
| Explainer.State.SelectHurdleParty | src/main-stable.js:69 | only the threshold party changes, to the party at the hurdle |
| Explainer.State.Init | src/main-stable.js:59-78 | after init the state holds the polls, the regenerated population and both party selections |
| Explainer.State.CurrentView | src/main-stable.js:318-329 | the current view shows the stored scenarios, only reordered |
| Explainer.RegeneratedScenarios | src/main-stable.js:80-114 | after a regeneration there are scenarioCount scenarios numbered 1..n, each carrying its frequency annotation |

## Left out

- Data loading (`d3.json`), the resize listener, every `render…` function, the DOM and SVG output, the circular and pixel layouts, card texts, `toFixed`, and the controls that set the current perspective, the scenario count and the variants. They produce output or read events and compute nothing the views depend on.
- Randomness: `d3.randomNormal` draws are inputs (one standard normal deviate per party and scenario), not generated.
- Floating point: shares are exact reals, so IEEE-754 rounding, and ties that rounding might create or break, are not modelled.
- `localeCompare(…, "de")` is not modelled character by character. It is the `collate` parameter, assumed to be a strict weak order.
- `resolveOrderedScenarios` and the `probabilityLayout` variant are not modelled. They only choose which of two already-modelled orderings is drawn.
- The variant flags are fixed as in `state.variants` except `groupingDisplay`, which `Bands.FrequencyBands` takes as a parameter.
- Scenarios.BuildScenario: requires at least two parties. With fewer, the code reads the vote share of a missing runner-up and throws.
- Scenarios.TopSeatShare: returns 0 for an empty ranking, where the code would throw. Scenarios always have at least two parties, so the case does not arise.
- Aliasing: `frequencyOrderedScenarios` and `scenarios` share their scenario objects in the code. In the model they are two sequences of values, and the annotation loop writes a new sequence rather than mutating each object.
- Explainer.State.CurrentView: requires both party selections to be made, as they are from `init` on. Before `init` the code's task1 and task2b views would read null parties.
- Explainer.State.Init: the selection of the threshold party after the regeneration is a separate method, `SelectHurdleParty`.
- The seat signature is the list of bucketed numbers, not the formatted string.
- Coalitions.UpperCase: upper-cases ASCII letters only, where `toUpperCase` maps all of Unicode. It is only reached for keys missing from the metadata table.
- The colours of the metadata table are not modelled. Its labels are, in `Coalitions.PartyName`.
