# Pitcher plinko chart: a Dafny model of the count-flow aggregation

The program draws a "plinko" chart for one MLB pitcher and season. Each of the
twelve ball-strike counts is a node. It shows which pitch types the pitcher threw
at that count. It also shows how often pitches moved an at-bat from one count to
the next. This project models the table logic behind the chart and proves its
properties:

- **The fixed tables** (`Constants`):
  - the twelve count keys and the seventeen legal transitions between them;
  - the `"balls-strikes"` spelling of a count;
  - the pitch-type colour and name tables, as key sets;
  - the season window `("{year}-03-01", "{year}-10-01")`.
- **The data fetcher's pure part** (`PitcherData`):
  - `process_pitch_data`: sort by `(game_date, at_bat_number, pitch_number)` and add the `count` column;
  - `search_pitchers`: a case-insensitive name search, de-duplicated in first-seen order and cut to `limit`;
  - `get_processed_data`: the outcome for one pitcher and season, with the remote lookups passed in as parameters.
- **The chart generator** (`PlinkoChart`), a class whose constructor fills two fields:
  - `count_data`: a tally of pitch types for each count, built by a loop over the count keys;
  - `flow_counts`: a counter of legal transitions between consecutive pitches of the same at-bat, built by nested loops over the sorted, grouped pitches.

  Both loops are methods proved against specification functions (`CountData`, `FlowCounts`). The lemmas state what those functions mean.
- **Supporting modules**:
  - `Text`: Python's `str(int)`, the ASCII part of `str.lower()`, and the substring test;
  - `Tables`: a stable sort on the key triple, `value_counts` / a dict counter, `unique()`, and the slice `xs[:stop]`.

Design choices:

- **At-bat key.** An at-bat is identified by `(game_date, at_bat_number)`, as the code groups it. It is not identified by a game id. Two games of one pitcher on the same date would therefore merge their at-bats, and the model keeps that behaviour.
- **Dates are strings.** `game_date` is compared as a string, character by character, which is date order for `YYYY-MM-DD`.
- **Stable sort.** Pitches are sorted stably on the key triple. A lemma shows that the result does not depend on input order when no two different rows share a key.
- **Groups as runs.** `groupby` on the sorted table is modelled as the maximal runs of equal at-bat key. Lemmas show that on a sorted table each run holds exactly the pitches of one at-bat, and that no two runs share an at-bat.
- **Inner loop as a method.** The inner loop over one at-bat's counts is the static method `CountTransitions`. `CalculateFlowCounts` calls it once per group.

## Model

| member | source | states |
|---|---|---|
| Text.NatToString | src/plinko/data/pitcher_data.py:107-109 | `str(n)` of a non-negative integer is a non-empty string of decimal digits with no leading zero: a string starting with `0` is exactly `"0"`, the spelling of zero |
| Text.ParseNatToString | src/plinko/data/pitcher_data.py:107-109 | reading back the digits `str(n)` writes gives `n` again (round trip) |
| Text.NatToStringInjective | src/plinko/data/pitcher_data.py:107-109 | different non-negative numbers print differently |
| Text.IntToString | src/plinko/utils/constants.py:77-78 | `str(i)` is digits, preceded by a minus sign exactly when `i` is negative; those digits read back as the absolute value of `i` and have no leading zero: the only spelling that starts with `0` is `"0"`, for zero |
| Text.LowerChar | src/plinko/data/pitcher_data.py:158 | an ASCII capital becomes the lowercase letter at the same position in the alphabet; any other character is unchanged |
| Text.Lower | src/plinko/data/pitcher_data.py:158 | lowering keeps the length and maps each character on its own: capitals to their lowercase letters, the rest unchanged |
| Text.Contains | src/plinko/data/pitcher_data.py:162-164 | the substring test holds exactly when the term occurs at some position of the text |
| Tables.SortBy | src/plinko/data/pitcher_data.py:95-97 | the sorted table is in ascending key order and is a permutation of the input |
| Tables.SortByStable | src/plinko/visualization/plinko_chart.py:67-69 | rows with equal keys keep their input order |
| Tables.SortBySorted | src/plinko/visualization/plinko_chart.py:67-69 | sorting a table that is already in key order changes nothing |
| Tables.SortByPermutationInvariant | src/plinko/visualization/plinko_chart.py:67-69 | two permutations of the same rows sort to the same table when no two different rows share a key |
| Tables.KeyLeqTotal | src/plinko/data/pitcher_data.py:95-97 | any two key triples are ordered one way or the other |
| Tables.KeyLeqTransitive | src/plinko/data/pitcher_data.py:95-97 | the order on key triples is transitive |
| Tables.KeyLeqAntisymmetric | src/plinko/data/pitcher_data.py:95-97 | key triples ordered both ways are equal |
| Tables.StrLeqTransitive | src/plinko/data/pitcher_data.py:95-97 | string order on `game_date` is transitive |
| Tables.TallyCounts | src/plinko/visualization/plinko_chart.py:51 | a tally's keys are exactly the values present, and each entry is that value's number of occurrences (so at least 1) |
| Tables.TallyGet | src/plinko/visualization/plinko_chart.py:82 | read with default 0 (`get(k, 0)`), a tally gives any value's number of occurrences, 0 for a value never counted |
| Tables.TallyBump | src/plinko/visualization/plinko_chart.py:82 | counting one more `x` makes its entry one more than its earlier occurrences and leaves every other entry as it was |
| Tables.TallyTotal | src/plinko/visualization/plinko_chart.py:81-82 | the entries of a tally add up to the number of values counted |
| Tables.Unique | src/plinko/data/pitcher_data.py:167 | `unique()` has the same members as its input, no duplicates, and keeps first-appearance order |
| Tables.PySlice | src/plinko/data/pitcher_data.py:169 | `xs[:stop]` is a prefix of `xs` of length `min(stop, len)` for `stop >= 0`, and `max(len + stop, 0)` for negative `stop` |
| Constants.CountKeysDistinct | src/plinko/utils/constants.py:35-48 | the position table has 12 distinct count keys |
| Constants.GridInCountSpace | src/plinko/utils/constants.py:35-48 | every count `b-s` with `0 <= b <= 3` and `0 <= s <= 2` is a key |
| Constants.CountSpaceInGrid | src/plinko/utils/constants.py:35-48 | every key is the spelling of such a count, and nothing else is a key |
| Constants.CountKey | src/plinko/data/pitcher_data.py:107-109 | the key is the spelling of the balls, then `-`, then the spelling of the strikes |
| Constants.ParseCountKey | src/plinko/data/pitcher_data.py:107-109 | the `"balls-strikes"` spelling reads back as the same balls and strikes when both are non-negative, and is not a count spelling when either is negative |
| Constants.CountKeyInjective | src/plinko/data/pitcher_data.py:107-109 | different counts are spelled differently |
| Constants.TransitionsDistinct | src/plinko/utils/constants.py:51-62 | the transition list holds 17 distinct pairs |
| Constants.TransitionsAreOneStep | src/plinko/utils/constants.py:51-62 | both ends of every transition are count keys, and each transition adds exactly one ball or exactly one strike |
| Constants.OneStepsAreTransitions | src/plinko/utils/constants.py:51-62 | every one-ball or one-strike step inside the grid is listed |
| Constants.TransitionsCharacterised | src/plinko/utils/constants.py:51-62 | a pair is a transition if and only if it is a one-step increment between two count keys |
| Constants.FullCountIsFinalAndFirstCountIsInitial | src/plinko/utils/constants.py:51-62 | no transition leaves `3-2`, and none enters `0-0` |
| Constants.EveryOtherCountHasSuccessor | src/plinko/utils/constants.py:51-62 | every count other than `3-2` has an outgoing transition |
| Constants.EveryOtherCountHasPredecessor | src/plinko/utils/constants.py:51-62 | every count other than `0-0` has an incoming transition |
| Constants.PitchTablesAgree | src/plinko/utils/constants.py:7-32 | the colour table and the name table cover the same pitch types |
| Constants.SeasonDates | src/plinko/utils/constants.py:77-78 | both dates are the year's spelling followed by `-03-01` and `-10-01` respectively, and the start sorts before the end |
| Constants.SeasonDatesWindow | src/plinko/utils/constants.py:77-78 | the window runs from `"{year}-03-01"` to `"{year}-10-01"`: both dates spell the year, which reads back as `year`, and the start comes first in date order |
| PitcherData.ProcessPitchData | src/plinko/data/pitcher_data.py:84-111 | the processed rows are the input rows stably sorted on the key triple, and each row's `count` is `str(balls) + "-" + str(strikes)` |
| PitcherData.ProcessKeepsRowsInKeyOrder | src/plinko/data/pitcher_data.py:95-104 | the processed table keeps every input row exactly once and is in ascending key order |
| PitcherData.ProcessedCountsAreCountKeys | src/plinko/data/pitcher_data.py:107-109 | a row's `count` reads back as its balls and strikes when both are non-negative (and as no count otherwise), and it is one of the twelve count keys exactly when the balls and strikes are in range |
| PitcherData.MatchingNames | src/plinko/data/pitcher_data.py:161-167 | the names selected by the mask are exactly the full names of rows whose first, last or full name contains the term |
| PitcherData.MatchIndicesFrom | src/plinko/data/pitcher_data.py:161-165 | the indices the mask selects are increasing, in range, and are exactly the matching rows |
| PitcherData.MatchingNamesByIndex | src/plinko/data/pitcher_data.py:161-167 | the selected names line up one to one with the matching rows' indices: the `k`-th name is the full name of the `k`-th matching row |
| PitcherData.SearchPitchers | src/plinko/data/pitcher_data.py:143-169 | an empty term gives no results; otherwise the results have no duplicates and each is the full name of a row matching the lowered term; for a non-negative `limit` there are at most `limit` of them |
| PitcherData.SearchKeepsFirstSeenOrder | src/plinko/data/pitcher_data.py:167 | results appear in the order in which their names first occur among the matching rows |
| PitcherData.SearchKeepsFirstNames | src/plinko/data/pitcher_data.py:167-169 | every returned name first occurs among the matching rows before any matching name that is left out, so the results are a leading run of the distinct names in first-seen order; for a non-negative `limit`, a name is left out only when the cut is full (exactly `limit` results) |
| PitcherData.SearchLength | src/plinko/data/pitcher_data.py:167-169 | with `n` distinct matching names, `matches[:limit]` returns `min(limit, n)` names for a non-negative `limit`, and `n + limit` names, but never fewer than zero, for a negative one |
| PitcherData.SearchComplete | src/plinko/data/pitcher_data.py:161-169 | with a limit no smaller than the table, every matching row's full name is returned |
| PitcherData.UniqueNoLonger | src/plinko/data/pitcher_data.py:167 | `unique()` is never longer than its input |
| PitcherData.GetProcessedData | src/plinko/data/pitcher_data.py:171-211 | the outcome is a processed table exactly when the pitcher is found and the season window's fetch succeeds with at least one pitch; it then carries the looked-up name |
| PitcherData.GetProcessedDataOutcome | src/plinko/data/pitcher_data.py:171-211 | the fetch succeeds exactly when the pitcher is found and the season window holds pitches; the result is then those pitches processed, under the looked-up name |
| PitcherData.GetProcessedDataErrors | src/plinko/data/pitcher_data.py:171-211 | a failed lookup, an unknown pitcher, a failed fetch and an empty season each give their own error message, and no table |
| PitcherData.GetProcessedDataFetchesSeasonWindow | src/plinko/data/pitcher_data.py:198-200 | only the window `"{year}-03-01"` to `"{year}-10-01"` is ever fetched |
| PlinkoChart.PitchTypesAt | src/plinko/visualization/plinko_chart.py:50-51 | the pitch types listed at a count are exactly those of the rows at that count with a known type |
| PlinkoChart.PitchTypesAtMultiplicity | src/plinko/visualization/plinko_chart.py:50-51 | each type is listed once per row of that type at that count |
| PlinkoChart.PitchTypesAtLength | src/plinko/visualization/plinko_chart.py:50-51 | one entry per row at that count with a known type; rows with a missing type are dropped |
| PlinkoChart.CountData | src/plinko/visualization/plinko_chart.py:48-54 | the count table has one entry for each of the twelve count keys and no other |
| PlinkoChart.CountDataCountsRows | src/plinko/visualization/plinko_chart.py:50-52 | a type appears at a count exactly when some row of that type was thrown there, and its entry is the number of such rows |
| PlinkoChart.CountDataEmptyAtUnusedCount | src/plinko/visualization/plinko_chart.py:48-53 | a count with no pitch of known type still has an entry, the empty tally |
| PlinkoChart.CountDataTotal | src/plinko/visualization/plinko_chart.py:50-52 | the entries at a count add up to the number of rows at that count with a known type |
| PlinkoChart.CountDataAsWritten | src/plinko/visualization/plinko_chart.py:48-54 | as written, the loop over the count keys raises `AttributeError` for `.value` at its first key, so it raises exactly when there is a count key; only a loop with no keys would return, and then the empty dict |
| PlinkoChart.CountDataAsWrittenAlwaysRaises | src/plinko/visualization/plinko_chart.py:51 | as written, `.value.counts()` raises `AttributeError` on the first count key for every table, the empty one included (see Findings) |
| PlinkoChart.AtBatGroups | src/plinko/visualization/plinko_chart.py:72 | every group is non-empty, and a non-empty table's first group starts with its first pitch |
| PlinkoChart.AtBatGroupsRuns | src/plinko/visualization/plinko_chart.py:72 | the groups are non-empty, concatenate back to the table, share one at-bat each, and neighbouring groups differ |
| PlinkoChart.SortedGroupsAreDistinctAtBats | src/plinko/visualization/plinko_chart.py:67-72 | on the sorted table no two groups belong to the same at-bat |
| PlinkoChart.SortedGroupsAreAtBats | src/plinko/visualization/plinko_chart.py:67-72 | on the sorted table a pitch is in a group exactly when it belongs to that group's at-bat |
| PlinkoChart.CountsOf | src/plinko/visualization/plinko_chart.py:73 | `group['count'].tolist()` has one entry per pitch, the `i`-th pitch's count |
| PlinkoChart.AdjacentPairs | src/plinko/visualization/plinko_chart.py:76-79 | an at-bat of `n >= 1` counts has `n - 1` consecutive pairs, and an empty one none |
| PlinkoChart.AdjacentPairsAt | src/plinko/visualization/plinko_chart.py:76-79 | the `i`-th pair walked in one at-bat is the `i`-th count followed by the next one |
| PlinkoChart.KeepAllowed | src/plinko/visualization/plinko_chart.py:81 | the filter is no longer than its input, and everything it keeps is from its input and in the legal set |
| PlinkoChart.KeepAllowedMembers | src/plinko/visualization/plinko_chart.py:81 | the filter keeps exactly the transitions in the legal set |
| PlinkoChart.SameAtBatPairsMembers | src/plinko/visualization/plinko_chart.py:72-79 | its pairs are exactly the count pairs of consecutive rows of one at-bat |
| PlinkoChart.GroupsTransitionsAreSameAtBatPairs | src/plinko/visualization/plinko_chart.py:72-79 | walking the groups pair by pair gives exactly the count pairs of consecutive rows of the same at-bat, in order |
| PlinkoChart.FlowCountsAreLegal | src/plinko/visualization/plinko_chart.py:63-84 | every key of the flow table is one of the 17 transitions, and every stored value is at least 1 |
| PlinkoChart.FlowCountsCharacterised | src/plinko/visualization/plinko_chart.py:56-84 | a transition is in the flow table if and only if it is legal and some pitch is followed, in the sorted table, by a pitch of the same at-bat that moves the count along it; its value is the number of times the pair occurs among consecutive same-at-bat pitches of the sorted table (its multiplicity in `SameAtBatPairs`) |
| PlinkoChart.PairsPlusGroups | src/plinko/visualization/plinko_chart.py:72-76 | pairs within at-bats plus at-bats equals pitches: an at-bat of `n` pitches contributes `n - 1` pairs |
| PlinkoChart.FlowTotalBound | src/plinko/visualization/plinko_chart.py:76-82 | the flow values add up to at most the number of pitches minus the number of at-bats |
| PlinkoChart.FlowCountsOrderIndependent | src/plinko/visualization/plinko_chart.py:66-69 | the flow table does not depend on input row order when no two different rows share a key triple |
| PlinkoChart.ExampleFlowCounts | src/plinko/visualization/plinko_chart.py:72-82 | a two-strike foul (`0-2` to `0-2`) is not counted, and no transition is counted across at-bats |
| PlinkoChart.TwoAtBatFlowCounts | src/plinko/visualization/plinko_chart.py:72-82 | at-bats 0-0, 1-0, 1-1 and 0-0, 0-1 give exactly `{(0-0,1-0): 1, (1-0,1-1): 1, (0-0,0-1): 1}` |
| PlinkoChart.PlinkoChartGenerator.constructor | src/plinko/visualization/plinko_chart.py:27-39 | the generator keeps the pitches and the name, and its two tables are the count table and the flow table of those pitches |
| PlinkoChart.PlinkoChartGenerator.CalculateCountData | src/plinko/visualization/plinko_chart.py:41-54 | the loop over the count keys builds exactly the count table |
| PlinkoChart.PlinkoChartGenerator.CalculateFlowCounts | src/plinko/visualization/plinko_chart.py:56-84 | the loops over groups and adjacent pitches build exactly the flow table |
| PlinkoChart.PlinkoChartGenerator.CountTransitions | src/plinko/visualization/plinko_chart.py:76-82 | walking one at-bat turns the tally of the legal transitions seen so far into the tally that also counts this at-bat's legal transitions |

## Left out

- The remote services are not modelled: `playerid_lookup`, `statcast_pitcher` and `chadwick_register`. They are network I/O into a library outside this model. `GetProcessedData` takes their outcomes as parameters: the lookup result or the text of its exception, and the fetch function.
- `get_pitcher_id` is not modelled: the choice of the first matching row, `int(key_mlbam)` and the title-cased display name. The lookup parameter carries the id and the name as they come out.
- `get_all_pitchers` is not modelled: the `full_name` column, accent removal and directory sorting. The search receives the directory rows as they are.
- `remove_accents` is not modelled. It depends on Unicode normalisation tables.
- `src/plinko/app.py` is not modelled. It is user-interface wiring and caching.
- Rendering is not modelled: matplotlib, the chart layout constants and the float coordinates of the count positions. Only the key sets of those tables are used.
- SearchPitchers: `str.lower()` is modelled for ASCII letters only, because full Unicode case mapping is a library table.
- SearchPitchers: `str.contains` is modelled as a plain substring test, not a regular-expression match. A term holding regex metacharacters behaves differently in the program.
- CountData: each count's tally is a map, not a pandas Series. The ordering `value_counts()` gives its entries (most frequent first) is not modelled.
- ProcessPitchData: the rows have typed, non-missing `balls`, `strikes`, `game_date`, `at_bat_number` and `pitch_number`. Missing values and pandas' placement of them in the sort are not modelled, and neither is the `"1.0"` spelling float columns would give.
- ProcessPitchData: for rows with equal key triples, the model keeps input order (a stable sort). pandas' tie order is not modelled.
- PlinkoChartGenerator.constructor: the default display name `"Pitcher"` is not modelled. Callers pass the name.
- SearchPitchers: the default `limit` of 50 is not modelled. Callers pass the limit.
- GetProcessedData: only the errors the program itself raises or returns are modelled. Exceptions from processing a malformed table are not, because the modelled rows are always well formed.

## Findings

| source | as written | input that shows it | evidently intended | confidence | as-written member | corrected member |
|---|---|---|---|---|---|---|
| src/plinko/visualization/plinko_chart.py:51 | `count_pitches['pitch_type'].value.counts()` looks up an attribute `value` that a pandas Series does not have | any pitch table, including an empty one: the first count key already raises `AttributeError`, so constructing the generator always fails | `value_counts()`: a tally of the non-missing pitch types at that count | high (not executed) | PlinkoChart.CountDataAsWritten, PlinkoChart.CountDataAsWrittenAlwaysRaises | PlinkoChart.PlinkoChartGenerator.CalculateCountData |
