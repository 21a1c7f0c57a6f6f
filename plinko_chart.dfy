/**
 The numbers behind the plinko chart: for each of the twelve counts, how
 often each pitch type was thrown there, and for each legal count
 transition, how often a pitch moved an at-bat along it. The generator
 object computes both once, when it is created; drawing is not modelled.
 */
module PlinkoChart {
  import opened Text
  import opened Tables
  import opened Constants
  import opened PitcherData

  // ---------------------------------------------------------------------------
  // Pitch types by count

  /** `pitch_data[pitch_data['count'] == count]['pitch_type']` without its missing
      entries: the known pitch types thrown at `count`, in table order. */
  function PitchTypesAt(rows: seq<Pitch>, count: string): (types: seq<string>)
    ensures |types| <= |rows|
    ensures forall t :: t in types <==>
              exists i :: 0 <= i < |rows| && rows[i].count == count && rows[i].row.pitchType == Some(t)
  {
    if rows == [] then []
    else
      var init, p := rows[..|rows| - 1], rows[|rows| - 1];
      var rest := PitchTypesAt(init, count);
      assert forall i :: 0 <= i < |init| ==> init[i] == rows[i];
      if p.count == count && p.row.pitchType.Some? then rest + [p.row.pitchType.value] else rest
  }

  /** The rows thrown at `count` with pitch type `t`, by index. */
  function RowsOfType(rows: seq<Pitch>, count: string, t: string): (indices: set<int>) {
    set i | 0 <= i < |rows| && rows[i].count == count && rows[i].row.pitchType == Some(t)
  }

  /** The rows thrown at `count` whose pitch type is known, by index. */
  function RowsWithType(rows: seq<Pitch>, count: string): (indices: set<int>) {
    set i | 0 <= i < |rows| && TypeKnownAt(rows[i], count)
  }

  predicate TypeKnownAt(p: Pitch, count: string) {
    p.count == count && p.row.pitchType.Some?
  }

  /** One more row adds its index to the rows of its type at its count, and to no other. */
  lemma RowsOfTypeSnoc(rows: seq<Pitch>, count: string, t: string)
    requires rows != []
    ensures var n := |rows| - 1;
      RowsOfType(rows, count, t)
      == RowsOfType(rows[..n], count, t) + (if rows[n].count == count && rows[n].row.pitchType == Some(t) then {n} else {})
  {
    var n := |rows| - 1;
    var init := rows[..n];
    forall i | 0 <= i < n ensures init[i] == rows[i] { }
  }

  /** One more row adds its index to the rows at its count with a known type, and to no other. */
  lemma RowsWithTypeSnoc(rows: seq<Pitch>, count: string)
    requires rows != []
    ensures var n := |rows| - 1;
      RowsWithType(rows, count) == RowsWithType(rows[..n], count) + (if TypeKnownAt(rows[n], count) then {n} else {})
  {
    var n := |rows| - 1;
    var init := rows[..n];
    forall i | 0 <= i < n ensures init[i] == rows[i] { }
  }

  /** Each pitch type occurs in `PitchTypesAt` once per row of that type at that count. */
  lemma {:induction false} PitchTypesAtMultiplicity(rows: seq<Pitch>, count: string, t: string)
    ensures multiset(PitchTypesAt(rows, count))[t] == |RowsOfType(rows, count, t)|
    decreases |rows|
  {
    if rows != [] {
      var n := |rows| - 1;
      PitchTypesAtMultiplicity(rows[..n], count, t);
      RowsOfTypeSnoc(rows, count, t);
      assert n !in RowsOfType(rows[..n], count, t);
    }
  }

  /** `PitchTypesAt` has one entry per row at that count with a known type. */
  lemma {:induction false} PitchTypesAtLength(rows: seq<Pitch>, count: string)
    ensures |PitchTypesAt(rows, count)| == |RowsWithType(rows, count)|
    decreases |rows|
  {
    if rows != [] {
      var n := |rows| - 1;
      PitchTypesAtLength(rows[..n], count);
      RowsWithTypeSnoc(rows, count);
      assert n !in RowsWithType(rows[..n], count);
    }
  }

  /** The count table: for every count key, `value_counts()` of the pitch types thrown there. */
  function CountData(rows: seq<Pitch>): (data: map<string, map<string, nat>>)
    ensures data.Keys == CountSpace()
  {
    map c | c in CountSpace() :: Tally(PitchTypesAt(rows, c))
  }

  /** A table with the count keys whose every entry is the tally at its count is the count table. */
  lemma CountDataPointwise(rows: seq<Pitch>, data: map<string, map<string, nat>>)
    requires data.Keys == CountSpace()
    requires forall c :: c in data ==> data[c] == Tally(PitchTypesAt(rows, c))
    ensures data == CountData(rows)
  {
  }

  /** A pitch type is listed at a count exactly when it was thrown there, and its
      entry is the number of rows of that type at that count. */
  lemma CountDataCountsRows(rows: seq<Pitch>, count: string, t: string)
    requires count in CountSpace()
    ensures t in CountData(rows)[count] <==> |RowsOfType(rows, count, t)| > 0
    ensures t in CountData(rows)[count] ==> CountData(rows)[count][t] == |RowsOfType(rows, count, t)|
  {
    TallyCounts(PitchTypesAt(rows, count));
    PitchTypesAtMultiplicity(rows, count, t);
  }

  /** A count at which no pitch of known type was thrown still has its entry, an empty tally. */
  lemma CountDataEmptyAtUnusedCount(rows: seq<Pitch>, count: string)
    requires count in CountSpace() && RowsWithType(rows, count) == {}
    ensures CountData(rows)[count] == map[]
  {
    PitchTypesAtLength(rows, count);
  }

  /** Conservation: the entries at a count add up to the rows at that count with a known type. */
  lemma CountDataTotal(rows: seq<Pitch>, count: string)
    requires count in CountSpace()
    ensures MapSum(CountData(rows)[count]) == |RowsWithType(rows, count)|
  {
    TallyTotal(PitchTypesAt(rows, count));
    PitchTypesAtLength(rows, count);
  }

  // ---------------------------------------------------------------------------
  // The count-data loop as written

  /** What evaluating a piece of the program gives: a value, or a raised exception. */
  datatype Attempt<T> = Returned(value: T) | Raised(exception: string)

  /** The exception `.value` raises on the integer-indexed `pitch_type` column. */
  const ValueAttributeError := "AttributeError: 'Series' object has no attribute 'value'"

  /** The loop over the count keys as written, with `.value.counts()`. The body
      looks up `value` on the column of the rows at the current count, which
      never resolves, so the first iteration raises and no later one runs; only a
      loop with no keys would finish, returning the empty dict it started with. */
  function CountDataAsWritten(rows: seq<Pitch>): (r: Attempt<map<string, map<string, nat>>>)
    ensures r.Raised? <==> CountPositionKeys != []
    ensures r.Raised? ==> r.exception == ValueAttributeError
    ensures r.Returned? ==> r.value == map[]
  {
    if CountPositionKeys == [] then Returned(map[]) else Raised(ValueAttributeError)
  }

  /** As written, computing the count table fails on every input, so no chart
      generator can be built. */
  lemma CountDataAsWrittenAlwaysRaises(rows: seq<Pitch>)
    ensures CountDataAsWritten(rows).Raised?
  {
    CountKeysDistinct();
  }

  // ---------------------------------------------------------------------------
  // At-bats and transitions

  /** The at-bat a pitch belongs to: `(game_date, at_bat_number)`. */
  function AtBatKey(p: Pitch): (key: (string, int)) {
    (p.row.gameDate, p.row.atBatNumber)
  }

  function Flatten(groups: seq<seq<Pitch>>): (rows: seq<Pitch>) {
    if groups == [] then [] else groups[0] + Flatten(groups[1..])
  }

  /** `groupby(['game_date', 'at_bat_number'])` over a table sorted on that key:
      the maximal runs of consecutive rows of the same at-bat, in table order. */
  function AtBatGroups(rows: seq<Pitch>): (groups: seq<seq<Pitch>>)
    ensures forall i :: 0 <= i < |groups| ==> groups[i] != []
    ensures rows != [] ==> groups != [] && groups[0][0] == rows[0]
    decreases |rows|
  {
    if rows == [] then [] else PrependToRuns(rows[0], AtBatGroups(rows[1..]))
  }

  /** Puts `p` in front of the runs that follow it: it joins the first run when it
      belongs to the same at-bat, and opens a run of its own otherwise. */
  function PrependToRuns(p: Pitch, runs: seq<seq<Pitch>>): (groups: seq<seq<Pitch>>)
    requires forall i :: 0 <= i < |runs| ==> runs[i] != []
    ensures forall i :: 0 <= i < |groups| ==> groups[i] != []
    ensures groups != [] && groups[0][0] == p
  {
    if runs != [] && AtBatKey(runs[0][0]) == AtBatKey(p) then [[p] + runs[0]] + runs[1..] else [[p]] + runs
  }

  /** The groups are runs: each holds pitches of one at-bat, and neighbouring
      groups belong to different at-bats. */
  ghost predicate AreRuns(groups: seq<seq<Pitch>>) {
    && (forall i :: 0 <= i < |groups| ==> groups[i] != [])
    && (forall i, p :: 0 <= i < |groups| && p in groups[i] ==> AtBatKey(p) == AtBatKey(groups[i][0]))
    && (forall i :: 0 <= i < |groups| - 1 ==> AtBatKey(groups[i][0]) != AtBatKey(groups[i + 1][0]))
  }

  /** Putting a pitch in front keeps the groups runs, and puts it in front of their concatenation. */
  lemma PrependToRunsKeepsRuns(p: Pitch, runs: seq<seq<Pitch>>)
    requires AreRuns(runs)
    ensures AreRuns(PrependToRuns(p, runs))
    ensures Flatten(PrependToRuns(p, runs)) == [p] + Flatten(runs)
  {
    if runs != [] && AtBatKey(runs[0][0]) == AtBatKey(p) {
      JoinKeepsRuns(p, runs);
    } else {
      NewRunKeepsRuns(p, runs);
    }
  }

  lemma JoinKeepsRuns(p: Pitch, runs: seq<seq<Pitch>>)
    requires AreRuns(runs) && runs != [] && AtBatKey(runs[0][0]) == AtBatKey(p)
    ensures AreRuns([[p] + runs[0]] + runs[1..])
    ensures Flatten([[p] + runs[0]] + runs[1..]) == [p] + Flatten(runs)
  {
    var groups := [[p] + runs[0]] + runs[1..];
    assert forall i :: 1 <= i < |groups| ==> groups[i] == runs[i];
    JoinFlatten(p, runs);
  }

  lemma JoinFlatten(p: Pitch, runs: seq<seq<Pitch>>)
    requires runs != []
    ensures Flatten([[p] + runs[0]] + runs[1..]) == [p] + Flatten(runs)
  {
    var groups := [[p] + runs[0]] + runs[1..];
    assert groups[1..] == runs[1..];
    ConcatAssociative([p], runs[0], Flatten(runs[1..]));
  }

  lemma ConcatAssociative<T>(a: seq<T>, b: seq<T>, c: seq<T>)
    ensures (a + b) + c == a + (b + c)
  {
  }

  lemma NewRunKeepsRuns(p: Pitch, runs: seq<seq<Pitch>>)
    requires AreRuns(runs) && !(runs != [] && AtBatKey(runs[0][0]) == AtBatKey(p))
    ensures AreRuns([[p]] + runs)
    ensures Flatten([[p]] + runs) == [p] + Flatten(runs)
  {
    var groups := [[p]] + runs;
    assert groups[1..] == runs;
    assert forall i :: 1 <= i < |groups| ==> groups[i] == runs[i - 1];
  }

  /** The groups concatenate back to the table, each holds pitches of one
      at-bat, and neighbouring groups belong to different at-bats. */
  lemma {:induction false} AtBatGroupsRuns(rows: seq<Pitch>)
    ensures Flatten(AtBatGroups(rows)) == rows
    ensures AreRuns(AtBatGroups(rows))
    decreases |rows|
  {
    if rows != [] {
      AtBatGroupsRuns(rows[1..]);
      PrependToRunsKeepsRuns(rows[0], AtBatGroups(rows[1..]));
    }
  }

  /** `group['count'].tolist()`. */
  function CountsOf(group: seq<Pitch>): (counts: seq<string>)
    ensures |counts| == |group|
    ensures forall i :: 0 <= i < |group| ==> counts[i] == group[i].count
  {
    if group == [] then [] else [group[0].count] + CountsOf(group[1..])
  }

  /** `(counts[i], counts[i + 1])` for `i in range(len(counts) - 1)`. */
  function AdjacentPairs(counts: seq<string>): (pairs: seq<(string, string)>)
    ensures |pairs| == if |counts| == 0 then 0 else |counts| - 1
  {
    if |counts| < 2 then [] else [(counts[0], counts[1])] + AdjacentPairs(counts[1..])
  }

  /** The `i`-th pair is made of the `i`-th count and the one after it. */
  lemma {:induction false} AdjacentPairsAt(counts: seq<string>, i: nat)
    requires i < |counts| - 1
    ensures AdjacentPairs(counts)[i] == (counts[i], counts[i + 1])
    decreases i
  {
    if i > 0 {
      AdjacentPairsAt(counts[1..], i - 1);
    }
  }

  /** The transitions of all at-bats, group after group. */
  function GroupsTransitions(groups: seq<seq<Pitch>>): (transitions: seq<(string, string)>) {
    if groups == [] then [] else AdjacentPairs(CountsOf(groups[0])) + GroupsTransitions(groups[1..])
  }

  /** The transitions that are in `allowed` (the program passes `set(COUNT_TRANSITIONS)`), in order. */
  function KeepAllowed(ts: seq<(string, string)>, allowed: set<(string, string)>): (kept: seq<(string, string)>)
    ensures |kept| <= |ts|
    ensures forall i :: 0 <= i < |kept| ==> kept[i] in ts && kept[i] in allowed
  {
    if ts == [] then []
    else
      var init, t := ts[..|ts| - 1], ts[|ts| - 1];
      assert ts == init + [t];
      KeepAllowed(init, allowed) + (if t in allowed then [t] else [])
  }

  /** The flow table: sort, group by at-bat, and count every legal transition
      between consecutive pitches of one at-bat. */
  function FlowCounts(rows: seq<Pitch>): (flow: map<(string, string), nat>) {
    Tally(KeepAllowed(GroupsTransitions(AtBatGroups(SortBy(rows, PitchKey))), TransitionSet()))
  }

  /** Appending a transition bumps its counter in the tally when it is allowed and changes nothing otherwise. */
  lemma TallyKeepAllowedSnoc(seen: seq<(string, string)>, t: (string, string), allowed: set<(string, string)>)
    ensures t in allowed ==> Tally(KeepAllowed(seen + [t], allowed))
                             == Tally(KeepAllowed(seen, allowed))[t := Get(Tally(KeepAllowed(seen, allowed)), t, 0) + 1]
    ensures t !in allowed ==> Tally(KeepAllowed(seen + [t], allowed)) == Tally(KeepAllowed(seen, allowed))
  {
    KeepAllowedSnoc(seen, t, allowed);
    TallySnoc(KeepAllowed(seen, allowed), t);
  }

  /** Filtering one more transition keeps it exactly when it is legal. */
  lemma KeepAllowedSnoc(seen: seq<(string, string)>, t: (string, string), allowed: set<(string, string)>)
    ensures t in allowed ==> KeepAllowed(seen + [t], allowed) == KeepAllowed(seen, allowed) + [t]
    ensures t !in allowed ==> KeepAllowed(seen + [t], allowed) == KeepAllowed(seen, allowed)
  {
    assert (seen + [t])[..|seen|] == seen;
    assert KeepAllowed(seen, allowed) + [] == KeepAllowed(seen, allowed);
  }

  /** The pairs of the first `i + 1` steps of an at-bat extend those of the first `i`. */
  lemma AdjacentPairsStep(before: seq<(string, string)>, counts: seq<string>, i: nat)
    requires i < |counts| - 1
    ensures before + AdjacentPairs(counts)[..i + 1] == (before + AdjacentPairs(counts)[..i]) + [(counts[i], counts[i + 1])]
  {
    var pairs := AdjacentPairs(counts);
    AdjacentPairsAt(counts, i);
    assert pairs[..i + 1] == pairs[..i] + [pairs[i]];
    ConcatAssociative(before, pairs[..i], [pairs[i]]);
  }

  /** One step of the inner loop: the tally after walking `i + 1` pairs of an at-bat
      is the tally after `i` pairs, with the counter of the `i`-th pair bumped when it is allowed. */
  lemma FlowStep(seen: seq<(string, string)>, counts: seq<string>, i: nat, allowed: set<(string, string)>)
    requires i < |counts| - 1
    ensures var t := (counts[i], counts[i + 1]);
      var before := Tally(KeepAllowed(seen + AdjacentPairs(counts)[..i], allowed));
      Tally(KeepAllowed(seen + AdjacentPairs(counts)[..i + 1], allowed))
        == if t in allowed then before[t := Get(before, t, 0) + 1] else before
  {
    AdjacentPairsStep(seen, counts, i);
    TallyKeepAllowedSnoc(seen + AdjacentPairs(counts)[..i], (counts[i], counts[i + 1]), allowed);
  }

  /** One more group: its transitions follow those of the groups before it. */
  lemma {:induction false} GroupsTransitionsSnoc(groups: seq<seq<Pitch>>, g: seq<Pitch>)
    ensures GroupsTransitions(groups + [g]) == GroupsTransitions(groups) + AdjacentPairs(CountsOf(g))
    decreases |groups|
  {
    if groups == [] {
      assert GroupsTransitions([g]) == AdjacentPairs(CountsOf(g)) + GroupsTransitions([]);
    } else {
      GroupsTransitionsSnoc(groups[1..], g);
      assert (groups + [g])[1..] == groups[1..] + [g];
    }
  }

  lemma GroupsTransitionsStep(groups: seq<seq<Pitch>>, g: nat)
    requires g < |groups|
    ensures GroupsTransitions(groups[..g + 1]) == GroupsTransitions(groups[..g]) + AdjacentPairs(CountsOf(groups[g]))
  {
    assert groups[..g + 1] == groups[..g] + [groups[g]];
    GroupsTransitionsSnoc(groups[..g], groups[g]);
  }

  // ---------------------------------------------------------------------------
  // The generator

  /** Holds the processed pitches and the two tables computed from them. */
  class PlinkoChartGenerator {
    var pitchData: seq<Pitch>
    var pitcherName: string
    var countData: map<string, map<string, nat>>
    var flowCounts: map<(string, string), nat>

    constructor (pitchData: seq<Pitch>, pitcherName: string)
      ensures this.pitchData == pitchData && this.pitcherName == pitcherName
      ensures countData == CountData(pitchData)
      ensures flowCounts == FlowCounts(pitchData)
    {
      this.pitchData := pitchData;
      this.pitcherName := pitcherName;
      new;
      countData := CalculateCountData();
      flowCounts := CalculateFlowCounts();
    }

    /** For each count key in declaration order, tally the pitch types thrown at it. */
    method CalculateCountData() returns (countData: map<string, map<string, nat>>)
      ensures countData == CountData(pitchData)
    {
      countData := map[];
      var keys := CountPositionKeys;
      for n := 0 to |keys|
        invariant countData.Keys == set c | c in keys[..n]
        invariant forall c :: c in countData ==> countData[c] == Tally(PitchTypesAt(pitchData, c))
      {
        var count := keys[n];
        var pitchTypeCounts := Tally(PitchTypesAt(pitchData, count));
        assert keys[..n + 1] == keys[..n] + [count];
        countData := countData[count := pitchTypeCounts];
      }
      assert keys[..|keys|] == keys;
      CountDataPointwise(pitchData, countData);
    }

    /** Walk the sorted pitches at-bat by at-bat and bump the counter of every
        legal transition between consecutive pitches. */
    method CalculateFlowCounts() returns (flowCounts: map<(string, string), nat>)
      ensures flowCounts == FlowCounts(pitchData)
    {
      flowCounts := map[];
      var transitionSet := TransitionSet();
      var sorted := SortBy(pitchData, PitchKey);
      var groups := AtBatGroups(sorted);
      for g := 0 to |groups|
        invariant flowCounts == Tally(KeepAllowed(GroupsTransitions(groups[..g]), transitionSet))
      {
        var countsInAb := CountsOf(groups[g]);
        flowCounts := CountTransitions(countsInAb, transitionSet, flowCounts, GroupsTransitions(groups[..g]));
        GroupsTransitionsStep(groups, g);
      }
      assert groups[..|groups|] == groups;
    }

    /** The inner loop over one at-bat: bump the counter of each allowed
        transition between consecutive counts. `seen` stands for the
        transitions of the at-bats already walked, whose tally `flowCounts` is. */
    static method CountTransitions(countsInAb: seq<string>, transitionSet: set<(string, string)>,
                                   flowCounts: map<(string, string), nat>, ghost seen: seq<(string, string)>)
      returns (updated: map<(string, string), nat>)
      requires flowCounts == Tally(KeepAllowed(seen, transitionSet))
      ensures updated == Tally(KeepAllowed(seen + AdjacentPairs(countsInAb), transitionSet))
    {
      updated := flowCounts;
      ghost var pairs := AdjacentPairs(countsInAb);
      assert seen + pairs[..0] == seen;
      var i := 0;
      while i < |countsInAb| - 1
        invariant 0 <= i <= if |countsInAb| == 0 then 0 else |countsInAb| - 1
        invariant updated == Tally(KeepAllowed(seen + pairs[..i], transitionSet))
      {
        var transition := (countsInAb[i], countsInAb[i + 1]);
        FlowStep(seen, countsInAb, i, transitionSet);
        if transition in transitionSet {
          updated := updated[transition := Get(updated, transition, 0) + 1];
        }
        i := i + 1;
      }
      assert pairs[..i] == pairs;
    }
  }

  // ---------------------------------------------------------------------------
  // Properties of the flow table

  /** The filter keeps exactly the allowed transitions. */
  lemma {:induction false} KeepAllowedMembers(ts: seq<(string, string)>, allowed: set<(string, string)>)
    ensures forall t :: t in KeepAllowed(ts, allowed) <==> t in ts && t in allowed
    decreases |ts|
  {
    if ts != [] {
      var init, t := ts[..|ts| - 1], ts[|ts| - 1];
      assert ts == init + [t];
      KeepAllowedMembers(init, allowed);
    }
  }

  /** Every key of the flow table is one of the seventeen legal transitions, with a positive count. */
  lemma FlowCountsAreLegal(rows: seq<Pitch>)
    ensures forall t :: t in FlowCounts(rows) ==> t in TransitionSet() && FlowCounts(rows)[t] >= 1
  {
    var ts := GroupsTransitions(AtBatGroups(SortBy(rows, PitchKey)));
    KeepAllowedMembers(ts, TransitionSet());
    TallyCounts(KeepAllowed(ts, TransitionSet()));
  }

  /** The count pairs of consecutive rows of the same at-bat, in table order:
      a definition of the transitions that does not go through the groups. */
  function SameAtBatPairs(rows: seq<Pitch>): (pairs: seq<(string, string)>)
    ensures |pairs| < |rows| || rows == []
    decreases |rows|
  {
    if |rows| < 2 then []
    else (if AtBatKey(rows[0]) == AtBatKey(rows[1]) then [(rows[0].count, rows[1].count)] else []) + SameAtBatPairs(rows[1..])
  }

  /** Its pairs are exactly the count pairs of consecutive rows of one at-bat. */
  lemma {:induction false} SameAtBatPairsMembers(rows: seq<Pitch>)
    ensures forall t :: t in SameAtBatPairs(rows) <==>
              exists i :: 0 <= i < |rows| - 1 && AtBatKey(rows[i]) == AtBatKey(rows[i + 1])
                          && (rows[i].count, rows[i + 1].count) == t
    decreases |rows|
  {
    if |rows| >= 2 {
      SameAtBatPairsMembers(rows[1..]);
      assert forall i :: 0 <= i < |rows| - 1 ==> rows[1..][i] == rows[i + 1];
    }
  }

  lemma GroupsTransitionsCons(g: seq<Pitch>, groups: seq<seq<Pitch>>)
    ensures GroupsTransitions([g] + groups) == AdjacentPairs(CountsOf(g)) + GroupsTransitions(groups)
  {
    assert ([g] + groups)[1..] == groups;
  }

  lemma SameAtBatPairsCons(p: Pitch, rest: seq<Pitch>)
    requires rest != []
    ensures SameAtBatPairs([p] + rest)
         == (if AtBatKey(p) == AtBatKey(rest[0]) then [(p.count, rest[0].count)] else []) + SameAtBatPairs(rest)
  {
    assert ([p] + rest)[1..] == rest;
  }

  lemma AdjacentPairsCons(p: Pitch, group: seq<Pitch>)
    requires group != []
    ensures AdjacentPairs(CountsOf([p] + group)) == [(p.count, group[0].count)] + AdjacentPairs(CountsOf(group))
  {
    assert ([p] + group)[1..] == group;
  }

  /** Walking the at-bat groups finds exactly the pairs of consecutive rows of the same at-bat. */
  lemma {:induction false} GroupsTransitionsAreSameAtBatPairs(rows: seq<Pitch>)
    ensures GroupsTransitions(AtBatGroups(rows)) == SameAtBatPairs(rows)
    decreases |rows|
  {
    if rows != [] {
      GroupsTransitionsAreSameAtBatPairs(rows[1..]);
      var rest := AtBatGroups(rows[1..]);
      if rest != [] && AtBatKey(rest[0][0]) == AtBatKey(rows[0]) {
        FirstPitchJoinsNextRun(rows);
      } else {
        FirstPitchStartsRun(rows);
      }
    }
  }

  /** The first pitch continues the at-bat of the run after it: it adds one pair. */
  lemma FirstPitchJoinsNextRun(rows: seq<Pitch>)
    requires rows != []
    requires var rest := AtBatGroups(rows[1..]); rest != [] && AtBatKey(rest[0][0]) == AtBatKey(rows[0])
    requires GroupsTransitions(AtBatGroups(rows[1..])) == SameAtBatPairs(rows[1..])
    ensures GroupsTransitions(AtBatGroups(rows)) == SameAtBatPairs(rows)
  {
    JoinedRunTransitions(rows[0], AtBatGroups(rows[1..]));
    assert rows[1] == AtBatGroups(rows[1..])[0][0];
  }

  lemma JoinStep(p: Pitch, first: seq<Pitch>, rest: seq<seq<Pitch>>)
    requires first != []
    ensures GroupsTransitions([[p] + first] + rest)
         == [(p.count, first[0].count)] + (AdjacentPairs(CountsOf(first)) + GroupsTransitions(rest))
  {
    GroupsTransitionsCons([p] + first, rest);
    AdjacentPairsCons(p, first);
  }

  /** A pitch that joins the first run adds its pair with that run's first pitch
      in front of the walk over the runs. */
  lemma JoinedRunTransitions(p: Pitch, runs: seq<seq<Pitch>>)
    requires forall i :: 0 <= i < |runs| ==> runs[i] != []
    requires runs != [] && AtBatKey(runs[0][0]) == AtBatKey(p)
    ensures GroupsTransitions(PrependToRuns(p, runs)) == [(p.count, runs[0][0].count)] + GroupsTransitions(runs)
  {
    var first, rest := runs[0], runs[1..];
    assert PrependToRuns(p, runs) == [[p] + first] + rest;
    assert GroupsTransitions(runs) == AdjacentPairs(CountsOf(first)) + GroupsTransitions(rest);
    JoinStep(p, first, rest);
  }

  /** The first pitch is alone in its at-bat's run: it adds no pair. */
  lemma FirstPitchStartsRun(rows: seq<Pitch>)
    requires rows != []
    requires var rest := AtBatGroups(rows[1..]); !(rest != [] && AtBatKey(rest[0][0]) == AtBatKey(rows[0]))
    requires GroupsTransitions(AtBatGroups(rows[1..])) == SameAtBatPairs(rows[1..])
    ensures GroupsTransitions(AtBatGroups(rows)) == SameAtBatPairs(rows)
  {
    var rest := AtBatGroups(rows[1..]);
    GroupsTransitionsCons([rows[0]], rest);
    assert AdjacentPairs(CountsOf([rows[0]])) == [];
    if |rows| >= 2 {
      assert rows[1] == rest[0][0];
      assert SameAtBatPairs(rows) == [] + SameAtBatPairs(rows[1..]);
    }
  }

  /** The flow table, stated without groups: a transition is counted exactly when it is
      legal and some pitch is followed, in the sorted table, by a pitch of the same
      at-bat that moves the count along it; its entry is the number of such pitches. */
  lemma FlowCountsCharacterised(rows: seq<Pitch>, t: (string, string))
    ensures var sorted := SortBy(rows, PitchKey);
      && (t in FlowCounts(rows) <==>
            t in TransitionSet()
            && exists i :: 0 <= i < |sorted| - 1 && AtBatKey(sorted[i]) == AtBatKey(sorted[i + 1])
                           && (sorted[i].count, sorted[i + 1].count) == t)
      && (t in FlowCounts(rows) ==> FlowCounts(rows)[t] == multiset(SameAtBatPairs(sorted))[t])
  {
    var sorted := SortBy(rows, PitchKey);
    GroupsTransitionsAreSameAtBatPairs(sorted);
    SameAtBatPairsMembers(sorted);
    var pairs := SameAtBatPairs(sorted);
    KeepAllowedMembers(pairs, TransitionSet());
    TallyCounts(KeepAllowed(pairs, TransitionSet()));
    if t in TransitionSet() {
      KeepAllowedCount(pairs, TransitionSet(), t);
    }
  }

  /** An allowed transition occurs as often after the filter as before it. */
  lemma {:induction false} KeepAllowedCount(ts: seq<(string, string)>, allowed: set<(string, string)>, t: (string, string))
    requires t in allowed
    ensures multiset(KeepAllowed(ts, allowed))[t] == multiset(ts)[t]
    decreases |ts|
  {
    if ts != [] {
      var init, u := ts[..|ts| - 1], ts[|ts| - 1];
      assert ts == init + [u];
      KeepAllowedCount(init, allowed, t);
    }
  }

  /** Every pitch either continues the at-bat of the pitch before it or starts a new at-bat. */
  lemma {:induction false} PairsPlusGroups(rows: seq<Pitch>)
    ensures |SameAtBatPairs(rows)| + |AtBatGroups(rows)| == |rows|
    decreases |rows|
  {
    if rows != [] {
      PairsPlusGroups(rows[1..]);
      if |rows| >= 2 {
        assert AtBatGroups(rows[1..])[0][0] == rows[1];
      }
    }
  }

  /** The flow total is at most the number of pitches minus the number of at-bats. */
  lemma FlowTotalBound(rows: seq<Pitch>)
    ensures MapSum(FlowCounts(rows)) <= |rows| - |AtBatGroups(SortBy(rows, PitchKey))|
  {
    var sorted := SortBy(rows, PitchKey);
    GroupsTransitionsAreSameAtBatPairs(sorted);
    PairsPlusGroups(sorted);
    TallyTotal(KeepAllowed(SameAtBatPairs(sorted), TransitionSet()));
  }

  /** The flow table does not depend on the order of the input rows, as long as no
      two different rows share a `(game_date, at_bat_number, pitch_number)` key. */
  lemma FlowCountsOrderIndependent(a: seq<Pitch>, b: seq<Pitch>)
    requires multiset(a) == multiset(b)
    requires KeyDetermines(multiset(a), PitchKey)
    ensures FlowCounts(a) == FlowCounts(b)
  {
    SortByPermutationInvariant(a, b, PitchKey);
  }

  // ---------------------------------------------------------------------------
  // Runs of the sorted table are the at-bat groups

  lemma {:induction false} FlattenMembers(groups: seq<seq<Pitch>>)
    ensures forall p :: p in Flatten(groups) <==> exists j :: 0 <= j < |groups| && p in groups[j]
    decreases |groups|
  {
    if groups != [] {
      FlattenMembers(groups[1..]);
      assert forall j :: 1 <= j < |groups| ==> groups[j] == groups[1..][j - 1];
    }
  }

  /** In key order, a pitch between two pitches of one at-bat belongs to that at-bat. */
  lemma AtBatSandwich(a: Pitch, b: Pitch, c: Pitch)
    requires KeyLeq(PitchKey(a), PitchKey(b)) && KeyLeq(PitchKey(b), PitchKey(c))
    requires AtBatKey(a) == AtBatKey(c)
    ensures AtBatKey(b) == AtBatKey(a)
  {
    if a.row.gameDate != b.row.gameDate && b.row.gameDate != c.row.gameDate {
      StrLeqAntisymmetric(a.row.gameDate, b.row.gameDate);
    }
  }

  /** In key order, once an at-bat's run of pitches ends, no later pitch belongs to it. */
  lemma AtBatEndsForGood(rows: seq<Pitch>)
    requires SortedBy(rows, PitchKey) && |rows| >= 2 && AtBatKey(rows[0]) != AtBatKey(rows[1])
    ensures forall m :: 1 <= m < |rows| ==> AtBatKey(rows[m]) != AtBatKey(rows[0])
  {
    forall m | 2 <= m < |rows| ensures AtBatKey(rows[m]) != AtBatKey(rows[0]) {
      if AtBatKey(rows[m]) == AtBatKey(rows[0]) {
        AtBatSandwich(rows[0], rows[1], rows[m]);
      }
    }
  }

  /** No two groups start with pitches of the same at-bat. */
  ghost predicate DistinctAtBats(groups: seq<seq<Pitch>>) {
    forall i, j :: 0 <= i < j < |groups| && groups[i] != [] && groups[j] != [] ==>
      AtBatKey(groups[i][0]) != AtBatKey(groups[j][0])
  }

  /** Putting in front a pitch whose at-bat no run after the first one has keeps the at-bats distinct. */
  lemma PrependKeepsDistinct(p: Pitch, runs: seq<seq<Pitch>>)
    requires forall i :: 0 <= i < |runs| ==> runs[i] != []
    requires DistinctAtBats(runs)
    requires forall j :: 1 <= j < |runs| ==> AtBatKey(runs[j][0]) != AtBatKey(p)
    ensures DistinctAtBats(PrependToRuns(p, runs))
  {
    var groups := PrependToRuns(p, runs);
    if runs != [] && AtBatKey(runs[0][0]) == AtBatKey(p) {
      assert forall k :: 1 <= k < |groups| ==> groups[k] == runs[k];
    } else {
      assert forall k :: 1 <= k < |groups| ==> groups[k] == runs[k - 1];
    }
  }

  /** On a sorted table, the at-bat of the first pitch does not start any run after
      the first run of the rest of the table. */
  lemma LaterRunsMissFirstAtBat(rows: seq<Pitch>)
    requires SortedBy(rows, PitchKey) && rows != []
    requires DistinctAtBats(AtBatGroups(rows[1..]))
    ensures forall j :: 1 <= j < |AtBatGroups(rows[1..])| ==> AtBatKey(AtBatGroups(rows[1..])[j][0]) != AtBatKey(rows[0])
  {
    var tail := rows[1..];
    var rest := AtBatGroups(tail);
    AtBatGroupsRuns(tail);
    FlattenMembers(rest);
    forall j | 1 <= j < |rest| ensures AtBatKey(rest[j][0]) != AtBatKey(rows[0]) {
      assert rest[j] != [];
      if AtBatKey(tail[0]) == AtBatKey(rows[0]) {
        assert AtBatKey(rest[0][0]) != AtBatKey(rest[j][0]);
      } else {
        AtBatEndsForGood(rows);
        assert rest[j][0] in tail;
        var m :| 0 <= m < |tail| && tail[m] == rest[j][0];
        assert rows[m + 1] == tail[m];
      }
    }
  }

  /** On a sorted table no two groups belong to the same at-bat. */
  lemma {:induction false} SortedGroupsAreDistinctAtBats(rows: seq<Pitch>)
    requires SortedBy(rows, PitchKey)
    ensures DistinctAtBats(AtBatGroups(rows))
    decreases |rows|
  {
    if rows != [] {
      assert SortedBy(rows[1..], PitchKey);
      SortedGroupsAreDistinctAtBats(rows[1..]);
      LaterRunsMissFirstAtBat(rows);
      PrependKeepsDistinct(rows[0], AtBatGroups(rows[1..]));
    }
  }

  /** On a sorted table each group holds every pitch of its at-bat, and nothing else:
      the runs are what `groupby(['game_date', 'at_bat_number'])` yields. */
  lemma SortedGroupsAreAtBats(rows: seq<Pitch>)
    requires SortedBy(rows, PitchKey)
    ensures var groups := AtBatGroups(rows);
      forall i, p :: 0 <= i < |groups| && p in rows ==> (p in groups[i] <==> AtBatKey(p) == AtBatKey(groups[i][0]))
  {
    var groups := AtBatGroups(rows);
    AtBatGroupsRuns(rows);
    SortedGroupsAreDistinctAtBats(rows);
    FlattenMembers(groups);
    forall i, p | 0 <= i < |groups| && p in rows && AtBatKey(p) == AtBatKey(groups[i][0])
      ensures p in groups[i]
    {
      var j :| 0 <= j < |groups| && p in groups[j];
      assert AtBatKey(groups[j][0]) == AtBatKey(groups[i][0]);
      assert groups[i] != [] && groups[j] != [];
      assert j == i;
    }
  }

  // ---------------------------------------------------------------------------
  // A worked example

  /** A four-seam fastball of the given at-bat, pitch number and count, on one game date. */
  function ExamplePitch(atBat: int, pitchNumber: int, balls: int, strikes: int, count: string): (p: Pitch) {
    Pitch(RawPitch(balls, strikes, Some("FF"), None, None, "ball", "2024-04-01", atBat, pitchNumber), count)
  }

  /** At-bat 1 goes 0-0, 0-1, 0-2, 0-2 (a foul with two strikes), 1-2; at-bat 2 goes 0-0, 1-0. */
  function ExampleRows(): (rows: seq<Pitch>) {
    [ExamplePitch(1, 1, 0, 0, "0-0"), ExamplePitch(1, 2, 0, 1, "0-1"), ExamplePitch(1, 3, 0, 2, "0-2"),
     ExamplePitch(1, 4, 0, 2, "0-2"), ExamplePitch(1, 5, 1, 2, "1-2"),
     ExamplePitch(2, 1, 0, 0, "0-0"), ExamplePitch(2, 2, 1, 0, "1-0")]
  }

  lemma ExampleSorted()
    ensures SortedBy(ExampleRows(), PitchKey)
  {
    var rows := ExampleRows();
    forall i | 0 <= i < |rows| - 1 ensures KeyLeq(PitchKey(rows[i]), PitchKey(rows[i + 1])) {
      assert rows[i].row.gameDate == rows[i + 1].row.gameDate == "2024-04-01";
    }
    SortedByAdjacent(rows, PitchKey);
  }

  lemma ExamplePairs()
    ensures SameAtBatPairs(ExampleRows())
         == [("0-0", "0-1"), ("0-1", "0-2"), ("0-2", "0-2"), ("0-2", "1-2"), ("0-0", "1-0")]
  {
    var rows := ExampleRows();
    var r5 := [rows[5], rows[6]];
    var r4 := [rows[4]] + r5;
    var r3 := [rows[3]] + r4;
    var r2 := [rows[2]] + r3;
    var r1 := [rows[1]] + r2;
    assert rows == [rows[0]] + r1;
    assert SameAtBatPairs(r5) == [("0-0", "1-0")];
    SameAtBatPairsCons(rows[4], r5);
    SameAtBatPairsCons(rows[3], r4);
    SameAtBatPairsCons(rows[2], r3);
    SameAtBatPairsCons(rows[1], r2);
    SameAtBatPairsCons(rows[0], r1);
  }

  lemma ExampleLegality()
    ensures ("0-0", "0-1") in TransitionSet() && ("0-1", "0-2") in TransitionSet()
    ensures ("0-2", "1-2") in TransitionSet() && ("0-0", "1-0") in TransitionSet()
    ensures ("0-2", "0-2") !in TransitionSet()
  {
    assert CountTransitions[1] == ("0-0", "0-1") && CountTransitions[5] == ("0-1", "0-2");
    assert CountTransitions[10] == ("0-2", "1-2") && CountTransitions[0] == ("0-0", "1-0");
    TransitionsAreOneStep();
    ParsedSpellings();
  }

  lemma ExampleKept(allowed: set<(string, string)>)
    requires ("0-0", "0-1") in allowed && ("0-1", "0-2") in allowed
    requires ("0-2", "1-2") in allowed && ("0-0", "1-0") in allowed
    requires ("0-2", "0-2") !in allowed
    ensures KeepAllowed([("0-0", "0-1"), ("0-1", "0-2"), ("0-2", "0-2"), ("0-2", "1-2"), ("0-0", "1-0")], allowed)
         == [("0-0", "0-1"), ("0-1", "0-2"), ("0-2", "1-2"), ("0-0", "1-0")]
  {
    var all := [("0-0", "0-1"), ("0-1", "0-2"), ("0-2", "0-2"), ("0-2", "1-2"), ("0-0", "1-0")];
    KeepAllowedSnoc(all[..4], all[4], allowed);
    KeepAllowedSnoc(all[..3], all[3], allowed);
    KeepAllowedSnoc(all[..2], all[2], allowed);
    KeepAllowedSnoc(all[..1], all[1], allowed);
    KeepAllowedSnoc(all[..0], all[0], allowed);
    assert all[..0] + [all[0]] == all[..1];
    assert all[..1] + [all[1]] == all[..2];
    assert all[..2] + [all[2]] == all[..3];
    assert all[..3] + [all[3]] == all[..4];
    assert all[..4] + [all[4]] == all;
  }

  lemma ExampleTally()
    ensures Tally([("0-0", "0-1"), ("0-1", "0-2"), ("0-2", "1-2"), ("0-0", "1-0")])
         == map[("0-0", "0-1") := 1, ("0-1", "0-2") := 1, ("0-2", "1-2") := 1, ("0-0", "1-0") := 1]
  {
    var kept := [("0-0", "0-1"), ("0-1", "0-2"), ("0-2", "1-2"), ("0-0", "1-0")];
    TallySnoc(kept[..0], kept[0]);
    TallySnoc(kept[..1], kept[1]);
    TallySnoc(kept[..2], kept[2]);
    TallySnoc(kept[..3], kept[3]);
    assert kept[..0] + [kept[0]] == kept[..1];
    assert kept[..1] + [kept[1]] == kept[..2];
    assert kept[..2] + [kept[2]] == kept[..3];
    assert kept[..3] + [kept[3]] == kept;
  }

  /** The foul that leaves the count at 0-2 is not a legal transition and is not counted,
      and nothing is counted from the last pitch of at-bat 1 to the first of at-bat 2. */
  lemma ExampleFlowCounts()
    ensures FlowCounts(ExampleRows()) ==
      map[("0-0", "0-1") := 1, ("0-1", "0-2") := 1, ("0-2", "1-2") := 1, ("0-0", "1-0") := 1]
  {
    var rows := ExampleRows();
    ExampleSorted();
    SortBySorted(rows, PitchKey);
    GroupsTransitionsAreSameAtBatPairs(rows);
    ExamplePairs();
    ExampleLegality();
    ExampleKept(TransitionSet());
    ExampleTally();
  }

  /** At-bat 1 goes 0-0, 1-0, 1-1; at-bat 2 goes 0-0, 0-1. */
  function TwoAtBatRows(): (rows: seq<Pitch>) {
    [ExamplePitch(1, 1, 0, 0, "0-0"), ExamplePitch(1, 2, 1, 0, "1-0"), ExamplePitch(1, 3, 1, 1, "1-1"),
     ExamplePitch(2, 1, 0, 0, "0-0"), ExamplePitch(2, 2, 0, 1, "0-1")]
  }

  lemma TwoAtBatSorted()
    ensures SortedBy(TwoAtBatRows(), PitchKey)
  {
    var rows := TwoAtBatRows();
    forall i | 0 <= i < |rows| - 1 ensures KeyLeq(PitchKey(rows[i]), PitchKey(rows[i + 1])) {
      assert rows[i].row.gameDate == rows[i + 1].row.gameDate == "2024-04-01";
    }
    SortedByAdjacent(rows, PitchKey);
  }

  lemma TwoAtBatLegality()
    ensures ("0-0", "1-0") in TransitionSet() && ("1-0", "1-1") in TransitionSet() && ("0-0", "0-1") in TransitionSet()
  {
    assert CountTransitions[0] == ("0-0", "1-0") && CountTransitions[3] == ("1-0", "1-1");
    assert CountTransitions[1] == ("0-0", "0-1");
  }

  lemma TwoAtBatPairs()
    ensures SameAtBatPairs(TwoAtBatRows()) == [("0-0", "1-0"), ("1-0", "1-1"), ("0-0", "0-1")]
  {
    var rows := TwoAtBatRows();
    var r3 := [rows[3], rows[4]];
    var r2 := [rows[2]] + r3;
    var r1 := [rows[1]] + r2;
    assert rows == [rows[0]] + r1;
    assert SameAtBatPairs(r3) == [("0-0", "0-1")];
    SameAtBatPairsCons(rows[2], r3);
    SameAtBatPairsCons(rows[1], r2);
    SameAtBatPairsCons(rows[0], r1);
  }

  lemma TwoAtBatKept(allowed: set<(string, string)>)
    requires ("0-0", "1-0") in allowed && ("1-0", "1-1") in allowed && ("0-0", "0-1") in allowed
    ensures KeepAllowed([("0-0", "1-0"), ("1-0", "1-1"), ("0-0", "0-1")], allowed)
         == [("0-0", "1-0"), ("1-0", "1-1"), ("0-0", "0-1")]
  {
    var all := [("0-0", "1-0"), ("1-0", "1-1"), ("0-0", "0-1")];
    KeepAllowedSnoc(all[..2], all[2], allowed);
    KeepAllowedSnoc(all[..1], all[1], allowed);
    KeepAllowedSnoc(all[..0], all[0], allowed);
    assert all[..0] + [all[0]] == all[..1];
    assert all[..1] + [all[1]] == all[..2];
    assert all[..2] + [all[2]] == all;
  }

  lemma TwoAtBatTally()
    ensures Tally([("0-0", "1-0"), ("1-0", "1-1"), ("0-0", "0-1")])
         == map[("0-0", "1-0") := 1, ("1-0", "1-1") := 1, ("0-0", "0-1") := 1]
  {
    var kept := [("0-0", "1-0"), ("1-0", "1-1"), ("0-0", "0-1")];
    TallySnoc(kept[..0], kept[0]);
    TallySnoc(kept[..1], kept[1]);
    TallySnoc(kept[..2], kept[2]);
    assert kept[..0] + [kept[0]] == kept[..1];
    assert kept[..1] + [kept[1]] == kept[..2];
    assert kept[..2] + [kept[2]] == kept;
  }

  /** Two at-bats, 0-0 to 1-0 to 1-1 and 0-0 to 0-1: three transitions, once each. */
  lemma TwoAtBatFlowCounts()
    ensures FlowCounts(TwoAtBatRows()) == map[("0-0", "1-0") := 1, ("1-0", "1-1") := 1, ("0-0", "0-1") := 1]
  {
    var rows := TwoAtBatRows();
    TwoAtBatSorted();
    SortBySorted(rows, PitchKey);
    GroupsTransitionsAreSameAtBatPairs(rows);
    TwoAtBatPairs();
    TwoAtBatLegality();
    TwoAtBatKept(TransitionSet());
    TwoAtBatTally();
  }
}
