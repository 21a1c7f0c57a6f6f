/**
 The table logic of the data fetcher: turning the raw per-pitch table into
 the processed one (sorted, with a `count` column), searching the player
 directory by name, and the outcome of the whole fetch for one pitcher
 and season. The remote lookups themselves are parameters.
 */
module PitcherData {
  import opened Text
  import opened Tables
  import opened Constants

  /** One row of the raw per-pitch table, restricted to the columns that are kept. */
  datatype RawPitch = RawPitch(
    balls: int,
    strikes: int,
    pitchType: Option<string>,
    releaseSpeed: Option<real>,
    events: Option<string>,
    description: string,
    gameDate: string,
    atBatNumber: int,
    pitchNumber: int)

  /** A processed row: the kept columns and the derived `count` column. */
  datatype Pitch = Pitch(row: RawPitch, count: string)

  function RawKey(r: RawPitch): (key: SortKey) {
    SortKey(r.gameDate, r.atBatNumber, r.pitchNumber)
  }

  function PitchKey(p: Pitch): (key: SortKey) {
    RawKey(p.row)
  }

  /** The kept columns of processed rows, without the `count` column. */
  function Rows(ps: seq<Pitch>): (rs: seq<RawPitch>)
    ensures |rs| == |ps| && forall i :: 0 <= i < |ps| ==> rs[i] == ps[i].row
  {
    seq(|ps|, i requires 0 <= i < |ps| => ps[i].row)
  }

  // ---------------------------------------------------------------------------
  // process_pitch_data

  /** Sort by `(game_date, at_bat_number, pitch_number)`, then add the column
      `count = str(balls) + "-" + str(strikes)`. */
  function ProcessPitchData(rawData: seq<RawPitch>): (processed: seq<Pitch>)
    ensures Rows(processed) == SortBy(rawData, RawKey)
    ensures forall i :: 0 <= i < |processed| ==>
              processed[i].count == CountKey(processed[i].row.balls, processed[i].row.strikes)
  {
    var sorted := SortBy(rawData, RawKey);
    seq(|sorted|, i requires 0 <= i < |sorted| => Pitch(sorted[i], CountKey(sorted[i].balls, sorted[i].strikes)))
  }

  /** The processed table keeps every input row exactly once and is in key order. */
  lemma ProcessKeepsRowsInKeyOrder(rawData: seq<RawPitch>)
    ensures |ProcessPitchData(rawData)| == |rawData|
    ensures multiset(Rows(ProcessPitchData(rawData))) == multiset(rawData)
    ensures SortedBy(ProcessPitchData(rawData), PitchKey)
  {
    var p := ProcessPitchData(rawData);
    var sorted := SortBy(rawData, RawKey);
    assert Rows(p) == sorted;
    forall i, j | 0 <= i < j < |p| ensures KeyLeq(PitchKey(p[i]), PitchKey(p[j])) {
      assert PitchKey(p[i]) == RawKey(sorted[i]) && PitchKey(p[j]) == RawKey(sorted[j]);
    }
  }

  /** A row's `count` reads back as its balls and strikes when neither is negative
      (and as nothing otherwise), and it is one of the twelve count keys exactly
      when the balls and strikes are in range. */
  lemma ProcessedCountsAreCountKeys(rawData: seq<RawPitch>, i: int)
    requires 0 <= i < |ProcessPitchData(rawData)|
    ensures var p := ProcessPitchData(rawData)[i];
      && ParseCount(p.count) == (if p.row.balls >= 0 && p.row.strikes >= 0 then Some((p.row.balls, p.row.strikes)) else None)
      && (InGrid(p.row.balls, p.row.strikes) <==> p.count in CountSpace())
  {
    var p := ProcessPitchData(rawData)[i];
    GridInCountSpace();
    CountSpaceInGrid();
    ParseCountKey(p.row.balls, p.row.strikes);
  }

  // ---------------------------------------------------------------------------
  // search_pitchers

  /** One row of the player directory: first, last and full name, each possibly missing. */
  datatype PlayerRow = PlayerRow(nameFirst: Option<string>, nameLast: Option<string>, fullName: Option<string>)

  /** `column.str.lower().str.contains(term, na=False)` for one cell. */
  predicate CellContains(cell: Option<string>, term: string) {
    cell.Some? && Contains(Lower(cell.value), term)
  }

  /** The search mask for one row. */
  predicate RowMatches(row: PlayerRow, term: string) {
    CellContains(row.nameFirst, term) || CellContains(row.nameLast, term) || CellContains(row.fullName, term)
  }

  /** `all_pitchers[mask]['full_name']`: the full names of the matching rows, in table order. */
  function MatchingNames(rows: seq<PlayerRow>, term: string): (names: seq<Option<string>>)
    ensures |names| <= |rows|
    ensures forall x :: x in names <==> exists i :: 0 <= i < |rows| && RowMatches(rows[i], term) && rows[i].fullName == x
  {
    if rows == [] then []
    else
      var rest := MatchingNames(rows[1..], term);
      assert forall i :: 0 < i < |rows| ==> rows[i] == rows[1..][i - 1];
      if RowMatches(rows[0], term) then [rows[0].fullName] + rest else rest
  }

  /** The indices, from `from` on, of the rows the mask selects: increasing, and
      exactly the matching rows of that stretch of the table. */
  function MatchIndicesFrom(rows: seq<PlayerRow>, term: string, from: nat): (idx: seq<nat>)
    ensures forall k :: 0 <= k < |idx| ==> from <= idx[k] < |rows|
    ensures forall k, l :: 0 <= k < l < |idx| ==> idx[k] < idx[l]
    ensures forall i :: from <= i < |rows| ==> (i in idx <==> RowMatches(rows[i], term))
    decreases |rows| - from
  {
    if from >= |rows| then []
    else (if RowMatches(rows[from], term) then [from] else []) + MatchIndicesFrom(rows, term, from + 1)
  }

  /** The selected names line up one to one with the indices of the matching rows. */
  lemma {:induction false} MatchingNamesByIndex(rows: seq<PlayerRow>, term: string, from: nat)
    requires from <= |rows|
    ensures var idx, names := MatchIndicesFrom(rows, term, from), MatchingNames(rows[from..], term);
      |names| == |idx| && forall k :: 0 <= k < |idx| ==> names[k] == rows[idx[k]].fullName
    decreases |rows| - from
  {
    if from < |rows| {
      MatchingNamesByIndex(rows, term, from + 1);
      var rest := rows[from + 1..];
      assert rows[from..][1..] == rest && rows[from..][0] == rows[from];
      var idx', names' := MatchIndicesFrom(rows, term, from + 1), MatchingNames(rest, term);
      if RowMatches(rows[from], term) {
        assert MatchIndicesFrom(rows, term, from) == [from] + idx';
        assert MatchingNames(rows[from..], term) == [rows[from].fullName] + names';
        AlignedCons(rows, from, idx', names');
      } else {
        assert MatchIndicesFrom(rows, term, from) == idx';
        assert MatchingNames(rows[from..], term) == names';
      }
    }
  }

  /** Putting a row's index in front of the indices and its name in front of the
      names keeps the two lined up. */
  lemma AlignedCons(rows: seq<PlayerRow>, from: nat, idx: seq<nat>, names: seq<Option<string>>)
    requires from < |rows| && |names| == |idx|
    requires forall k :: 0 <= k < |idx| ==> idx[k] < |rows| && names[k] == rows[idx[k]].fullName
    ensures var idx2, names2 := [from] + idx, [rows[from].fullName] + names;
      |names2| == |idx2| && forall k :: 0 <= k < |idx2| ==> idx2[k] < |rows| && names2[k] == rows[idx2[k]].fullName
  {
  }

  /** The search: nothing for an empty term; otherwise the distinct full names of
      the rows whose first, last or full name contains the lowered term, in order
      of first appearance, cut to `limit` as `names[:limit]` does. */
  function SearchPitchers(searchTerm: string, allPitchers: seq<PlayerRow>, limit: int): (r: seq<Option<string>>)
    ensures searchTerm == [] ==> r == []
    ensures limit >= 0 ==> |r| <= limit
    ensures NoDuplicates(r)
    ensures forall x :: x in r ==>
              exists i :: 0 <= i < |allPitchers| && allPitchers[i].fullName == x
                          && RowMatches(allPitchers[i], Lower(searchTerm))
  {
    if searchTerm == [] then []
    else
      var matches := Unique(MatchingNames(allPitchers, Lower(searchTerm)));
      var r := PySlice(matches, limit);
      assert forall x :: x in r ==> x in matches;
      r
  }

  /** Results keep the order in which the names first appear among the matching rows. */
  lemma SearchKeepsFirstSeenOrder(searchTerm: string, allPitchers: seq<PlayerRow>, limit: int, i: int, j: int)
    requires 0 <= i < j < |SearchPitchers(searchTerm, allPitchers, limit)|
    ensures var r := SearchPitchers(searchTerm, allPitchers, limit);
      var names := MatchingNames(allPitchers, Lower(searchTerm));
      r[i] in names && r[j] in names && FirstIndex(names, r[i]) < FirstIndex(names, r[j])
  {
    var names := MatchingNames(allPitchers, Lower(searchTerm));
    var u := Unique(names);
    var r := SearchPitchers(searchTerm, allPitchers, limit);
    assert r == u[..|r|];
    assert r[i] == u[i] && r[j] == u[j];
  }

  /** The number of results is what `[:limit]` leaves of the `n` distinct matching
      names: `min(limit, n)` for a non-negative limit, and `n + limit`, but never
      below zero, for a negative one. */
  lemma SearchLength(searchTerm: string, allPitchers: seq<PlayerRow>, limit: int)
    requires searchTerm != []
    ensures var names := MatchingNames(allPitchers, Lower(searchTerm));
      var n, r := |set x | x in names|, SearchPitchers(searchTerm, allPitchers, limit);
      && (limit >= 0 ==> |r| == if limit < n then limit else n)
      && (limit < 0 ==> |r| == if n + limit > 0 then n + limit else 0)
  {
    var names := MatchingNames(allPitchers, Lower(searchTerm));
    var u := Unique(names);
    NoDuplicatesSetSize(u);
    assert (set x | x in u) == (set x | x in names);
  }

  /** When `limit` is at least the table size, no matching name is left out. */
  lemma SearchComplete(searchTerm: string, allPitchers: seq<PlayerRow>, limit: int, k: int)
    requires searchTerm != [] && limit >= |allPitchers|
    requires 0 <= k < |allPitchers| && RowMatches(allPitchers[k], Lower(searchTerm))
    ensures allPitchers[k].fullName in SearchPitchers(searchTerm, allPitchers, limit)
  {
    var names := MatchingNames(allPitchers, Lower(searchTerm));
    var u := Unique(names);
    assert allPitchers[k].fullName in names;
    UniqueNoLonger(names);
    assert PySlice(u, limit) == u;
  }

  /** `[:limit]` keeps the first names: when a matching row's name is missing from
      the results, the results are cut at a non-negative `limit` exactly, and every
      result first appears among the matching names before the missing one. */
  lemma SearchKeepsFirstNames(searchTerm: string, allPitchers: seq<PlayerRow>, limit: int, k: int)
    requires searchTerm != [] && 0 <= k < |allPitchers| && RowMatches(allPitchers[k], Lower(searchTerm))
    requires allPitchers[k].fullName !in SearchPitchers(searchTerm, allPitchers, limit)
    ensures limit >= 0 ==> |SearchPitchers(searchTerm, allPitchers, limit)| == limit
    ensures var names := MatchingNames(allPitchers, Lower(searchTerm));
      allPitchers[k].fullName in names
      && forall x :: x in SearchPitchers(searchTerm, allPitchers, limit) ==>
           x in names && FirstIndex(names, x) < FirstIndex(names, allPitchers[k].fullName)
  {
    var names := MatchingNames(allPitchers, Lower(searchTerm));
    var u := Unique(names);
    var r := SearchPitchers(searchTerm, allPitchers, limit);
    assert r == PySlice(u, limit) && r == u[..|r|];
    var missing := allPitchers[k].fullName;
    assert missing in u;
    var j :| 0 <= j < |u| && u[j] == missing;
    assert forall i :: 0 <= i < |r| ==> r[i] == u[i];
    forall x | x in r ensures x in names && FirstIndex(names, x) < FirstIndex(names, missing) {
      var i :| 0 <= i < |r| && r[i] == x;
      assert u[i] == x;
    }
  }

  lemma {:induction false} UniqueNoLonger<T(!new)>(xs: seq<T>)
    ensures |Unique(xs)| <= |xs|
    decreases |xs|
  {
    if xs != [] {
      UniqueNoLonger(xs[..|xs| - 1]);
    }
  }

  // ---------------------------------------------------------------------------
  // get_processed_data

  /** What the player lookup gave: an id and display name, no row, or an exception's text. */
  datatype LookupOutcome = Found(pitcherId: int, pitcherName: string) | NotFound | LookupFailed(reason: string)

  /** What the per-pitch fetch gave: a table (possibly empty) or an exception's text. */
  datatype FetchOutcome = Fetched(rows: seq<RawPitch>) | FetchFailed(reason: string)

  /** `(processed_data, pitcher_name, None)` or `(None, None, error_message)`. */
  datatype ProcessedOutcome = Processed(data: seq<Pitch>, pitcherName: string) | Failed(message: string)

  /** The whole fetch for one pitcher and season; `fetch` stands for the remote
      per-pitch query and is asked for the season window only. */
  function GetProcessedData(firstName: string, lastName: string, year: int,
                            lookup: LookupOutcome, fetch: (int, string, string) -> FetchOutcome): (r: ProcessedOutcome)
    ensures var window := SeasonDates(year);
      r.Processed? <==> lookup.Found? && fetch(lookup.pitcherId, window.0, window.1).Fetched?
                        && fetch(lookup.pitcherId, window.0, window.1).rows != []
    ensures r.Processed? ==> r.pitcherName == lookup.pitcherName
  {
    match lookup
    case LookupFailed(reason) => Failed("Error looking up pitcher: " + reason)
    case NotFound => Failed("No pitcher found with name " + firstName + " " + lastName)
    case Found(id, name) =>
      var (startDate, endDate) := SeasonDates(year);
      match fetch(id, startDate, endDate)
      case FetchFailed(reason) => Failed("Error fetching pitch data: " + reason)
      case Fetched(rows) =>
        if rows == [] then Failed("No pitch data found for " + name + " in " + IntToString(year))
        else Processed(ProcessPitchData(rows), name)
  }

  /** Success exactly when the pitcher is found and the season window has pitches;
      then the data is those pitches processed. */
  lemma GetProcessedDataOutcome(firstName: string, lastName: string, year: int,
                                lookup: LookupOutcome, fetch: (int, string, string) -> FetchOutcome)
    ensures var r := GetProcessedData(firstName, lastName, year, lookup, fetch);
      var window := SeasonDates(year);
      && (r.Processed? <==> lookup.Found? && fetch(lookup.pitcherId, window.0, window.1).Fetched?
                            && fetch(lookup.pitcherId, window.0, window.1).rows != [])
      && (r.Processed? ==> r.pitcherName == lookup.pitcherName
                           && r.data == ProcessPitchData(fetch(lookup.pitcherId, window.0, window.1).rows)
                           && |r.data| > 0)
  {
    var r := GetProcessedData(firstName, lastName, year, lookup, fetch);
    if r.Processed? {
      var window := SeasonDates(year);
      ProcessKeepsRowsInKeyOrder(fetch(lookup.pitcherId, window.0, window.1).rows);
    }
  }

  /** Each way of failing gives its own message: the lookup's exception, a name
      with no player, the fetch's exception, or an empty season. */
  lemma GetProcessedDataErrors(firstName: string, lastName: string, year: int,
                               lookup: LookupOutcome, fetch: (int, string, string) -> FetchOutcome)
    ensures var r := GetProcessedData(firstName, lastName, year, lookup, fetch);
      var window := SeasonDates(year);
      && (lookup.LookupFailed? ==> r == Failed("Error looking up pitcher: " + lookup.reason))
      && (lookup.NotFound? ==> r == Failed("No pitcher found with name " + firstName + " " + lastName))
      && (lookup.Found? && fetch(lookup.pitcherId, window.0, window.1).FetchFailed? ==>
            r == Failed("Error fetching pitch data: " + fetch(lookup.pitcherId, window.0, window.1).reason))
      && (lookup.Found? && fetch(lookup.pitcherId, window.0, window.1) == Fetched([]) ==>
            r == Failed("No pitch data found for " + lookup.pitcherName + " in " + IntToString(year)))
  {
  }

  /** Only the season window is ever fetched: two fetchers that agree on
      `("{year}-03-01", "{year}-10-01")` give the same outcome. */
  lemma GetProcessedDataFetchesSeasonWindow(firstName: string, lastName: string, year: int, lookup: LookupOutcome,
                                            fetch1: (int, string, string) -> FetchOutcome,
                                            fetch2: (int, string, string) -> FetchOutcome)
    requires lookup.Found? ==>
      fetch1(lookup.pitcherId, IntToString(year) + "-03-01", IntToString(year) + "-10-01")
      == fetch2(lookup.pitcherId, IntToString(year) + "-03-01", IntToString(year) + "-10-01")
    ensures GetProcessedData(firstName, lastName, year, lookup, fetch1)
         == GetProcessedData(firstName, lastName, year, lookup, fetch2)
  {
  }
}
