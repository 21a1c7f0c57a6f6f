/**
 The fixed tables of the chart: the pitch-type colour and name maps, the
 twelve ball-strike counts (the keys of the position table) and the
 seventeen legal transitions between them, the season window, and the
 `"balls-strikes"` spelling of a count.
 */
module Constants {
  import opened Text
  import opened Tables

  // ---------------------------------------------------------------------------
  // The literal tables

  /** Pitch-type code to hex colour. */
  const PitchColors: map<string, string> := map[
    "FF" := "#d22d49", "SI" := "#c14a09", "FC" := "#933f2c", "SL" := "#ebc51d",
    "CU" := "#00d1ed", "CH" := "#1DBE3A", "FS" := "#13bb6b", "KC" := "#3bacb6",
    "ST" := "#f598ce", "SV" := "#ea7125"]

  /** Pitch-type code to display name. */
  const PitchNames: map<string, string> := map[
    "FF" := "4-Seam FB", "SI" := "Sinker", "FC" := "Cutter", "SL" := "Slider",
    "CU" := "Curveball", "CH" := "Changeup", "FS" := "Splitter", "KC" := "Kunckle Curve",
    "ST" := "Sweeper", "SV" := "Slurve"]

  /** The keys of the count-position table, in declaration order (the order in
      which the per-count tally is built). */
  const CountPositionKeys: seq<string> :=
    ["0-0", "1-0", "0-1", "2-0", "1-1", "0-2", "3-0", "2-1", "1-2", "3-1", "2-2", "3-2"]

  /** The legal count transitions, in declaration order. */
  const CountTransitions: seq<(string, string)> := [
    ("0-0", "1-0"), ("0-0", "0-1"),
    ("1-0", "2-0"), ("1-0", "1-1"),
    ("0-1", "1-1"), ("0-1", "0-2"),
    ("2-0", "3-0"), ("2-0", "2-1"),
    ("1-1", "2-1"), ("1-1", "1-2"),
    ("0-2", "1-2"),
    ("3-0", "3-1"),
    ("2-1", "3-1"), ("2-1", "2-2"),
    ("1-2", "2-2"),
    ("3-1", "3-2"), ("2-2", "3-2")]

  /** The set of count keys. */
  function CountSpace(): (keys: set<string>) {
    set k | k in CountPositionKeys
  }

  /** `set(COUNT_TRANSITIONS)`. */
  function TransitionSet(): (transitions: set<(string, string)>) {
    set t | t in CountTransitions
  }

  // ---------------------------------------------------------------------------
  // The spelling of a count

  /** `str(balls) + "-" + str(strikes)`: the spelling of the balls, a dash at the
      position right after it, then the spelling of the strikes. */
  function CountKey(balls: int, strikes: int): (key: string)
    ensures var b := IntToString(balls);
      |key| == |b| + 1 + |IntToString(strikes)| && key[..|b|] == b && key[|b|] == '-' && key[|b| + 1..] == IntToString(strikes)
  {
    IntToString(balls) + "-" + IntToString(strikes)
  }

  /** Reads `"b-s"` with two non-empty digit strings back into `(b, s)`. */
  function ParseCount(k: string): (parsed: Option<(nat, nat)>) {
    if '-' !in k then None
    else
      var i := FirstIndex(k, '-');
      var b, s := k[..i], k[i + 1..];
      if b != [] && s != [] && AllDigits(b) && AllDigits(s)
      then Some((ParseDigits(b), ParseDigits(s)))
      else None
  }

  /** The spelling of a count reads back as that count exactly when neither number
      is negative; a minus sign would be taken for the separator. */
  lemma ParseCountKey(balls: int, strikes: int)
    ensures ParseCount(CountKey(balls, strikes)) == if balls >= 0 && strikes >= 0 then Some((balls, strikes)) else None
  {
    var b, s := IntToString(balls), IntToString(strikes);
    var k := CountKey(balls, strikes);
    assert k == b + ['-'] + s;
    if balls < 0 {
      assert k[0] == '-';
      FirstIndexUnique(k, '-', 0);
    } else {
      assert '-' !in b by {
        forall i | 0 <= i < |b| ensures b[i] != '-' {
          assert IsDigit(b[i]);
        }
      }
      FirstIndexAfterPrefix(b, '-', s);
      if strikes < 0 {
        assert !IsDigit(s[0]);
      }
    }
  }

  /** Different non-negative counts are spelled differently. */
  lemma CountKeyInjective(b1: nat, s1: nat, b2: nat, s2: nat)
    requires CountKey(b1, s1) == CountKey(b2, s2)
    ensures b1 == b2 && s1 == s2
  {
    ParseCountKey(b1, s1);
    ParseCountKey(b2, s2);
  }

  // ---------------------------------------------------------------------------
  // The count space

  predicate InGrid(balls: int, strikes: int) {
    0 <= balls <= 3 && 0 <= strikes <= 2
  }

  /** The twelve grid counts are spelled as the table spells them. */
  lemma CountKeySpellings()
    ensures CountKey(0, 0) == "0-0" && CountKey(1, 0) == "1-0" && CountKey(2, 0) == "2-0" && CountKey(3, 0) == "3-0"
    ensures CountKey(0, 1) == "0-1" && CountKey(1, 1) == "1-1" && CountKey(2, 1) == "2-1" && CountKey(3, 1) == "3-1"
    ensures CountKey(0, 2) == "0-2" && CountKey(1, 2) == "1-2" && CountKey(2, 2) == "2-2" && CountKey(3, 2) == "3-2"
  {
    assert NatToString(0) == "0" && NatToString(1) == "1" && NatToString(2) == "2" && NatToString(3) == "3";
  }

  lemma GridKeysParse()
    ensures forall b, s :: InGrid(b, s) ==> ParseCount(CountKey(b, s)) == Some((b, s))
  {
    forall b, s | InGrid(b, s) ensures ParseCount(CountKey(b, s)) == Some((b, s)) {
      ParseCountKey(b, s);
    }
  }

  /** The table has twelve different keys. */
  lemma CountKeysDistinct()
    ensures |CountPositionKeys| == 12 && NoDuplicates(CountPositionKeys) && |CountSpace()| == 12
  {
    NoDuplicatesSetSize(CountPositionKeys);
  }

  /** Every count of the grid is a key of the table. */
  lemma GridInCountSpace()
    ensures forall b, s :: InGrid(b, s) ==> CountKey(b, s) in CountSpace()
  {
    GridRowListed(0);
    GridRowListed(1);
    GridRowListed(2);
    forall b, s | InGrid(b, s) ensures CountKey(b, s) in CountSpace() {
      assert s == 0 || s == 1 || s == 2;
    }
  }

  /** Every count with `s` strikes, from no balls to three, is a key of the table. */
  lemma GridRowListed(s: int)
    requires 0 <= s <= 2
    ensures forall b :: 0 <= b <= 3 ==> CountKey(b, s) in CountPositionKeys
  {
    CountKeySpellings();
    forall b | 0 <= b <= 3 ensures CountKey(b, s) in CountPositionKeys {
      assert b == 0 || b == 1 || b == 2 || b == 3;
    }
  }

  /** Every key of the table is the spelling of a count of the grid. */
  lemma CountSpaceInGrid()
    ensures forall k :: k in CountSpace() ==>
              ParseCount(k).Some? && InGrid(ParseCount(k).value.0, ParseCount(k).value.1)
              && CountKey(ParseCount(k).value.0, ParseCount(k).value.1) == k
  {
    forall k | k in CountSpace()
      ensures ParseCount(k).Some? && InGrid(ParseCount(k).value.0, ParseCount(k).value.1)
              && CountKey(ParseCount(k).value.0, ParseCount(k).value.1) == k
    {
      assert k in CountPositionKeys;
      assert k == "0-0" || k == "1-0" || k == "0-1" || k == "2-0" || k == "1-1" || k == "0-2"
          || k == "3-0" || k == "2-1" || k == "1-2" || k == "3-1" || k == "2-2" || k == "3-2";
      CountKeySpellings();
      ParsedSpellings();
    }
  }

  // ---------------------------------------------------------------------------
  // The transition graph

  /** One pitch adds exactly one ball or exactly one strike. */
  predicate OneStep(from: string, to: string) {
    match (ParseCount(from), ParseCount(to))
    case (Some(p), Some(q)) =>
      (q.0 == p.0 + 1 && q.1 == p.1) || (q.0 == p.0 && q.1 == p.1 + 1)
    case _ => false
  }

  /** The list holds 17 different pairs. */
  lemma TransitionsDistinct()
    ensures |CountTransitions| == 17 && NoDuplicates(CountTransitions)
    ensures |TransitionSet()| == 17
  {
    TransitionsNoDuplicates();
    NoDuplicatesSetSize(CountTransitions);
  }

  lemma TransitionsNoDuplicates()
    ensures NoDuplicates(CountTransitions)
  {
  }

  lemma ParsedSpellings()
    ensures ParseCount("0-0") == Some((0, 0)) && ParseCount("1-0") == Some((1, 0))
    ensures ParseCount("2-0") == Some((2, 0)) && ParseCount("3-0") == Some((3, 0))
    ensures ParseCount("0-1") == Some((0, 1)) && ParseCount("1-1") == Some((1, 1))
    ensures ParseCount("2-1") == Some((2, 1)) && ParseCount("3-1") == Some((3, 1))
    ensures ParseCount("0-2") == Some((0, 2)) && ParseCount("1-2") == Some((1, 2))
    ensures ParseCount("2-2") == Some((2, 2)) && ParseCount("3-2") == Some((3, 2))
  {
    CountKeySpellings();
    GridKeysParse();
  }

  /** Both ends are count keys and the step adds exactly one ball or one strike. */
  predicate IsOneStepTransition(t: (string, string)) {
    t.0 in CountSpace() && t.1 in CountSpace() && OneStep(t.0, t.1)
  }

  /** Every listed transition is a one-step increment between two counts of the grid. */
  lemma TransitionsAreOneStep()
    ensures forall t :: t in TransitionSet() ==>
              t.0 in CountSpace() && t.1 in CountSpace() && OneStep(t.0, t.1)
  {
    forall t | t in TransitionSet() ensures IsOneStepTransition(t) {
      assert t in CountTransitions;
      assert CountTransitions == CountTransitions[..8] + CountTransitions[8..];
      if t in CountTransitions[..8] {
        EarlyTransitionsAreOneStep(t);
      } else {
        LateTransitionsAreOneStep(t);
      }
    }
  }

  lemma EarlyTransitionsAreOneStep(t: (string, string))
    requires t in CountTransitions[..8]
    ensures IsOneStepTransition(t)
  {
    assert t == ("0-0", "1-0") || t == ("0-0", "0-1") || t == ("1-0", "2-0") || t == ("1-0", "1-1")
        || t == ("0-1", "1-1") || t == ("0-1", "0-2") || t == ("2-0", "3-0") || t == ("2-0", "2-1");
    ParsedSpellings();
  }

  lemma LateTransitionsAreOneStep(t: (string, string))
    requires t in CountTransitions[8..]
    ensures IsOneStepTransition(t)
  {
    assert t == ("1-1", "2-1") || t == ("1-1", "1-2") || t == ("0-2", "1-2") || t == ("3-0", "3-1")
        || t == ("2-1", "3-1") || t == ("2-1", "2-2") || t == ("1-2", "2-2") || t == ("3-1", "3-2")
        || t == ("2-2", "3-2");
    ParsedSpellings();
  }

  /** Every one-step increment inside the grid is listed. */
  lemma OneStepsAreTransitions()
    ensures forall b, s :: InGrid(b, s) && b < 3 ==> (CountKey(b, s), CountKey(b + 1, s)) in TransitionSet()
    ensures forall b, s :: InGrid(b, s) && s < 2 ==> (CountKey(b, s), CountKey(b, s + 1)) in TransitionSet()
  {
    BallStepsAreTransitions();
    StrikeStepsAreTransitions();
  }

  /** Every one-ball increment inside the grid is listed. */
  lemma BallStepsAreTransitions()
    ensures forall b, s :: InGrid(b, s) && b < 3 ==> (CountKey(b, s), CountKey(b + 1, s)) in TransitionSet()
  {
    forall b, s | InGrid(b, s) && b < 3 ensures (CountKey(b, s), CountKey(b + 1, s)) in TransitionSet() {
      BallStep(b, s);
    }
  }

  lemma BallStep(b: int, s: int)
    requires InGrid(b, s) && b < 3
    ensures (CountKey(b, s), CountKey(b + 1, s)) in TransitionSet()
  {
    if s == 0 {
      BallStepNoStrike(b);
    } else if s == 1 {
      BallStepOneStrike(b);
    } else {
      BallStepTwoStrikes(b);
    }
  }

  lemma BallStepNoStrike(b: int)
    requires 0 <= b < 3
    ensures (CountKey(b, 0), CountKey(b + 1, 0)) in TransitionSet()
  {
    CountKeySpellings();
    var t := (CountKey(b, 0), CountKey(b + 1, 0));
    if b == 0 {
      assert t == ("0-0", "1-0") && t == CountTransitions[0];
    } else if b == 1 {
      assert t == ("1-0", "2-0") && t == CountTransitions[2];
    } else {
      assert t == ("2-0", "3-0") && t == CountTransitions[6];
    }
  }

  lemma BallStepOneStrike(b: int)
    requires 0 <= b < 3
    ensures (CountKey(b, 1), CountKey(b + 1, 1)) in TransitionSet()
  {
    CountKeySpellings();
    var t := (CountKey(b, 1), CountKey(b + 1, 1));
    if b == 0 {
      assert t == ("0-1", "1-1") && t == CountTransitions[4];
    } else if b == 1 {
      assert t == ("1-1", "2-1") && t == CountTransitions[8];
    } else {
      assert t == ("2-1", "3-1") && t == CountTransitions[12];
    }
  }

  lemma BallStepTwoStrikes(b: int)
    requires 0 <= b < 3
    ensures (CountKey(b, 2), CountKey(b + 1, 2)) in TransitionSet()
  {
    CountKeySpellings();
    var t := (CountKey(b, 2), CountKey(b + 1, 2));
    if b == 0 {
      assert t == ("0-2", "1-2") && t == CountTransitions[10];
    } else if b == 1 {
      assert t == ("1-2", "2-2") && t == CountTransitions[14];
    } else {
      assert t == ("2-2", "3-2") && t == CountTransitions[16];
    }
  }

  /** Every one-strike increment inside the grid is listed. */
  lemma StrikeStepsAreTransitions()
    ensures forall b, s :: InGrid(b, s) && s < 2 ==> (CountKey(b, s), CountKey(b, s + 1)) in TransitionSet()
  {
    forall b, s | InGrid(b, s) && s < 2 ensures (CountKey(b, s), CountKey(b, s + 1)) in TransitionSet() {
      StrikeStep(b, s);
    }
  }

  lemma StrikeStep(b: int, s: int)
    requires InGrid(b, s) && s < 2
    ensures (CountKey(b, s), CountKey(b, s + 1)) in TransitionSet()
  {
    var t := (CountKey(b, s), CountKey(b, s + 1));
    if s == 0 {
      FirstStrike(b);
      assert t == (CountKey(b, 0), CountKey(b, 1));
    } else {
      SecondStrike(b);
      assert t == (CountKey(b, 1), CountKey(b, 2));
    }
  }

  lemma FirstStrike(b: int)
    requires 0 <= b <= 3
    ensures (CountKey(b, 0), CountKey(b, 1)) in TransitionSet()
  {
    CountKeySpellings();
    var t := (CountKey(b, 0), CountKey(b, 1));
    if b == 0 {
      assert t == ("0-0", "0-1") && t == CountTransitions[1];
    } else if b == 1 {
      assert t == ("1-0", "1-1") && t == CountTransitions[3];
    } else if b == 2 {
      assert t == ("2-0", "2-1") && t == CountTransitions[7];
    } else {
      assert t == ("3-0", "3-1") && t == CountTransitions[11];
    }
  }

  lemma SecondStrike(b: int)
    requires 0 <= b <= 3
    ensures (CountKey(b, 1), CountKey(b, 2)) in TransitionSet()
  {
    CountKeySpellings();
    var t := (CountKey(b, 1), CountKey(b, 2));
    if b == 0 {
      assert t == ("0-1", "0-2") && t == CountTransitions[5];
    } else if b == 1 {
      assert t == ("1-1", "1-2") && t == CountTransitions[9];
    } else if b == 2 {
      assert t == ("2-1", "2-2") && t == CountTransitions[13];
    } else {
      assert t == ("3-1", "3-2") && t == CountTransitions[15];
    }
  }

  /** The transition list is exactly the set of one-step increments between counts. */
  lemma TransitionsCharacterised(from: string, to: string)
    ensures (from, to) in TransitionSet()
        <==> from in CountSpace() && to in CountSpace() && OneStep(from, to)
  {
    TransitionsAreOneStep();
    if from in CountSpace() && to in CountSpace() && OneStep(from, to) {
      CountSpaceInGrid();
      OneStepsAreTransitions();
    }
  }

  /** No pitch leads out of the full count `3-2`, and none leads into `0-0`. */
  lemma FullCountIsFinalAndFirstCountIsInitial()
    ensures forall t :: t in TransitionSet() ==> t.0 != "3-2" && t.1 != "0-0"
  {
    TransitionsAreOneStep();
    CountSpaceInGrid();
    forall t | t in TransitionSet() ensures t.0 != "3-2" && t.1 != "0-0" {
      assert OneStep(t.0, t.1) && t.1 in CountSpace();
      var p, q := ParseCount(t.0).value, ParseCount(t.1).value;
      assert InGrid(q.0, q.1) && q != (0, 0);
      assert p != (3, 2);
      ParsedSpellings();
    }
  }

  /** Every count other than `3-2` has a transition out of it. */
  lemma EveryOtherCountHasSuccessor()
    ensures forall k :: k in CountSpace() && k != "3-2" ==> exists n :: (k, n) in TransitionSet()
  {
    forall k | k in CountSpace() && k != "3-2" ensures exists n :: (k, n) in TransitionSet() {
      CountSpaceInGrid();
      var p := ParseCount(k).value;
      assert InGrid(p.0, p.1) && k == CountKey(p.0, p.1);
      assert (p.0, p.1) != (3, 2) by {
        EndSpellings();
      }
      HasSuccessor(p.0, p.1);
    }
  }

  /** The spellings of the first and the last count. */
  lemma EndSpellings()
    ensures CountKey(0, 0) == "0-0" && CountKey(3, 2) == "3-2"
  {
    assert NatToString(0) == "0" && NatToString(2) == "2" && NatToString(3) == "3";
  }

  lemma HasSuccessor(b: int, s: int)
    requires InGrid(b, s) && (b < 3 || s < 2)
    ensures exists n :: (CountKey(b, s), n) in TransitionSet()
  {
    if b < 3 {
      BallStep(b, s);
      assert (CountKey(b, s), CountKey(b + 1, s)) in TransitionSet();
    } else {
      StrikeStep(b, s);
      assert (CountKey(b, s), CountKey(b, s + 1)) in TransitionSet();
    }
  }

  /** Every count other than `0-0` has a transition into it. */
  lemma EveryOtherCountHasPredecessor()
    ensures forall k :: k in CountSpace() && k != "0-0" ==> exists p :: (p, k) in TransitionSet()
  {
    forall k | k in CountSpace() && k != "0-0" ensures exists p :: (p, k) in TransitionSet() {
      CountSpaceInGrid();
      var q := ParseCount(k).value;
      assert InGrid(q.0, q.1) && k == CountKey(q.0, q.1);
      assert (q.0, q.1) != (0, 0) by {
        EndSpellings();
      }
      HasPredecessor(q.0, q.1);
    }
  }

  lemma HasPredecessor(b: int, s: int)
    requires InGrid(b, s) && (b > 0 || s > 0)
    ensures exists p :: (p, CountKey(b, s)) in TransitionSet()
  {
    if b > 0 {
      BallStep(b - 1, s);
      assert (CountKey(b - 1, s), CountKey(b, s)) in TransitionSet();
    } else {
      StrikeStep(b, s - 1);
      assert (CountKey(b, s - 1), CountKey(b, s)) in TransitionSet();
    }
  }

  // ---------------------------------------------------------------------------
  // Pitch-type tables and the season window

  /** Every pitch type with a colour has a name, and the other way round. */
  lemma PitchTablesAgree()
    ensures PitchColors.Keys == PitchNames.Keys
  {
  }

  /** The season window: March 1st to October 1st of `year`. */
  function SeasonDates(year: int): (window: (string, string))
    ensures var y := IntToString(year);
      && |window.0| == |window.1| == |y| + 6
      && window.0[..|y|] == window.1[..|y|] == y
      && window.0[|y|..] == "-03-01" && window.1[|y|..] == "-10-01"
    ensures StrLess(window.0, window.1)
  {
    var y := IntToString(year);
    StrLeqCommonPrefix(y, "-03-01", "-10-01");
    (y + "-03-01", y + "-10-01")
  }

  /** Both dates spell the year the same way and read back as it; the window
      opens strictly before it closes in string order, which is the order in
      which dates are compared. */
  lemma SeasonDatesWindow(year: nat)
    ensures var (start, end) := SeasonDates(year);
      |start| == |end| == |NatToString(year)| + 6
      && start[..|start| - 6] == end[..|end| - 6] == NatToString(year)
      && ParseDigits(start[..|start| - 6]) == year
      && start[|start| - 6..] == "-03-01" && end[|end| - 6..] == "-10-01"
      && StrLess(start, end)
  {
    var (start, end) := SeasonDates(year);
    var y := NatToString(year);
    ParseNatToString(year);
    assert start[..|y|] == y && end[..|y|] == y;
    StrLeqCommonPrefix(y, "-03-01", "-10-01");
  }

  lemma {:induction false} StrLeqCommonPrefix(p: string, a: string, b: string)
    requires StrLess(a, b)
    ensures StrLess(p + a, p + b)
    decreases |p|
  {
    if p != [] {
      StrLeqCommonPrefix(p[1..], a, b);
      assert (p + a)[1..] == p[1..] + a && (p + b)[1..] == p[1..] + b;
    } else {
      assert p + a == a && p + b == b;
    }
  }
}
