/**
 The table operations the program borrows from pandas and from Python's
 built-ins, stated on sequences: a stable sort on the key
 `(game_date, at_bat_number, pitch_number)`, a frequency tally
 (`value_counts`, or a dict counter bumped with `get(k, 0) + 1`),
 `unique()` in first-seen order, and the slice `xs[:stop]`.
 */
module Tables {

  /** The sort key `(game_date, at_bat_number, pitch_number)` of one pitch row. */
  datatype SortKey = SortKey(gameDate: string, atBatNumber: int, pitchNumber: int)

  // ---------------------------------------------------------------------------
  // Lexicographic order on strings and on sort keys

  /** `a <= b` for Python strings: character by character, a prefix first. */
  predicate StrLeq(a: string, b: string)
    decreases |a|
  {
    a == [] || (b != [] && (a[0] < b[0] || (a[0] == b[0] && StrLeq(a[1..], b[1..]))))
  }

  predicate StrLess(a: string, b: string) {
    StrLeq(a, b) && a != b
  }

  lemma {:induction false} StrLeqReflexive(a: string)
    ensures StrLeq(a, a)
    decreases |a|
  {
    if a != [] {
      StrLeqReflexive(a[1..]);
    }
  }

  lemma {:induction false} StrLeqTotal(a: string, b: string)
    ensures StrLeq(a, b) || StrLeq(b, a)
    decreases |a|
  {
    if a != [] && b != [] && a[0] == b[0] {
      StrLeqTotal(a[1..], b[1..]);
    }
  }

  lemma {:induction false} StrLeqAntisymmetric(a: string, b: string)
    requires StrLeq(a, b) && StrLeq(b, a)
    ensures a == b
    decreases |a|
  {
    if a != [] {
      StrLeqAntisymmetric(a[1..], b[1..]);
      assert a == [a[0]] + a[1..] && b == [b[0]] + b[1..];
    }
  }

  lemma {:induction false} StrLeqTransitive(a: string, b: string, c: string)
    requires StrLeq(a, b) && StrLeq(b, c)
    ensures StrLeq(a, c)
    decreases |a|
  {
    if a != [] && b != [] && c != [] && a[0] == b[0] == c[0] {
      StrLeqTransitive(a[1..], b[1..], c[1..]);
    }
  }

  /** Lexicographic order on the key triple, as `sort_values(by=[...])` uses it. */
  predicate KeyLeq(k1: SortKey, k2: SortKey) {
    if k1.gameDate != k2.gameDate then StrLeq(k1.gameDate, k2.gameDate)
    else if k1.atBatNumber != k2.atBatNumber then k1.atBatNumber < k2.atBatNumber
    else k1.pitchNumber <= k2.pitchNumber
  }

  lemma KeyLeqReflexive(k: SortKey)
    ensures KeyLeq(k, k)
  {}

  lemma KeyLeqTotal(k1: SortKey, k2: SortKey)
    ensures KeyLeq(k1, k2) || KeyLeq(k2, k1)
  {
    StrLeqTotal(k1.gameDate, k2.gameDate);
  }

  lemma KeyLeqAntisymmetric(k1: SortKey, k2: SortKey)
    requires KeyLeq(k1, k2) && KeyLeq(k2, k1)
    ensures k1 == k2
  {
    if k1.gameDate != k2.gameDate {
      StrLeqAntisymmetric(k1.gameDate, k2.gameDate);
    }
  }

  lemma KeyLeqTransitive(k1: SortKey, k2: SortKey, k3: SortKey)
    requires KeyLeq(k1, k2) && KeyLeq(k2, k3)
    ensures KeyLeq(k1, k3)
  {
    if k1.gameDate != k2.gameDate && k2.gameDate != k3.gameDate {
      StrLeqTransitive(k1.gameDate, k2.gameDate, k3.gameDate);
      if k1.gameDate == k3.gameDate {
        StrLeqAntisymmetric(k1.gameDate, k2.gameDate);
      }
    }
  }

  // ---------------------------------------------------------------------------
  // Stable sort

  predicate SortedBy<T>(xs: seq<T>, key: T -> SortKey) {
    forall i, j :: 0 <= i < j < |xs| ==> KeyLeq(key(xs[i]), key(xs[j]))
  }

  /** Puts `x` in front of the first element whose key is not below its own. */
  function Insert<T>(x: T, s: seq<T>, key: T -> SortKey): (r: seq<T>)
    ensures multiset(r) == multiset(s) + multiset{x}
    ensures |r| == |s| + 1
    ensures SortedBy(s, key) ==> SortedBy(r, key)
  {
    if s == [] then [x]
    else if KeyLeq(key(x), key(s[0])) then
      assert SortedBy(s, key) ==> SortedBy([x] + s, key) by {
        if SortedBy(s, key) {
          InsertInFrontSorted(x, s, key);
        }
      }
      [x] + s
    else
      var rest := Insert(x, s[1..], key);
      assert s == [s[0]] + s[1..];
      assert SortedBy(s, key) ==> SortedBy([s[0]] + rest, key) by {
        if SortedBy(s, key) {
          InsertFurtherSorted(x, s, rest, key);
        }
      }
      [s[0]] + rest
  }

  lemma InsertInFrontSorted<T>(x: T, s: seq<T>, key: T -> SortKey)
    requires s != [] && KeyLeq(key(x), key(s[0])) && SortedBy(s, key)
    ensures SortedBy([x] + s, key)
  {
    forall j | 0 < j < |s| + 1
      ensures KeyLeq(key(x), key(([x] + s)[j]))
    {
      KeyLeqTransitive(key(x), key(s[0]), key(s[j - 1]));
    }
  }

  lemma InsertFurtherSorted<T>(x: T, s: seq<T>, rest: seq<T>, key: T -> SortKey)
    requires s != [] && !KeyLeq(key(x), key(s[0])) && SortedBy(s, key)
    requires SortedBy(rest, key) && multiset(rest) == multiset(s[1..]) + multiset{x}
    ensures SortedBy([s[0]] + rest, key)
  {
    KeyLeqTotal(key(x), key(s[0]));
    forall j | 0 <= j < |rest|
      ensures KeyLeq(key(s[0]), key(rest[j]))
    {
      assert rest[j] in multiset(rest);
      assert rest[j] == x || rest[j] in s[1..];
    }
  }

  /** A stable sort by key: `sort_values` on the key triple. */
  function SortBy<T>(xs: seq<T>, key: T -> SortKey): (r: seq<T>)
    ensures SortedBy(r, key)
    ensures multiset(r) == multiset(xs)
    ensures |r| == |xs|
  {
    if xs == [] then []
    else
      assert xs == [xs[0]] + xs[1..];
      Insert(xs[0], SortBy(xs[1..], key), key)
  }

  /** The elements of `xs` whose key is `k`, in their order in `xs`. */
  function WithKey<T>(xs: seq<T>, key: T -> SortKey, k: SortKey): (r: seq<T>) {
    if xs == [] then []
    else (if key(xs[0]) == k then [xs[0]] else []) + WithKey(xs[1..], key, k)
  }

  lemma {:induction false} InsertWithKey<T>(x: T, s: seq<T>, key: T -> SortKey, k: SortKey)
    ensures WithKey(Insert(x, s, key), key, k)
         == (if key(x) == k then [x] else []) + WithKey(s, key, k)
    decreases |s|
  {
    var r := Insert(x, s, key);
    if s == [] {
      assert r[1..] == [];
    } else if KeyLeq(key(x), key(s[0])) {
      assert r[1..] == s;
    } else {
      InsertWithKey(x, s[1..], key, k);
      InsertFurtherWithKey(x, s, key, k);
    }
  }

  lemma InsertFurtherWithKey<T>(x: T, s: seq<T>, key: T -> SortKey, k: SortKey)
    requires s != [] && !KeyLeq(key(x), key(s[0]))
    requires WithKey(Insert(x, s[1..], key), key, k) == (if key(x) == k then [x] else []) + WithKey(s[1..], key, k)
    ensures WithKey(Insert(x, s, key), key, k) == (if key(x) == k then [x] else []) + WithKey(s, key, k)
  {
    KeyLeqReflexive(key(x));
    var rest := Insert(x, s[1..], key);
    assert Insert(x, s, key) == [s[0]] + rest;
    assert ([s[0]] + rest)[1..] == rest;
    var tail := WithKey(s[1..], key, k);
    if key(x) == k {
      assert WithKey(s, key, k) == tail;
      assert WithKey([s[0]] + rest, key, k) == WithKey(rest, key, k);
      assert WithKey(rest, key, k) == [x] + tail;
    } else {
      var head := if key(s[0]) == k then [s[0]] else [];
      assert WithKey(s, key, k) == head + tail;
      assert WithKey([s[0]] + rest, key, k) == head + WithKey(rest, key, k);
      assert WithKey(rest, key, k) == tail;
    }
  }

  /** Stability: rows that share a key keep their relative input order. */
  lemma {:induction false} SortByStable<T>(xs: seq<T>, key: T -> SortKey, k: SortKey)
    ensures WithKey(SortBy(xs, key), key, k) == WithKey(xs, key, k)
    decreases |xs|
  {
    if xs != [] {
      SortByStable(xs[1..], key, k);
      InsertWithKey(xs[0], SortBy(xs[1..], key), key, k);
    }
  }

  /** Sorting rows that are already in key order leaves them as they are. */
  lemma {:induction false} SortBySorted<T>(xs: seq<T>, key: T -> SortKey)
    requires SortedBy(xs, key)
    ensures SortBy(xs, key) == xs
    decreases |xs|
  {
    if xs != [] {
      SortedTail(xs, key);
      SortBySorted(xs[1..], key);
      InsertBeforeLarger(xs[0], xs[1..], key);
      HeadAndTail(xs);
    }
  }

  lemma HeadAndTail<T>(xs: seq<T>)
    requires xs != []
    ensures [xs[0]] + xs[1..] == xs
  {
  }

  /** Inserting in front of rows whose keys are not below its own puts the row first. */
  lemma InsertBeforeLarger<T>(x: T, s: seq<T>, key: T -> SortKey)
    requires s == [] || KeyLeq(key(x), key(s[0]))
    ensures Insert(x, s, key) == [x] + s
  {
  }

  /** Rows whose neighbours are in key order are in key order. */
  lemma {:induction false} SortedByAdjacent<T>(xs: seq<T>, key: T -> SortKey)
    requires forall i :: 0 <= i < |xs| - 1 ==> KeyLeq(key(xs[i]), key(xs[i + 1]))
    ensures SortedBy(xs, key)
    decreases |xs|
  {
    if xs != [] {
      var tail := xs[1..];
      forall i | 0 <= i < |tail| - 1 ensures KeyLeq(key(tail[i]), key(tail[i + 1])) {
        assert tail[i] == xs[i + 1] && tail[i + 1] == xs[i + 2];
      }
      SortedByAdjacent(tail, key);
      forall j | 0 < j < |xs| ensures KeyLeq(key(xs[0]), key(xs[j])) {
        if j > 1 {
          assert tail[j - 1] == xs[j] && tail[0] == xs[1];
          KeyLeqTransitive(key(xs[0]), key(xs[1]), key(xs[j]));
        }
      }
      forall i, j | 0 < i < j < |xs| ensures KeyLeq(key(xs[i]), key(xs[j])) {
        assert tail[i - 1] == xs[i] && tail[j - 1] == xs[j];
      }
    }
  }

  /** Within the multiset `m`, rows with the same key are the same row. */
  ghost predicate KeyDetermines<T>(m: multiset<T>, key: T -> SortKey) {
    forall x, y :: x in m && y in m && key(x) == key(y) ==> x == y
  }

  lemma {:induction false} SortedPermutationsEqual<T>(a: seq<T>, b: seq<T>, key: T -> SortKey)
    requires SortedBy(a, key) && SortedBy(b, key)
    requires multiset(a) == multiset(b)
    requires KeyDetermines(multiset(a), key)
    ensures a == b
    decreases |a|
  {
    if a != [] {
      SortedPermutationsSameHead(a, b, key);
      TailPermutation(a, b);
      KeyDeterminesSub(multiset(a[1..]), multiset(a), key);
      SortedTail(a, key);
      SortedTail(b, key);
      SortedPermutationsEqual(a[1..], b[1..], key);
      HeadAndTail(a);
      HeadAndTail(b);
    }
  }

  lemma TailPermutation<T>(a: seq<T>, b: seq<T>)
    requires a != [] && b != [] && a[0] == b[0] && multiset(a) == multiset(b)
    ensures multiset(a[1..]) == multiset(b[1..]) && multiset(a[1..]) <= multiset(a)
  {
    HeadAndTail(a);
    HeadAndTail(b);
    assert multiset(a) == multiset{a[0]} + multiset(a[1..]) by {
      assert multiset([a[0]] + a[1..]) == multiset([a[0]]) + multiset(a[1..]);
    }
    assert multiset(b) == multiset{a[0]} + multiset(b[1..]) by {
      assert multiset([b[0]] + b[1..]) == multiset([b[0]]) + multiset(b[1..]);
    }
    forall x ensures multiset(a[1..])[x] == multiset(b[1..])[x] {
      assert multiset(a)[x] == multiset{a[0]}[x] + multiset(a[1..])[x];
      assert multiset(b)[x] == multiset{a[0]}[x] + multiset(b[1..])[x];
    }
  }

  lemma KeyDeterminesSub<T>(m1: multiset<T>, m2: multiset<T>, key: T -> SortKey)
    requires m1 <= m2 && KeyDetermines(m2, key)
    ensures KeyDetermines(m1, key)
  {
  }

  lemma SortedTail<T>(xs: seq<T>, key: T -> SortKey)
    requires xs != [] && SortedBy(xs, key)
    ensures SortedBy(xs[1..], key)
  {
    forall i, j | 0 <= i < j < |xs| - 1 ensures KeyLeq(key(xs[1..][i]), key(xs[1..][j])) {
      assert xs[1..][i] == xs[i + 1] && xs[1..][j] == xs[j + 1];
    }
  }

  /** Two sorted permutations start with the same row when rows of equal key are equal. */
  lemma SortedPermutationsSameHead<T>(a: seq<T>, b: seq<T>, key: T -> SortKey)
    requires a != [] && SortedBy(a, key) && SortedBy(b, key)
    requires multiset(a) == multiset(b)
    requires KeyDetermines(multiset(a), key)
    ensures |b| == |a| && a[0] == b[0]
  {
    assert |b| == |a| by { assert |multiset(a)| == |multiset(b)|; }
    assert a[0] in multiset(b) && b[0] in multiset(a);
    var i :| 0 <= i < |b| && b[i] == a[0];
    var j :| 0 <= j < |a| && a[j] == b[0];
    assert KeyLeq(key(b[0]), key(a[0])) by {
      if i > 0 {} else { KeyLeqReflexive(key(b[0])); }
    }
    assert KeyLeq(key(a[0]), key(b[0])) by {
      if j > 0 {} else { KeyLeqReflexive(key(a[0])); }
    }
    KeyLeqAntisymmetric(key(a[0]), key(b[0]));
  }

  /** The sorted table depends only on which rows there are, not on their input order,
      as long as no two different rows share a key. */
  lemma SortByPermutationInvariant<T>(a: seq<T>, b: seq<T>, key: T -> SortKey)
    requires multiset(a) == multiset(b)
    requires KeyDetermines(multiset(a), key)
    ensures SortBy(a, key) == SortBy(b, key)
  {
    SortedPermutationsEqual(SortBy(a, key), SortBy(b, key), key);
  }

  // ---------------------------------------------------------------------------
  // Tallies

  /** `d.get(k, default)` on a counter dictionary. */
  function Get<K>(m: map<K, nat>, k: K, default: nat): (v: nat)
    ensures k in m ==> v == m[k]
    ensures k !in m ==> v == default
  {
    if k in m then m[k] else default
  }

  /** How often each value occurs, counted as a dict counter is: walking the
      values in order and bumping `get(x, 0) + 1`. */
  function Tally<T>(xs: seq<T>): (counts: map<T, nat>)
  {
    if xs == [] then map[]
    else
      var init, x := xs[..|xs| - 1], xs[|xs| - 1];
      assert xs == init + [x];
      var m := Tally(init);
      m[x := Get(m, x, 0) + 1]
  }

  /** The keys of a tally are exactly the values present, and each entry is the
      number of occurrences of its key. */
  lemma {:induction false} TallyCounts<T>(xs: seq<T>)
    ensures forall x :: x in Tally(xs) <==> x in xs
    ensures forall x :: x in Tally(xs) ==> Tally(xs)[x] == multiset(xs)[x] >= 1
    decreases |xs|
  {
    if xs != [] {
      var init, x := xs[..|xs| - 1], xs[|xs| - 1];
      assert xs == init + [x];
      TallyCounts(init);
    }
  }

  /** Tallying one more value bumps its counter by one, from zero if it was absent. */
  lemma TallySnoc<T>(xs: seq<T>, x: T)
    ensures Tally(xs + [x]) == Tally(xs)[x := Get(Tally(xs), x, 0) + 1]
  {
    assert (xs + [x])[..|xs|] == xs;
  }

  /** Read with the default 0, a tally gives the number of occurrences of any value, counted or not. */
  lemma TallyGet<T>(xs: seq<T>, y: T)
    ensures Get(Tally(xs), y, 0) == multiset(xs)[y]
  {
    TallyCounts(xs);
  }

  /** Counting one more `x` raises the entry of `x` to one more than its earlier
      occurrences, and leaves the entry of every other value as it was. */
  lemma TallyBump<T>(xs: seq<T>, x: T)
    ensures x in Tally(xs + [x]) && Tally(xs + [x])[x] == multiset(xs)[x] + 1
    ensures forall y :: y != x ==> Get(Tally(xs + [x]), y, 0) == Get(Tally(xs), y, 0)
  {
    assert multiset(xs + [x]) == multiset(xs) + multiset{x};
    TallyGet(xs + [x], x);
    forall y | y != x ensures Get(Tally(xs + [x]), y, 0) == Get(Tally(xs), y, 0) {
      TallyGet(xs + [x], y);
      TallyGet(xs, y);
    }
  }

  /** Some key of a non-empty map. */
  ghost function Pick<K>(m: map<K, nat>): (k: K)
    requires m != map[]
    ensures k in m
  {
    var k :| k in m; k
  }

  lemma MapRemoveSize<K>(m: map<K, nat>, k: K)
    requires k in m
    ensures |m - {k}| == |m| - 1
  {
    assert (m - {k}).Keys == m.Keys - {k};
    assert |m.Keys| == |m|;
  }

  /** The sum of the values of a map. */
  ghost function MapSum<K>(m: map<K, nat>): (total: nat)
    decreases |m|
  {
    if m == map[] then 0
    else
      var k := Pick(m);
      MapRemoveSize(m, k);
      m[k] + MapSum(m - {k})
  }

  /** The sum does not depend on which key is taken out first. */
  lemma {:induction false} MapSumRemove<K>(m: map<K, nat>, k: K)
    requires k in m
    ensures MapSum(m) == m[k] + MapSum(m - {k})
    decreases |m|
  {
    var k' := Pick(m);
    if k' != k {
      var a, b := m - {k'}, m - {k};
      assert a - {k} == b - {k'};
      MapRemoveSize(m, k');
      MapRemoveSize(m, k);
      MapSumRemove(a, k);
      MapSumRemove(b, k');
    }
  }

  /** Conservation: the counts of a tally add up to the number of values tallied. */
  lemma {:induction false} TallyTotal<T>(xs: seq<T>)
    ensures MapSum(Tally(xs)) == |xs|
    decreases |xs|
  {
    if xs != [] {
      var init, x := xs[..|xs| - 1], xs[|xs| - 1];
      var m := Tally(init);
      TallyTotal(init);
      var m' := Tally(xs);
      assert m' == m[x := Get(m, x, 0) + 1];
      MapSumRemove(m', x);
      if x in m {
        MapSumRemove(m, x);
        assert m' - {x} == m - {x};
      } else {
        assert m' - {x} == m;
      }
    }
  }

  // ---------------------------------------------------------------------------
  // unique() and slicing

  /** The index of the first occurrence of `x` in `xs`. */
  function FirstIndex<T(==)>(xs: seq<T>, x: T): (k: nat)
    requires x in xs
    ensures k < |xs| && xs[k] == x && x !in xs[..k]
  {
    if xs[0] == x then 0
    else
      var k := 1 + FirstIndex(xs[1..], x);
      assert xs[..k] == [xs[0]] + xs[1..][..k - 1];
      k
  }

  lemma FirstIndexUnique<T>(xs: seq<T>, x: T, k: nat)
    requires k < |xs| && xs[k] == x && x !in xs[..k]
    ensures FirstIndex(xs, x) == k
  {
  }

  /** In `a + [c] + b` where `a` does not contain `c`, the first `c` is the one after `a`. */
  lemma FirstIndexAfterPrefix<T>(a: seq<T>, c: T, b: seq<T>)
    requires c !in a
    ensures c in a + [c] + b && FirstIndex(a + [c] + b, c) == |a|
    ensures (a + [c] + b)[..|a|] == a && (a + [c] + b)[|a| + 1..] == b
  {
    var s := a + [c] + b;
    assert s[..|a|] == a && s[|a|] == c;
    FirstIndexUnique(s, c, |a|);
  }

  predicate NoDuplicates<T(==)>(xs: seq<T>) {
    forall i, j :: 0 <= i < j < |xs| ==> xs[i] != xs[j]
  }

  /** A sequence without repeats has as many distinct members as entries. */
  lemma {:induction false} NoDuplicatesSetSize<T>(xs: seq<T>)
    requires NoDuplicates(xs)
    ensures |set x | x in xs| == |xs|
  {
    if xs != [] {
      var rest := xs[1..];
      assert NoDuplicates(rest);
      NoDuplicatesSetSize(rest);
      assert (set x | x in xs) == {xs[0]} + (set x | x in rest);
      assert xs[0] !in rest;
    }
  }

  /** pandas `unique()`: each distinct value once, in order of first appearance. */
  function Unique<T(==,!new)>(xs: seq<T>): (r: seq<T>)
    ensures forall x :: x in r <==> x in xs
    ensures NoDuplicates(r)
    ensures forall i, j :: 0 <= i < j < |r| ==> FirstIndex(xs, r[i]) < FirstIndex(xs, r[j])
  {
    if xs == [] then []
    else
      var init, x := xs[..|xs| - 1], xs[|xs| - 1];
      assert xs == init + [x];
      var u := Unique(init);
      forall y | y in init ensures FirstIndex(xs, y) == FirstIndex(init, y) {
        var k := FirstIndex(init, y);
        assert xs[..k] == init[..k];
        FirstIndexUnique(xs, y, k);
      }
      if x in u then u
      else
        FirstIndexUnique(xs, x, |xs| - 1);
        u + [x]
  }

  /** Python's `xs[:stop]`: a negative `stop` counts from the end. */
  function PySlice<T>(xs: seq<T>, stop: int): (r: seq<T>)
    ensures stop >= 0 ==> |r| == if stop < |xs| then stop else |xs|
    ensures stop < 0 ==> |r| == if |xs| + stop > 0 then |xs| + stop else 0
    ensures r == xs[..|r|]
  {
    if stop >= 0 then (if stop < |xs| then xs[..stop] else xs)
    else if |xs| + stop > 0 then xs[..|xs| + stop]
    else []
  }
}
