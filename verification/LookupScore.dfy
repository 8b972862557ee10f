/**
 The lookup-table formula of enrichment_v2/scoring.py, over exact reals.

 The table is the YAML mapping in its order, with its keys already read as numbers; `value` is
 nothing when the signal is not a number.
 */
module LookupScore {
  import opened Options

  datatype Entry = Entry(key: real, score: real)

  const EPSILON: real := 0.000000001

  function Abs(x: real): real { if x < 0.0 then -x else x }

  // ---------- The formula ----------

  /** The first entry whose key is within EPSILON of `x`, or else the first entry of all. */
  function KeyOf(table: seq<Entry>, x: real): Entry
    requires table != []
  {
    var i := FirstClose(table, x, 0);
    if i.Some? then table[i.value] else table[0]
  }

  function FirstClose(table: seq<Entry>, x: real, from: nat): (r: Option<nat>)
    requires from <= |table|
    ensures r.Some? ==> from <= r.value < |table| && Abs(table[r.value].key - x) < EPSILON
    ensures r.Some? ==> forall i :: from <= i < r.value ==> Abs(table[i].key - x) >= EPSILON
    ensures r == None ==> forall i :: from <= i < |table| ==> Abs(table[i].key - x) >= EPSILON
    decreases |table| - from
  {
    if from == |table| then None
    else if Abs(table[from].key - x) < EPSILON then Some(from)
    else FirstClose(table, x, from + 1)
  }

  function InsertKey(k: real, sorted: seq<real>): seq<real> {
    if sorted == [] then [k]
    else if k <= sorted[0] then [k] + sorted
    else [sorted[0]] + InsertKey(k, sorted[1..])
  }

  function SortedKeys(table: seq<Entry>): (keys: seq<real>)
    ensures |keys| == |table|
  {
    if table == [] then []
    else
      InsertLength(table[0].key, SortedKeys(table[1..]));
      InsertKey(table[0].key, SortedKeys(table[1..]))
  }

  /** Where a value lies among the sorted keys. */
  datatype Place = Below | Above | Near(i: nat) | Between(i: nat) | Nowhere

  function FirstNear(keys: seq<real>, v: real, from: nat): (r: Option<nat>)
    requires from <= |keys|
    ensures r.Some? ==> from <= r.value < |keys| && Abs(v - keys[r.value]) < EPSILON
    ensures r.Some? ==> forall i :: from <= i < r.value ==> Abs(v - keys[i]) >= EPSILON
    ensures r == None ==> forall i :: from <= i < |keys| ==> Abs(v - keys[i]) >= EPSILON
    decreases |keys| - from
  {
    if from == |keys| then None
    else if Abs(v - keys[from]) < EPSILON then Some(from)
    else FirstNear(keys, v, from + 1)
  }

  function FirstBetween(keys: seq<real>, v: real, from: nat): (r: Option<nat>)
    requires from < |keys|
    ensures r.Some? ==> from <= r.value < |keys| - 1 && keys[r.value] < v < keys[r.value + 1]
    ensures r == None ==> forall i :: from <= i < |keys| - 1 ==> !(keys[i] < v < keys[i + 1])
    decreases |keys| - from
  {
    if from == |keys| - 1 then None
    else if keys[from] < v < keys[from + 1] then Some(from)
    else FirstBetween(keys, v, from + 1)
  }

  function Locate(keys: seq<real>, v: real): (p: Place)
    requires keys != []
    ensures p.Near? ==> p.i < |keys|
    ensures p.Between? ==> p.i < |keys| - 1 && keys[p.i] < v < keys[p.i + 1]
  {
    if v <= keys[0] then Below
    else if v >= keys[|keys| - 1] then Above
    else
      match FirstNear(keys, v, 0)
      case Some(i) => Near(i)
      case None =>
        match FirstBetween(keys, v, 0)
        case Some(i) => Between(i)
        case None => Nowhere
  }

  function ScoreAt(table: seq<Entry>, keys: seq<real>, i: nat): real
    requires table != [] && i < |keys|
  {
    KeyOf(table, keys[i]).score
  }

  function Interpolated(lower: real, upper: real, lo: real, hi: real, v: real): real
    requires lo < hi
  {
    lower + (upper - lower) * ((v - lo) / (hi - lo))
  }

  function Lookup(table: seq<Entry>, value: Option<real>, interpolate: bool): real {
    if table == [] || value == None then 0.0
    else
      var v, keys := value.value, SortedKeys(table);
      match Locate(keys, v)
      case Below => ScoreAt(table, keys, 0)
      case Above => ScoreAt(table, keys, |keys| - 1)
      case Near(i) => ScoreAt(table, keys, i)
      case Between(i) =>
        if interpolate then
          Interpolated(ScoreAt(table, keys, i), ScoreAt(table, keys, i + 1), keys[i], keys[i + 1], v)
        else ScoreAt(table, keys, i)
      case Nowhere => 0.0
  }

  // ---------- Sorted keys ----------

  /** Distinct keys are at least EPSILON apart. */
  ghost predicate Spaced(table: seq<Entry>) {
    forall i, j :: 0 <= i < j < |table| ==> Abs(table[i].key - table[j].key) >= EPSILON
  }

  ghost predicate Increasing(keys: seq<real>) {
    forall i, j :: 0 <= i < j < |keys| ==> keys[j] - keys[i] >= EPSILON
  }

  lemma {:induction false} InsertLength(k: real, sorted: seq<real>)
    ensures |InsertKey(k, sorted)| == |sorted| + 1
    decreases |sorted|
  {
    if sorted != [] && k > sorted[0] {
      InsertLength(k, sorted[1..]);
    }
  }

  lemma {:induction false} InsertMembers(k: real, sorted: seq<real>)
    ensures forall x :: x in InsertKey(k, sorted) <==> x == k || x in sorted
    decreases |sorted|
  {
    if sorted != [] {
      assert sorted == [sorted[0]] + sorted[1..];
      InsertMembers(k, sorted[1..]);
    }
  }

  lemma {:induction false} ConsIncreasing(k: real, sorted: seq<real>)
    requires Increasing(sorted) && forall x :: x in sorted ==> x - k >= EPSILON
    ensures Increasing([k] + sorted)
  {
    forall j | 0 <= j < |sorted| ensures sorted[j] - k >= EPSILON {
      assert sorted[j] in sorted;
    }
  }

  /** Spacing in either direction. */
  lemma {:induction false} Apart(keys: seq<real>, a: nat, b: nat)
    requires Increasing(keys) && a < |keys| && b < |keys|
    ensures a < b ==> keys[b] - keys[a] >= EPSILON
    ensures b < a ==> keys[a] - keys[b] >= EPSILON
  {
  }

  lemma {:induction false} InsertIncreasing(k: real, sorted: seq<real>)
    requires Increasing(sorted) && forall x :: x in sorted ==> Abs(x - k) >= EPSILON
    ensures Increasing(InsertKey(k, sorted))
    decreases |sorted|
  {
    if sorted == [] {
    } else if k <= sorted[0] {
      assert sorted[0] in sorted;
      forall x | x in sorted ensures x - k >= EPSILON {
        var i: nat :| i < |sorted| && sorted[i] == x;
        Apart(sorted, 0, i);
      }
      ConsIncreasing(k, sorted);
    } else {
      var t := sorted[1..];
      assert sorted[0] in sorted && forall x :: x in t ==> x in sorted;
      InsertIncreasing(k, t);
      InsertMembers(k, t);
      forall x | x in InsertKey(k, t) ensures x - sorted[0] >= EPSILON {
        if x in t {
          var i: nat :| i < |t| && t[i] == x;
          assert sorted[i + 1] == x;
        }
      }
      ConsIncreasing(sorted[0], InsertKey(k, t));
    }
  }

  lemma {:induction false} SortedKeysAreRight(table: seq<Entry>)
    requires Spaced(table)
    ensures Increasing(SortedKeys(table))
    ensures forall x :: x in SortedKeys(table) <==> exists i :: 0 <= i < |table| && table[i].key == x
    decreases |table|
  {
    if table != [] {
      var t := table[1..];
      forall i, j | 0 <= i < j < |t| ensures Abs(t[i].key - t[j].key) >= EPSILON {
        assert t[i] == table[i + 1] && t[j] == table[j + 1];
      }
      SortedKeysAreRight(t);
      forall x | x in SortedKeys(t) ensures Abs(x - table[0].key) >= EPSILON {
        var i :| 0 <= i < |t| && t[i].key == x;
        assert table[i + 1].key == x;
      }
      InsertIncreasing(table[0].key, SortedKeys(t));
      InsertMembers(table[0].key, SortedKeys(t));
      forall x ensures x in SortedKeys(table) <==> exists i :: 0 <= i < |table| && table[i].key == x {
        if i: nat :| i < |table| && table[i].key == x {
          if i > 0 {
            assert t[i - 1].key == x;
          }
        }
        if x in SortedKeys(table) {
          if x in SortedKeys(t) {
            var i :| 0 <= i < |t| && t[i].key == x;
            assert table[i + 1].key == x;
          }
        }
      }
    }
  }

  /** With spaced keys, looking up a key finds its own entry. */
  lemma {:induction false} KeyOfIsExact(table: seq<Entry>, i: nat)
    requires Spaced(table) && i < |table|
    ensures KeyOf(table, table[i].key) == table[i]
  {
    var x := table[i].key;
    assert Abs(table[i].key - x) < EPSILON;
    var c := FirstClose(table, x, 0).value;
    assert Abs(table[c].key - x) < EPSILON;
    assert Abs(x - table[c].key) < EPSILON;
  }

  /** Of several keys that close to the value the first in the table counts, spaced or not. */
  lemma {:induction false} FirstKeyCounts(table: seq<Entry>, i: nat, x: real)
    requires i < |table| && -0.000000001 < table[i].key - x < 0.000000001
    requires forall j :: 0 <= j < i ==> Abs(table[j].key - x) >= EPSILON
    ensures KeyOf(table, x) == table[i]
  {
    assert Abs(table[i].key - x) < EPSILON;
    var c := FirstClose(table, x, 0);
  }

  lemma {:induction false} IndexOfKey(table: seq<Entry>, i: nat) returns (k: nat)
    requires Spaced(table) && i < |table|
    ensures k < |table| && SortedKeys(table)[k] == table[i].key
    ensures ScoreAt(table, SortedKeys(table), k) == table[i].score
  {
    SortedKeysAreRight(table);
    assert table[i].key in SortedKeys(table);
    k :| 0 <= k < |table| && SortedKeys(table)[k] == table[i].key;
    KeyOfIsExact(table, i);
  }

  // ---------- Where values lie ----------

  /** The search between neighbouring keys never comes up empty, so the final `return 0.0` is dead. */
  lemma {:induction false} LocateNeverFails(keys: seq<real>, v: real)
    requires keys != []
    ensures Locate(keys, v) != Nowhere
  {
    if keys[0] < v < keys[|keys| - 1] && FirstNear(keys, v, 0) == None {
      var i := 0;
      while keys[i + 1] < v
        invariant 0 <= i < |keys| - 1 && keys[i] < v
        decreases |keys| - i
      {
        i := i + 1;
      }
      assert Abs(v - keys[i + 1]) >= EPSILON;
      assert keys[i] < v < keys[i + 1];
    }
  }

  lemma {:induction false} LocateKey(keys: seq<real>, k: nat)
    requires Increasing(keys) && k < |keys|
    ensures var p := Locate(keys, keys[k]);
            p == Near(k) || (p == Below && k == 0) || (p == Above && k == |keys| - 1)
  {
    Apart(keys, 0, k);
    Apart(keys, k, |keys| - 1);
    assert Abs(keys[k] - keys[k]) < EPSILON;
    Apart(keys, FirstNear(keys, keys[k], 0).value, k);
  }

  /** The score at each key is exactly the table's, in both modes. */
  lemma {:induction false} LookupIsExact(table: seq<Entry>, i: nat, interpolate: bool)
    requires Spaced(table) && i < |table|
    ensures Lookup(table, Some(table[i].key), interpolate) == table[i].score
  {
    var k := IndexOfKey(table, i);
    SortedKeysAreRight(table);
    LocateKey(SortedKeys(table), k);
  }

  /** Values outside the range of the keys get the score of the nearest key. */
  lemma {:induction false} LookupClamps(table: seq<Entry>, i: nat, v: real, interpolate: bool)
    requires Spaced(table) && i < |table|
    ensures v <= table[i].key && (forall j :: 0 <= j < |table| ==> table[i].key <= table[j].key) ==>
              Lookup(table, Some(v), interpolate) == table[i].score
    ensures v >= table[i].key && (forall j :: 0 <= j < |table| ==> table[j].key <= table[i].key) ==>
              Lookup(table, Some(v), interpolate) == table[i].score
  {
    var keys := SortedKeys(table);
    SortedKeysAreRight(table);
    var k := IndexOfKey(table, i);
    var n := |keys| - 1;
    assert keys[0] in keys && keys[n] in keys;
    Apart(keys, 0, k);
    Apart(keys, k, n);
    Apart(keys, 0, n);
  }

  lemma {:induction false} InterpolatedBounds(lower: real, upper: real, lo: real, hi: real, v: real)
    requires lo < v < hi
    ensures lower <= upper ==> lower <= Interpolated(lower, upper, lo, hi, v) <= upper
    ensures upper <= lower ==> upper <= Interpolated(lower, upper, lo, hi, v) <= lower
  {
    var frac := (v - lo) / (hi - lo);
    assert frac * (hi - lo) == v - lo;
    assert 0.0 <= frac <= 1.0;
    ScaleBounds(upper - lower, frac);
    assert Interpolated(lower, upper, lo, hi, v) == lower + (upper - lower) * frac;
  }

  lemma {:induction false} ScaleBounds(d: real, frac: real)
    requires 0.0 <= frac <= 1.0
    ensures 0.0 <= d ==> 0.0 <= d * frac <= d
    ensures d <= 0.0 ==> d <= d * frac <= 0.0
  {
  }

  /** The result, when the value lies at place `p`, is between the scores at `Low(p)` and `High(p)`. */
  function Low(p: Place, n: nat): nat
    requires n > 0 && p != Nowhere
  {
    match p case Below => 0 case Above => n - 1 case Near(i) => i case Between(i) => i
  }

  function High(p: Place, n: nat): nat
    requires n > 0 && p != Nowhere
  {
    match p case Below => 0 case Above => n - 1 case Near(i) => i case Between(i) => i + 1
  }

  lemma {:induction false} LookupBounds(table: seq<Entry>, v: real, interpolate: bool)
    requires table != []
    ensures var keys := SortedKeys(table);
            var p := Locate(keys, v);
            && p != Nowhere && Low(p, |keys|) <= High(p, |keys|) < |keys|
            && var a, b := ScoreAt(table, keys, Low(p, |keys|)), ScoreAt(table, keys, High(p, |keys|));
            var r := Lookup(table, Some(v), interpolate);
               (a <= b ==> a <= r <= b) && (b <= a ==> b <= r <= a)
  {
    var keys := SortedKeys(table);
    LocateNeverFails(keys, v);
    var p := Locate(keys, v);
    if p.Between? && interpolate {
      InterpolatedBounds(ScoreAt(table, keys, p.i), ScoreAt(table, keys, p.i + 1), keys[p.i], keys[p.i + 1], v);
    }
  }

  /** Between two neighbouring keys the result stays between their scores. */
  lemma {:induction false} LookupStaysBetweenNeighbours(table: seq<Entry>, i: nat, j: nat, v: real, interpolate: bool)
    returns (r: real)
    requires Spaced(table) && i < |table| && j < |table| && table[i].key <= v <= table[j].key
    requires forall k :: 0 <= k < |table| ==> table[k].key <= table[i].key || table[j].key <= table[k].key
    ensures r == Lookup(table, Some(v), interpolate)
    ensures table[i].score <= table[j].score ==> table[i].score <= r <= table[j].score
    ensures table[j].score <= table[i].score ==> table[j].score <= r <= table[i].score
  {
    r := Lookup(table, Some(v), interpolate);
    if v == table[i].key {
      LookupIsExact(table, i, interpolate);
    } else if v == table[j].key {
      LookupIsExact(table, j, interpolate);
    } else {
      LookupInside(table, i, j, v, interpolate);
      InterpolatedBounds(table[i].score, table[j].score, table[i].key, table[j].key, v);
    }
  }

  /**
   Strictly between two neighbouring keys: the score of a key closer than EPSILON, else the straight
   line between the two scores or the lower key's score, as the mode says.
   */
  lemma {:induction false} LookupInside(table: seq<Entry>, i: nat, j: nat, v: real, interpolate: bool)
    requires Spaced(table) && i < |table| && j < |table| && table[i].key < v < table[j].key
    requires forall k :: 0 <= k < |table| ==> table[k].key <= table[i].key || table[j].key <= table[k].key
    ensures Lookup(table, Some(v), interpolate) ==
            if v - table[i].key < EPSILON then table[i].score
            else if table[j].key - v < EPSILON then table[j].score
            else if interpolate then Interpolated(table[i].score, table[j].score, table[i].key, table[j].key, v)
            else table[i].score
  {
    var keys := SortedKeys(table);
    var x := Neighbours(table, i, j);
    PlaceInside(keys, x, v);
    KeyOfIsExact(table, i);
    KeyOfIsExact(table, j);
  }

  /** Neighbouring keys of the table are neighbours in the sorted list. */
  lemma {:induction false} Neighbours(table: seq<Entry>, i: nat, j: nat) returns (x: nat)
    requires Spaced(table) && i < |table| && j < |table| && table[i].key < table[j].key
    requires forall k :: 0 <= k < |table| ==> table[k].key <= table[i].key || table[j].key <= table[k].key
    ensures Increasing(SortedKeys(table)) && x + 1 < |table|
    ensures SortedKeys(table)[x] == table[i].key && SortedKeys(table)[x + 1] == table[j].key
  {
    var keys := SortedKeys(table);
    SortedKeysAreRight(table);
    x := IndexOfKey(table, i);
    var y := IndexOfKey(table, j);
    Apart(keys, x, y);
    assert x < y;
    assert keys[x + 1] in keys;
    Apart(keys, x, x + 1);
    Apart(keys, x + 1, y);
    assert y == x + 1;
  }

  lemma {:induction false} PlaceInside(keys: seq<real>, x: nat, v: real)
    requires Increasing(keys) && x + 1 < |keys| && keys[x] < v < keys[x + 1]
    ensures Locate(keys, v) ==
            if v - keys[x] < EPSILON then Near(x) else if keys[x + 1] - v < EPSILON then Near(x + 1) else Between(x)
  {
    LocateNeverFails(keys, v);
    var p := Locate(keys, v);
    Apart(keys, 0, x);
    Apart(keys, x + 1, |keys| - 1);
    if p.Near? {
      Apart(keys, p.i, x);
      Apart(keys, p.i, x + 1);
    } else if p.Between? {
      NoOverlap(keys, p.i, x, v);
    }
  }

  lemma {:induction false} NoOverlap(keys: seq<real>, a: nat, b: nat, v: real)
    requires Increasing(keys) && a + 1 < |keys| && b + 1 < |keys|
    requires keys[a] < v < keys[a + 1] && keys[b] < v < keys[b + 1]
    ensures a == b
  {
    Apart(keys, a + 1, b);
    Apart(keys, b + 1, a);
  }

  // ---------- Monotonicity ----------

  ghost predicate ScoresAscend(table: seq<Entry>) {
    forall i, j :: 0 <= i < |table| && 0 <= j < |table| && table[i].key <= table[j].key ==>
      table[i].score <= table[j].score
  }

  lemma {:induction false} SortedScoresAscend(table: seq<Entry>, a: nat, b: nat)
    requires Spaced(table) && ScoresAscend(table) && a <= b < |table|
    ensures ScoreAt(table, SortedKeys(table), a) <= ScoreAt(table, SortedKeys(table), b)
  {
    var keys := SortedKeys(table);
    SortedKeysAreRight(table);
    assert keys[a] in keys && keys[b] in keys;
    var i :| 0 <= i < |table| && table[i].key == keys[a];
    var j :| 0 <= j < |table| && table[j].key == keys[b];
    KeyOfIsExact(table, i);
    KeyOfIsExact(table, j);
    assert a < b ==> keys[b] - keys[a] >= EPSILON;
  }

  ghost predicate InnerPlace(p: Place) {
    p.Near? || p.Between?
  }

  lemma {:induction false} InnerPlacesAscend(keys: seq<real>, v: real, w: real)
    requires keys != [] && Increasing(keys) && v <= w
    requires InnerPlace(Locate(keys, v)) && InnerPlace(Locate(keys, w))
    ensures var p, q := Locate(keys, v), Locate(keys, w);
            High(p, |keys|) <= Low(q, |keys|) || (p.Between? && q == p)
  {
    var p, q := Locate(keys, v), Locate(keys, w);
    Apart(keys, q.i, p.i);
    if q.Between? {
      Apart(keys, q.i + 1, p.i);
    }
  }

  /** A larger value never lies at a lower place; at most both lie between the same two keys. */
  lemma {:induction false} PlacesAscend(keys: seq<real>, v: real, w: real)
    requires keys != [] && Increasing(keys) && v <= w
    ensures Locate(keys, v) != Nowhere && Locate(keys, w) != Nowhere
    ensures var p, q := Locate(keys, v), Locate(keys, w);
            High(p, |keys|) <= Low(q, |keys|) || (p.Between? && q == p)
  {
    LocateNeverFails(keys, v);
    LocateNeverFails(keys, w);
    if InnerPlace(Locate(keys, v)) && InnerPlace(Locate(keys, w)) {
      InnerPlacesAscend(keys, v, w);
    }
  }

  lemma {:induction false} InterpolatedAscends(lower: real, upper: real, lo: real, hi: real, v: real, w: real)
    requires lo < hi && lower <= upper && v <= w
    ensures Interpolated(lower, upper, lo, hi, v) <= Interpolated(lower, upper, lo, hi, w)
  {
    var f, g := (v - lo) / (hi - lo), (w - lo) / (hi - lo);
    assert f * (hi - lo) == v - lo && g * (hi - lo) == w - lo;
    assert (g - f) * (hi - lo) == w - v;
    assert f <= g;
    assert (upper - lower) * g - (upper - lower) * f == (upper - lower) * (g - f);
    ProductNonNegative(upper - lower, g - f);
  }

  lemma {:induction false} ProductNonNegative(x: real, y: real)
    requires x >= 0.0 && y >= 0.0
    ensures x * y >= 0.0
  {
  }

  /** When the scores ascend with the keys, so does the result with the value, in both modes. */
  lemma {:induction false} LookupIsMonotone(table: seq<Entry>, v: real, w: real, interpolate: bool)
    requires table != [] && Spaced(table) && ScoresAscend(table) && v <= w
    ensures Lookup(table, Some(v), interpolate) <= Lookup(table, Some(w), interpolate)
  {
    var keys := SortedKeys(table);
    SortedKeysAreRight(table);
    PlacesAscend(keys, v, w);
    var p, q := Locate(keys, v), Locate(keys, w);
    if p.Between? && q == p {
      SortedScoresAscend(table, p.i, p.i + 1);
      InterpolatedAscends(ScoreAt(table, keys, p.i), ScoreAt(table, keys, p.i + 1), keys[p.i], keys[p.i + 1], v, w);
    } else {
      BetweenLowAndHigh(table, v, interpolate);
      SortedScoresAscend(table, High(p, |keys|), Low(q, |keys|));
      BetweenLowAndHigh(table, w, interpolate);
    }
  }

  lemma {:induction false} BetweenLowAndHigh(table: seq<Entry>, v: real, interpolate: bool)
    requires table != [] && Spaced(table) && ScoresAscend(table)
    ensures var keys := SortedKeys(table);
            var p := Locate(keys, v);
            && p != Nowhere && Low(p, |keys|) <= High(p, |keys|) < |keys|
            && ScoreAt(table, keys, Low(p, |keys|)) <= Lookup(table, Some(v), interpolate)
            && Lookup(table, Some(v), interpolate) <= ScoreAt(table, keys, High(p, |keys|))
  {
    LookupBounds(table, v, interpolate);
    var keys := SortedKeys(table);
    SortedScoresAscend(table, Low(Locate(keys, v), |keys|), High(Locate(keys, v), |keys|));
  }

  /** With keys 0 and 1, values less than EPSILON below 1 take the score of 1, all others between them that of 0. */
  lemma {:induction false} JustBelowKeyTakesItsScore(low: real, high: real, v: real)
    requires 0.0 < v < 1.0
    ensures Lookup([Entry(0.0, low), Entry(1.0, high)], Some(v), false) == if 1.0 - v < EPSILON then high else low
  {
    var table := [Entry(0.0, low), Entry(1.0, high)];
    LookupInside(table, 0, 1, v, false);
  }

  /** The value `v` with the score `r` lies on the straight line through the two entries. */
  ghost predicate OnLine(a: Entry, b: Entry, v: real, r: real) {
    (r - a.score) * (b.key - a.key) == (b.score - a.score) * (v - a.key)
  }

  /** Between neighbouring keys the interpolated scores lie on the straight line through the two. */
  lemma {:induction false} LookupIsLinear(table: seq<Entry>, i: nat, j: nat, v: real)
    requires Spaced(table) && i < |table| && j < |table| && table[i].key + EPSILON <= v <= table[j].key - EPSILON
    requires forall k :: 0 <= k < |table| ==> table[k].key <= table[i].key || table[j].key <= table[k].key
    ensures OnLine(table[i], table[j], v, Lookup(table, Some(v), true))
  {
    LookupInside(table, i, j, v, true);
    InterpolatedOnLine(table[i], table[j], v);
  }

  lemma {:induction false} InterpolatedOnLine(a: Entry, b: Entry, v: real)
    requires a.key < b.key
    ensures OnLine(a, b, v, Interpolated(a.score, b.score, a.key, b.key, v))
  {
    LineThrough(a.score, b.score, a.key, b.key, v);
  }

  lemma {:induction false} LineThrough(lower: real, upper: real, lo: real, hi: real, v: real)
    requires lo < hi
    ensures (Interpolated(lower, upper, lo, hi, v) - lower) * (hi - lo) == (upper - lower) * (v - lo)
  {
    var f := (v - lo) / (hi - lo);
    assert f * (hi - lo) == v - lo;
    assert (upper - lower) * f * (hi - lo) == (upper - lower) * (f * (hi - lo));
  }

  /** Without a table or a number the score is 0. */
  lemma NothingToLookUp(table: seq<Entry>, value: Option<real>, interpolate: bool)
    requires table == [] || value == None
    ensures Lookup(table, value, interpolate) == 0.0
  {
  }

}
