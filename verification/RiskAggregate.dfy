/**
 The aggregate of what the providers say about one IP address, enrichment_v2/aggregator.py.

 The risk is a weighted mean over the providers with a concrete verdict, scaled back to the weight
 of all providers; the consensus status looks at verdict labels only.
 */
module RiskAggregate {
  import opened Options
  import opened Sequences

  /** The three verdicts that count, or any other text; `Other("")` is what Python takes for false. */
  datatype Verdict = Benign | Suspicious | Malicious | Other(text: string)

  datatype Consensus = Agreed | Partial | Disputed

  /** The table holds at most one row per address and provider; `Distinct` says so where it matters. */
  datatype Row = Row(provider: string, verdict: Option<Verdict>, score: Option<real>)

  type Weights = map<string, real>

  datatype Aggregate = Aggregate(
    risk: real, maxScore: real, confidence: real, coverage: real,
    positive: nat, supporting: nat, responded: nat, enabled: nat,
    verdicts: map<string, Verdict>, consensus: Consensus)

  // ---------- Rows ----------

  predicate Concrete(e: Row) {
    e.verdict.Some? && !e.verdict.value.Other?
  }

  predicate Condemns(e: Row) { e.verdict == Some(Malicious) }

  predicate Supports(e: Row) { e.verdict == Some(Malicious) || e.verdict == Some(Suspicious) }

  function Score(e: Row): real {
    if e.score.Some? then e.score.value else 0.0
  }

  function Label(e: Row): Verdict {
    if e.verdict.Some? && e.verdict.value != Other("") then e.verdict.value else Other("unknown")
  }

  function Weight(w: Weights, e: Row): real {
    if e.provider in w then w[e.provider] else 0.0
  }

  function Share(w: Weights, e: Row): real {
    Score(e) * Weight(w, e)
  }

  function WeightUsed(w: Weights): Row -> real {
    e => if Concrete(e) then Weight(w, e) else 0.0
  }

  function Weighted(w: Weights): Row -> real {
    e => if Concrete(e) then Share(w, e) else 0.0
  }

  function Responded(rows: seq<Row>, w: Weights): seq<Row> {
    if rows == [] then []
    else Responded(rows[..|rows| - 1], w) + if rows[|rows| - 1].provider in w then [rows[|rows| - 1]] else []
  }

  function Sum(rows: seq<Row>, f: Row -> real): real {
    if rows == [] then 0.0 else Sum(rows[..|rows| - 1], f) + f(rows[|rows| - 1])
  }

  function Count(rows: seq<Row>, p: Row -> bool): (n: nat)
    ensures n <= |rows|
  {
    if rows == [] then 0 else Count(rows[..|rows| - 1], p) + if p(rows[|rows| - 1]) then 1 else 0
  }

  function MaxScore(rows: seq<Row>): real {
    if rows == [] then 0.0
    else
      var m, e := MaxScore(rows[..|rows| - 1]), rows[|rows| - 1];
      if Concrete(e) && Score(e) > m then Score(e) else m
  }

  function Verdicts(rows: seq<Row>): map<string, Verdict> {
    if rows == [] then map[]
    else Verdicts(rows[..|rows| - 1])[rows[|rows| - 1].provider := Label(rows[|rows| - 1])]
  }

  ghost function Total(w: Weights): real {
    if w == map[] then 0.0
    else
      var p :| p in w;
      w[p] + Total(w - {p})
  }

  // ---------- The aggregate ----------

  function Ratio(n: nat, d: nat): real {
    if d > 0 then n as real / d as real else 0.0
  }

  function Rescale(sum: real, used: real, total: real): real {
    if used > 0.0 then sum / used * total else 0.0
  }

  ghost function Risk(rows: seq<Row>, w: Weights): real {
    var rs := Responded(rows, w);
    Rescale(Sum(rs, Weighted(w)), Sum(rs, WeightUsed(w)), Total(w))
  }

  ghost function AggregateOf(rows: seq<Row>, w: Weights): Aggregate {
    var rs := Responded(rows, w);
    var positive := Count(rs, Condemns);
    Aggregate(
      Risk(rows, w), MaxScore(rs), Ratio(positive, |rs|), Ratio(|rs|, |w|),
      positive, Count(rs, Supports), |rs|, |w|,
      Verdicts(rs), ConsensusStatus(Verdicts(rs)))
  }

  /**
   The providers are in dispute exactly when one says malicious and one benign, and in partial
   consensus exactly when some find the address suspicious and none malicious, whatever else is said.
   */
  function ConsensusStatus(verdicts: map<string, Verdict>): (status: Consensus)
    ensures status == Disputed <==> Malicious in verdicts.Values && Benign in verdicts.Values
    ensures status == Partial <==> Suspicious in verdicts.Values && Malicious !in verdicts.Values
  {
    var malicious, suspicious := Malicious in verdicts.Values, Suspicious in verdicts.Values;
    var benign := Benign in verdicts.Values;
    if !malicious && !suspicious && !benign then Agreed
    else if malicious && benign then Disputed
    else if benign && !malicious && !suspicious then Agreed
    else if malicious && !benign then Agreed
    else Partial
  }

  method TotalWeight(w: Weights) returns (total: real)
    ensures total == Total(w)
  {
    total := 0.0;
    var left := w;
    while left != map[]
      invariant total + Total(left) == Total(w)
      decreases |left|
    {
      var p :| p in left;
      TotalWithout(left, p);
      total := total + left[p];
      left := left - {p};
    }
  }

  lemma {:induction false} RespondedMembers(rows: seq<Row>, w: Weights)
    ensures forall e :: e in Responded(rows, w) <==> e in rows && e.provider in w
  {
    if rows != [] {
      RespondedMembers(rows[..|rows| - 1], w);
      assert rows == rows[..|rows| - 1] + [rows[|rows| - 1]];
    }
  }

  method RespondedRows(rows: seq<Row>, w: Weights) returns (rs: seq<Row>)
    ensures rs == Responded(rows, w)
  {
    rs := [];
    for i := 0 to |rows|
      invariant rs == Responded(rows[..i], w)
    {
      assert rows[..i + 1][..i] == rows[..i];
      if rows[i].provider in w {
        rs := rs + [rows[i]];
      }
    }
    assert rows[..|rows|] == rows;
  }

  method ComputeAggregate(rows: seq<Row>, w: Weights) returns (a: Aggregate)
    ensures a == AggregateOf(rows, w)
  {
    var rs := RespondedRows(rows, w);
    var sum, used, max := 0.0, 0.0, 0.0;
    var positive, supporting := 0, 0;
    var verdicts: map<string, Verdict> := map[];
    for i := 0 to |rs|
      invariant sum == Sum(rs[..i], Weighted(w)) && used == Sum(rs[..i], WeightUsed(w))
      invariant max == MaxScore(rs[..i])
      invariant positive == Count(rs[..i], Condemns) && supporting == Count(rs[..i], Supports)
      invariant verdicts == Verdicts(rs[..i])
    {
      var e := rs[i];
      Next(rs, i, w);
      verdicts := verdicts[e.provider := Label(e)];
      if Concrete(e) {
        sum := sum + Share(w, e);
        used := used + Weight(w, e);
        if Score(e) > max {
          max := Score(e);
        }
        if Condemns(e) {
          positive := positive + 1;
          supporting := supporting + 1;
        } else if e.verdict == Some(Suspicious) {
          supporting := supporting + 1;
        }
      }
    }
    assert rs[..|rs|] == rs;
    var total := TotalWeight(w);
    a := Aggregate(
      Rescale(sum, used, total), max, Ratio(positive, |rs|), Ratio(|rs|, |w|),
      positive, supporting, |rs|, |w|, verdicts, ConsensusStatus(verdicts));
  }

  lemma {:induction false} Next(rs: seq<Row>, i: nat, w: Weights)
    requires i < |rs|
    ensures Sum(rs[..i + 1], Weighted(w)) == Sum(rs[..i], Weighted(w)) + Weighted(w)(rs[i])
    ensures Sum(rs[..i + 1], WeightUsed(w)) == Sum(rs[..i], WeightUsed(w)) + WeightUsed(w)(rs[i])
    ensures MaxScore(rs[..i + 1]) ==
            if Concrete(rs[i]) && Score(rs[i]) > MaxScore(rs[..i]) then Score(rs[i]) else MaxScore(rs[..i])
    ensures Count(rs[..i + 1], Condemns) == Count(rs[..i], Condemns) + if Condemns(rs[i]) then 1 else 0
    ensures Count(rs[..i + 1], Supports) == Count(rs[..i], Supports) + if Supports(rs[i]) then 1 else 0
    ensures Verdicts(rs[..i + 1]) == Verdicts(rs[..i])[rs[i].provider := Label(rs[i])]
  {
    assert rs[..i + 1][..i] == rs[..i];
  }

  // ---------- Weights ----------

  ghost predicate NonNegative(w: Weights) {
    forall p :: p in w ==> w[p] >= 0.0
  }

  lemma {:induction false} TotalWithout(w: Weights, p: string)
    requires p in w
    ensures Total(w) == w[p] + Total(w - {p})
    decreases |w|
  {
    var first :| first in w && Total(w) == w[first] + Total(w - {first});
    if first != p {
      TotalWithout(w - {first}, p);
      TotalWithout(w - {p}, first);
      assert w - {first} - {p} == w - {p} - {first};
    }
  }

  lemma {:induction false} TotalBounds(w: Weights)
    requires NonNegative(w)
    ensures Total(w) >= 0.0 && forall p :: p in w ==> w[p] <= Total(w)
    decreases |w|
  {
    if w != map[] {
      var first :| first in w && Total(w) == w[first] + Total(w - {first});
      TotalBounds(w - {first});
      forall p | p in w ensures w[p] <= Total(w) {
        if p != first {
          assert p in w - {first};
        }
      }
    }
  }

  lemma {:induction false} SomePositive(w: Weights) returns (p: string)
    requires Total(w) > 0.0
    ensures p in w && w[p] > 0.0
    decreases |w|
  {
    p :| p in w && Total(w) == w[p] + Total(w - {p});
    if w[p] <= 0.0 {
      p := SomePositive(w - {p});
    }
  }

  // ---------- The risk ----------

  ghost predicate ScoresWithin(rows: seq<Row>, lo: real, hi: real) {
    forall e :: e in rows && Concrete(e) ==> lo <= Score(e) <= hi
  }

  ghost predicate AllWithin(rs: seq<Row>, f: Row -> real, u: Row -> real, lo: real, hi: real) {
    rs != [] ==>
      var front, e := rs[..|rs| - 1], rs[|rs| - 1];
      AllWithin(front, f, u, lo, hi) && lo * u(e) <= f(e) <= hi * u(e)
  }

  lemma {:induction false} SumsWithin(rs: seq<Row>, f: Row -> real, u: Row -> real, lo: real, hi: real)
      returns (sum: real, used: real)
    requires AllWithin(rs, f, u, lo, hi)
    ensures sum == Sum(rs, f) && used == Sum(rs, u) && lo * used <= sum <= hi * used
  {
    sum, used := 0.0, 0.0;
    if rs != [] {
      var front, e := rs[..|rs| - 1], rs[|rs| - 1];
      sum, used := SumsWithin(front, f, u, lo, hi);
      Distributes(lo, used, u(e));
      Distributes(hi, used, u(e));
      sum, used := sum + f(e), used + u(e);
    }
  }

  lemma {:induction false} SharesWithin(rs: seq<Row>, w: Weights, lo: real, hi: real)
    requires NonNegative(w) && ScoresWithin(rs, lo, hi)
    ensures AllWithin(rs, Weighted(w), WeightUsed(w), lo, hi)
  {
    if rs != [] {
      SharesWithin(rs[..|rs| - 1], w, lo, hi);
      ShareWithin(w, rs[|rs| - 1], lo, hi);
    }
  }

  lemma {:induction false} Distributes(a: real, x: real, y: real)
    ensures a * (x + y) == a * x + a * y
  {
  }

  lemma {:induction false} ShareWithin(w: Weights, e: Row, lo: real, hi: real)
    requires NonNegative(w) && (Concrete(e) ==> lo <= Score(e) <= hi)
    ensures lo * WeightUsed(w)(e) <= Weighted(w)(e) <= hi * WeightUsed(w)(e)
  {
    if Concrete(e) {
      Scaled(lo, Score(e), Weight(w, e));
      Scaled(Score(e), hi, Weight(w, e));
    }
  }

  lemma {:induction false} Scaled(a: real, b: real, x: real)
    requires a <= b && x >= 0.0
    ensures a * x <= b * x
  {
    assert (b - a) * x >= 0.0;
  }

  lemma {:induction false} Quotient(lo: real, hi: real, sum: real, used: real)
    requires used > 0.0 && lo * used <= sum <= hi * used
    ensures lo <= sum / used <= hi
  {
    var m := sum / used;
    assert m * used == sum;
    SignOfProduct(m - lo, used);
    SignOfProduct(hi - m, used);
  }

  lemma {:induction false} SignOfProduct(a: real, x: real)
    requires x > 0.0
    ensures (a > 0.0 <==> a * x > 0.0) && (a < 0.0 <==> a * x < 0.0)
  {
    if a < 0.0 {
      assert (-a) * x > 0.0;
    }
  }

  lemma {:induction false} RespondedWithin(rows: seq<Row>, w: Weights, lo: real, hi: real)
      returns (sum: real, used: real)
    requires NonNegative(w) && ScoresWithin(rows, lo, hi)
    ensures sum == Sum(Responded(rows, w), Weighted(w)) && used == Sum(Responded(rows, w), WeightUsed(w))
    ensures lo * used <= sum <= hi * used
  {
    var rs := Responded(rows, w);
    RespondedMembers(rows, w);
    SharesWithin(rs, w, lo, hi);
    sum, used := SumsWithin(rs, Weighted(w), WeightUsed(w), lo, hi);
  }

  /** The scaled mean lies between the scaled bounds of the scores, however few providers responded. */
  lemma {:induction false} RiskIsScaledMean(rows: seq<Row>, w: Weights, lo: real, hi: real)
    requires NonNegative(w) && ScoresWithin(rows, lo, hi) && Sum(Responded(rows, w), WeightUsed(w)) > 0.0
    ensures lo * Total(w) <= Risk(rows, w) <= hi * Total(w)
  {
    var sum, used := RespondedWithin(rows, w, lo, hi);
    TotalBounds(w);
    RescaleWithin(sum, used, Total(w), lo, hi);
  }

  lemma {:induction false} RescaleWithin(sum: real, used: real, total: real, lo: real, hi: real)
    requires used > 0.0 && total >= 0.0 && lo * used <= sum <= hi * used
    ensures lo * total <= Rescale(sum, used, total) <= hi * total
  {
    Quotient(lo, hi, sum, used);
    Scaled(lo, sum / used, total);
    Scaled(sum / used, hi, total);
  }

  ghost predicate Distinct(rows: seq<Row>) {
    forall i, j :: 0 <= i < j < |rows| ==> rows[i].provider != rows[j].provider
  }

  ghost predicate KeepsScale(w: Weights) {
    forall rows :: Distinct(rows) && ScoresWithin(rows, 0.0, 100.0) ==> 0.0 <= Risk(rows, w) <= 100.0
  }

  lemma {:induction false} SingleRisk(p: string, w: Weights)
    requires p in w && w[p] > 0.0
    ensures Risk([Row(p, Some(Malicious), Some(100.0))], w) == 100.0 * Total(w)
  {
    var e := Row(p, Some(Malicious), Some(100.0));
    assert [e][..0] == [];
    assert Responded([e], w) == [e];
    assert Sum([e], WeightUsed(w)) == w[p] && Sum([e], Weighted(w)) == 100.0 * w[p];
    Quotient(100.0, 100.0, 100.0 * w[p], w[p]);
  }

  /** The risk stays on the 0 to 100 scale of the scores exactly when the weights add up to at most 1. */
  lemma {:induction false} RiskKeepsScaleIff(w: Weights)
    requires NonNegative(w)
    ensures KeepsScale(w) <==> Total(w) <= 1.0
  {
    TotalBounds(w);
    if Total(w) <= 1.0 {
      forall rows | Distinct(rows) && ScoresWithin(rows, 0.0, 100.0) ensures 0.0 <= Risk(rows, w) <= 100.0 {
        if Sum(Responded(rows, w), WeightUsed(w)) > 0.0 {
          RiskIsScaledMean(rows, w, 0.0, 100.0);
        }
      }
    } else {
      var p := SomePositive(w);
      SingleRisk(p, w);
      assert ScoresWithin([Row(p, Some(Malicious), Some(100.0))], 0.0, 100.0);
      assert [Row(p, Some(Malicious), Some(100.0))] != [] && Distinct([Row(p, Some(Malicious), Some(100.0))]);
    }
  }

  lemma {:induction false} MeanMoves(sum: real, used: real, s: real, x: real)
    requires used > 0.0 && x > 0.0
    ensures var m, n := sum / used, (sum + s * x) / (used + x);
            && (m == s ==> n == s) && (m < s ==> m < n < s) && (s < m ==> s < n < m)
  {
    var m, n := sum / used, (sum + s * x) / (used + x);
    assert m * used == sum && n * (used + x) == sum + s * x;
    assert (n - m) * used == (s - n) * x;
    SameSign(n - m, used, s - n, x);
  }

  lemma {:induction false} SameSign(a: real, y: real, b: real, x: real)
    requires x > 0.0 && y > 0.0 && a * y == b * x
    ensures (a > 0.0 <==> b > 0.0) && (a < 0.0 <==> b < 0.0)
  {
    SignOfProduct(a, y);
    SignOfProduct(b, x);
  }

  /** One more concrete verdict moves the risk towards that provider's own score and never reaches or passes it. */
  lemma {:induction false} VerdictMovesRisk(rows: seq<Row>, e: Row, w: Weights)
    requires NonNegative(w) && Concrete(e) && Weight(w, e) > 0.0
    requires Sum(Responded(rows, w), WeightUsed(w)) > 0.0
    ensures var r, s, t := Risk(rows, w), Score(e) * Total(w), Risk(rows + [e], w);
            && (r == s ==> t == s) && (r < s ==> r < t < s) && (s < r ==> s < t < r)
  {
    var sum, used, share := OneMoreRow(rows, e, w);
    TotalBounds(w);
    var r, s, t := Risk(rows, w), Score(e) * Total(w), Risk(rows + [e], w);
    RescaleMoves(sum, used, Total(w), Score(e), Weight(w, e), share, r, s, t);
  }

  lemma {:induction false} OneMoreRow(rows: seq<Row>, e: Row, w: Weights) returns (sum: real, used: real, share: real)
    requires Concrete(e) && e.provider in w
    ensures used == Sum(Responded(rows, w), WeightUsed(w)) && share == Score(e) * Weight(w, e)
    ensures Risk(rows, w) == Rescale(sum, used, Total(w))
    ensures Risk(rows + [e], w) == Rescale(sum + share, used + Weight(w, e), Total(w))
  {
    var rs := Responded(rows, w);
    sum, used, share := Sum(rs, Weighted(w)), Sum(rs, WeightUsed(w)), Share(w, e);
    assert (rows + [e])[..|rows|] == rows;
    assert Responded(rows + [e], w) == rs + [e];
    assert (rs + [e])[..|rs|] == rs;
  }

  lemma {:induction false} RescaleMoves(
    sum: real, used: real, total: real, s: real, x: real, share: real, r: real, goal: real, t: real)
    requires used > 0.0 && x > 0.0 && total > 0.0 && share == s * x && goal == s * total
    requires r == Rescale(sum, used, total) && t == Rescale(sum + share, used + x, total)
    ensures (r == goal ==> t == goal) && (r < goal ==> r < t < goal) && (goal < r ==> goal < t < r)
  {
    MeanMoves(sum, used, s, x);
    var m, n := sum / used, (sum + s * x) / (used + x);
    ScaledStrictly(m, n, total);
    ScaledStrictly(n, m, total);
    ScaledStrictly(n, s, total);
    ScaledStrictly(s, n, total);
    ScaledStrictly(m, s, total);
    ScaledStrictly(s, m, total);
  }

  lemma {:induction false} ScaledStrictly(a: real, b: real, x: real)
    requires x > 0.0
    ensures (a < b <==> a * x < b * x) && (a == b <==> a * x == b * x)
  {
    SignOfProduct(b - a, x);
  }

  // ---------- Counts ----------

  lemma {:induction false} FewerMatch(rows: seq<Row>, p: Row -> bool, q: Row -> bool)
    requires forall e :: p(e) ==> q(e)
    ensures Count(rows, p) <= Count(rows, q)
  {
    if rows != [] {
      FewerMatch(rows[..|rows| - 1], p, q);
    }
  }

  ghost function Providers(rows: seq<Row>): set<string> {
    set e | e in rows :: e.provider
  }

  lemma {:induction false} DistinctProviders(rows: seq<Row>)
    requires Distinct(rows)
    ensures |Providers(rows)| == |rows|
  {
    if rows != [] {
      var front, e := rows[..|rows| - 1], rows[|rows| - 1];
      DistinctProviders(front);
      assert rows == front + [e];
      assert Providers(rows) == Providers(front) + {e.provider};
      assert e.provider !in Providers(front);
    }
  }

  lemma {:induction false} RespondedDistinct(rows: seq<Row>, w: Weights)
    requires Distinct(rows)
    ensures Distinct(Responded(rows, w))
  {
    if rows != [] {
      RespondedDistinct(rows[..|rows| - 1], w);
      RespondedMembers(rows[..|rows| - 1], w);
      var e := rows[|rows| - 1];
      forall d | d in Responded(rows[..|rows| - 1], w) ensures d.provider != e.provider {
        assert d in rows[..|rows| - 1];
      }
    }
  }

  /**
   With one row per provider no count or ratio leaves its range, and coverage is complete exactly
   when each configured provider has been asked.
   */
  lemma {:induction false} CountsAreBounded(rows: seq<Row>, w: Weights) returns (a: Aggregate)
    requires Distinct(rows)
    ensures a == AggregateOf(rows, w)
    ensures a.positive <= a.supporting <= a.responded <= a.enabled
    ensures 0.0 <= a.confidence <= 1.0 && 0.0 <= a.coverage <= 1.0
    ensures w != map[] ==> (a.coverage == 1.0 <==> forall p :: p in w ==> p in Providers(rows))
  {
    a := AggregateOf(rows, w);
    var rs := Responded(rows, w);
    RespondedMembers(rows, w);
    FewerMatch(rs, Condemns, Supports);
    RespondedDistinct(rows, w);
    DistinctProviders(rs);
    assert Providers(rs) <= w.Keys;
    SubsetSize(Providers(rs), w.Keys);
    assert |w.Keys| == |w|;
    RatioBounds(a.positive, |rs|);
    RatioBounds(|rs|, |w|);
    if |rs| == |w| {
      assert |w.Keys - Providers(rs)| == |w.Keys| - |Providers(rs)|;
      assert Providers(rs) == w.Keys;
      assert Providers(rs) <= Providers(rows);
    }
    if forall p :: p in w ==> p in Providers(rows) {
      assert w.Keys <= Providers(rs);
      SubsetSize(w.Keys, Providers(rs));
    }
  }

  lemma {:induction false} RatioBounds(n: nat, d: nat)
    requires n <= d
    ensures 0.0 <= Ratio(n, d) <= 1.0 && (d > 0 ==> (Ratio(n, d) == 1.0 <==> n == d))
  {
    if d > 0 {
      var q := n as real / d as real;
      assert q * d as real == n as real;
      if n == d {
        assert (q - 1.0) * d as real == 0.0;
        SignOfProduct(q - 1.0, d as real);
      }
    }
  }

  // ---------- Order ----------

  lemma {:induction false} SumWithout(rows: seq<Row>, k: nat, f: Row -> real)
    requires k < |rows|
    ensures Sum(rows, f) == Sum(Without(rows, k), f) + f(rows[k])
  {
    var n := |rows| - 1;
    if k < n {
      SumWithout(rows[..n], k, f);
      assert Without(rows, k)[..n - 1] == Without(rows[..n], k);
    } else {
      assert Without(rows, k) == rows[..n];
    }
  }

  lemma {:induction false} SumIsOrderFree(s: seq<Row>, t: seq<Row>, f: Row -> real)
    requires multiset(s) == multiset(t)
    ensures Sum(s, f) == Sum(t, f)
  {
    SameMembers(s, t);
    if s != [] {
      var k := MatchHead(s, t);
      SumIsOrderFree(s[1..], Without(t, k), f);
      SumWithout(t, k, f);
      SumWithout(s, 0, f);
      assert Without(s, 0) == s[1..];
    }
  }

  lemma {:induction false} CountIsSum(rows: seq<Row>, p: Row -> bool, f: Row -> real)
    requires forall e :: f(e) == if p(e) then 1.0 else 0.0
    ensures Count(rows, p) as real == Sum(rows, f)
  {
    if rows != [] {
      CountIsSum(rows[..|rows| - 1], p, f);
    }
  }

  lemma {:induction false} CountIsOrderFree(s: seq<Row>, t: seq<Row>, p: Row -> bool)
    requires multiset(s) == multiset(t)
    ensures Count(s, p) == Count(t, p)
  {
    var f := (e: Row) => if p(e) then 1.0 else 0.0;
    CountIsSum(s, p, f);
    CountIsSum(t, p, f);
    SumIsOrderFree(s, t, f);
  }

  lemma {:induction false} MaxIsGreatest(rows: seq<Row>)
    ensures MaxScore(rows) >= 0.0
    ensures forall e :: e in rows && Concrete(e) ==> Score(e) <= MaxScore(rows)
    ensures MaxScore(rows) == 0.0 || exists e :: e in rows && Concrete(e) && Score(e) == MaxScore(rows)
  {
    if rows != [] {
      MaxIsGreatest(rows[..|rows| - 1]);
      assert rows == rows[..|rows| - 1] + [rows[|rows| - 1]];
    }
  }

  lemma {:induction false} MaxIsOrderFree(s: seq<Row>, t: seq<Row>)
    requires multiset(s) == multiset(t)
    ensures MaxScore(s) == MaxScore(t)
  {
    SameMembers(s, t);
    MaxIsGreatest(s);
    MaxIsGreatest(t);
  }

  /** With one row per provider the dict holds the label of each row. */
  lemma {:induction false} VerdictsAreLabels(rows: seq<Row>)
    requires Distinct(rows)
    ensures Verdicts(rows).Keys == Providers(rows)
    ensures forall e :: e in rows ==> e.provider in Verdicts(rows) && Verdicts(rows)[e.provider] == Label(e)
  {
    if rows != [] {
      var front, e := rows[..|rows| - 1], rows[|rows| - 1];
      VerdictsAreLabels(front);
      assert rows == front + [e];
      forall d | d in front ensures d.provider != e.provider {}
    }
  }

  lemma {:induction false} VerdictsAreOrderFree(s: seq<Row>, t: seq<Row>)
    requires multiset(s) == multiset(t) && Distinct(s) && Distinct(t)
    ensures Verdicts(s) == Verdicts(t)
  {
    SameMembers(s, t);
    VerdictsAreLabels(s);
    VerdictsAreLabels(t);
    assert Providers(s) == Providers(t);
  }

  lemma {:induction false} RespondedTimes(rows: seq<Row>, w: Weights, e: Row)
    ensures multiset(Responded(rows, w))[e] == if e.provider in w then multiset(rows)[e] else 0
  {
    if rows != [] {
      RespondedTimes(rows[..|rows| - 1], w, e);
      assert rows == rows[..|rows| - 1] + [rows[|rows| - 1]];
    }
  }

  lemma {:induction false} RespondedIsOrderFree(s: seq<Row>, t: seq<Row>, w: Weights)
    requires multiset(s) == multiset(t)
    ensures multiset(Responded(s, w)) == multiset(Responded(t, w))
  {
    forall e ensures multiset(Responded(s, w))[e] == multiset(Responded(t, w))[e] {
      RespondedTimes(s, w, e);
      RespondedTimes(t, w, e);
    }
  }

  lemma {:induction false} DistinctIsOrderFree(s: seq<Row>, t: seq<Row>)
    requires multiset(s) == multiset(t) && Distinct(s)
    ensures Distinct(t)
  {
    forall i, j | 0 <= i < j < |t| ensures t[i].provider != t[j].provider {
      if t[i].provider == t[j].provider {
        SameMembers(s, t);
        assert t[i] in s && t[j] in s;
        assert t[i] == t[j];
        Twice(t, i, j);
        OnlyOnce(s, t[i]);
      }
    }
  }

  lemma {:induction false} Twice(t: seq<Row>, i: nat, j: nat)
    requires i < j < |t| && t[i] == t[j]
    ensures multiset(t)[t[i]] >= 2
  {
    RemoveOne(t, j);
    assert Without(t, j)[i] == t[j];
    assert t[j] in multiset(Without(t, j));
  }

  lemma {:induction false} OnlyOnce(s: seq<Row>, e: Row)
    requires Distinct(s)
    ensures multiset(s)[e] <= 1
  {
    if e in s {
      var k :| 0 <= k < |s| && s[k] == e;
      RemoveOne(s, k);
      forall i | 0 <= i < |Without(s, k)| ensures Without(s, k)[i] != e {
        assert Without(s, k)[i] == s[if i < k then i else i + 1];
      }
      assert e !in multiset(Without(s, k));
    }
  }

  /** The rows come in no particular order, and the order changes nothing at all. */
  lemma {:induction false} AggregateIsOrderFree(s: seq<Row>, t: seq<Row>, w: Weights)
    requires multiset(s) == multiset(t) && Distinct(s)
    ensures AggregateOf(s, w) == AggregateOf(t, w)
  {
    DistinctIsOrderFree(s, t);
    RespondedDistinct(s, w);
    RespondedDistinct(t, w);
    RespondedIsOrderFree(s, t, w);
    var rs, rt := Responded(s, w), Responded(t, w);
    SameMembers(rs, rt);
    SumIsOrderFree(rs, rt, WeightUsed(w));
    SumIsOrderFree(rs, rt, Weighted(w));
    CountIsOrderFree(rs, rt, Condemns);
    CountIsOrderFree(rs, rt, Supports);
    MaxIsOrderFree(rs, rt);
    VerdictsAreOrderFree(rs, rt);
  }

  // ---------- Agreement and risk ----------

  /** A configured provider gave this verdict. */
  ghost predicate Said(rows: seq<Row>, w: Weights, v: Verdict) {
    exists e :: e in rows && e.provider in w && e.verdict == Some(v)
  }

  lemma {:induction false} VerdictIsRecorded(rows: seq<Row>, w: Weights, v: Verdict)
    requires Distinct(rows) && !v.Other?
    ensures v in Verdicts(Responded(rows, w)).Values <==> Said(rows, w, v)
  {
    var rs := Responded(rows, w);
    RespondedMembers(rows, w);
    RespondedDistinct(rows, w);
    VerdictsAreLabels(rs);
    if v in Verdicts(rs).Values {
      var p :| p in Verdicts(rs) && Verdicts(rs)[p] == v;
      var e :| e in rs && e.provider == p;
      assert Label(e) == v;
    }
    if Said(rows, w, v) {
      var e :| e in rows && e.provider in w && e.verdict == Some(v);
      assert e in rs;
      assert Verdicts(rs)[e.provider] == v;
    }
  }

  /**
   A dispute is reported exactly when one configured provider says malicious and another benign, and
   partial consensus exactly when one says suspicious and none malicious: scores, weights and other
   answers have no say in it.
   */
  lemma {:induction false} ConsensusIff(rows: seq<Row>, w: Weights)
    requires Distinct(rows)
    ensures AggregateOf(rows, w).consensus == Disputed <==> Said(rows, w, Malicious) && Said(rows, w, Benign)
    ensures AggregateOf(rows, w).consensus == Partial <==> Said(rows, w, Suspicious) && !Said(rows, w, Malicious)
  {
    VerdictIsRecorded(rows, w, Malicious);
    VerdictIsRecorded(rows, w, Suspicious);
    VerdictIsRecorded(rows, w, Benign);
  }

  /** A lone suspicious verdict is only partial consensus, although nobody disagrees with it. */
  lemma {:induction false} SuspiciousAloneIsPartial(p: string, w: Weights)
    requires p in w
    ensures AggregateOf([Row(p, Some(Suspicious), None)], w).consensus == Partial
  {
    var e := Row(p, Some(Suspicious), None);
    assert [e][..0] == [];
    assert Responded([e], w) == [e];
    assert Verdicts([e]) == map[p := Suspicious];
    assert Verdicts([e])[p] == Suspicious;
  }

  /** A suspicious verdict next to a malicious one is consensus. */
  lemma {:induction false} SuspiciousAndMaliciousAgree(p: string, q: string, w: Weights)
    requires p in w && q in w && p != q
    ensures AggregateOf([Row(p, Some(Suspicious), None), Row(q, Some(Malicious), None)], w).consensus == Agreed
  {
    var rows := [Row(p, Some(Suspicious), None), Row(q, Some(Malicious), None)];
    assert rows[1] in rows;
    assert Said(rows, w, Malicious);
    assert !Said(rows, w, Benign);
    ConsensusIff(rows, w);
    var status := ConsensusStatus(Verdicts(Responded(rows, w)));
  }

  // ---------- What is counted ----------

  lemma {:induction false} RespondedSnoc(rows: seq<Row>, e: Row, w: Weights)
    ensures Responded(rows + [e], w) == if e.provider in w then Responded(rows, w) + [e] else Responded(rows, w)
  {
    assert (rows + [e])[..|rows|] == rows;
  }

  lemma {:induction false} CountSnoc(rows: seq<Row>, e: Row, p: Row -> bool)
    ensures Count(rows + [e], p) == Count(rows, p) + if p(e) then 1 else 0
  {
    assert (rows + [e])[..|rows|] == rows;
  }

  lemma {:induction false} SumSnoc(rows: seq<Row>, e: Row, f: Row -> real)
    ensures Sum(rows + [e], f) == Sum(rows, f) + f(e)
  {
    assert (rows + [e])[..|rows|] == rows;
  }

  /** The rows of configured providers with the property. */
  ghost function RowsWith(rows: seq<Row>, w: Weights, p: Row -> bool): set<nat> {
    set i: nat | i < |rows| && rows[i].provider in w && p(rows[i])
  }

  lemma {:induction false} RowsWithSnoc(rows: seq<Row>, e: Row, w: Weights, p: Row -> bool)
    ensures |RowsWith(rows + [e], w, p)| == |RowsWith(rows, w, p)| + if e.provider in w && p(e) then 1 else 0
  {
    assert RowsWith(rows + [e], w, p) ==
           RowsWith(rows, w, p) + if e.provider in w && p(e) then {|rows|} else {};
  }

  lemma {:induction false} CountIsRowsWith(rows: seq<Row>, w: Weights, p: Row -> bool)
    ensures Count(Responded(rows, w), p) == |RowsWith(rows, w, p)|
    decreases |rows|
  {
    if rows == [] {
      assert RowsWith(rows, w, p) == {};
    } else {
      var front, e := rows[..|rows| - 1], rows[|rows| - 1];
      CountIsRowsWith(front, w, p);
      assert rows == front + [e];
      RespondedSnoc(front, e, w);
      RowsWithSnoc(front, e, w, p);
      CountSnoc(Responded(front, w), e, p);
    }
  }

  predicate AnyRow(e: Row) { true }

  lemma {:induction false} CountAll(rows: seq<Row>)
    ensures Count(rows, AnyRow) == |rows|
  {
    if rows != [] {
      CountAll(rows[..|rows| - 1]);
    }
  }

  /** The rows of configured providers with one of the verdicts. */
  ghost function RowsSaying(rows: seq<Row>, w: Weights, verdicts: set<Verdict>): set<nat> {
    set i: nat | i < |rows| && rows[i].provider in w && rows[i].verdict.Some? && rows[i].verdict.value in verdicts
  }

  ghost function ConfiguredRows(rows: seq<Row>, w: Weights): set<nat> {
    set i: nat | i < |rows| && rows[i].provider in w
  }

  lemma {:induction false} CountIsSaying(rows: seq<Row>, w: Weights, p: Row -> bool, verdicts: set<Verdict>)
    requires forall e :: p(e) <==> e.verdict.Some? && e.verdict.value in verdicts
    ensures Count(Responded(rows, w), p) == |RowsSaying(rows, w, verdicts)|
  {
    CountIsRowsWith(rows, w, p);
    assert RowsSaying(rows, w, verdicts) == RowsWith(rows, w, p);
  }

  lemma {:induction false} RespondedIsConfigured(rows: seq<Row>, w: Weights)
    ensures |Responded(rows, w)| == |ConfiguredRows(rows, w)|
  {
    CountIsRowsWith(rows, w, AnyRow);
    CountAll(Responded(rows, w));
    assert ConfiguredRows(rows, w) == RowsWith(rows, w, AnyRow);
  }

  /** `n` of `d`, and 0 of nothing. */
  ghost predicate IsShare(x: real, n: nat, d: nat) {
    if d == 0 then x == 0.0 else x * d as real == n as real
  }

  lemma {:induction false} RatioIsShare(n: nat, d: nat)
    ensures IsShare(Ratio(n, d), n, d)
  {
  }

  /**
   Responded are the rows of configured providers, positive those that say malicious, supporting those
   that say malicious or suspicious; confidence and coverage are their shares.
   */
  lemma {:induction false} CountsAre(rows: seq<Row>, w: Weights) returns (a: Aggregate)
    ensures a == AggregateOf(rows, w)
    ensures a.positive == |RowsSaying(rows, w, {Malicious})|
    ensures a.supporting == |RowsSaying(rows, w, {Malicious, Suspicious})|
    ensures a.responded == |ConfiguredRows(rows, w)| && a.enabled == |w|
    ensures IsShare(a.confidence, a.positive, a.responded) && IsShare(a.coverage, a.responded, a.enabled)
  {
    a := AggregateOf(rows, w);
    CountIsSaying(rows, w, Condemns, {Malicious});
    CountIsSaying(rows, w, Supports, {Malicious, Suspicious});
    RespondedIsConfigured(rows, w);
    RatioIsShare(a.positive, a.responded);
    RatioIsShare(a.responded, a.enabled);
  }

  /** The maximum is over the verdicts that count, and the label of a row without verdict is unknown. */
  lemma {:induction false} LabelsAre(rows: seq<Row>, w: Weights, e: Row) returns (a: Aggregate)
    requires Distinct(rows) && e in rows && e.provider in w
    ensures a == AggregateOf(rows, w) && e.provider in a.verdicts
    ensures a.verdicts[e.provider] ==
            if e.verdict in {None, Some(Other(""))} then Other("unknown") else e.verdict.value
    ensures Decides(e) && e.score.Some? ==> e.score.value <= a.maxScore
  {
    a := AggregateOf(rows, w);
    var rs := Responded(rows, w);
    RespondedMembers(rows, w);
    RespondedDistinct(rows, w);
    VerdictsAreLabels(rs);
    MaxIsGreatest(rs);
  }

  // ---------- The weighted mean ----------

  ghost predicate Decides(e: Row) {
    e.verdict in {Some(Benign), Some(Suspicious), Some(Malicious)}
  }

  /** The configured providers with a verdict that counts. */
  ghost function Deciding(rows: seq<Row>, w: Weights): set<string> {
    set e | e in rows && e.provider in w && Decides(e) :: e.provider
  }

  lemma {:induction false} DecidingSnoc(rows: seq<Row>, e: Row, w: Weights)
    ensures Deciding(rows + [e], w) ==
            if e.provider in w && Decides(e) then Deciding(rows, w) + {e.provider} else Deciding(rows, w)
  {
    if e.provider in w && Decides(e) {
      assert Deciding(rows + [e], w) == Deciding(rows, w) + {e.provider};
    } else {
      assert Deciding(rows + [e], w) == Deciding(rows, w);
    }
  }

  lemma {:induction false} DecidesIff(e: Row)
    ensures Decides(e) <==> Concrete(e)
  {
  }

  /** The part of the weights that belongs to the given providers. */
  ghost function Restricted(w: Weights, ps: set<string>): Weights {
    map p | p in w && p in ps :: w[p]
  }

  lemma {:induction false} OneMoreWeight(w: Weights, ps: set<string>, p: string)
    requires p in w && p !in ps
    ensures Total(Restricted(w, ps + {p})) == Total(Restricted(w, ps)) + w[p]
  {
    var more := Restricted(w, ps + {p});
    TotalWithout(more, p);
    assert more - {p} == Restricted(w, ps);
  }

  lemma {:induction false} NotYetDeciding(rows: seq<Row>, e: Row, w: Weights)
    requires Distinct(rows + [e])
    ensures e.provider !in Deciding(rows, w)
  {
    forall d | d in rows ensures d.provider != e.provider {
      var k :| 0 <= k < |rows| && rows[k] == d;
      assert (rows + [e])[k] == d && (rows + [e])[|rows|] == e;
    }
  }

  lemma {:induction false} DecidingWeightSnoc(rows: seq<Row>, e: Row, w: Weights)
    requires Distinct(rows + [e])
    ensures Total(Restricted(w, Deciding(rows + [e], w))) == Total(Restricted(w, Deciding(rows, w))) + WeightIn(w, e)
  {
    DecidingSnoc(rows, e, w);
    NotYetDeciding(rows, e, w);
    if e.provider in w && Decides(e) {
      OneMoreWeight(w, Deciding(rows, w), e.provider);
    }
  }

  /** What the row adds to the weights of the deciding providers. */
  ghost function WeightIn(w: Weights, e: Row): real {
    if e.provider in w && Decides(e) then w[e.provider] else 0.0
  }

  lemma {:induction false} UsedSnoc(rows: seq<Row>, e: Row, w: Weights)
    ensures Sum(Responded(rows + [e], w), WeightUsed(w)) == Sum(Responded(rows, w), WeightUsed(w)) + WeightIn(w, e)
  {
    RespondedSnoc(rows, e, w);
    SumSnoc(Responded(rows, w), e, WeightUsed(w));
  }

  lemma {:induction false} UsedIsWeightOfDeciding(rows: seq<Row>, w: Weights)
    requires Distinct(rows)
    ensures Sum(Responded(rows, w), WeightUsed(w)) == Total(Restricted(w, Deciding(rows, w)))
    decreases |rows|
  {
    if rows == [] {
      assert Restricted(w, Deciding(rows, w)) == map[];
    } else {
      var front, e := rows[..|rows| - 1], rows[|rows| - 1];
      assert rows == front + [e];
      UsedIsWeightOfDeciding(front, w);
      UsedSnoc(front, e, w);
      DecidingWeightSnoc(front, e, w);
    }
  }

  /** A verdict with the score `s` and the weight `x` shifts the mean from `r` to `t`, both scaled by `total`. */
  ghost predicate Shifts(r: real, used: real, s: real, x: real, total: real, t: real) {
    t * (used + x) == r * used + s * x * total
  }

  /**
   The mean is weighted: a further verdict shifts the risk in proportion to its provider's weight among
   the weights of all providers with a verdict.
   */
  lemma {:induction false} VerdictShiftsRisk(rows: seq<Row>, e: Row, w: Weights) returns (used: real)
    requires Distinct(rows) && e.provider in w && e.score.Some? && Decides(e) && w[e.provider] > 0.0
    ensures used == Total(Restricted(w, Deciding(rows, w)))
    ensures used > 0.0 ==> Shifts(Risk(rows, w), used, e.score.value, w[e.provider], Total(w), Risk(rows + [e], w))
  {
    UsedIsWeightOfDeciding(rows, w);
    DecidesIff(e);
    var sum, share;
    sum, used, share := OneMoreRow(rows, e, w);
    if used > 0.0 {
      RescaleShifts(sum, used, Total(w), e.score.value, w[e.provider], share);
    }
  }

  lemma {:induction false} RescaleShifts(sum: real, used: real, total: real, s: real, x: real, share: real)
    requires used > 0.0 && x > 0.0 && share == s * x
    ensures Shifts(Rescale(sum, used, total), used, s, x, total, Rescale(sum + share, used + x, total))
  {
    var m, n := sum / used, (sum + share) / (used + x);
    assert m * used == sum && n * (used + x) == sum + share;
    assert n * total * (used + x) == (sum + share) * total;
    assert m * total * used == sum * total;
  }

  lemma {:induction false} SingleRow(e: Row, w: Weights)
    requires e.provider in w
    ensures Risk([e], w) == Rescale(Weighted(w)(e), WeightUsed(w)(e), Total(w))
  {
    assert [e] == [] + [e];
    RespondedSnoc([], e, w);
    SumSnoc([], e, Weighted(w));
    SumSnoc([], e, WeightUsed(w));
  }

  lemma {:induction false} RescaleOne(s: real, x: real, total: real)
    requires x > 0.0
    ensures Rescale(s * x, x, total) == s * total
  {
    Quotient(s, s, s * x, x);
  }

  /** A single verdict gives its score, scaled; a row without one gives 0. */
  lemma {:induction false} OneVerdictIsScaled(e: Row, w: Weights)
    requires e.provider in w && w[e.provider] > 0.0 && e.score.Some?
    ensures Decides(e) ==> Risk([e], w) == e.score.value * Total(w)
    ensures !Decides(e) ==> Risk([e], w) == 0.0
  {
    SingleRow(e, w);
    if Decides(e) {
      RescaleOne(e.score.value, w[e.provider], Total(w));
    }
  }

  /** Two rows at the end that every part of the aggregate takes for the same. */
  lemma {:induction false} SameLastRow(rs: seq<Row>, e: Row, f: Row, w: Weights)
    requires e.provider == f.provider && e.verdict == f.verdict && Score(e) == Score(f)
    ensures Sum(rs + [e], Weighted(w)) == Sum(rs + [f], Weighted(w))
    ensures Sum(rs + [e], WeightUsed(w)) == Sum(rs + [f], WeightUsed(w))
    ensures Count(rs + [e], Condemns) == Count(rs + [f], Condemns)
    ensures Count(rs + [e], Supports) == Count(rs + [f], Supports)
    ensures MaxScore(rs + [e]) == MaxScore(rs + [f]) && Verdicts(rs + [e]) == Verdicts(rs + [f])
  {
    assert (rs + [e])[..|rs|] == rs == (rs + [f])[..|rs|];
  }

  /** A row without a score counts like one with the score 0. */
  lemma {:induction false} MissingScoreIsZero(rows: seq<Row>, p: string, v: Option<Verdict>, w: Weights)
    ensures AggregateOf(rows + [Row(p, v, None)], w) == AggregateOf(rows + [Row(p, v, Some(0.0))], w)
  {
    var e, f := Row(p, v, None), Row(p, v, Some(0.0));
    RespondedSnoc(rows, e, w);
    RespondedSnoc(rows, f, w);
    SameLastRow(Responded(rows, w), e, f, w);
  }

}
