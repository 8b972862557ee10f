/**
 The confidence score of campaigns/detector.py, over exact reals (the code rounds the stored
 value to three digits; that rounding is not modelled).
 */
module CampaignConfidence {
  import opened CampaignClusters
  import opened Sequences

  // ---------- The score ----------

  function Union(fs: seq<Finding>): set<string> {
    set f, t | f in fs && t in f.techniques :: t
  }

  /** In how many findings the technique appears. */
  function TechniqueCount(t: string, fs: seq<Finding>): nat {
    if fs == [] then 0
    else TechniqueCount(t, fs[1..]) + if t in fs[0].techniques then 1 else 0
  }

  function Shared(fs: seq<Finding>): set<string> {
    set t | t in Union(fs) && 2 * TechniqueCount(t, fs) >= |fs|
  }

  /** The fraction of techniques shared by at least half of the findings. */
  function OverlapRatio(fs: seq<Finding>): real {
    if |fs| < 2 || Union(fs) == {} then 0.0
    else |Shared(fs)| as real / |Union(fs)| as real
  }

  function Latest(fs: seq<Finding>): int
    requires fs != []
  {
    if |fs| == 1 then fs[0].firstSeen
    else
      var rest := Latest(fs[1..]);
      if fs[0].firstSeen >= rest then fs[0].firstSeen else rest
  }

  function Earliest(fs: seq<Finding>): int
    requires fs != []
  {
    if |fs| == 1 then fs[0].firstSeen
    else
      var rest := Earliest(fs[1..]);
      if fs[0].firstSeen <= rest then fs[0].firstSeen else rest
  }

  function Capped(x: real): real { if x < 1.0 then x else 1.0 }

  /** A span of zero counts as a hundredth of an hour. */
  function SpanHours(fs: seq<Finding>): real
    requires fs != []
  {
    if Latest(fs) == Earliest(fs) then 0.01 else (Latest(fs) - Earliest(fs)) as real / 3600.0
  }

  function TemporalDensity(fs: seq<Finding>): real
    requires fs != [] && SpanHours(fs) != 0.0
  {
    Capped(|fs| as real / SpanHours(fs) / 5.0)
  }

  function Assets(fs: seq<Finding>): set<string> {
    set f | f in fs && f.asset != "" :: f.asset
  }

  function Sources(fs: seq<Finding>): set<string> {
    set f | f in fs :: f.source
  }

  function Confidence(fs: seq<Finding>): real
    requires fs != []
  {
    SpanIsPositive(fs);
    OverlapRatio(fs) * 0.4
    + TemporalDensity(fs) * 0.3
    + Capped(|Assets(fs)| as real / 5.0) * 0.2
    + Capped(|Sources(fs)| as real / 3.0) * 0.1
  }

  // ---------- Bounds ----------

  lemma {:induction false} LatestIsMaximum(fs: seq<Finding>)
    requires fs != []
    ensures (exists f :: f in fs && f.firstSeen == Latest(fs)) && forall f :: f in fs ==> f.firstSeen <= Latest(fs)
    decreases |fs|
  {
    if |fs| == 1 {
      assert fs[0] in fs;
    } else {
      LatestIsMaximum(fs[1..]);
      assert fs == [fs[0]] + fs[1..];
      var g :| g in fs[1..] && g.firstSeen == Latest(fs[1..]);
      assert fs[0] in fs && g in fs;
    }
  }

  lemma {:induction false} EarliestIsMinimum(fs: seq<Finding>)
    requires fs != []
    ensures (exists f :: f in fs && f.firstSeen == Earliest(fs)) && forall f :: f in fs ==> Earliest(fs) <= f.firstSeen
    decreases |fs|
  {
    if |fs| == 1 {
      assert fs[0] in fs;
    } else {
      EarliestIsMinimum(fs[1..]);
      assert fs == [fs[0]] + fs[1..];
      var g :| g in fs[1..] && g.firstSeen == Earliest(fs[1..]);
      assert fs[0] in fs && g in fs;
    }
  }

  lemma {:induction false} SpanIsPositive(fs: seq<Finding>)
    requires fs != []
    ensures SpanHours(fs) > 0.0
  {
    LatestIsMaximum(fs);
    EarliestIsMinimum(fs);
    assert fs[0] in fs;
  }

  lemma {:induction false} CommonIsCounted(t: string, fs: seq<Finding>)
    requires SharedByAll(t, fs)
    ensures TechniqueCount(t, fs) == |fs|
    decreases |fs|
  {
    if fs != [] {
      assert fs[0] in fs && forall f :: f in fs[1..] ==> f in fs;
      CommonIsCounted(t, fs[1..]);
    }
  }

  lemma {:induction false} RatioBounds(x: nat, y: nat)
    requires x <= y && 0 < y
    ensures 0.0 <= x as real / y as real <= 1.0
    ensures 0 < x ==> 0.0 < x as real / y as real
  {
  }

  lemma {:induction false} OverlapBounds(fs: seq<Finding>, t: string)
    requires |fs| >= 2 && SharedByAll(t, fs)
    ensures 0.0 < OverlapRatio(fs) <= 1.0
  {
    CommonIsCounted(t, fs);
    assert fs[0] in fs && t in Union(fs) && t in Shared(fs);
    SubsetSize(Shared(fs), Union(fs));
    assert |Shared(fs) - {t}| + 1 == |Shared(fs)|;
    RatioBounds(|Shared(fs)|, |Union(fs)|);
  }

  lemma {:induction false} DensityBound(n: nat, hours: real)
    requires 3 <= n && 0.0 < hours <= 6.0
    ensures n as real / hours >= 0.5
  {
    assert n as real / hours * hours == n as real;
  }

  lemma {:induction false} TemporalBounds(fs: seq<Finding>)
    requires |fs| >= 3 && Latest(fs) - Earliest(fs) <= 6 * 3600
    requires SpanHours(fs) > 0.0
    ensures 0.1 <= TemporalDensity(fs) <= 1.0
  {
    assert SpanHours(fs) <= 6.0;
    DensityBound(|fs|, SpanHours(fs));
  }

  /** Three findings within six hours that share a technique score above 0.063 and at most 1. */
  lemma {:induction false} ConfidenceBounds(fs: seq<Finding>, t: string)
    requires |fs| >= 3 && SharedByAll(t, fs) && Latest(fs) - Earliest(fs) <= 6 * 3600
    ensures 0.063 < Confidence(fs) <= 1.0
  {
    OverlapBounds(fs, t);
    SpanIsPositive(fs);
    TemporalBounds(fs);
    assert fs[0] in fs && fs[0].source in Sources(fs);
    assert |Sources(fs)| >= 1;
    var s := Capped(|Sources(fs)| as real / 3.0);
    assert |Sources(fs)| as real >= 1.0;
    assert 1.0 / 3.0 <= s <= 1.0;
    var a := Capped(|Assets(fs)| as real / 5.0);
    assert 0.0 <= a <= 1.0;
  }

  /** Every cluster the detector returns has confidence in (0.063, 1]. */
  lemma {:induction false} EveryClusterIsConfident(findings: seq<Finding>, c: nat)
    requires NonEmptyTechniques(findings) && UniqueIds(findings)
    requires c < |Greedy(SortByTime(findings), {})|
    ensures var cluster := Greedy(SortByTime(findings), {})[c];
            cluster != [] && 0.063 < Confidence(cluster) <= 1.0
  {
    ClustersAreDisjointCampaigns(findings);
    var cluster := Greedy(SortByTime(findings), {})[c];
    assert IsCampaign(cluster, findings);
    var t :| SharedByAll(t, cluster);
    LatestIsMaximum(cluster);
    EarliestIsMinimum(cluster);
    ConfidenceBounds(cluster, t);
  }

  // ---------- Order does not matter ----------

  lemma {:induction false} CountWithoutOne(t: string, fs: seq<Finding>, k: nat)
    requires k < |fs|
    ensures TechniqueCount(t, fs) == TechniqueCount(t, Without(fs, k)) + if t in fs[k].techniques then 1 else 0
    decreases k
  {
    if k == 0 {
      assert Without(fs, 0) == fs[1..];
    } else {
      assert Without(fs, k)[1..] == Without(fs[1..], k - 1);
      CountWithoutOne(t, fs[1..], k - 1);
    }
  }

  lemma {:induction false} CountIsOrderFree(t: string, fs: seq<Finding>, gs: seq<Finding>)
    requires multiset(fs) == multiset(gs)
    ensures TechniqueCount(t, fs) == TechniqueCount(t, gs)
    decreases |fs|
  {
    if fs == [] {
      SameMembers(fs, gs);
    } else {
      var k := MatchHead(fs, gs);
      CountWithoutOne(t, gs, k);
      CountIsOrderFree(t, fs[1..], Without(gs, k));
    }
  }

  lemma {:induction false} SpanIsOrderFree(fs: seq<Finding>, gs: seq<Finding>)
    requires fs != [] && gs != [] && forall f :: f in fs <==> f in gs
    ensures Latest(fs) == Latest(gs) && Earliest(fs) == Earliest(gs)
  {
    LatestIsMaximum(fs);
    LatestIsMaximum(gs);
    EarliestIsMinimum(fs);
    EarliestIsMinimum(gs);
  }

  /** Reordering a cluster does not change its confidence. */
  lemma {:induction false} ConfidenceIsOrderFree(fs: seq<Finding>, gs: seq<Finding>)
    requires fs != [] && gs != [] && multiset(fs) == multiset(gs)
    ensures Confidence(fs) == Confidence(gs)
  {
    SameMembers(fs, gs);
    SpanIsOrderFree(fs, gs);
    assert Union(fs) == Union(gs) && Assets(fs) == Assets(gs) && Sources(fs) == Sources(gs);
    forall t ensures TechniqueCount(t, fs) == TechniqueCount(t, gs) {
      CountIsOrderFree(t, fs, gs);
    }
    assert Shared(fs) == Shared(gs);
  }

  // ---------- What the score is made of ----------

  function Min(x: nat, y: nat): nat { if x < y then x else y }

  /** The earliest and the latest of the findings. */
  ghost predicate IsSpan(fs: seq<Finding>, lo: int, hi: int) {
    && (exists f :: f in fs && f.firstSeen == lo) && (exists f :: f in fs && f.firstSeen == hi)
    && forall f :: f in fs ==> lo <= f.firstSeen <= hi
  }

  /** Five findings an hour, or all at once, count fully. */
  ghost function Rate(n: nat, seconds: int): real
    requires seconds >= 0
  {
    if 720 * n >= seconds then 1.0 else 720.0 * n as real / seconds as real
  }

  ghost function AssetNames(fs: seq<Finding>): set<string> {
    set i | 0 <= i < |fs| && fs[i].asset != "" :: fs[i].asset
  }

  ghost function SourceNames(fs: seq<Finding>): set<string> {
    set i | 0 <= i < |fs| :: fs[i].source
  }

  /** The positions of the findings that have the technique. */
  ghost function Holders(t: string, fs: seq<Finding>): set<nat> {
    set i: nat | i < |fs| && t in fs[i].techniques
  }

  ghost function AllTechniques(fs: seq<Finding>): set<string> {
    set i, t | 0 <= i < |fs| && t in fs[i].techniques :: t
  }

  ghost function HalfTechniques(fs: seq<Finding>): set<string> {
    set t | t in AllTechniques(fs) && 2 * |Holders(t, fs)| >= |fs|
  }

  /** The fraction of techniques that at least half of the findings have. */
  ghost function SharedFraction(fs: seq<Finding>): real {
    if |fs| < 2 || AllTechniques(fs) == {} then 0.0
    else |HalfTechniques(fs)| as real / |AllTechniques(fs)| as real
  }

  lemma {:induction false} CountIsHolders(t: string, fs: seq<Finding>)
    ensures TechniqueCount(t, fs) == |Holders(t, fs)|
    decreases |fs|
  {
    if fs == [] {
      assert Holders(t, fs) == {};
    } else {
      var n := |fs| - 1;
      CountWithoutOne(t, fs, n);
      assert Without(fs, n) == fs[..n];
      CountIsHolders(t, fs[..n]);
      assert Holders(t, fs) == Holders(t, fs[..n]) + if t in fs[n].techniques then {n} else {};
    }
  }

  lemma {:induction false} NamesAreAll(fs: seq<Finding>)
    ensures Assets(fs) == AssetNames(fs) && Sources(fs) == SourceNames(fs) && Union(fs) == AllTechniques(fs)
  {
    forall f | f in fs ensures exists i :: 0 <= i < |fs| && fs[i] == f {
    }
  }

  lemma {:induction false} OverlapIsFraction(fs: seq<Finding>)
    ensures OverlapRatio(fs) == SharedFraction(fs)
  {
    NamesAreAll(fs);
    forall t ensures TechniqueCount(t, fs) == |Holders(t, fs)| {
      CountIsHolders(t, fs);
    }
    assert Shared(fs) == HalfTechniques(fs);
  }

  lemma {:induction false} SpanHoursAre(fs: seq<Finding>, lo: int, hi: int)
    requires fs != [] && IsSpan(fs, lo, hi)
    ensures lo <= hi && SpanHours(fs) == if lo == hi then 0.01 else (hi - lo) as real / 3600.0
  {
    LatestIsMaximum(fs);
    EarliestIsMinimum(fs);
    assert Latest(fs) == hi && Earliest(fs) == lo;
  }

  lemma {:induction false} DensityIsRate(fs: seq<Finding>, lo: int, hi: int)
    requires fs != [] && IsSpan(fs, lo, hi) && SpanHours(fs) > 0.0
    ensures lo <= hi && TemporalDensity(fs) == Rate(|fs|, hi - lo)
  {
    SpanHoursAre(fs, lo, hi);
    CappedIsRate(|fs|, hi - lo, SpanHours(fs));
  }

  lemma {:induction false} CappedIsRate(n: nat, seconds: int, hours: real)
    requires n > 0 && seconds >= 0 && hours > 0.0
    requires hours == if seconds == 0 then 0.01 else seconds as real / 3600.0
    ensures Capped(n as real / hours / 5.0) == Rate(n, seconds)
  {
    if seconds > 0 {
      PerHour(n as real, seconds as real);
      ReachesOne(720.0 * n as real, seconds as real);
    } else {
      assert n as real / 0.01 / 5.0 == 20.0 * n as real;
    }
  }

  lemma {:induction false} PerHour(x: real, s: real)
    requires s > 0.0
    ensures x / (s / 3600.0) / 5.0 == 720.0 * x / s
  {
    var h := s / 3600.0;
    assert h * 3600.0 == s;
    assert x / h * h == x;
    assert (720.0 * x / s) * s == 720.0 * x;
    var a, b := x / h / 5.0, 720.0 * x / s;
    assert a * 5.0 * h == x;
    assert (a - b) * s == 0.0 by {
      assert a * s == a * 5.0 * h * 720.0;
    }
  }

  lemma {:induction false} ReachesOne(x: real, s: real)
    requires s > 0.0
    ensures x >= s <==> x / s >= 1.0
  {
    var q := x / s;
    assert q * s == x;
    if q < 1.0 {
      assert (1.0 - q) * s > 0.0;
    } else {
      assert (q - 1.0) * s >= 0.0;
    }
  }

  /** The score, by what it is made of. */
  lemma {:induction false} ConfidenceIs(fs: seq<Finding>, lo: int, hi: int)
    returns (fraction: real, rate: real, assets: nat, sources: nat)
    requires fs != [] && IsSpan(fs, lo, hi)
    ensures lo <= hi && fraction == SharedFraction(fs) && rate == Rate(|fs|, hi - lo)
    ensures assets == Min(|AssetNames(fs)|, 5) && sources == Min(|SourceNames(fs)|, 3)
    ensures Confidence(fs) == 0.4 * fraction + 0.3 * rate + 0.04 * assets as real + sources as real / 30.0
  {
    fraction, rate := SharedFraction(fs), Rate(|fs|, if lo <= hi then hi - lo else 0);
    assets, sources := Min(|AssetNames(fs)|, 5), Min(|SourceNames(fs)|, 3);
    SpanIsPositive(fs);
    DensityIsRate(fs, lo, hi);
    OverlapIsFraction(fs);
    NamesAreAll(fs);
  }

  lemma {:induction false} SpanOf(fs: seq<Finding>) returns (lo: int, hi: int)
    requires fs != []
    ensures IsSpan(fs, lo, hi)
  {
    LatestIsMaximum(fs);
    EarliestIsMinimum(fs);
    lo, hi := Earliest(fs), Latest(fs);
  }

  /** Clusters that agree in everything but one respect have scores that differ by that respect. */
  lemma {:induction false} AssetsMoveScore(fs: seq<Finding>, gs: seq<Finding>)
    requires fs != [] && |fs| == |gs| && forall i :: 0 <= i < |fs| ==> gs[i] == fs[i].(asset := gs[i].asset)
    ensures Confidence(gs) - Confidence(fs) ==
            0.04 * (Min(|AssetNames(gs)|, 5) - Min(|AssetNames(fs)|, 5)) as real
  {
    var lo, hi := SpanOf(fs);
    SameTimes(fs, gs, lo, hi);
    SameTechniques(fs, gs);
    SameSources(fs, gs);
    var f, r, a, s := ConfidenceIs(fs, lo, hi);
    var f', r', a', s' := ConfidenceIs(gs, lo, hi);
  }

  lemma {:induction false} SourcesMoveScore(fs: seq<Finding>, gs: seq<Finding>)
    requires fs != [] && |fs| == |gs| && forall i :: 0 <= i < |fs| ==> gs[i] == fs[i].(source := gs[i].source)
    ensures Confidence(gs) - Confidence(fs) ==
            (Min(|SourceNames(gs)|, 3) - Min(|SourceNames(fs)|, 3)) as real / 30.0
  {
    var lo, hi := SpanOf(fs);
    SameTimes(fs, gs, lo, hi);
    SameTechniques(fs, gs);
    SameAssets(fs, gs);
    var f, r, a, s := ConfidenceIs(fs, lo, hi);
    var f', r', a', s' := ConfidenceIs(gs, lo, hi);
  }

  lemma {:induction false} TimesMoveScore(fs: seq<Finding>, gs: seq<Finding>, lo: int, hi: int, lo': int, hi': int)
    requires fs != [] && |fs| == |gs| && forall i :: 0 <= i < |fs| ==> gs[i] == fs[i].(firstSeen := gs[i].firstSeen)
    requires IsSpan(fs, lo, hi) && IsSpan(gs, lo', hi')
    ensures lo <= hi && lo' <= hi'
    ensures Confidence(gs) - Confidence(fs) == 0.3 * (Rate(|gs|, hi' - lo') - Rate(|fs|, hi - lo))
  {
    SameTechniques(fs, gs);
    SameAssets(fs, gs);
    SameSources(fs, gs);
    var f, r, a, s := ConfidenceIs(fs, lo, hi);
    var f', r', a', s' := ConfidenceIs(gs, lo', hi');
  }

  lemma {:induction false} TechniquesMoveScore(fs: seq<Finding>, gs: seq<Finding>)
    requires fs != [] && |fs| == |gs| && forall i :: 0 <= i < |fs| ==> gs[i] == fs[i].(techniques := gs[i].techniques)
    ensures Confidence(gs) - Confidence(fs) == 0.4 * (SharedFraction(gs) - SharedFraction(fs))
  {
    var lo, hi := SpanOf(fs);
    SameTimes(fs, gs, lo, hi);
    SameAssets(fs, gs);
    SameSources(fs, gs);
    var f, r, a, s := ConfidenceIs(fs, lo, hi);
    var f', r', a', s' := ConfidenceIs(gs, lo, hi);
  }

  lemma {:induction false} SameAssets(fs: seq<Finding>, gs: seq<Finding>)
    requires |fs| == |gs| && forall i :: 0 <= i < |fs| ==> gs[i].asset == fs[i].asset
    ensures AssetNames(fs) == AssetNames(gs)
  {
  }

  lemma {:induction false} SameSources(fs: seq<Finding>, gs: seq<Finding>)
    requires |fs| == |gs| && forall i :: 0 <= i < |fs| ==> gs[i].source == fs[i].source
    ensures SourceNames(fs) == SourceNames(gs)
  {
  }

  lemma {:induction false} SameTimes(fs: seq<Finding>, gs: seq<Finding>, lo: int, hi: int)
    requires |fs| == |gs| && (forall i :: 0 <= i < |fs| ==> gs[i].firstSeen == fs[i].firstSeen) && IsSpan(fs, lo, hi)
    ensures IsSpan(gs, lo, hi)
  {
    var a :| 0 <= a < |fs| && fs[a].firstSeen == lo;
    var b :| 0 <= b < |fs| && fs[b].firstSeen == hi;
    assert gs[a] in gs && gs[b] in gs;
    forall g | g in gs ensures lo <= g.firstSeen <= hi {
      var i :| 0 <= i < |gs| && gs[i] == g;
      assert fs[i] in fs;
    }
  }

  lemma {:induction false} SameTechniques(fs: seq<Finding>, gs: seq<Finding>)
    requires |fs| == |gs| && forall i :: 0 <= i < |fs| ==> gs[i].techniques == fs[i].techniques
    ensures SharedFraction(fs) == SharedFraction(gs)
  {
    assert AllTechniques(fs) == AllTechniques(gs);
    forall t ensures Holders(t, fs) == Holders(t, gs) {
    }
    assert HalfTechniques(fs) == HalfTechniques(gs);
  }

  /** Full confidence takes all four: only shared techniques, five findings an hour, five assets and three sources. */
  lemma {:induction false} FullConfidenceIff(fs: seq<Finding>, lo: int, hi: int)
    requires fs != [] && IsSpan(fs, lo, hi)
    ensures Confidence(fs) == 1.0 <==>
            && |fs| >= 2 && AllTechniques(fs) != {} && HalfTechniques(fs) == AllTechniques(fs)
            && 720 * |fs| >= hi - lo && |AssetNames(fs)| >= 5 && |SourceNames(fs)| >= 3
  {
    var f, r, a, s := ConfidenceIs(fs, lo, hi);
    FractionIsFull(fs);
    RateIsFull(|fs|, hi - lo);
  }

  lemma {:induction false} FractionIsFull(fs: seq<Finding>)
    ensures SharedFraction(fs) <= 1.0
    ensures SharedFraction(fs) == 1.0 <==>
            |fs| >= 2 && AllTechniques(fs) != {} && HalfTechniques(fs) == AllTechniques(fs)
  {
    var half, all := HalfTechniques(fs), AllTechniques(fs);
    SubsetSize(half, all);
    if all != {} {
      RatioBounds(|half|, |all|);
      var q := |half| as real / |all| as real;
      assert q * |all| as real == |half| as real;
      if |half| == |all| {
        assert |all - half| == 0;
      }
    }
  }

  lemma {:induction false} RateIsFull(n: nat, seconds: int)
    requires seconds >= 0
    ensures Rate(n, seconds) <= 1.0 && (Rate(n, seconds) == 1.0 <==> 720 * n >= seconds)
  {
    if 720 * n < seconds {
      ReachesOne(720.0 * n as real, seconds as real);
    }
  }
}
