/**
 Greedy campaign clustering of campaigns/detector.py.

 The specification walks the whole tail of the sorted findings; the code breaks off at the first
 finding past the window, which is sound because the list is sorted.
 */
module CampaignClusters {
  import opened Sequences

  const WINDOW_SECONDS: int := 6 * 3600
  const MIN_FINDINGS: nat := 3

  /** Times are in whole seconds. */
  datatype Finding = Finding(id: int, firstSeen: int, techniques: set<string>, asset: string, source: string)

  // ---------- Sorting by first_seen (stable) ----------

  function Insert(f: Finding, sorted: seq<Finding>): seq<Finding> {
    if sorted == [] then [f]
    else if f.firstSeen <= sorted[0].firstSeen then [f] + sorted
    else [sorted[0]] + Insert(f, sorted[1..])
  }

  function SortByTime(fs: seq<Finding>): seq<Finding> {
    if fs == [] then [] else Insert(fs[0], SortByTime(fs[1..]))
  }

  ghost predicate Sorted(fs: seq<Finding>) {
    forall i, j :: 0 <= i <= j < |fs| ==> fs[i].firstSeen <= fs[j].firstSeen
  }

  ghost predicate UniqueIds(fs: seq<Finding>) {
    forall i, j :: 0 <= i < j < |fs| ==> fs[i].id != fs[j].id
  }

  lemma {:induction false} InsertPermutes(f: Finding, sorted: seq<Finding>)
    ensures multiset(Insert(f, sorted)) == multiset{f} + multiset(sorted)
    decreases |sorted|
  {
    if sorted != [] {
      assert sorted == [sorted[0]] + sorted[1..];
      InsertPermutes(f, sorted[1..]);
    }
  }

  lemma {:induction false} InsertMembers(f: Finding, sorted: seq<Finding>)
    ensures forall x :: x in Insert(f, sorted) <==> x == f || x in sorted
  {
    InsertPermutes(f, sorted);
    forall x ensures x in Insert(f, sorted) <==> x == f || x in sorted {
      assert x in multiset(Insert(f, sorted)) <==> x == f || x in multiset(sorted);
    }
  }

  lemma {:induction false} InsertSorts(f: Finding, sorted: seq<Finding>)
    requires Sorted(sorted)
    ensures Sorted(Insert(f, sorted))
    decreases |sorted|
  {
    if sorted != [] && f.firstSeen > sorted[0].firstSeen {
      InsertSorts(f, sorted[1..]);
      InsertMembers(f, sorted[1..]);
      var rest := Insert(f, sorted[1..]);
      forall x | x in rest ensures sorted[0].firstSeen <= x.firstSeen {
        if x in sorted[1..] {
          var k :| 0 <= k < |sorted[1..]| && sorted[1..][k] == x;
          assert sorted[k + 1] == x;
        }
      }
    }
  }

  lemma {:induction false} InsertKeepsIdsUnique(f: Finding, sorted: seq<Finding>)
    requires UniqueIds(sorted) && forall x :: x in sorted ==> x.id != f.id
    ensures UniqueIds(Insert(f, sorted))
    decreases |sorted|
  {
    if sorted != [] && f.firstSeen > sorted[0].firstSeen {
      InsertKeepsIdsUnique(f, sorted[1..]);
      InsertMembers(f, sorted[1..]);
      forall x | x in Insert(f, sorted[1..]) ensures x.id != sorted[0].id {
        if x in sorted[1..] {
          var k :| 0 <= k < |sorted[1..]| && sorted[1..][k] == x;
          assert sorted[k + 1] == x;
        }
      }
    }
  }

  lemma {:induction false} SortSorts(fs: seq<Finding>)
    ensures Sorted(SortByTime(fs)) && multiset(SortByTime(fs)) == multiset(fs)
    ensures forall f :: f in SortByTime(fs) <==> f in fs
    ensures UniqueIds(fs) ==> UniqueIds(SortByTime(fs))
    decreases |fs|
  {
    if fs != [] {
      assert fs == [fs[0]] + fs[1..];
      SortSorts(fs[1..]);
      InsertSorts(fs[0], SortByTime(fs[1..]));
      InsertPermutes(fs[0], SortByTime(fs[1..]));
      InsertMembers(fs[0], SortByTime(fs[1..]));
      if UniqueIds(fs) {
        forall x | x in SortByTime(fs[1..]) ensures x.id != fs[0].id {
          var k :| 0 <= k < |fs[1..]| && fs[1..][k] == x;
          assert fs[k + 1] == x;
        }
        InsertKeepsIdsUnique(fs[0], SortByTime(fs[1..]));
      }
    }
  }

  // ---------- The specification ----------

  /** The techniques every member has. */
  function Common(cluster: seq<Finding>): set<string>
    requires cluster != []
  {
    if |cluster| == 1 then cluster[0].techniques
    else Common(cluster[..|cluster| - 1]) * cluster[|cluster| - 1].techniques
  }

  /** At least half of the candidate's techniques are common to the cluster. */
  predicate Overlaps(common: set<string>, f: Finding) {
    2 * |common * f.techniques| >= if f.techniques == {} then 1 else |f.techniques|
  }

  predicate InWindow(seed: Finding, f: Finding) {
    f.firstSeen <= seed.firstSeen + WINDOW_SECONDS
  }

  function Ids(cluster: seq<Finding>): set<int> {
    set f | f in cluster :: f.id
  }

  /** Offers every finding of `tail` to the cluster, in order. */
  function Grow(cluster: seq<Finding>, tail: seq<Finding>, used: set<int>): seq<Finding>
    requires cluster != []
    decreases |tail|
  {
    if tail == [] then cluster
    else if tail[0].id !in used && InWindow(cluster[0], tail[0]) && Overlaps(Common(cluster), tail[0]) then
      Grow(cluster + [tail[0]], tail[1..], used)
    else Grow(cluster, tail[1..], used)
  }

  /** Tries each finding as a seed, in order; clusters of at least `MIN_FINDINGS` claim their members. */
  function Greedy(fs: seq<Finding>, used: set<int>): seq<seq<Finding>>
    decreases |fs|
  {
    if fs == [] then []
    else if fs[0].id in used then Greedy(fs[1..], used)
    else
      var cluster := Grow([fs[0]], fs[1..], used);
      if |cluster| >= MIN_FINDINGS then [cluster] + Greedy(fs[1..], used + Ids(cluster))
      else Greedy(fs[1..], used)
  }

  // ---------- The code ----------

  lemma {:induction false} PastWindowAddsNothing(cluster: seq<Finding>, tail: seq<Finding>, used: set<int>)
    requires cluster != [] && forall f :: f in tail ==> !InWindow(cluster[0], f)
    ensures Grow(cluster, tail, used) == cluster
    decreases |tail|
  {
    if tail != [] {
      PastWindowAddsNothing(cluster, tail[1..], used);
    }
  }

  /** The inner loop: grows the cluster seeded at position `i`, stopping at the end of the window. */
  method GrowFrom(sorted: seq<Finding>, i: nat, used: set<int>) returns (cluster: seq<Finding>)
    requires Sorted(sorted) && i < |sorted|
    ensures cluster == Grow([sorted[i]], sorted[i + 1..], used)
  {
    var seed := sorted[i];
    cluster := [seed];
    var j := i + 1;
    while j < |sorted|
      invariant i < j <= |sorted|
      invariant cluster != [] && cluster[0] == seed
      invariant Grow(cluster, sorted[j..], used) == Grow([seed], sorted[i + 1..], used)
    {
      var candidate := sorted[j];
      assert sorted[j..][0] == candidate && sorted[j..][1..] == sorted[j + 1..];
      if candidate.id !in used {
        if !InWindow(seed, candidate) {
          forall f | f in sorted[j..] ensures !InWindow(seed, f) {
            var k :| 0 <= k < |sorted[j..]| && sorted[j..][k] == f;
            assert sorted[j + k] == f;
          }
          PastWindowAddsNothing(cluster, sorted[j..], used);
          return;
        }
        if Overlaps(Common(cluster), candidate) {
          cluster := cluster + [candidate];
        }
      }
      j := j + 1;
    }
  }

  lemma {:induction false} GreedyAt(fs: seq<Finding>, i: nat, used: set<int>)
    requires i < |fs|
    ensures Greedy(fs[i..], used) ==
            if fs[i].id in used then Greedy(fs[i + 1..], used)
            else
              var cluster := Grow([fs[i]], fs[i + 1..], used);
              if |cluster| >= MIN_FINDINGS then [cluster] + Greedy(fs[i + 1..], used + Ids(cluster))
              else Greedy(fs[i + 1..], used)
  {
    assert fs[i..][0] == fs[i] && fs[i..][1..] == fs[i + 1..];
  }

  lemma {:induction false} MoveToFront<T>(xs: seq<T>, x: T, ys: seq<T>)
    ensures xs + ([x] + ys) == (xs + [x]) + ys
  {
  }

  method ClusterByTechnique(findings: seq<Finding>) returns (clusters: seq<seq<Finding>>)
    ensures clusters == Greedy(SortByTime(findings), {})
  {
    var sorted := SortByTime(findings);
    assert Sorted(sorted) by {
      SortSorts(findings);
    }
    var used: set<int> := {};
    clusters := [];
    for i := 0 to |sorted|
      invariant clusters + Greedy(sorted[i..], used) == Greedy(sorted, {})
    {
      GreedyAt(sorted, i, used);
      if sorted[i].id !in used {
        var cluster := GrowFrom(sorted, i, used);
        if |cluster| >= MIN_FINDINGS {
          MoveToFront(clusters, cluster, Greedy(sorted[i + 1..], used + Ids(cluster)));
          clusters := clusters + [cluster];
          used := used + Ids(cluster);
        }
      }
    }
  }

  // ---------- One cluster ----------

  /** At least half of the finding's techniques are in `common`. */
  ghost predicate SharesHalf(common: set<string>, f: Finding) {
    2 * |common * f.techniques| >= |f.techniques|
  }

  /** Each member after the seed shares half of its techniques with those common to the members before it. */
  ghost predicate AdmittedByHalf(cluster: seq<Finding>) {
    |cluster| <= 1 ||
    (var front, last := cluster[..|cluster| - 1], cluster[|cluster| - 1];
     AdmittedByHalf(front) && SharesHalf(Common(front), last))
  }

  /**
   What growing from `seed` over `tail` guarantees: every member shared half of its techniques with
   those common to the members before it, and every finding left out shares less than half of its
   techniques with the final common set.
   */
  ghost predicate GoodCluster(cluster: seq<Finding>, seed: Finding, tail: seq<Finding>, used: set<int>) {
    && cluster != [] && cluster[0] == seed
    && Common(cluster) != {}
    && (forall k :: 1 <= k < |cluster| ==>
          cluster[k] in tail && cluster[k].firstSeen <= seed.firstSeen + 6 * 3600 && cluster[k].id !in used)
    && AdmittedByHalf(cluster)
    && (forall f ::
          f in tail && f.id !in used && f.firstSeen <= seed.firstSeen + 6 * 3600 && f.techniques != {} ==>
          f in cluster || !SharesHalf(Common(cluster), f))
  }

  lemma {:induction false} CommonSnoc(cluster: seq<Finding>, f: Finding)
    requires cluster != []
    ensures Common(cluster + [f]) == Common(cluster) * f.techniques
  {
    assert (cluster + [f])[..|cluster|] == cluster;
  }

  lemma {:induction false} OverlapShrinks(big: set<string>, small: set<string>, f: Finding)
    requires small <= big && Overlaps(small, f)
    ensures Overlaps(big, f) && small * f.techniques != {}
  {
    assert small * f.techniques <= big * f.techniques;
    SubsetSize(small * f.techniques, big * f.techniques);
  }

  /** Growing keeps the prefix, only adds admissible findings, and leaves none out that still overlaps. */
  lemma {:induction false} GrowProperties(cluster: seq<Finding>, tail: seq<Finding>, used: set<int>)
    requires cluster != [] && Common(cluster) != {}
    ensures var r := Grow(cluster, tail, used);
            && cluster <= r && Common(r) != {} && Common(r) <= Common(cluster)
            && (forall k :: |cluster| <= k < |r| ==> r[k] in tail && InWindow(cluster[0], r[k]) && r[k].id !in used)
            && (forall f :: f in tail && f.id !in used && InWindow(cluster[0], f) ==> f in r || !Overlaps(Common(r), f))
    decreases |tail|
  {
    if tail != [] {
      var f := tail[0];
      var r := Grow(cluster, tail, used);
      if f.id !in used && InWindow(cluster[0], f) && Overlaps(Common(cluster), f) {
        CommonSnoc(cluster, f);
        OverlapShrinks(Common(cluster), Common(cluster), f);
        GrowProperties(cluster + [f], tail[1..], used);
        assert r[|cluster|] == f;
      } else {
        GrowProperties(cluster, tail[1..], used);
        if Overlaps(Common(r), f) {
          OverlapShrinks(Common(cluster), Common(r), f);
        }
      }
      assert forall g :: g in tail ==> g == f || g in tail[1..];
    }
  }

  lemma {:induction false} GrowIsGood(seed: Finding, tail: seq<Finding>, used: set<int>)
    requires seed.techniques != {}
    ensures GoodCluster(Grow([seed], tail, used), seed, tail, used)
  {
    GrowProperties([seed], tail, used);
    GrowAdmits([seed], tail, used);
  }

  lemma {:induction false} GrowAdmits(cluster: seq<Finding>, tail: seq<Finding>, used: set<int>)
    requires cluster != [] && AdmittedByHalf(cluster)
    ensures AdmittedByHalf(Grow(cluster, tail, used))
    decreases |tail|
  {
    if tail != [] {
      if tail[0].id !in used && InWindow(cluster[0], tail[0]) && Overlaps(Common(cluster), tail[0]) {
        assert (cluster + [tail[0]])[..|cluster|] == cluster;
        GrowAdmits(cluster + [tail[0]], tail[1..], used);
      } else {
        GrowAdmits(cluster, tail[1..], used);
      }
    }
  }

  // ---------- All clusters ----------

  ghost predicate NonEmptyTechniques(fs: seq<Finding>) {
    forall f :: f in fs ==> f.techniques != {}
  }

  /** The ids claimed before cluster `c`. */
  ghost function ClaimedBefore(clusters: seq<seq<Finding>>, used: set<int>, c: nat): set<int>
    requires c <= |clusters|
  {
    if c == 0 then used else ClaimedBefore(clusters, used, c - 1) + Ids(clusters[c - 1])
  }

  /** `cluster` was grown from the finding at position `i` of `fs`. */
  ghost predicate GrownAt(fs: seq<Finding>, i: nat, cluster: seq<Finding>, used: set<int>) {
    && i < |fs| && fs[i].id !in used
    && |cluster| >= 3
    && GoodCluster(cluster, fs[i], fs[i + 1..], used)
  }

  ghost predicate GrownSomewhere(fs: seq<Finding>, cluster: seq<Finding>, used: set<int>) {
    exists i: nat :: GrownAt(fs, i, cluster, used)
  }

  lemma {:induction false} ClaimedBeforeTail(clusters: seq<seq<Finding>>, used: set<int>, c: nat)
    requires 0 < c <= |clusters|
    ensures ClaimedBefore(clusters, used, c) == ClaimedBefore(clusters[1..], used + Ids(clusters[0]), c - 1)
    decreases c
  {
    if c > 1 {
      ClaimedBeforeTail(clusters, used, c - 1);
    }
  }

  lemma {:induction false} GrownShift(fs: seq<Finding>, cluster: seq<Finding>, used: set<int>)
    requires fs != [] && GrownSomewhere(fs[1..], cluster, used)
    ensures GrownSomewhere(fs, cluster, used)
  {
    var i: nat :| GrownAt(fs[1..], i, cluster, used);
    assert fs[1..][i + 1..] == fs[i + 2..];
    assert GrownAt(fs, i + 1, cluster, used);
  }

  lemma {:induction false} FirstClusterIsGrown(fs: seq<Finding>, used: set<int>)
    requires fs != [] && fs[0].techniques != {} && fs[0].id !in used
    requires |Grow([fs[0]], fs[1..], used)| >= MIN_FINDINGS
    ensures GrownSomewhere(fs, Grow([fs[0]], fs[1..], used), used)
  {
    GrowIsGood(fs[0], fs[1..], used);
    assert GrownAt(fs, 0, Grow([fs[0]], fs[1..], used), used);
  }

  /** A cluster of the rest is a cluster of the whole, after the one seeded by the first finding. */
  lemma {:induction false} LaterClusterIsGrown(
      fs: seq<Finding>, used: set<int>, cluster: seq<Finding>, rest: seq<seq<Finding>>, c: nat)
    requires fs != [] && Greedy(fs, used) == [cluster] + rest && c < |rest|
    requires GrownSomewhere(fs[1..], rest[c], ClaimedBefore(rest, used + Ids(cluster), c))
    ensures GrownSomewhere(fs, Greedy(fs, used)[c + 1], ClaimedBefore(Greedy(fs, used), used, c + 1))
  {
    ClaimedBeforeTail(Greedy(fs, used), used, c + 1);
    assert Greedy(fs, used)[1..] == rest;
    GrownShift(fs, rest[c], ClaimedBefore(rest, used + Ids(cluster), c));
  }

  /**
   Every cluster has at least three members, all within the window of its seed and unclaimed by
   the clusters before it, with a technique common to all; and every later finding in the window
   that no earlier cluster claimed is a member or shares less than half of its techniques with
   the cluster's final common set.
   */
  lemma {:induction false} ClustersAreGreedyMaximal(fs: seq<Finding>, used: set<int>, c: nat)
    requires NonEmptyTechniques(fs) && c < |Greedy(fs, used)|
    ensures GrownSomewhere(fs, Greedy(fs, used)[c], ClaimedBefore(Greedy(fs, used), used, c))
    decreases |fs|
  {
    var clusters := Greedy(fs, used);
    assert fs[0] in fs && forall f :: f in fs[1..] ==> f in fs;
    var cluster := if fs[0].id in used then [] else Grow([fs[0]], fs[1..], used);
    if fs[0].id !in used && |cluster| >= MIN_FINDINGS {
      if c == 0 {
        FirstClusterIsGrown(fs, used);
      } else {
        ClustersAreGreedyMaximal(fs[1..], used + Ids(cluster), c - 1);
        LaterClusterIsGrown(fs, used, cluster, Greedy(fs[1..], used + Ids(cluster)), c - 1);
      }
    } else {
      ClustersAreGreedyMaximal(fs[1..], used, c);
      assert clusters == Greedy(fs[1..], used);
      GrownShift(fs, clusters[c], ClaimedBefore(clusters, used, c));
    }
  }

  lemma {:induction false} ClaimedGrows(clusters: seq<seq<Finding>>, used: set<int>, a: nat, b: nat)
    requires a < b <= |clusters|
    ensures Ids(clusters[a]) <= ClaimedBefore(clusters, used, b)
    decreases b
  {
    if a < b - 1 {
      ClaimedGrows(clusters, used, a, b - 1);
    }
  }

  lemma {:induction false} GoodMemberIsUnclaimed(
      cluster: seq<Finding>, fs: seq<Finding>, i: nat, claimed: set<int>, k: nat)
    requires GrownAt(fs, i, cluster, claimed) && k < |cluster|
    ensures cluster[k].id !in claimed
  {
  }

  lemma {:induction false} GrownAvoidsClaimed(fs: seq<Finding>, cluster: seq<Finding>, claimed: set<int>)
    requires GrownSomewhere(fs, cluster, claimed)
    ensures Ids(cluster) !! claimed
  {
    forall f | f in cluster ensures f.id !in claimed {
      var i: nat :| GrownAt(fs, i, cluster, claimed);
      var k: nat :| k < |cluster| && cluster[k] == f;
      GoodMemberIsUnclaimed(cluster, fs, i, claimed, k);
    }
  }

  /** No finding is in two clusters. */
  lemma {:induction false} ClustersAreDisjoint(fs: seq<Finding>, used: set<int>, a: nat, b: nat)
    requires NonEmptyTechniques(fs) && a < b < |Greedy(fs, used)|
    ensures Ids(Greedy(fs, used)[a]) !! Ids(Greedy(fs, used)[b])
  {
    var clusters := Greedy(fs, used);
    var claimed := ClaimedBefore(clusters, used, b);
    ClustersAreGreedyMaximal(fs, used, b);
    ClaimedGrows(clusters, used, a, b);
    GrownAvoidsClaimed(fs, clusters[b], claimed);
  }

  lemma {:induction false} GrowKeepsIdsUnique(cluster: seq<Finding>, tail: seq<Finding>, used: set<int>)
    requires cluster != [] && UniqueIds(cluster + tail)
    ensures UniqueIds(Grow(cluster, tail, used))
    decreases |tail|
  {
    if tail == [] {
      assert cluster + tail == cluster;
    } else {
      assert (cluster + [tail[0]]) + tail[1..] == cluster + tail;
      GrowKeepsIdsUnique(cluster + [tail[0]], tail[1..], used);
      forall i, j | 0 <= i < j < |cluster + tail[1..]|
        ensures (cluster + tail[1..])[i].id != (cluster + tail[1..])[j].id
      {
        var i' := if i < |cluster| then i else i + 1;
        var j' := if j < |cluster| then j else j + 1;
        assert (cluster + tail)[i'].id != (cluster + tail)[j'].id;
      }
      GrowKeepsIdsUnique(cluster, tail[1..], used);
    }
  }

  /** The members of one cluster have distinct ids. */
  lemma {:induction false} ClusterIdsAreUnique(fs: seq<Finding>, used: set<int>, c: nat)
    requires UniqueIds(fs) && c < |Greedy(fs, used)|
    ensures UniqueIds(Greedy(fs, used)[c])
    decreases |fs|
  {
    var cluster := if fs[0].id in used then [] else Grow([fs[0]], fs[1..], used);
    if fs[0].id !in used && |cluster| >= MIN_FINDINGS {
      if c == 0 {
        assert [fs[0]] + fs[1..] == fs;
        GrowKeepsIdsUnique([fs[0]], fs[1..], used);
      } else {
        ClusterIdsAreUnique(fs[1..], used + Ids(cluster), c - 1);
      }
    } else {
      ClusterIdsAreUnique(fs[1..], used, c);
    }
  }

  /** The clusters up to `c` are seeded by findings before position `i`, the others by findings after it. */
  ghost predicate SeedsSplitAt(clusters: seq<seq<Finding>>, fs: seq<Finding>, i: nat, c: nat)
    requires i < |fs|
  {
    && c <= |clusters|
    && (forall k :: 0 <= k < c ==> clusters[k] != [] && clusters[k][0] in fs[..i])
    && (forall k :: c <= k < |clusters| ==> clusters[k] != [] && clusters[k][0] in fs[i + 1..])
  }

  lemma {:induction false} SeedsAreFindings(fs: seq<Finding>, used: set<int>)
    ensures forall k :: 0 <= k < |Greedy(fs, used)| ==> Greedy(fs, used)[k] != [] && Greedy(fs, used)[k][0] in fs
    decreases |fs|
  {
    if fs != [] {
      var cluster := Grow([fs[0]], fs[1..], used);
      GrowKeepsPrefix([fs[0]], fs[1..], used);
      SeedsAreFindings(fs[1..], used);
      SeedsAreFindings(fs[1..], used + Ids(cluster));
      assert forall f :: f in fs[1..] ==> f in fs;
    }
  }

  lemma {:induction false} SplitAfterFinding(clusters: seq<seq<Finding>>, fs: seq<Finding>, i: nat, c: nat)
    requires 0 < i < |fs| && SeedsSplitAt(clusters, fs[1..], i - 1, c)
    ensures SeedsSplitAt(clusters, fs, i, c)
  {
    assert fs[..i] == [fs[0]] + fs[1..][..i - 1] && fs[i + 1..] == fs[1..][i..];
  }

  lemma {:induction false} SplitAfterCluster(clusters: seq<seq<Finding>>, fs: seq<Finding>, i: nat, c: nat)
    requires 0 < i < |fs| && 0 < c && clusters != [] && clusters[0] != [] && clusters[0][0] == fs[0]
    requires SeedsSplitAt(clusters[1..], fs[1..], i - 1, c - 1)
    ensures SeedsSplitAt(clusters, fs, i, c)
  {
    SplitAfterFinding(clusters[1..], fs, i, c - 1);
    assert fs[0] in fs[..i];
    assert forall k :: 0 < k < |clusters| ==> clusters[k] == clusters[1..][k - 1];
  }

  /** The number of clusters seeded by the first `i` findings. */
  ghost function SeededBefore(fs: seq<Finding>, used: set<int>, i: nat): (c: nat)
    requires i <= |fs|
    ensures c <= |Greedy(fs, used)|
    decreases |fs|
  {
    if i == 0 then 0
    else if fs[0].id in used then SeededBefore(fs[1..], used, i - 1)
    else
      var cluster := Grow([fs[0]], fs[1..], used);
      if |cluster| >= MIN_FINDINGS then 1 + SeededBefore(fs[1..], used + Ids(cluster), i - 1)
      else SeededBefore(fs[1..], used, i - 1)
  }

  /** No cluster claims the finding at position `i`. */
  ghost predicate LeftOut(fs: seq<Finding>, used: set<int>, i: nat)
    requires i < |fs|
  {
    fs[i].id !in ClaimedBefore(Greedy(fs, used), used, |Greedy(fs, used)|)
  }

  /** After a finding that seeds no cluster nothing has changed. */
  lemma {:induction false} LeftOutAfterFinding(fs: seq<Finding>, used: set<int>, i: nat)
    requires 0 < i < |fs| && LeftOut(fs, used, i) && Greedy(fs, used) == Greedy(fs[1..], used)
    ensures LeftOut(fs[1..], used, i - 1)
  {
  }

  lemma {:induction false} LeftOutAfterCluster(fs: seq<Finding>, used: set<int>, i: nat, cluster: seq<Finding>)
    requires 0 < i < |fs| && LeftOut(fs, used, i)
    requires Greedy(fs, used) == [cluster] + Greedy(fs[1..], used + Ids(cluster))
    ensures LeftOut(fs[1..], used + Ids(cluster), i - 1)
  {
    var clusters := Greedy(fs, used);
    ClaimedBeforeTail(clusters, used, |clusters|);
    assert clusters[1..] == Greedy(fs[1..], used + Ids(cluster));
  }

  /** A finding left out is not used, and seeds no cluster. */
  lemma {:induction false} LeftOutSeedsNothing(fs: seq<Finding>, used: set<int>)
    requires fs != [] && LeftOut(fs, used, 0)
    ensures fs[0].id !in used && |Grow([fs[0]], fs[1..], used)| < MIN_FINDINGS
    ensures Greedy(fs, used) == Greedy(fs[1..], used)
  {
    var clusters := Greedy(fs, used);
    UsedStaysClaimed(clusters, used, |clusters|);
    var cluster := Grow([fs[0]], fs[1..], used);
    if fs[0].id !in used && |cluster| >= MIN_FINDINGS {
      GrowKeepsPrefix([fs[0]], fs[1..], used);
      assert fs[0] in cluster;
      ClaimedGrows(clusters, used, 0, |clusters|);
    }
  }

  lemma {:induction false} LeftOutGroupIsSmall(fs: seq<Finding>, used: set<int>, i: nat)
    requires i < |fs| && LeftOut(fs, used, i)
    ensures var claimed := ClaimedBefore(Greedy(fs, used), used, SeededBefore(fs, used, i));
            fs[i].id !in claimed && |Grow([fs[i]], fs[i + 1..], claimed)| < MIN_FINDINGS
    decreases |fs|
  {
    if i == 0 {
      LeftOutSeedsNothing(fs, used);
    } else {
      assert fs[1..][i - 1] == fs[i] && fs[1..][i..] == fs[i + 1..];
      var cluster := Grow([fs[0]], fs[1..], used);
      if fs[0].id !in used && |cluster| >= MIN_FINDINGS {
        LeftOutAfterCluster(fs, used, i, cluster);
        LeftOutGroupIsSmall(fs[1..], used + Ids(cluster), i - 1);
        ClaimedBeforeTail(Greedy(fs, used), used, SeededBefore(fs, used, i));
        assert Greedy(fs, used)[1..] == Greedy(fs[1..], used + Ids(cluster));
      } else {
        LeftOutAfterFinding(fs, used, i);
        LeftOutGroupIsSmall(fs[1..], used, i - 1);
      }
    }
  }

  lemma {:induction false} SeedsSplitAtLeftOut(fs: seq<Finding>, used: set<int>, i: nat)
    requires i < |fs| && LeftOut(fs, used, i)
    ensures SeedsSplitAt(Greedy(fs, used), fs, i, SeededBefore(fs, used, i))
    decreases |fs|
  {
    var clusters := Greedy(fs, used);
    if i == 0 {
      LeftOutSeedsNothing(fs, used);
      SeedsAreFindings(fs[1..], used);
    } else {
      var cluster := Grow([fs[0]], fs[1..], used);
      if fs[0].id !in used && |cluster| >= MIN_FINDINGS {
        LeftOutAfterCluster(fs, used, i, cluster);
        SeedsSplitAtLeftOut(fs[1..], used + Ids(cluster), i - 1);
        GrowKeepsPrefix([fs[0]], fs[1..], used);
        assert clusters[1..] == Greedy(fs[1..], used + Ids(cluster));
        SplitAfterCluster(clusters, fs, i, SeededBefore(fs, used, i));
      } else {
        LeftOutAfterFinding(fs, used, i);
        SeedsSplitAtLeftOut(fs[1..], used, i - 1);
        SplitAfterFinding(clusters, fs, i, SeededBefore(fs, used, i));
      }
    }
  }

  /**
   A finding that no cluster claims was tried as a seed when the clusters seeded by earlier findings
   had claimed their members, and its own group stayed too small.
   */
  lemma {:induction false} LeftOutGroupsAreSmall(fs: seq<Finding>, used: set<int>, i: nat) returns (c: nat)
    requires i < |fs| && LeftOut(fs, used, i)
    ensures SeedsSplitAt(Greedy(fs, used), fs, i, c)
    ensures |Grow([fs[i]], fs[i + 1..], ClaimedBefore(Greedy(fs, used), used, c))| < 3
  {
    c := SeededBefore(fs, used, i);
    LeftOutGroupIsSmall(fs, used, i);
    SeedsSplitAtLeftOut(fs, used, i);
  }

  lemma {:induction false} UsedStaysClaimed(clusters: seq<seq<Finding>>, used: set<int>, c: nat)
    requires c <= |clusters|
    ensures used <= ClaimedBefore(clusters, used, c)
    decreases c
  {
    if c > 0 {
      UsedStaysClaimed(clusters, used, c - 1);
    }
  }

  lemma {:induction false} GrowKeepsPrefix(cluster: seq<Finding>, tail: seq<Finding>, used: set<int>)
    requires cluster != []
    ensures cluster <= Grow(cluster, tail, used)
    decreases |tail|
  {
    if tail != [] {
      GrowKeepsPrefix(cluster, tail[1..], used);
      GrowKeepsPrefix(cluster + [tail[0]], tail[1..], used);
    }
  }

  // ---------- The whole algorithm ----------

  /** Every member is one of the findings, at most the window after the seed, with one technique common to all. */
  ghost predicate IsCampaign(cluster: seq<Finding>, findings: seq<Finding>) {
    && |cluster| >= 3
    && UniqueIds(cluster)
    && (forall f :: f in cluster ==> f in findings
                                     && cluster[0].firstSeen <= f.firstSeen <= cluster[0].firstSeen + 6 * 3600)
    && exists t :: SharedByAll(t, cluster)
  }

  ghost predicate SharedByAll(t: string, cluster: seq<Finding>) {
    forall f :: f in cluster ==> t in f.techniques
  }

  lemma {:induction false} CommonIsShared(cluster: seq<Finding>, t: string)
    requires cluster != [] && t in Common(cluster)
    ensures SharedByAll(t, cluster)
    decreases |cluster|
  {
    if |cluster| > 1 {
      CommonIsShared(cluster[..|cluster| - 1], t);
      assert cluster == cluster[..|cluster| - 1] + [cluster[|cluster| - 1]];
    }
  }

  /** What detection returns for findings with distinct ids and nonempty technique sets. */
  lemma {:induction false} ClustersAreDisjointCampaigns(findings: seq<Finding>)
    requires NonEmptyTechniques(findings) && UniqueIds(findings)
    ensures var clusters := Greedy(SortByTime(findings), {});
            && (forall c :: 0 <= c < |clusters| ==> IsCampaign(clusters[c], findings))
            && (forall a, b :: 0 <= a < b < |clusters| ==> Ids(clusters[a]) !! Ids(clusters[b]))
  {
    var fs := SortByTime(findings);
    var clusters := Greedy(fs, {});
    SortSorts(findings);
    forall c | 0 <= c < |clusters| ensures IsCampaign(clusters[c], findings) {
      ClusterIdsAreUnique(fs, {}, c);
      GrownIsCampaign(fs, findings, clusters, c);
    }
    forall a, b | 0 <= a < b < |clusters| ensures Ids(clusters[a]) !! Ids(clusters[b]) {
      ClustersAreDisjoint(fs, {}, a, b);
    }
  }

  lemma {:induction false} GrownMemberAt(fs: seq<Finding>, i: nat, cluster: seq<Finding>, claimed: set<int>, k: nat)
    requires Sorted(fs) && GrownAt(fs, i, cluster, claimed) && k < |cluster|
    ensures cluster[k] in fs
    ensures cluster[0].firstSeen <= cluster[k].firstSeen <= cluster[0].firstSeen + WINDOW_SECONDS
  {
    if k > 0 {
      var m :| 0 <= m < |fs[i + 1..]| && fs[i + 1..][m] == cluster[k];
      assert fs[i + 1 + m] == cluster[k];
    }
  }

  lemma {:induction false} GrownIsCampaign(
      fs: seq<Finding>, findings: seq<Finding>, clusters: seq<seq<Finding>>, c: nat)
    requires NonEmptyTechniques(fs) && Sorted(fs) && forall f :: f in fs ==> f in findings
    requires clusters == Greedy(fs, {}) && c < |clusters| && UniqueIds(clusters[c])
    ensures IsCampaign(clusters[c], findings)
  {
    ClustersAreGreedyMaximal(fs, {}, c);
    var cluster := clusters[c];
    GrownSharesTechnique(fs, cluster, ClaimedBefore(clusters, {}, c));
    forall f | f in cluster
      ensures f in findings && cluster[0].firstSeen <= f.firstSeen <= cluster[0].firstSeen + WINDOW_SECONDS
    {
      GrownMember(fs, cluster, ClaimedBefore(clusters, {}, c), f);
    }
  }

  lemma {:induction false} GrownMember(fs: seq<Finding>, cluster: seq<Finding>, claimed: set<int>, f: Finding)
    requires Sorted(fs) && GrownSomewhere(fs, cluster, claimed) && f in cluster
    ensures f in fs && cluster[0].firstSeen <= f.firstSeen <= cluster[0].firstSeen + WINDOW_SECONDS
  {
    var i: nat :| GrownAt(fs, i, cluster, claimed);
    var k: nat :| k < |cluster| && cluster[k] == f;
    GrownMemberAt(fs, i, cluster, claimed, k);
  }

  lemma {:induction false} GrownSharesTechnique(fs: seq<Finding>, cluster: seq<Finding>, claimed: set<int>)
    requires GrownSomewhere(fs, cluster, claimed)
    ensures |cluster| >= MIN_FINDINGS && exists t :: SharedByAll(t, cluster)
  {
    var i: nat :| GrownAt(fs, i, cluster, claimed);
    var t :| t in Common(cluster);
    CommonIsShared(cluster, t);
  }
}
