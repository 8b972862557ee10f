/**
 What a routing pass counts, lists and writes, from the matches it selects: a dry run, every outcome
 by itself, the detection rows, and the list of new findings with their assets.
 */
module RoutingOutcomes {
  import opened Options
  import opened Counters
  import opened FindingMerge
  import opened Routing

  // ---------- Counting selected matches ----------

  /** How many of the matches `best` of one detection have the property. */
  ghost function CountBest(best: seq<Match>, world: World, p: (World, Match) -> bool): nat {
    if best == [] then 0
    else CountBest(best[..|best| - 1], world, p) + if p(world, best[|best| - 1]) then 1 else 0
  }

  /** How many selected matches of the whole pass have the property. */
  ghost function CountSelected(worlds: seq<World>, p: (World, Match) -> bool): nat {
    if worlds == [] then 0
    else
      var n := |worlds| - 1;
      CountSelected(worlds[..n], p) + CountBest(Best(AllMatches(worlds[n].strategies)), worlds[n], p)
  }

  /** How many detections have a match. */
  ghost function CountMatchedOf(worlds: seq<World>): nat {
    if worlds == [] then 0
    else
      var n := |worlds| - 1;
      CountMatchedOf(worlds[..n]) + if AllMatches(worlds[n].strategies) != [] then 1 else 0
  }

  predicate IsKnownFalse(world: World, m: Match) { world.handling(m.customer) == FalsePositive }

  predicate IsExposure(world: World, m: Match) { world.handling(m.customer) == Proceeds && m.isProbable }

  predicate IsCaught(world: World, m: Match) { world.handling(m.customer) == Raises }

  function Correlates(correlation: string): (World, Match) -> bool {
    (world: World, m: Match) => m.correlation == correlation
  }

  /** The outcomes so far are those counted. */
  ghost predicate OutcomesAre(p: Pass, autoFp: nat, probable: nat, caught: nat) {
    p.stats.autoFp == autoFp && p.stats.probable == probable && p.caught == caught
  }

  lemma {:induction false} MatchesCounted(p: Pass, det: Detection, best: seq<Match>, world: World)
    ensures var p' := RouteMatches(p, det, best, world, false);
            && p'.stats.autoFp == p.stats.autoFp + CountBest(best, world, IsKnownFalse)
            && p'.stats.probable == p.stats.probable + CountBest(best, world, IsExposure)
            && p'.caught == p.caught + CountBest(best, world, IsCaught)
            && p'.stats.matched == p.stats.matched && p'.stats.unmatched == p.stats.unmatched
    decreases |best|
  {
    if best != [] {
      MatchesCounted(p, det, best[..|best| - 1], world);
    }
  }

  lemma {:induction false} StrategiesCounted(
      p: Pass, det: Detection, best: seq<Match>, world: World, dryRun: bool, correlation: string)
    ensures Get(RouteMatches(p, det, best, world, dryRun).stats.perStrategy, correlation) ==
            Get(p.stats.perStrategy, correlation) + CountBest(best, world, Correlates(correlation))
    decreases |best|
  {
    if best != [] {
      var n := |best| - 1;
      StrategiesCounted(p, det, best[..n], world, dryRun, correlation);
      StrategyCounted(RouteMatches(p, det, best[..n], world, dryRun), det, best[n], world, dryRun);
    }
  }

  lemma {:induction false} StrategyCounted(p: Pass, det: Detection, m: Match, world: World, dryRun: bool)
    ensures RouteMatch(p, det, m, world, dryRun).stats.perStrategy == Bump(p.stats.perStrategy, m.correlation)
  {
  }

  /** Each outcome of a pass is counted for exactly the selected matches that have it. */
  lemma {:induction false} OutcomesAreCounted(findings: seq<Finding>, dets: seq<Detection>, worlds: seq<World>)
    returns (p: Pass)
    requires |dets| == |worlds|
    ensures p == RouteAll(findings, dets, worlds, false).0
    ensures p.stats.autoFp == CountSelected(worlds, IsKnownFalse)
    ensures p.stats.probable == CountSelected(worlds, IsExposure)
    ensures p.caught == CountSelected(worlds, IsCaught)
    ensures p.stats.matched == CountMatchedOf(worlds) && p.stats.unmatched == |worlds| - CountMatchedOf(worlds)
    decreases |dets|
  {
    if dets == [] {
      p := StartPass(findings);
    } else {
      var n := |dets| - 1;
      var before := OutcomesAreCounted(findings, dets[..n], worlds[..n]);
      var matches := AllMatches(worlds[n].strategies);
      p := RouteDetection(before, dets[n], worlds[n], false).0;
      if matches == [] {
        assert Best(matches) == [];
      } else {
        MatchesCounted(CountMatched(CountProcessed(before)), dets[n], Best(matches), worlds[n]);
      }
    }
  }

  /** Every selected match is counted for its strategy, in a dry run as well. */
  lemma {:induction false} StrategiesAreCounted(
      findings: seq<Finding>, dets: seq<Detection>, worlds: seq<World>, dryRun: bool, correlation: string)
    requires |dets| == |worlds|
    ensures Get(RouteAll(findings, dets, worlds, dryRun).0.stats.perStrategy, correlation) ==
            CountSelected(worlds, Correlates(correlation))
    decreases |dets|
  {
    if dets != [] {
      var n := |dets| - 1;
      var before := RouteAll(findings, dets[..n], worlds[..n], dryRun).0;
      var matches := AllMatches(worlds[n].strategies);
      StrategiesAreCounted(findings, dets[..n], worlds[..n], dryRun, correlation);
      if matches == [] {
        assert Best(matches) == [];
      } else {
        StrategiesCounted(CountMatched(CountProcessed(before)), dets[n], Best(matches), worlds[n], dryRun, correlation);
      }
    }
  }

  // ---------- Dry runs ----------

  /** The pass has changed and counted nothing but detections and strategies. */
  ghost predicate IsDry(p: Pass, findings: seq<Finding>) {
    && p.findings == findings && p.newFindings == [] && p.assets == map[] && p.link == None && p.caught == 0
    && p.stats.created == p.stats.merged == p.stats.autoFp == p.stats.probable == 0
  }

  lemma {:induction false} DryMatches(
      p: Pass, det: Detection, best: seq<Match>, world: World, findings: seq<Finding>)
    requires IsDry(p, findings)
    ensures var p' := RouteMatches(p, det, best, world, true);
            IsDry(p', findings) && p'.stats.matched == p.stats.matched && p'.stats.unmatched == p.stats.unmatched
    decreases |best|
  {
    if best != [] {
      DryMatches(p, det, best[..|best| - 1], world, findings);
    }
  }

  /** A dry run leaves findings and detections alone, and still says how many detections match. */
  lemma {:induction false} DryRunChangesNothing(findings: seq<Finding>, dets: seq<Detection>, worlds: seq<World>)
    returns (p: Pass, us: seq<Update>)
    requires |dets| == |worlds|
    ensures (p, us) == RouteAll(findings, dets, worlds, true)
    ensures IsDry(p, findings) && |us| == |dets| && forall k :: 0 <= k < |us| ==> us[k] == Untouched
    ensures p.stats.matched == CountMatchedOf(worlds) && p.stats.unmatched == |worlds| - CountMatchedOf(worlds)
    decreases |dets|
  {
    if dets == [] {
      p, us := StartPass(findings), [];
    } else {
      var n := |dets| - 1;
      var before, earlier := DryRunChangesNothing(findings, dets[..n], worlds[..n]);
      var last := RouteDetection(before, dets[n], worlds[n], true);
      p, us := last.0, earlier + [last.1];
      var matches := AllMatches(worlds[n].strategies);
      if matches != [] {
        DryMatches(CountMatched(CountProcessed(before)), dets[n], Best(matches), worlds[n], findings);
      }
    }
  }

  // ---------- Detections ----------

  /** Unmatched detections are marked so, all others routed to the customer of their top match. */
  lemma {:induction false} UpdatesAre(findings: seq<Finding>, dets: seq<Detection>, worlds: seq<World>, k: nat)
    requires |dets| == |worlds| && k < |dets|
    ensures var us := RouteAll(findings, dets, worlds, false).1;
            var matches := AllMatches(worlds[k].strategies);
            && |us| == |dets| && us[k] != Untouched
            && (us[k] == MarkedUnmatched <==> matches == [])
            && (us[k].Routed? ==>
                  us[k].top in matches && forall m :: m in matches ==> m.confidence <= us[k].top.confidence)
    decreases |dets|
  {
    var n := |dets| - 1;
    UpdatesLength(findings, dets[..n], worlds[..n]);
    if k < n {
      UpdatesAre(findings, dets[..n], worlds[..n], k);
      assert worlds[..n][k] == worlds[k];
    } else {
      UpdateIs(RouteAll(findings, dets[..n], worlds[..n], false).0, dets[n], worlds[n]);
    }
  }

  lemma {:induction false} UpdateIs(p: Pass, det: Detection, world: World)
    ensures var u, matches := RouteDetection(p, det, world, false).1, AllMatches(world.strategies);
            && u != Untouched && (u == MarkedUnmatched <==> matches == [])
            && (u.Routed? ==> u.top in matches && forall m :: m in matches ==> m.confidence <= u.top.confidence)
  {
    if AllMatches(world.strategies) != [] {
      TopAttainsMaximum(AllMatches(world.strategies));
    }
  }

  lemma {:induction false} UpdatesLength(findings: seq<Finding>, dets: seq<Detection>, worlds: seq<World>)
    requires |dets| == |worlds|
    ensures |RouteAll(findings, dets, worlds, false).1| == |dets|
    decreases |dets|
  {
    if dets != [] {
      UpdatesLength(findings, dets[..|dets| - 1], worlds[..|worlds| - 1]);
    }
  }

  // ---------- The list of new findings ----------

  /** A sighting, and the asset of the match it comes from. */
  datatype Merge = Merge(sighting: Sighting, asset: nat)

  ghost function MergesOf(det: Detection, best: seq<Match>, world: World): seq<Merge> {
    if best == [] then []
    else
      var n := |best| - 1;
      MergesOf(det, best[..n], world)
      + if IsMerged(best[n], world) then [Merge(SightingOf(det, best[n], world.now), best[n].asset)] else []
  }

  ghost function PassMerges(dets: seq<Detection>, worlds: seq<World>): seq<Merge>
    requires |dets| == |worlds|
  {
    if dets == [] then []
    else
      var n := |dets| - 1;
      PassMerges(dets[..n], worlds[..n]) + MergesOf(dets[n], Best(AllMatches(worlds[n].strategies)), worlds[n])
  }

  ghost function Sightings(ms: seq<Merge>): (ss: seq<Sighting>)
    ensures |ss| == |ms| && forall k :: 0 <= k < |ms| ==> ss[k] == ms[k].sighting
  {
    seq(|ms|, k requires 0 <= k < |ms| => ms[k].sighting)
  }

  /** The merge is listed as new: no other source has reported its key before. */
  ghost predicate IsNewReport(seen: seq<Sighting>, ms: seq<Merge>, k: nat)
    requires k < |ms|
  {
    SourcesOf(seen + Sightings(ms[..k]), ms[k].sighting.key) <= {ms[k].sighting.source}
  }

  /** The merges listed as new, in order. */
  ghost function NewMerges(seen: seq<Sighting>, ms: seq<Merge>): seq<Merge> {
    if ms == [] then []
    else
      var n := |ms| - 1;
      NewMerges(seen, ms[..n]) + if IsNewReport(seen, ms, n) then [ms[n]] else []
  }

  /** The asset of the last of the merges with the key. */
  ghost function LastAsset(ms: seq<Merge>, key: Key): Option<nat> {
    if ms == [] then None
    else if ms[|ms| - 1].sighting.key == key then Some(ms[|ms| - 1].asset)
    else LastAsset(ms[..|ms| - 1], key)
  }

  /** The new findings of the pass are those of `news`, in order, with the asset each was last listed for. */
  ghost predicate Lists(p: Pass, news: seq<Merge>) {
    && UniqueKeys(p.findings) && |p.newFindings| == |news|
    && (forall k :: 0 <= k < |news| ==>
          p.newFindings[k] < |p.findings| && p.findings[p.newFindings[k]].key == news[k].sighting.key)
    && (forall id :: id in p.assets <==> id in p.newFindings)
    && (forall id :: id in p.assets ==>
          id < |p.findings| && LastAsset(news, p.findings[id].key) == Some(p.assets[id]))
  }

  lemma {:induction false} LastAssetAfter(news: seq<Merge>, m: Merge, key: Key)
    ensures LastAsset(news + [m], key) == if m.sighting.key == key then Some(m.asset) else LastAsset(news, key)
  {
    assert (news + [m])[..|news|] == news;
  }

  lemma {:induction false} MergeLists(
      p: Pass, det: Detection, m: Match, world: World, news: seq<Merge>) returns (p': Pass, news': seq<Merge>)
    requires Lists(p, news) && IsMerged(m, world)
    ensures p' == RouteMatch(p, det, m, world, false)
    ensures var s := SightingOf(det, m, world.now);
            news' == if CountsAsCreated(p.findings, s) then news + [Merge(s, m.asset)] else news
    ensures Lists(p', news')
  {
    var s := SightingOf(det, m, world.now);
    p' := RouteMatch(p, det, m, world, false);
    news' := if CountsAsCreated(p.findings, s) then news + [Merge(s, m.asset)] else news;
    var upserted := UpsertedId(p.findings, s);
    UpsertKeepsKeysUnique(p.findings, s);
    forall id: nat | id < |p.findings| ensures p'.findings[id].key == p.findings[id].key {
    }
    forall id | id in p'.assets
      ensures id < |p'.findings| && LastAsset(news', p'.findings[id].key) == Some(p'.assets[id])
    {
      LastAssetAfter(news, Merge(s, m.asset), p'.findings[id].key);
      if id != upserted {
        assert id in p.assets && p'.findings[id].key != s.key;
      }
    }
  }

  lemma {:induction false} NewMergesAfter(seen: seq<Sighting>, ms: seq<Merge>, m: Merge)
    ensures NewMerges(seen, ms + [m]) ==
            NewMerges(seen, ms)
            + if SourcesOf(seen + Sightings(ms), m.sighting.key) <= {m.sighting.source} then [m] else []
  {
    assert (ms + [m])[..|ms|] == ms;
  }

  /** The merges so far, the sightings before and in them, and those of them that are listed as new. */
  datatype History = History(merges: seq<Merge>, sightings: seq<Sighting>, news: seq<Merge>)

  ghost predicate IsHistory(h: History, seen: seq<Sighting>) {
    h.sightings == seen + Sightings(h.merges) && h.news == NewMerges(seen, h.merges)
  }

  /** `p` is the state after the history. */
  ghost predicate ListsAfter(p: Pass, h: History) {
    IsView(p.findings, h.sightings) && Lists(p, h.news)
  }

  lemma {:induction false} OneMoreMerge(h: History, seen: seq<Sighting>, m: Merge) returns (h': History)
    requires IsHistory(h, seen)
    ensures IsHistory(h', seen) && h'.merges == h.merges + [m] && h'.sightings == h.sightings + [m.sighting]
    ensures h'.news ==
            if SourcesOf(h.sightings, m.sighting.key) <= {m.sighting.source} then h.news + [m] else h.news
  {
    NewMergesAfter(seen, h.merges, m);
    h' := History(h.merges + [m], h.sightings + [m.sighting], NewMerges(seen, h.merges + [m]));
    assert seen + Sightings(h'.merges) == h'.sightings;
  }

  lemma {:induction false} MatchLists(
      p: Pass, det: Detection, m: Match, world: World, seen: seq<Sighting>, h: History)
    returns (p': Pass, h': History)
    requires IsHistory(h, seen) && ListsAfter(p, h)
    ensures p' == RouteMatch(p, det, m, world, false) && IsHistory(h', seen)
    ensures h'.merges ==
            h.merges + if IsMerged(m, world) then [Merge(SightingOf(det, m, world.now), m.asset)] else []
    ensures ListsAfter(p', h')
  {
    if IsMerged(m, world) {
      var s := SightingOf(det, m, world.now);
      h' := OneMoreMerge(h, seen, Merge(s, m.asset));
      CountsAsCreatedIff(p.findings, h.sightings, s);
      UpsertKeepsView(p.findings, h.sightings, s);
      var news;
      p', news := MergeLists(p, det, m, world, h.news);
    } else {
      p', h' := RouteMatch(p, det, m, world, false), h;
    }
  }

  lemma {:induction false} MatchesList(
      p: Pass, det: Detection, best: seq<Match>, world: World, seen: seq<Sighting>, h: History)
    returns (p': Pass, h': History)
    requires IsHistory(h, seen) && ListsAfter(p, h)
    ensures p' == RouteMatches(p, det, best, world, false) && IsHistory(h', seen)
    ensures h'.merges == h.merges + MergesOf(det, best, world)
    ensures ListsAfter(p', h')
    decreases |best|
  {
    if best == [] {
      p', h' := p, h;
    } else {
      var n := |best| - 1;
      var before, earlier := MatchesList(p, det, best[..n], world, seen, h);
      p', h' := MatchLists(before, det, best[n], world, seen, earlier);
      assert h'.merges == h.merges + MergesOf(det, best, world);
    }
  }

  lemma {:induction false} DetectionLists(p: Pass, det: Detection, world: World, seen: seq<Sighting>, h: History)
    returns (p': Pass, h': History)
    requires IsHistory(h, seen) && ListsAfter(p, h)
    ensures p' == RouteDetection(p, det, world, false).0 && IsHistory(h', seen)
    ensures h'.merges == h.merges + MergesOf(det, Best(AllMatches(world.strategies)), world)
    ensures ListsAfter(p', h')
  {
    var matches := AllMatches(world.strategies);
    if matches == [] {
      p', h' := RouteDetection(p, det, world, false).0, h;
      assert Best(matches) == [];
    } else {
      p', h' := MatchesList(CountMatched(CountProcessed(p)), det, Best(matches), world, seen, h);
    }
  }

  /**
   The list of new findings: in order, those of the merges of the pass before which no other source had
   reported the key, each with the asset of the last such merge.
   */
  lemma {:induction false} NewFindingsAreListed(
      findings: seq<Finding>, dets: seq<Detection>, worlds: seq<World>, seen: seq<Sighting>)
    returns (p: Pass, h: History)
    requires |dets| == |worlds| && IsView(findings, seen)
    ensures p == RouteAll(findings, dets, worlds, false).0
    ensures IsHistory(h, seen) && h.merges == PassMerges(dets, worlds)
    ensures IsView(p.findings, h.sightings) && Lists(p, h.news)
    decreases |dets|
  {
    if dets == [] {
      p, h := StartPass(findings), History([], seen, []);
      assert seen + Sightings([]) == seen;
    } else {
      var n := |dets| - 1;
      var before, earlier := NewFindingsAreListed(findings, dets[..n], worlds[..n], seen);
      p, h := DetectionLists(before, dets[n], worlds[n], seen, earlier);
    }
  }

  // ---------- What a merged match writes ----------

  /**
   A merged match is recorded in the finding of its customer and of the detection's indicator: a new
   one has its severity and source; an old one gains them, and the time the detection was last seen.
   */
  lemma {:induction false} MergedMatchIsRecorded(p: Pass, det: Detection, m: Match, world: World)
    returns (p': Pass, i: nat)
    requires IsMerged(m, world)
    ensures p' == RouteMatch(p, det, m, world, false) && i < |p'.findings|
    ensures p'.findings[i].key == Key(m.customer, det.iocType, det.value) && det.source in p'.findings[i].sources
    ensures i >= |p.findings| ==>
      p'.findings[i] == Finding(Key(m.customer, det.iocType, det.value), m.severity, [det.source], 1, world.now)
    ensures i < |p.findings| ==>
      && p'.findings[i].severity == (if Rank(m.severity) > Rank(p.findings[i].severity) then m.severity
                                     else p.findings[i].severity)
      && p'.findings[i].sources == (if det.source in p.findings[i].sources then p.findings[i].sources
                                    else p.findings[i].sources + [det.source])
      && (det.lastSeen.Some? ==> p'.findings[i].lastSeen == det.lastSeen.value)
      && (det.lastSeen == None ==> p'.findings[i].lastSeen == p.findings[i].lastSeen)
  {
    var s := SightingOf(det, m, world.now);
    p', i := RouteMatch(p, det, m, world, false), UpsertedId(p.findings, s);
  }

}
