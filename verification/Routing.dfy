/**
 The routing pass of match/customer_router.py: every detection is matched against the customers,
 the best match per customer is merged, and the counters are kept.
 */
module Routing {
  import opened Options
  import opened Counters
  import opened FindingMerge

  datatype Match = Match(
    customer: int, asset: nat, correlation: string, confidence: real, isProbable: bool, severity: Severity)

  datatype Detection = Detection(iocType: string, value: string, source: string, lastSeen: Option<int>)

  // ---------- The best match per customer ----------

  /** The position of the customer's match, in a list with one match per customer. */
  function PositionOf(best: seq<Match>, customer: int): (r: Option<nat>)
    ensures r.Some? ==> r.value < |best| && best[r.value].customer == customer
    ensures r == None ==> forall i :: 0 <= i < |best| ==> best[i].customer != customer
  {
    if best == [] then None
    else if best[|best| - 1].customer == customer then Some(|best| - 1)
    else PositionOf(best[..|best| - 1], customer)
  }

  /** A Python dict keeps the position of a key whose value is replaced. */
  function AddMatch(best: seq<Match>, m: Match): seq<Match> {
    match PositionOf(best, m.customer)
    case None => best + [m]
    case Some(i) => if m.confidence > best[i].confidence then best[i := m] else best
  }

  function Best(matches: seq<Match>): seq<Match> {
    if matches == [] then [] else AddMatch(Best(matches[..|matches| - 1]), matches[|matches| - 1])
  }

  method BestPerCustomer(matches: seq<Match>) returns (best: seq<Match>)
    ensures best == Best(matches)
  {
    best := [];
    for k := 0 to |matches|
      invariant best == Best(matches[..k])
    {
      assert matches[..k + 1][..k] == matches[..k];
      var m := matches[k];
      var current := PositionOf(best, m.customer);
      if current == None {
        best := best + [m];
      } else if m.confidence > best[current.value].confidence {
        best := best[current.value := m];
      }
    }
    assert matches[..|matches|] == matches;
  }

  /** `m` is the first of its customer's matches with the highest confidence. */
  ghost predicate IsFirstBest(matches: seq<Match>, m: Match) {
    exists k :: FirstBestAt(matches, m, k)
  }

  ghost predicate FirstBestAt(matches: seq<Match>, m: Match, k: int) {
    && 0 <= k < |matches| && matches[k] == m
    && (forall i :: 0 <= i < |matches| && matches[i].customer == m.customer ==> matches[i].confidence <= m.confidence)
    && (forall i :: 0 <= i < k && matches[i].customer == m.customer ==> matches[i].confidence < m.confidence)
  }

  ghost predicate OnePerCustomer(best: seq<Match>) {
    forall i, j :: 0 <= i < j < |best| ==> best[i].customer != best[j].customer
  }

  ghost predicate HasCustomer(best: seq<Match>, customer: int) {
    exists i :: 0 <= i < |best| && best[i].customer == customer
  }

  lemma {:induction false} OldMatchStaysBest(matches: seq<Match>, best: seq<Match>, m: Match, i: nat)
    requires OnePerCustomer(best) && i < |best| && IsFirstBest(matches, best[i])
    ensures IsFirstBest(matches + [m], AddMatch(best, m)[i])
  {
    var all := matches + [m];
    var b := AddMatch(best, m)[i];
    var current := PositionOf(best, m.customer);
    var k :| FirstBestAt(matches, best[i], k);
    if current == Some(i) && m.confidence > best[i].confidence {
      assert FirstBestAt(all, b, |matches|);
    } else {
      assert current.Some? && current != Some(i) ==> best[current.value].customer != best[i].customer;
      assert FirstBestAt(all, b, k);
    }
  }

  lemma {:induction false} AddKeepsFirstBest(matches: seq<Match>, best: seq<Match>, m: Match, i: nat)
    requires OnePerCustomer(best) && i < |AddMatch(best, m)|
    requires forall j :: 0 <= j < |best| ==> IsFirstBest(matches, best[j])
    requires forall k :: 0 <= k < |matches| ==> HasCustomer(best, matches[k].customer)
    ensures IsFirstBest(matches + [m], AddMatch(best, m)[i])
  {
    if i < |best| {
      OldMatchStaysBest(matches, best, m, i);
    } else {
      forall k | 0 <= k < |matches| ensures matches[k].customer != m.customer {
        assert HasCustomer(best, matches[k].customer);
      }
      assert FirstBestAt(matches + [m], m, |matches|);
    }
  }

  lemma {:induction false} AddKeepsCustomers(best: seq<Match>, m: Match, customer: int)
    ensures HasCustomer(AddMatch(best, m), customer) <==> HasCustomer(best, customer) || customer == m.customer
  {
    var after := AddMatch(best, m);
    var current := PositionOf(best, m.customer);
    if HasCustomer(best, customer) {
      var i :| 0 <= i < |best| && best[i].customer == customer;
      assert after[i].customer == customer;
    }
    if customer == m.customer {
      assert after[if current.Some? then current.value else |best|].customer == customer;
    }
    if HasCustomer(after, customer) {
      var i :| 0 <= i < |after| && after[i].customer == customer;
      assert i < |best| ==> best[i].customer == customer;
    }
  }

  /** The selection: one match per customer, its first best one, and for exactly the matched customers. */
  ghost predicate IsSelection(best: seq<Match>, matches: seq<Match>) {
    && OnePerCustomer(best)
    && (forall j :: 0 <= j < |best| ==> IsFirstBest(matches, best[j]))
    && (forall k :: 0 <= k < |matches| ==> HasCustomer(best, matches[k].customer))
  }

  lemma {:induction false} AddKeepsSelection(best: seq<Match>, matches: seq<Match>, m: Match)
    requires IsSelection(best, matches)
    ensures IsSelection(AddMatch(best, m), matches + [m])
  {
    forall j | 0 <= j < |AddMatch(best, m)| ensures IsFirstBest(matches + [m], AddMatch(best, m)[j]) {
      AddKeepsFirstBest(matches, best, m, j);
    }
    forall k | 0 <= k < |matches + [m]| ensures HasCustomer(AddMatch(best, m), (matches + [m])[k].customer) {
      AddKeepsCustomers(best, m, (matches + [m])[k].customer);
      assert k < |matches| ==> HasCustomer(best, matches[k].customer);
    }
  }

  lemma {:induction false} BestIsSelection(matches: seq<Match>) returns (best: seq<Match>)
    ensures best == Best(matches) && IsSelection(best, matches)
    decreases |matches|
  {
    if matches == [] {
      best := [];
    } else {
      var front, m := matches[..|matches| - 1], matches[|matches| - 1];
      var before := BestIsSelection(front);
      best := AddMatch(before, m);
      assert best == Best(matches);
      assert IsSelection(best, front + [m]) by {
        AddKeepsSelection(before, front, m);
      }
      assert front + [m] == matches;
    }
  }

  /** Python's `max(values, key=confidence)`: the first value with the highest confidence. */
  function Top(best: seq<Match>): Match
    requires best != []
  {
    if |best| == 1 then best[0]
    else
      var t := Top(best[..|best| - 1]);
      if best[|best| - 1].confidence > t.confidence then best[|best| - 1] else t
  }

  lemma {:induction false} TopIsMaximum(best: seq<Match>)
    requires best != []
    ensures Top(best) in best && forall b :: b in best ==> b.confidence <= Top(best).confidence
    decreases |best|
  {
    if |best| > 1 {
      var front := best[..|best| - 1];
      TopIsMaximum(front);
      assert best == front + [best[|best| - 1]];
    }
  }

  lemma {:induction false} BestIsNotEmpty(matches: seq<Match>)
    requires matches != []
    ensures Best(matches) != []
  {
  }

  /** The detection's customer is that of a match that no match of any customer beats. */
  lemma {:induction false} TopAttainsMaximum(matches: seq<Match>)
    requires matches != []
    ensures Best(matches) != []
    ensures Top(Best(matches)) in matches && forall m :: m in matches ==> m.confidence <= Top(Best(matches)).confidence
  {
    var best := BestIsSelection(matches);
    assert HasCustomer(best, matches[0].customer);
    TopIsMaximum(best);
    var top := Top(best);
    var t :| 0 <= t < |best| && best[t] == top;
    assert IsFirstBest(matches, best[t]);
    forall m | m in matches ensures m.confidence <= top.confidence {
      var k :| 0 <= k < |matches| && matches[k] == m;
      assert HasCustomer(best, matches[k].customer);
      var j :| 0 <= j < |best| && best[j].customer == m.customer;
      assert IsFirstBest(matches, best[j]) && best[j] in best;
    }
  }

  // ---------- The pass ----------

  datatype Stats = Stats(
    processed: nat, matched: nat, unmatched: nat,
    created: nat, merged: nat, autoFp: nat, probable: nat,
    perStrategy: map<string, nat>)

  /** What becomes of the detection row; `link` is the finding it is linked to, if the pass sets one. */
  datatype Update = Untouched | MarkedUnmatched | Routed(top: Match, link: Option<nat>)

  /** How handling one match goes: `FalsePositive` also when updating the memory row then raises. */
  datatype Handling = Raises | FalsePositive | Proceeds

  /**
   `newFindings` lists the findings counted as created, `assets` the asset each was last counted for;
   `link` is the finding the detection at hand was last linked to; `caught` counts the exceptions raised
   before the match was counted under any outcome.
   */
  datatype Pass = Pass(
    findings: seq<Finding>, stats: Stats, newFindings: seq<nat>, assets: map<nat, nat>, link: Option<nat>,
    caught: nat)

  /** What one strategy yields for a detection; an exception makes it yield nothing. */
  datatype Yield = Raised | Found(matches: seq<Match>)

  /** The world's part in one detection: the strategies' results, and the handling per customer. */
  datatype World = World(strategies: seq<Yield>, handling: int -> Handling, now: int)

  function AllMatches(ys: seq<Yield>): seq<Match> {
    if ys == [] then []
    else AllMatches(ys[..|ys| - 1]) + if ys[|ys| - 1].Found? then ys[|ys| - 1].matches else []
  }

  /** Each strategy contributes all its matches in place, and one that raises takes nothing from the others. */
  lemma {:induction false} EveryStrategyContributes(xs: seq<Yield>, y: Yield, ys: seq<Yield>)
    ensures AllMatches([]) == []
    ensures AllMatches(xs + [y] + ys) == AllMatches(xs) + (if y.Found? then y.matches else []) + AllMatches(ys)
    decreases |ys|
  {
    var all := xs + [y] + ys;
    if ys == [] {
      assert all[..|all| - 1] == xs;
    } else {
      var front := ys[..|ys| - 1];
      EveryStrategyContributes(xs, y, front);
      assert all[..|all| - 1] == xs + [y] + front;
    }
  }

  function SightingOf(det: Detection, m: Match, now: int): Sighting {
    Sighting(Key(m.customer, det.iocType, det.value), det.source, m.severity, det.lastSeen, now)
  }

  function RouteMatch(p: Pass, det: Detection, m: Match, world: World, dryRun: bool): Pass {
    var p1 := p.(stats := p.stats.(perStrategy := Bump(p.stats.perStrategy, m.correlation)));
    if dryRun then p1
    else
      match world.handling(m.customer)
      case Raises => p1.(caught := p1.caught + 1)
      case FalsePositive => p1.(stats := p1.stats.(autoFp := p1.stats.autoFp + 1))
      case Proceeds =>
        if m.isProbable then p1.(stats := p1.stats.(probable := p1.stats.probable + 1))
        else
          var s := SightingOf(det, m, world.now);
          var id := UpsertedId(p1.findings, s);
          var p2 := p1.(findings := Upsert(p1.findings, s), link := Some(id));
          if CountsAsCreated(p1.findings, s) then
            p2.(stats := p2.stats.(created := p2.stats.created + 1),
                newFindings := p2.newFindings + [id], assets := p2.assets[id := m.asset])
          else p2.(stats := p2.stats.(merged := p2.stats.merged + 1))
  }

  function RouteMatches(p: Pass, det: Detection, best: seq<Match>, world: World, dryRun: bool): Pass {
    if best == [] then p
    else RouteMatch(RouteMatches(p, det, best[..|best| - 1], world, dryRun), det, best[|best| - 1], world, dryRun)
  }

  /** The next detection is taken up. */
  function CountProcessed(p: Pass): Pass {
    p.(stats := p.stats.(processed := p.stats.processed + 1), link := None)
  }

  function CountMatched(p: Pass): Pass {
    p.(stats := p.stats.(matched := p.stats.matched + 1))
  }

  function RouteDetection(p: Pass, det: Detection, world: World, dryRun: bool): (Pass, Update) {
    var p1 := CountProcessed(p);
    var matches := AllMatches(world.strategies);
    if matches == [] then
      (p1.(stats := p1.stats.(unmatched := p1.stats.unmatched + 1)), if dryRun then Untouched else MarkedUnmatched)
    else
      BestIsNotEmpty(matches);
      var p2 := RouteMatches(CountMatched(p1), det, Best(matches), world, dryRun);
      (p2, if dryRun then Untouched else Routed(Top(Best(matches)), p2.link))
  }

  function StartPass(findings: seq<Finding>): Pass {
    Pass(findings, Stats(0, 0, 0, 0, 0, 0, 0, map[]), [], map[], None, 0)
  }

  function RouteAll(findings: seq<Finding>, dets: seq<Detection>, worlds: seq<World>, dryRun: bool): (Pass, seq<Update>)
    requires |dets| == |worlds|
  {
    if dets == [] then (StartPass(findings), [])
    else
      var n := |dets| - 1;
      var (p, us) := RouteAll(findings, dets[..n], worlds[..n], dryRun);
      var (p', u) := RouteDetection(p, dets[n], worlds[n], dryRun);
      (p', us + [u])
  }

  /** The strategies run one after the other; those that raise are skipped. */
  method RunAllStrategies(strategies: seq<Yield>) returns (results: seq<Match>)
    ensures results == AllMatches(strategies)
  {
    results := [];
    for k := 0 to |strategies|
      invariant results == AllMatches(strategies[..k])
    {
      assert strategies[..k + 1][..k] == strategies[..k];
      match strategies[k]
      case Raised =>
      case Found(matches) => results := results + matches;
    }
    assert strategies[..|strategies|] == strategies;
  }

  class Router {
    var findings: seq<Finding>
    var stats: Stats
    var newFindings: seq<nat>
    var assets: map<nat, nat>
    var link: Option<nat>
    var caught: nat

    constructor (findings: seq<Finding>)
      ensures View() == StartPass(findings)
    {
      this.findings, newFindings, assets, link, caught := findings, [], map[], None, 0;
      stats := Stats(0, 0, 0, 0, 0, 0, 0, map[]);
    }

    ghost function View(): Pass
      reads this
    {
      Pass(findings, stats, newFindings, assets, link, caught)
    }

    /** The loop body for one customer's best match. */
    method HandleMatch(det: Detection, m: Match, world: World, dryRun: bool)
      modifies this
      ensures View() == RouteMatch(old(View()), det, m, world, dryRun)
    {
      stats := stats.(perStrategy := Bump(stats.perStrategy, m.correlation));
      if dryRun {
        return;
      }
      match world.handling(m.customer)
      case Raises =>
        caught := caught + 1;
      case FalsePositive =>
        stats := stats.(autoFp := stats.autoFp + 1);
      case Proceeds =>
        if m.isProbable {
          stats := stats.(probable := stats.probable + 1);
        } else {
          var s := SightingOf(det, m, world.now);
          var id := UpsertedId(findings, s);
          findings := Upsert(findings, s);
          link := Some(id);
          if findings[id].sourceCount == 1 {
            stats := stats.(created := stats.created + 1);
            newFindings := newFindings + [id];
            assets := assets[id := m.asset];
          } else {
            stats := stats.(merged := stats.merged + 1);
          }
        }
    }

    method HandleMatches(det: Detection, best: seq<Match>, world: World, dryRun: bool)
      modifies this
      ensures View() == RouteMatches(old(View()), det, best, world, dryRun)
    {
      for k := 0 to |best|
        invariant View() == RouteMatches(old(View()), det, best[..k], world, dryRun)
      {
        assert best[..k + 1][..k] == best[..k];
        HandleMatch(det, best[k], world, dryRun);
      }
      assert best[..|best|] == best;
    }

    method HandleDetection(det: Detection, world: World, dryRun: bool) returns (u: Update)
      modifies this
      ensures (View(), u) == RouteDetection(old(View()), det, world, dryRun)
    {
      stats := stats.(processed := stats.processed + 1);
      link := None;
      var matches := RunAllStrategies(world.strategies);
      if matches == [] {
        stats := stats.(unmatched := stats.unmatched + 1);
        return if dryRun then Untouched else MarkedUnmatched;
      }
      stats := stats.(matched := stats.matched + 1);
      var best := BestPerCustomer(matches);
      HandleMatches(det, best, world, dryRun);
      BestIsNotEmpty(matches);
      u := if dryRun then Untouched else Routed(Top(best), link);
    }

    method RouteDetections(dets: seq<Detection>, worlds: seq<World>, dryRun: bool) returns (us: seq<Update>)
      requires |dets| == |worlds| && View() == StartPass(findings)
      modifies this
      ensures (View(), us) == RouteAll(old(findings), dets, worlds, dryRun)
    {
      us := [];
      for k := 0 to |dets|
        invariant (View(), us) == RouteAll(old(findings), dets[..k], worlds[..k], dryRun)
      {
        assert dets[..k + 1][..k] == dets[..k] && worlds[..k + 1][..k] == worlds[..k];
        var u := HandleDetection(dets[k], worlds[k], dryRun);
        us := us + [u];
      }
      assert dets[..|dets|] == dets && worlds[..|worlds|] == worlds;
    }
  }

  // ---------- Accounting ----------

  /** Each match handled is counted once under its strategy and once under its outcome. */
  ghost predicate Accounted(p: Pass) {
    && p.stats.processed == p.stats.matched + p.stats.unmatched
    && Sum(p.stats.perStrategy) ==
       p.stats.autoFp + p.stats.probable + p.stats.created + p.stats.merged + p.caught
    && |p.newFindings| == p.stats.created
  }

  lemma {:induction false} MatchIsAccounted(p: Pass, det: Detection, m: Match, world: World)
    requires Sum(p.stats.perStrategy) ==
             p.stats.autoFp + p.stats.probable + p.stats.created + p.stats.merged + p.caught
    requires |p.newFindings| == p.stats.created
    ensures var p' := RouteMatch(p, det, m, world, false);
            && Sum(p'.stats.perStrategy) ==
               p'.stats.autoFp + p'.stats.probable + p'.stats.created + p'.stats.merged + p'.caught
            && |p'.newFindings| == p'.stats.created
            && p'.stats.processed == p.stats.processed
            && p'.stats.matched == p.stats.matched && p'.stats.unmatched == p.stats.unmatched
  {
    SumBump(p.stats.perStrategy, m.correlation);
  }

  lemma {:induction false} MatchesAreAccounted(p: Pass, det: Detection, best: seq<Match>, world: World)
    requires Accounted(p)
    ensures Accounted(RouteMatches(p, det, best, world, false))
    decreases |best|
  {
    if best != [] {
      var n := |best| - 1;
      MatchesAreAccounted(p, det, best[..n], world);
      MatchIsAccounted(RouteMatches(p, det, best[..n], world, false), det, best[n], world);
    }
  }

  lemma {:induction false} MatchesKeepProcessed(p: Pass, det: Detection, best: seq<Match>, world: World)
    ensures RouteMatches(p, det, best, world, false).stats.processed == p.stats.processed
    decreases |best|
  {
    if best != [] {
      MatchesKeepProcessed(p, det, best[..|best| - 1], world);
    }
  }

  lemma {:induction false} DetectionIsAccounted(p: Pass, det: Detection, world: World)
    requires Accounted(p)
    ensures var p' := RouteDetection(p, det, world, false).0;
            Accounted(p') && p'.stats.processed == p.stats.processed + 1
  {
    var matches := AllMatches(world.strategies);
    if matches != [] {
      var p2 := CountMatched(CountProcessed(p));
      MatchesAreAccounted(p2, det, Best(matches), world);
      MatchesKeepProcessed(p2, det, Best(matches), world);
    }
  }

  /** A pass that is not a dry run is fully accounted for. */
  lemma {:induction false} PassIsAccounted(findings: seq<Finding>, dets: seq<Detection>, worlds: seq<World>)
    requires |dets| == |worlds|
    ensures Accounted(RouteAll(findings, dets, worlds, false).0)
    ensures RouteAll(findings, dets, worlds, false).0.stats.processed == |dets|
    decreases |dets|
  {
    if dets != [] {
      var n := |dets| - 1;
      PassIsAccounted(findings, dets[..n], worlds[..n]);
      DetectionIsAccounted(RouteAll(findings, dets[..n], worlds[..n], false).0, dets[n], worlds[n]);
    }
  }

  // ---------- The findings a pass leaves ----------

  ghost function Merged(p: Pass): nat {
    p.stats.created + p.stats.merged
  }

  /** The match is merged into a finding. */
  predicate IsMerged(m: Match, world: World) {
    world.handling(m.customer) == Proceeds && !m.isProbable
  }

  /** The sightings that the matches `best` of one detection contribute. */
  function SightingsOf(det: Detection, best: seq<Match>, world: World): seq<Sighting> {
    if best == [] then []
    else
      var n := |best| - 1;
      SightingsOf(det, best[..n], world)
      + if IsMerged(best[n], world) then [SightingOf(det, best[n], world.now)] else []
  }

  function SightingsOfDetection(det: Detection, world: World): seq<Sighting> {
    SightingsOf(det, Best(AllMatches(world.strategies)), world)
  }

  /** The sightings of a whole pass, in order. */
  function PassSightings(dets: seq<Detection>, worlds: seq<World>): seq<Sighting>
    requires |dets| == |worlds|
  {
    if dets == [] then []
    else
      var n := |dets| - 1;
      PassSightings(dets[..n], worlds[..n]) + SightingsOfDetection(dets[n], worlds[n])
  }

  lemma {:induction false} SightingsAreOfMatches(det: Detection, best: seq<Match>, world: World, s: Sighting)
    ensures s in SightingsOf(det, best, world) <==>
            exists j :: 0 <= j < |best| && IsMerged(best[j], world) && s == SightingOf(det, best[j], world.now)
    decreases |best|
  {
    if best != [] {
      var n := |best| - 1;
      SightingsAreOfMatches(det, best[..n], world, s);
      if j :| 0 <= j < n && IsMerged(best[..n][j], world) && s == SightingOf(det, best[..n][j], world.now) {
        assert best[j] == best[..n][j];
      }
      if j :| 0 <= j < |best| && IsMerged(best[j], world) && s == SightingOf(det, best[j], world.now) {
        assert j < n ==> best[j] == best[..n][j];
      }
    }
  }

  /** `s` is the sighting of detection `d` by one of the matches selected for it. */
  ghost predicate IsSightingOf(det: Detection, world: World, s: Sighting) {
    exists m :: IsSelected(AllMatches(world.strategies), m) && IsMerged(m, world) && s == SightingOf(det, m, world.now)
  }

  ghost predicate IsSelected(matches: seq<Match>, m: Match) {
    m in Best(matches)
  }

  lemma {:induction false} DetectionSightingsAreMerged(det: Detection, world: World, s: Sighting)
    ensures s in SightingsOfDetection(det, world) <==> IsSightingOf(det, world, s)
  {
    var matches := AllMatches(world.strategies);
    var best := Best(matches);
    SightingsAreOfMatches(det, best, world, s);
    if m :| IsSelected(matches, m) && IsMerged(m, world) && s == SightingOf(det, m, world.now) {
      var j :| 0 <= j < |best| && best[j] == m;
    }
    if j :| 0 <= j < |best| && IsMerged(best[j], world) && s == SightingOf(det, best[j], world.now) {
      assert IsSelected(matches, best[j]);
    }
  }

  /** One of the detections has the sighting `s`. */
  ghost predicate SomeDetectionHas(dets: seq<Detection>, worlds: seq<World>, s: Sighting)
    requires |dets| == |worlds|
  {
    exists d :: 0 <= d < |dets| && IsSightingOf(dets[d], worlds[d], s)
  }

  lemma {:induction false} LastOrEarlierHas(dets: seq<Detection>, worlds: seq<World>, s: Sighting)
    requires |dets| == |worlds| > 0
    ensures var n := |dets| - 1;
            SomeDetectionHas(dets, worlds, s) <==>
            SomeDetectionHas(dets[..n], worlds[..n], s) || IsSightingOf(dets[n], worlds[n], s)
  {
    var n := |dets| - 1;
    if SomeDetectionHas(dets[..n], worlds[..n], s) {
      var d :| 0 <= d < n && IsSightingOf(dets[..n][d], worlds[..n][d], s);
      EarlierHas(dets, worlds, s, d);
    }
    if SomeDetectionHas(dets, worlds, s) && !IsSightingOf(dets[n], worlds[n], s) {
      var d :| 0 <= d < |dets| && IsSightingOf(dets[d], worlds[d], s);
      EarlierHas(dets, worlds, s, d);
    }
  }

  lemma {:induction false} EarlierHas(dets: seq<Detection>, worlds: seq<World>, s: Sighting, d: nat)
    requires |dets| == |worlds| && d < |dets| - 1
    ensures var n := |dets| - 1;
            IsSightingOf(dets[..n][d], worlds[..n][d], s) <==> IsSightingOf(dets[d], worlds[d], s)
  {
    var n := |dets| - 1;
    assert dets[..n][d] == dets[d] && worlds[..n][d] == worlds[d];
  }

  /** The sightings of a pass are those of the selected matches of its detections that are merged, and no others. */
  lemma {:induction false} PassSightingsAreMerged(dets: seq<Detection>, worlds: seq<World>, s: Sighting)
    requires |dets| == |worlds|
    ensures s in PassSightings(dets, worlds) <==> SomeDetectionHas(dets, worlds, s)
    decreases |dets|
  {
    if dets != [] {
      var n := |dets| - 1;
      PassSightingsAreMerged(dets[..n], worlds[..n], s);
      DetectionSightingsAreMerged(dets[n], worlds[n], s);
      LastOrEarlierHas(dets, worlds, s);
    }
  }

  // ---------- The findings counted as created ----------

  /**
   How many of the sightings `added` are counted as creations of the key's finding: those by a source
   such that no other source has reported the key before.
   */
  ghost function NewReports(seen: seq<Sighting>, added: seq<Sighting>, key: Key): nat {
    if added == [] then 0
    else
      var n := |added| - 1;
      NewReports(seen, added[..n], key)
      + if added[n].key == key && SourcesOf(seen + added[..n], key) <= {added[n].source} then 1 else 0
  }

  /** `p` is the state after the sightings `added`, on top of those seen before the pass. */
  ghost predicate Follows(p: Pass, seen: seq<Sighting>, added: seq<Sighting>) {
    && IsView(p.findings, seen + added)
    && |added| == Merged(p)
    && NewFindingsExist(p)
    && NewFindingsCounted(p, seen, added)
  }

  ghost predicate NewFindingsExist(p: Pass) {
    forall id :: id in p.newFindings ==> id < |p.findings| && id in p.assets
  }

  ghost predicate NewFindingsCounted(p: Pass, seen: seq<Sighting>, added: seq<Sighting>) {
    forall i: nat :: i < |p.findings| ==>
      multiset(p.newFindings)[i] == NewReports(seen, added, p.findings[i].key)
  }

  lemma {:induction false} NewReportsAfter(seen: seq<Sighting>, added: seq<Sighting>, s: Sighting, key: Key)
    ensures NewReports(seen, added + [s], key) ==
            NewReports(seen, added, key) + if s.key == key && SourcesOf(seen + added, key) <= {s.source} then 1 else 0
  {
    assert (added + [s])[..|added|] == added;
  }

  lemma {:induction false} UnseenHasNoReports(seen: seq<Sighting>, added: seq<Sighting>, key: Key)
    requires forall t :: t in seen + added ==> t.key != key
    ensures NewReports(seen, added, key) == 0
    decreases |added|
  {
    if added != [] {
      var n := |added| - 1;
      assert added[n] in seen + added;
      assert seen + added == (seen + added[..n]) + [added[n]];
      UnseenHasNoReports(seen, added[..n], key);
    }
  }

  lemma {:induction false} MergeKeepsView(
      p: Pass, det: Detection, m: Match, world: World, seen: seq<Sighting>, added: seq<Sighting>)
    returns (p': Pass, s: Sighting)
    requires IsView(p.findings, seen + added) && IsMerged(m, world)
    ensures p' == RouteMatch(p, det, m, world, false) && s == SightingOf(det, m, world.now)
    ensures IsView(p'.findings, seen + (added + [s])) && Merged(p') == Merged(p) + 1
  {
    s := SightingOf(det, m, world.now);
    p' := RouteMatch(p, det, m, world, false);
    UpsertKeepsView(p.findings, seen + added, s);
    assert seen + (added + [s]) == (seen + added) + [s];
  }

  lemma {:induction false} MergeKeepsCounts(
      p: Pass, det: Detection, m: Match, world: World, seen: seq<Sighting>, added: seq<Sighting>)
    requires Follows(p, seen, added) && IsMerged(m, world)
    ensures NewFindingsCounted(
              RouteMatch(p, det, m, world, false), seen, added + [SightingOf(det, m, world.now)])
  {
    var s := SightingOf(det, m, world.now);
    var p' := RouteMatch(p, det, m, world, false);
    forall i: nat | i < |p'.findings|
      ensures multiset(p'.newFindings)[i] == NewReports(seen, added + [s], p'.findings[i].key)
    {
      MergeCounts(p, det, m, world, seen, added, i);
    }
  }

  /** A merged match adds its sighting, counted as a creation exactly when `NewReports` counts it; others add none. */
  lemma {:induction false} MatchFollows(
      p: Pass, det: Detection, m: Match, world: World, seen: seq<Sighting>, added: seq<Sighting>)
    returns (p': Pass, more: seq<Sighting>)
    requires Follows(p, seen, added)
    ensures p' == RouteMatch(p, det, m, world, false)
    ensures more == if IsMerged(m, world) then added + [SightingOf(det, m, world.now)] else added
    ensures Follows(p', seen, more)
  {
    if IsMerged(m, world) {
      var s;
      MergeKeepsNewFindings(p, det, m, world);
      MergeKeepsCounts(p, det, m, world, seen, added);
      p', s := MergeKeepsView(p, det, m, world, seen, added);
      more := added + [s];
    } else {
      p', more := RouteMatch(p, det, m, world, false), added;
    }
  }

  lemma {:induction false} MergeKeepsNewFindings(p: Pass, det: Detection, m: Match, world: World)
    requires NewFindingsExist(p)
    ensures NewFindingsExist(RouteMatch(p, det, m, world, false))
  {
  }

  lemma {:induction false} MergeCounts(
      p: Pass, det: Detection, m: Match, world: World, seen: seq<Sighting>, added: seq<Sighting>, i: nat)
    requires Follows(p, seen, added) && IsMerged(m, world)
    requires i < |RouteMatch(p, det, m, world, false).findings|
    ensures var p' := RouteMatch(p, det, m, world, false);
            multiset(p'.newFindings)[i] ==
            NewReports(seen, added + [SightingOf(det, m, world.now)], p'.findings[i].key)
  {
    var s := SightingOf(det, m, world.now);
    var p' := RouteMatch(p, det, m, world, false);
    var key := p'.findings[i].key;
    NewReportsAfter(seen, added, s, key);
    CountsAsCreatedIff(p.findings, seen + added, s);
    UpsertKeepsKeysUnique(p.findings, s);
    assert key == s.key <==> i == UpsertedId(p.findings, s);
    if i < |p.findings| {
      assert p.findings[i].key == key;
    } else {
      UnseenKey(p.findings, seen + added, key);
      UnseenHasNoReports(seen, added, key);
      assert i !in p.newFindings;
    }
  }

  // ---------- The findings a pass leaves ----------

  lemma {:induction false} MatchesFollow(
      p: Pass, det: Detection, best: seq<Match>, world: World, seen: seq<Sighting>, added: seq<Sighting>)
    returns (p': Pass, more: seq<Sighting>)
    requires Follows(p, seen, added)
    ensures p' == RouteMatches(p, det, best, world, false) && more == added + SightingsOf(det, best, world)
    ensures Follows(p', seen, more)
    decreases |best|
  {
    if best == [] {
      p', more := p, added;
    } else {
      var n := |best| - 1;
      var before, earlier := MatchesFollow(p, det, best[..n], world, seen, added);
      p', more := MatchFollows(before, det, best[n], world, seen, earlier);
      assert more == added + SightingsOf(det, best, world);
    }
  }

  lemma {:induction false} DetectionFollows(
      p: Pass, det: Detection, world: World, seen: seq<Sighting>, added: seq<Sighting>)
    returns (p': Pass, more: seq<Sighting>)
    requires Follows(p, seen, added)
    ensures p' == RouteDetection(p, det, world, false).0 && more == added + SightingsOfDetection(det, world)
    ensures Follows(p', seen, more)
  {
    var matches := AllMatches(world.strategies);
    if matches == [] {
      p', more := RouteDetection(p, det, world, false).0, added;
      assert more == added + SightingsOfDetection(det, world);
    } else {
      p', more := MatchesFollow(CountMatched(CountProcessed(p)), det, Best(matches), world, seen, added);
    }
  }

  lemma {:induction false} PassFollows(
      findings: seq<Finding>, dets: seq<Detection>, worlds: seq<World>, seen: seq<Sighting>)
    returns (p: Pass, added: seq<Sighting>)
    requires |dets| == |worlds| && IsView(findings, seen)
    ensures p == RouteAll(findings, dets, worlds, false).0 && added == PassSightings(dets, worlds)
    ensures Follows(p, seen, added)
    decreases |dets|
  {
    if dets == [] {
      p, added := StartPass(findings), [];
      assert seen + [] == seen;
    } else {
      var n := |dets| - 1;
      var before, earlier := PassFollows(findings, dets[..n], worlds[..n], seen);
      p, added := DetectionFollows(before, dets[n], worlds[n], seen, earlier);
    }
  }

  /**
   A pass leaves one finding per (customer, indicator), each the summary of the sightings before the
   pass and of those of the pass, and counts each of the latter as created or merged.
   */
  lemma {:induction false} PassKeepsView(
      findings: seq<Finding>, dets: seq<Detection>, worlds: seq<World>, seen: seq<Sighting>)
    returns (p: Pass, added: seq<Sighting>)
    requires |dets| == |worlds| && IsView(findings, seen)
    ensures p == RouteAll(findings, dets, worlds, false).0 && added == PassSightings(dets, worlds)
    ensures IsView(p.findings, seen + added) && |added| == p.stats.created + p.stats.merged
  {
    p, added := PassFollows(findings, dets, worlds, seen);
  }

  /** A finding is counted as created as often as `NewReports` says, whatever happens in between. */
  lemma {:induction false} CreationsAreNewReports(
      findings: seq<Finding>, dets: seq<Detection>, worlds: seq<World>, seen: seq<Sighting>)
    returns (p: Pass, added: seq<Sighting>)
    requires |dets| == |worlds| && IsView(findings, seen)
    ensures p == RouteAll(findings, dets, worlds, false).0 && added == PassSightings(dets, worlds)
    ensures NewFindingsExist(p) && NewFindingsCounted(p, seen, added)
  {
    p, added := PassFollows(findings, dets, worlds, seen);
  }

  lemma {:induction false} FirstReportDecides(seen: seq<Sighting>, added: seq<Sighting>, key: Key, k: nat)
    requires k < |added| && added[k].key == key && forall m :: 0 <= m < k ==> added[m].key != key
    ensures NewReports(seen, added, key) > 0 <==> SourcesOf(seen, key) <= {added[k].source}
    decreases |added|
  {
    var n := |added| - 1;
    if k == n {
      NoReportsBefore(seen, added[..n], key);
    } else {
      FirstReportDecides(seen, added[..n], key, k);
      if added[n].key == key && SourcesOf(seen + added[..n], key) <= {added[n].source} {
        var t := added[k];
        assert t in seen + added[..n] && t.source in SourcesOf(seen + added[..n], key);
        assert SourcesOf(seen, key) <= SourcesOf(seen + added[..n], key) by {
          forall s | s in seen ensures s in seen + added[..n] {}
        }
      }
    }
  }

  lemma {:induction false} NoReportsBefore(seen: seq<Sighting>, added: seq<Sighting>, key: Key)
    requires forall m :: 0 <= m < |added| ==> added[m].key != key
    ensures NewReports(seen, added, key) == 0 && SourcesOf(seen + added, key) == SourcesOf(seen, key)
    decreases |added|
  {
    if added == [] {
      assert seen + added == seen;
    } else {
      var n := |added| - 1;
      NoReportsBefore(seen, added[..n], key);
      assert seen + added == (seen + added[..n]) + [added[n]];
      assert SourcesOf(seen + added, key) == SourcesOf(seen + added[..n], key);
    }
  }

  // ---------- Which finding a detection is linked to ----------

  /** The last of the matches that is merged. */
  function LastMerged(best: seq<Match>, world: World): (r: Option<Match>)
    ensures r.Some? ==> r.value in best && IsMerged(r.value, world)
    ensures r == None ==> forall m :: m in best ==> !IsMerged(m, world)
  {
    if best == [] then None
    else
      var n := |best| - 1;
      assert best == best[..n] + [best[n]];
      if IsMerged(best[n], world) then Some(best[n]) else LastMerged(best[..n], world)
  }

  /** The link is to the finding of the customer whose match was merged last. */
  lemma {:induction false} LinkIsToLastMerged(p: Pass, det: Detection, best: seq<Match>, world: World)
    requires p.link == None
    ensures var p', last := RouteMatches(p, det, best, world, false), LastMerged(best, world);
            && (p'.link == None <==> last == None)
            && (p'.link.Some? ==>
                  && p'.link.value < |p'.findings|
                  && p'.findings[p'.link.value].key == Key(last.value.customer, det.iocType, det.value))
    decreases |best|
  {
    if best != [] {
      LinkIsToLastMerged(p, det, best[..|best| - 1], world);
    }
  }

  /**
   The customer of a routed detection and that of the finding it is linked to agree exactly when the
   match merged last is the top match: findings are linked in dict order, not by confidence.
   */
  lemma {:induction false} LinkAgreesIff(p: Pass, det: Detection, world: World)
    returns (p': Pass, top: Match, link: nat)
    requires AllMatches(world.strategies) != [] && LastMerged(Best(AllMatches(world.strategies)), world).Some?
    ensures RouteDetection(p, det, world, false) == (p', Routed(top, Some(link))) && link < |p'.findings|
    ensures p'.findings[link].key.customer == top.customer <==>
            LastMerged(Best(AllMatches(world.strategies)), world) == Some(top)
  {
    var matches := AllMatches(world.strategies);
    var best := BestIsSelection(matches);
    BestIsNotEmpty(matches);
    LinkIsToLastMerged(CountMatched(CountProcessed(p)), det, best, world);
    p', top := RouteDetection(p, det, world, false).0, Top(best);
    link := p'.link.value;
    TopIsMaximum(best);
    OneMatchPerCustomer(best, top, LastMerged(best, world).value);
  }

  lemma {:induction false} OneMatchPerCustomer(best: seq<Match>, m: Match, m': Match)
    requires OnePerCustomer(best) && m in best && m' in best
    ensures m.customer == m'.customer <==> m == m'
  {
    var i :| 0 <= i < |best| && best[i] == m;
    var j :| 0 <= j < |best| && best[j] == m';
    assert i != j ==> best[i].customer != best[j].customer;
  }

  /** A detection matched by two customers is linked to the finding of the one with the weaker match. */
  lemma {:induction false} LinkedToOtherCustomer(p: Pass, det: Detection, m1: Match, m2: Match, now: int)
    returns (p': Pass, link: nat)
    requires m1.customer != m2.customer && m1.confidence >= m2.confidence && !m1.isProbable && !m2.isProbable
    ensures RouteDetection(p, det, World([Found([m1, m2])], _ => Proceeds, now), false) == (p', Routed(m1, Some(link)))
    ensures link < |p'.findings| && p'.findings[link].key.customer == m2.customer
  {
    var world := World([Found([m1, m2])], _ => Proceeds, now);
    TwoMatches(m1, m2);
    assert world.strategies[..0] == [] && AllMatches(world.strategies) == [m1, m2];
    var best := [m1, m2];
    assert best[..1] == [m1];
    assert Top(best) == m1 && LastMerged(best, world) == Some(m2);
    BestIsNotEmpty(best);
    LinkIsToLastMerged(CountMatched(CountProcessed(p)), det, best, world);
    p' := RouteDetection(p, det, world, false).0;
    link := p'.link.value;
  }

  lemma {:induction false} TwoMatches(m1: Match, m2: Match)
    requires m1.customer != m2.customer
    ensures Best([m1, m2]) == [m1, m2]
  {
    assert [m1, m2][..1] == [m1] && [m1][..0] == [];
    assert Best([m1]) == [m1];
    assert PositionOf([m1], m2.customer) == None;
  }
}
