/**
 The last step of a routing pass: new findings that warrant an alert are put into the alert queue
 (match/customer_router.py, alerts/dispatch_rule.py).

 The rule is applied to the findings as they are at the end of the pass, but only to those the pass
 counted as created, once for each time it counted them.
 */
module AlertEnqueue {
  import opened Options
  import opened FindingMerge
  import opened Routing
  import opened DedupeKey
  import AlertQueue

  // ---------- The rule ----------

  predicate ShouldDispatch(f: Finding) {
    f.severity == High || f.severity == Critical || (f.severity == Medium && f.sourceCount >= 2)
  }

  /** What the sightings of a key must be like for an alert. */
  ghost predicate Warrants(ss: seq<Sighting>, key: Key) {
    || (exists s :: s in ss && s.key == key && s.severity in {High, Critical})
    || ((exists s :: s in ss && s.key == key && s.severity == Medium) && |SourcesOf(ss, key)| >= 2)
  }

  /** The rule sees the maximum severity and the number of sources over all sightings. */
  lemma {:induction false} RuleIsOnSightings(f: Finding, ss: seq<Sighting>)
    requires Summarizes(f, ss)
    ensures ShouldDispatch(f) <==> Warrants(ss, f.key)
  {
    var top :| top in ss && top.key == f.key && top.severity == f.severity;
    assert forall s :: s in ss && s.key == f.key ==> Rank(s.severity) <= Rank(f.severity);
  }

  // ---------- Putting findings into the queue ----------

  datatype Alert = Alert(customer: int, key: string)

  function AlertFor(f: Finding, asset: Option<nat>, lower: string -> string): Alert {
    Alert(f.key.customer, RawKey(lower, f.key.customer, f.key.value, asset))
  }

  function AssetOf(assets: map<nat, nat>, id: nat): Option<nat> {
    if id in assets then Some(assets[id]) else None
  }

  predicate Exist(ids: seq<nat>, findings: seq<Finding>) {
    forall k :: 0 <= k < |ids| ==> ids[k] < |findings|
  }

  /** The findings among `ids` that the rule lets through, in order. */
  function QueuedIds(findings: seq<Finding>, ids: seq<nat>): (queued: seq<nat>)
    requires Exist(ids, findings)
    ensures Exist(queued, findings)
  {
    if ids == [] then []
    else
      var n := |ids| - 1;
      QueuedIds(findings, ids[..n]) + if ShouldDispatch(findings[ids[n]]) then [ids[n]] else []
  }

  /** `rows'` has one new row per queued finding, deduped to what was out in `rows` or pending. */
  ghost predicate Enqueued(
      rows: seq<AlertQueue.Row>, rows': seq<AlertQueue.Row>, cfg: AlertQueue.Config, clock: nat -> int,
      alerts: seq<Alert>)
  {
    && |rows'| == |rows| + |alerts| && rows <= rows'
    && forall k :: 0 <= k < |alerts| ==> EnqueuedAt(rows, rows'[|rows| + k], cfg, clock(k), alerts[k])
  }

  ghost predicate EnqueuedAt(
      rows: seq<AlertQueue.Row>, r: AlertQueue.Row, cfg: AlertQueue.Config, now: int, alert: Alert)
  {
    && AlertQueue.IsExistingDispatch(rows, alert.key, now - cfg.dedupeWindow, r.dedupedOf)
    && r == AlertQueue.NewRow(alert.customer, alert.key, r.dedupedOf, now)
  }

  /** Rows queued in this pass are not out yet, so dedupe sees what was out before it. */
  lemma {:induction false} QueuedRowsAreNotOut(
      rows: seq<AlertQueue.Row>, rows': seq<AlertQueue.Row>, cfg: AlertQueue.Config, clock: nat -> int,
      alerts: seq<Alert>, key: string, cutoff: int, target: Option<nat>)
    requires Enqueued(rows, rows', cfg, clock, alerts)
    requires AlertQueue.IsExistingDispatch(rows', key, cutoff, target)
    ensures AlertQueue.IsExistingDispatch(rows, key, cutoff, target)
  {
    forall i | |rows| <= i < |rows'| ensures !AlertQueue.AlreadyOut(rows'[i], key, cutoff) {
      assert EnqueuedAt(rows, rows'[|rows| + (i - |rows|)], cfg, clock(i - |rows|), alerts[i - |rows|]);
    }
  }

  function Alerts(
      findings: seq<Finding>, queued: seq<nat>, assets: map<nat, nat>, lower: string -> string): (alerts: seq<Alert>)
    requires Exist(queued, findings)
    ensures |alerts| == |queued|
    ensures forall k :: 0 <= k < |queued| ==>
      alerts[k] == AlertFor(findings[queued[k]], AssetOf(assets, queued[k]), lower)
  {
    seq(|queued|, k requires 0 <= k < |queued| =>
      AlertFor(findings[queued[k]], AssetOf(assets, queued[k]), lower))
  }

  /** Python's `asset_id or ''`: a finding without an asset and one with asset 0 read the same. */
  ghost function AssetNumber(assets: map<nat, nat>, id: nat): nat {
    if id in assets then assets[id] else 0
  }

  /** Two queued findings get one dedupe key exactly for the same customer, indicator text and asset. */
  lemma {:induction false} QueuedKeysAgreeIff(
      findings: seq<Finding>, queued: seq<nat>, assets: map<nat, nat>, lower: string -> string, j: nat, k: nat)
    returns (a: Alert, b: Alert, f: Finding, g: Finding)
    requires Exist(queued, findings) && j < |queued| && k < |queued|
    ensures f == findings[queued[j]] && g == findings[queued[k]]
    ensures a == Alerts(findings, queued, assets, lower)[j] && b == Alerts(findings, queued, assets, lower)[k]
    ensures a.customer == f.key.customer && b.customer == g.key.customer
    ensures a.key == b.key <==>
            && f.key.customer == g.key.customer && lower(f.key.value) == lower(g.key.value)
            && AssetNumber(assets, queued[j]) == AssetNumber(assets, queued[k])
  {
    f, g := findings[queued[j]], findings[queued[k]];
    var assetF, assetG := AssetOf(assets, queued[j]), AssetOf(assets, queued[k]);
    a, b := AlertFor(f, assetF, lower), AlertFor(g, assetG, lower);
    KeyIdentifiesAlert(lower, f.key.customer, f.key.value, assetF, g.key.customer, g.key.value, assetG);
  }

  method QueueOne(
      store: AlertQueue.AlertStore, cfg: AlertQueue.Config, now: int, alert: Alert,
      ghost rows: seq<AlertQueue.Row>, ghost alerts: seq<Alert>, ghost clock: nat -> int)
    requires Enqueued(rows, store.rows, cfg, clock, alerts) && now == clock(|alerts|)
    modifies store
    ensures Enqueued(rows, store.rows, cfg, clock, alerts + [alert])
    ensures store.batches == old(store.batches) && store.sends == old(store.sends)
  {
    ghost var before := store.rows;
    var target := store.Enqueue(cfg, now, alert.customer, alert.key);
    QueuedRowsAreNotOut(rows, before, cfg, clock, alerts, alert.key, now - cfg.dedupeWindow, target);
    OneMoreQueued(rows, before, cfg, clock, alerts, alert, target);
  }

  method EnqueueNew(
      store: AlertQueue.AlertStore, cfg: AlertQueue.Config, clock: nat -> int, lower: string -> string,
      findings: seq<Finding>, newFindings: seq<nat>, assets: map<nat, nat>)
    returns (queued: seq<nat>)
    requires Exist(newFindings, findings)
    modifies store
    ensures queued == QueuedIds(findings, newFindings)
    ensures Enqueued(old(store.rows), store.rows, cfg, clock, Alerts(findings, queued, assets, lower))
    ensures store.batches == old(store.batches) && store.sends == old(store.sends)
  {
    queued := [];
    ghost var alerts: seq<Alert> := [];
    for i := 0 to |newFindings|
      invariant queued == QueuedIds(findings, newFindings[..i])
      invariant alerts == Alerts(findings, queued, assets, lower)
      invariant Enqueued(old(store.rows), store.rows, cfg, clock, alerts)
      invariant store.batches == old(store.batches) && store.sends == old(store.sends)
    {
      assert newFindings[..i + 1][..i] == newFindings[..i];
      var id := newFindings[i];
      if ShouldDispatch(findings[id]) {
        var alert := AlertFor(findings[id], AssetOf(assets, id), lower);
        QueueOne(store, cfg, clock(|queued|), alert, old(store.rows), alerts, clock);
        queued := queued + [id];
        alerts := alerts + [alert];
      }
    }
    assert newFindings[..|newFindings|] == newFindings;
  }

  lemma {:induction false} OneMoreQueued(
      rows: seq<AlertQueue.Row>, rows': seq<AlertQueue.Row>, cfg: AlertQueue.Config, clock: nat -> int,
      alerts: seq<Alert>, alert: Alert, target: Option<nat>)
    requires Enqueued(rows, rows', cfg, clock, alerts)
    requires AlertQueue.IsExistingDispatch(rows, alert.key, clock(|alerts|) - cfg.dedupeWindow, target)
    ensures var row := AlertQueue.NewRow(alert.customer, alert.key, target, clock(|alerts|));
            Enqueued(rows, rows' + [row], cfg, clock, alerts + [alert])
  {
    var row := AlertQueue.NewRow(alert.customer, alert.key, target, clock(|alerts|));
    var more, all := rows' + [row], alerts + [alert];
    forall k | 0 <= k < |all| ensures EnqueuedAt(rows, more[|rows| + k], cfg, clock(k), all[k]) {
      if k < |alerts| {
        assert EnqueuedAt(rows, rows'[|rows| + k], cfg, clock(k), alerts[k]);
      }
    }
  }

  // ---------- When a finding is queued ----------

  lemma {:induction false} QueuedTimes(findings: seq<Finding>, ids: seq<nat>, i: nat)
    requires Exist(ids, findings) && i < |findings|
    ensures multiset(QueuedIds(findings, ids))[i] == if ShouldDispatch(findings[i]) then multiset(ids)[i] else 0
    decreases |ids|
  {
    if ids != [] {
      var n := |ids| - 1;
      var earlier, id := QueuedIds(findings, ids[..n]), ids[n];
      QueuedTimes(findings, ids[..n], i);
      assert ids == ids[..n] + [id];
      if ShouldDispatch(findings[id]) {
        assert QueuedIds(findings, ids) == earlier + [id];
      } else {
        assert QueuedIds(findings, ids) == earlier;
      }
    }
  }

  lemma {:induction false} NewFindingsAreFindings(p: Pass)
    requires NewFindingsExist(p)
    ensures Exist(p.newFindings, p.findings)
  {
    forall k | 0 <= k < |p.newFindings| ensures p.newFindings[k] < |p.findings| {
      assert p.newFindings[k] in p.newFindings;
    }
  }

  /** The finding is queued once per new report of its key if the sightings warrant an alert, else never. */
  ghost predicate QueuedAsReported(p: Pass, seen: seq<Sighting>, added: seq<Sighting>, i: nat)
    requires Exist(p.newFindings, p.findings) && i < |p.findings|
  {
    var key := p.findings[i].key;
    multiset(QueuedIds(p.findings, p.newFindings))[i] ==
    if Warrants(seen + added, key) then NewReports(seen, added, key) else 0
  }

  lemma {:induction false} QueuedAsReportedAt(p: Pass, seen: seq<Sighting>, added: seq<Sighting>, i: nat)
    requires Follows(p, seen, added) && Exist(p.newFindings, p.findings) && i < |p.findings|
    ensures QueuedAsReported(p, seen, added, i)
  {
    RuleIsOnSightings(p.findings[i], seen + added);
    QueuedTimes(p.findings, p.newFindings, i);
  }

  /**
   How often a pass queues a finding: not at all unless its sightings, those of the pass included,
   warrant an alert, and otherwise once per sighting of the pass before which no other source had
   reported it.
   */
  lemma {:induction false} TimesQueued(
      findings: seq<Finding>, dets: seq<Detection>, worlds: seq<World>, seen: seq<Sighting>)
    returns (p: Pass, added: seq<Sighting>)
    requires |dets| == |worlds| && IsView(findings, seen)
    ensures p == RouteAll(findings, dets, worlds, false).0 && added == PassSightings(dets, worlds)
    ensures IsView(p.findings, seen + added) && Exist(p.newFindings, p.findings)
    ensures forall i: nat :: i < |p.findings| ==> QueuedAsReported(p, seen, added, i)
  {
    p, added := PassFollows(findings, dets, worlds, seen);
    NewFindingsAreFindings(p);
    forall i: nat | i < |p.findings| ensures QueuedAsReported(p, seen, added, i) {
      QueuedAsReportedAt(p, seen, added, i);
    }
  }

  /** The first sighting of the key in the pass is number `k`. */
  ghost predicate FirstReportAt(added: seq<Sighting>, key: Key, k: nat) {
    k < |added| && added[k].key == key && forall m :: 0 <= m < k ==> added[m].key != key
  }

  /**
   A finding reported in the pass, first by sighting `k`, is queued exactly when no other source than
   that of sighting `k` had reported it before the pass, and its sightings warrant an alert.  So a
   second source never gets a finding of an earlier pass queued, neither by raising its severity nor
   by making a medium one credible.
   */
  lemma {:induction false} QueuedIff(
      findings: seq<Finding>, dets: seq<Detection>, worlds: seq<World>, seen: seq<Sighting>, key: Key, k: nat)
    returns (p: Pass, added: seq<Sighting>, i: nat)
    requires |dets| == |worlds| && IsView(findings, seen) && FirstReportAt(PassSightings(dets, worlds), key, k)
    ensures p == RouteAll(findings, dets, worlds, false).0 && added == PassSightings(dets, worlds)
    ensures Exist(p.newFindings, p.findings) && i < |p.findings| && p.findings[i].key == key
    ensures i in QueuedIds(p.findings, p.newFindings) <==>
            SourcesOf(seen, key) <= {added[k].source} && Warrants(seen + added, key)
  {
    p, added := TimesQueued(findings, dets, worlds, seen);
    assert added[k] in seen + added;
    i :| 0 <= i < |p.findings| && p.findings[i].key == key;
    assert QueuedAsReported(p, seen, added, i);
    FirstReportDecides(seen, added, key, k);
    assert i in QueuedIds(p.findings, p.newFindings) <==> i in multiset(QueuedIds(p.findings, p.newFindings));
  }

  // ---------- Repeats and second sources ----------

  /** One strategy finds one match, and nothing keeps it from being merged. */
  function OneMatch(m: Match, now: int): World {
    World([Found([m])], _ => Proceeds, now)
  }

  lemma {:induction false} OneMatchSightings(det: Detection, m: Match, now: int)
    requires !m.isProbable
    ensures SightingsOfDetection(det, OneMatch(m, now)) == [SightingOf(det, m, now)]
  {
    var ys := OneMatch(m, now).strategies;
    assert ys == [Found([m])] && ys[..0] == [];
    assert AllMatches(ys) == [m];
    assert [m][..0] == [];
    assert Best([m]) == [m];
    assert SightingsOf(det, [m], OneMatch(m, now)) == [SightingOf(det, m, now)];
  }

  lemma {:induction false} OneSighting(det: Detection, m: Match, now: int)
    requires !m.isProbable
    ensures PassSightings([det], [OneMatch(m, now)]) == [SightingOf(det, m, now)]
  {
    var dets, worlds := [det], [OneMatch(m, now)];
    assert dets[..0] == [] && worlds[..0] == [];
    OneMatchSightings(det, m, now);
  }

  lemma {:induction false} SameSightingTwice(det: Detection, m: Match, now: int)
    requires !m.isProbable
    ensures var s, w := SightingOf(det, m, now), OneMatch(m, now); PassSightings([det, det], [w, w]) == [s, s]
  {
    var dets, worlds := [det, det], [OneMatch(m, now), OneMatch(m, now)];
    assert dets[..1] == [det] && worlds[..1] == [OneMatch(m, now)];
    OneSighting(det, m, now);
    OneMatchSightings(det, m, now);
  }

  lemma {:induction false} OneFinding(fs: seq<Finding>, ss: seq<Sighting>, key: Key)
    requires IsView(fs, ss) && ss != [] && forall s :: s in ss ==> s.key == key
    ensures |fs| == 1 && fs[0].key == key
  {
    assert Recorded(fs, ss[0].key);
    forall i | 0 <= i < |fs| ensures fs[i].key == key {
      assert Summarizes(fs[i], ss);
    }
    FirstTwoDiffer(fs);
  }

  lemma {:induction false} FirstTwoDiffer(fs: seq<Finding>)
    requires UniqueKeys(fs)
    ensures |fs| > 1 ==> fs[0].key != fs[1].key
  {
  }

  lemma {:induction false} TwoNewReports(s: Sighting)
    ensures NewReports([], [s, s], s.key) == 2
  {
    assert [s, s][..1] == [s] && [s][..0] == [];
    assert SourcesOf([] + [s], s.key) <= {s.source} && SourcesOf([] + [], s.key) == {};
    assert NewReports([], [s], s.key) == 1;
  }

  lemma {:induction false} BothQueued(p: Pass, added: seq<Sighting>, s: Sighting)
    requires added == [s, s] && Rank(s.severity) >= Rank(High)
    requires IsView(p.findings, [] + added) && Exist(p.newFindings, p.findings)
    requires forall i: nat :: i < |p.findings| ==> QueuedAsReported(p, [], added, i)
    ensures |p.findings| == 1 && multiset(QueuedIds(p.findings, p.newFindings))[0] == 2
  {
    assert [] + added == added && s in added;
    OneFinding(p.findings, added, s.key);
    TwoNewReports(s);
    assert QueuedAsReported(p, [], added, 0);
  }

  /** A finding of high severity reported twice by the same source in one pass is queued twice. */
  lemma {:induction false} RepeatIsQueuedTwice(det: Detection, m: Match, now: int) returns (p: Pass)
    requires !m.isProbable && Rank(m.severity) >= Rank(High)
    ensures p == RouteAll([], [det, det], [OneMatch(m, now), OneMatch(m, now)], false).0
    ensures |p.findings| == 1 && Exist(p.newFindings, p.findings)
    ensures multiset(QueuedIds(p.findings, p.newFindings))[0] == 2
  {
    var added;
    p, added := TimesQueued([], [det, det], [OneMatch(m, now), OneMatch(m, now)], []);
    SameSightingTwice(det, m, now);
    BothQueued(p, added, SightingOf(det, m, now));
  }

  lemma {:induction false} UnconfirmedIsNotQueued(p: Pass, added: seq<Sighting>, s: Sighting)
    requires added == [s] && s.severity == Medium
    requires IsView(p.findings, [] + added) && Exist(p.newFindings, p.findings)
    requires forall i: nat :: i < |p.findings| ==> QueuedAsReported(p, [], added, i)
    ensures IsView(p.findings, added) && QueuedIds(p.findings, p.newFindings) == []
  {
    assert [] + added == added;
    OneFinding(p.findings, added, s.key);
    assert SourcesOf(added, s.key) == {s.source};
    assert !Warrants(added, s.key);
    NothingQueued(p, [], added);
  }

  lemma {:induction false} ConfirmedMediumWarrants(s: Sighting, t: Sighting)
    requires s.key == t.key && s.source != t.source && s.severity == Medium
    ensures Warrants([s, t], s.key) && NewReports([s], [t], s.key) == 0
  {
    assert s in [s, t] && t in [s, t] && s in [s];
    assert SourcesOf([s, t], s.key) == {s.source, t.source};
    assert s.source in SourcesOf([s], s.key);
    FirstReportDecides([s], [t], s.key, 0);
  }

  lemma {:induction false} ConfirmedButUnqueued(
      p: Pass, seen: seq<Sighting>, added: seq<Sighting>, s: Sighting, t: Sighting)
    requires seen == [s] && added == [t] && s.key == t.key && s.source != t.source && s.severity == Medium
    requires IsView(p.findings, seen + added) && Exist(p.newFindings, p.findings)
    requires forall i: nat :: i < |p.findings| ==> QueuedAsReported(p, seen, added, i)
    ensures |p.findings| == 1 && ShouldDispatch(p.findings[0]) && QueuedIds(p.findings, p.newFindings) == []
  {
    OneFinding(p.findings, seen + added, s.key);
    ConfirmedMediumWarrants(s, t);
    assert seen + added == [s, t];
    RuleIsOnSightings(p.findings[0], seen + added);
    NothingQueued(p, seen, added);
  }

  /**
   A medium finding that a second source confirms in the next pass, even as critical, passes the rule
   but is queued by neither pass.
   */
  lemma {:induction false} SecondSourceIsNotQueued(det1: Detection, m1: Match, det2: Detection, m2: Match, now: int)
    returns (p1: Pass, p2: Pass)
    requires det1.iocType == det2.iocType && det1.value == det2.value && det1.source != det2.source
    requires m1.customer == m2.customer && m1.severity == Medium && !m1.isProbable && !m2.isProbable
    ensures p1 == RouteAll([], [det1], [OneMatch(m1, now)], false).0
    ensures p2 == RouteAll(p1.findings, [det2], [OneMatch(m2, now)], false).0
    ensures |p2.findings| == 1 && ShouldDispatch(p2.findings[0])
    ensures Exist(p1.newFindings, p1.findings) && QueuedIds(p1.findings, p1.newFindings) == []
    ensures Exist(p2.newFindings, p2.findings) && QueuedIds(p2.findings, p2.newFindings) == []
  {
    var s, t, added, more := SightingOf(det1, m1, now), SightingOf(det2, m2, now), [], [];
    p1, added := TimesQueued([], [det1], [OneMatch(m1, now)], []);
    OneSighting(det1, m1, now);
    UnconfirmedIsNotQueued(p1, added, s);
    p2, more := TimesQueued(p1.findings, [det2], [OneMatch(m2, now)], added);
    OneSighting(det2, m2, now);
    ConfirmedButUnqueued(p2, added, more, s, t);
  }

  lemma {:induction false} FirstIsCounted(ids: seq<nat>)
    ensures ids != [] ==> multiset(ids)[ids[0]] > 0
  {
  }

  lemma {:induction false} NothingQueued(p: Pass, seen: seq<Sighting>, added: seq<Sighting>)
    requires Exist(p.newFindings, p.findings) && |p.findings| == 1 && QueuedAsReported(p, seen, added, 0)
    requires !Warrants(seen + added, p.findings[0].key) || NewReports(seen, added, p.findings[0].key) == 0
    ensures QueuedIds(p.findings, p.newFindings) == []
  {
    FirstIsCounted(QueuedIds(p.findings, p.newFindings));
  }
}
