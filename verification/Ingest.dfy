/**
 Ingest of raw indicators into the detections table, ingest/pipeline.py.

 `accept(type, value)` stands for normalisation followed by the sanity check: the normalised
 value, or nothing when the indicator is rejected.  Times are in whole seconds.
 */
module Ingest {
  import opened Options
  import opened Counters

  datatype Raw = Raw(source: string, iocType: string, value: string)

  datatype Detection = Detection(source: string, iocType: string, value: string, created: int, lastSeen: int)

  datatype Stats = Stats(
    inserted: nat, deduped: nat, rejected: nat, bySource: map<string, nat>, byType: map<string, nat>)

  /** One call of the pipeline: its start fixes the cutoff, `clock(i)` is the time of its `i`-th indicator. */
  datatype Call = Call(raws: seq<Raw>, start: int, clock: nat -> int)

  type Accept = (string, string) -> Option<string>

  // ---------- The specification ----------

  predicate IsRepeat(d: Detection, source: string, iocType: string, value: string, cutoff: int) {
    d.source == source && d.iocType == iocType && d.value == value && d.created >= cutoff
  }

  /** The most recently created repeat, if any. */
  function FindRecent(
      rows: seq<Detection>, source: string, iocType: string, value: string, cutoff: int): (r: Option<nat>)
    ensures r.Some? ==> r.value < |rows| && IsRepeat(rows[r.value], source, iocType, value, cutoff)
  {
    if rows == [] then None
    else
      var n := |rows| - 1;
      var r := FindRecent(rows[..n], source, iocType, value, cutoff);
      if IsRepeat(rows[n], source, iocType, value, cutoff)
         && (r == None || rows[n].created >= rows[r.value].created)
      then Some(n) else r
  }

  datatype Progress = Progress(rows: seq<Detection>, stats: Stats)

  function IngestOne(p: Progress, raw: Raw, cutoff: int, now: int, accept: Accept): Progress {
    match accept(raw.iocType, raw.value)
    case None => p.(stats := p.stats.(rejected := p.stats.rejected + 1))
    case Some(value) =>
      match FindRecent(p.rows, raw.source, raw.iocType, value, cutoff)
      case Some(i) =>
        Progress(p.rows[i := p.rows[i].(lastSeen := now)], p.stats.(deduped := p.stats.deduped + 1))
      case None =>
        Progress(
          p.rows + [Detection(raw.source, raw.iocType, value, now, now)],
          p.stats.(
            inserted := p.stats.inserted + 1,
            bySource := Bump(p.stats.bySource, raw.source),
            byType := Bump(p.stats.byType, raw.iocType)))
  }

  const NO_STATS := Stats(0, 0, 0, map[], map[])

  /** The first `n` indicators of the call. */
  function IngestFirst(rows: seq<Detection>, call: Call, n: nat, window: nat, accept: Accept): Progress
    requires n <= |call.raws|
  {
    if n == 0 then Progress(rows, NO_STATS)
    else
      IngestOne(IngestFirst(rows, call, n - 1, window, accept),
                call.raws[n - 1], call.start - window, call.clock(n - 1), accept)
  }

  // ---------- The code ----------

  class IngestStats {
    var inserted: nat
    var deduped: nat
    var rejected: nat
    var bySource: map<string, nat>
    var byType: map<string, nat>

    constructor ()
      ensures View() == NO_STATS
    {
      inserted, deduped, rejected := 0, 0, 0;
      bySource, byType := map[], map[];
    }

    ghost function View(): Stats
      reads this
    {
      Stats(inserted, deduped, rejected, bySource, byType)
    }

    method RecordInserted(source: string, iocType: string)
      modifies this
      ensures View() == old(View()).(
        inserted := old(inserted) + 1,
        bySource := Bump(old(bySource), source), byType := Bump(old(byType), iocType))
    {
      inserted := inserted + 1;
      bySource := Bump(bySource, source);
      byType := Bump(byType, iocType);
    }

    method Merge(other: IngestStats)
      modifies this
      ensures inserted == old(inserted) + old(other.inserted)
      ensures deduped == old(deduped) + old(other.deduped)
      ensures rejected == old(rejected) + old(other.rejected)
      ensures IsSumOf(bySource, old(bySource), old(other.bySource))
      ensures IsSumOf(byType, old(byType), old(other.byType))
    {
      inserted := inserted + other.inserted;
      deduped := deduped + other.deduped;
      rejected := rejected + other.rejected;
      bySource := AddCounters(bySource, other.bySource);
      byType := AddCounters(byType, other.byType);
    }
  }

  /** The merge loop: adds the counts of `other` key by key, in any order. */
  method AddCounters(mine: map<string, nat>, other: map<string, nat>) returns (m: map<string, nat>)
    ensures IsSumOf(m, mine, other)
  {
    m := mine;
    var rest := other.Keys;
    while rest != {}
      invariant rest <= other.Keys
      invariant m.Keys == mine.Keys + (other.Keys - rest)
      invariant forall k :: Get(m, k) == Get(mine, k) + if k in rest then 0 else Get(other, k)
      decreases rest
    {
      var k :| k in rest;
      m := m[k := Get(m, k) + other[k]];
      rest := rest - {k};
    }
  }

  class Pipeline {
    var detections: seq<Detection>

    constructor ()
      ensures detections == []
    {
      detections := [];
    }

    method FindRecentDetection(source: string, iocType: string, value: string, cutoff: int) returns (r: Option<nat>)
      ensures r == FindRecent(detections, source, iocType, value, cutoff)
      ensures r.Some? ==> r.value < |detections| && IsRepeat(detections[r.value], source, iocType, value, cutoff)
      ensures forall i :: 0 <= i < |detections| && IsRepeat(detections[i], source, iocType, value, cutoff) ==>
        r.Some? && detections[i].created <= detections[r.value].created
    {
      r := None;
      for i := 0 to |detections|
        invariant r == FindRecent(detections[..i], source, iocType, value, cutoff)
      {
        assert detections[..i + 1][..i] == detections[..i];
        if IsRepeat(detections[i], source, iocType, value, cutoff)
           && (r == None || detections[i].created >= detections[r.value].created) {
          r := Some(i);
        }
      }
      assert detections[..|detections|] == detections;
      FindRecentFindsLatest(detections, source, iocType, value, cutoff);
    }

    /** The loop body: reject, bump the existing detection, or insert a new one. */
    method IngestRaw(stats: IngestStats, raw: Raw, cutoff: int, now: int, accept: Accept)
      modifies this, stats
      ensures Progress(detections, stats.View()) ==
              IngestOne(Progress(old(detections), old(stats.View())), raw, cutoff, now, accept)
    {
      var normalized := accept(raw.iocType, raw.value);
      if normalized == None {
        stats.rejected := stats.rejected + 1;
        return;
      }
      var existing := FindRecentDetection(raw.source, raw.iocType, normalized.value, cutoff);
      if existing.Some? {
        detections := detections[existing.value := detections[existing.value].(lastSeen := now)];
        stats.deduped := stats.deduped + 1;
        return;
      }
      detections := detections + [Detection(raw.source, raw.iocType, normalized.value, now, now)];
      stats.RecordInserted(raw.source, raw.iocType);
    }

    method IngestRawIocs(call: Call, window: nat, accept: Accept) returns (stats: IngestStats)
      modifies this
      ensures fresh(stats)
      ensures Progress(detections, stats.View()) == IngestFirst(old(detections), call, |call.raws|, window, accept)
    {
      stats := new IngestStats();
      var cutoff := call.start - window;
      for i := 0 to |call.raws|
        invariant fresh(stats)
        invariant Progress(detections, stats.View()) == IngestFirst(old(detections), call, i, window, accept)
      {
        IngestRaw(stats, call.raws[i], cutoff, call.clock(i), accept);
      }
    }
  }

  // ---------- Accounting ----------

  /** `m` counts what `a` and `b` count together. */
  ghost predicate IsSumOf(m: map<string, nat>, a: map<string, nat>, b: map<string, nat>) {
    && m.Keys == a.Keys + b.Keys
    && forall k :: Get(m, k) == Get(a, k) + Get(b, k)
  }

  lemma {:induction false} SumOfRest(m: map<string, nat>, a: map<string, nat>, b: map<string, nat>, k: string)
    requires IsSumOf(m, a, b)
    ensures IsSumOf(m - {k}, a - {k}, b - {k})
  {
    forall x ensures Get(m - {k}, x) == Get(a - {k}, x) + Get(b - {k}, x) {
      assert Get(m, x) == Get(a, x) + Get(b, x);
    }
  }

  lemma {:induction false} SumsAdd(m: map<string, nat>, a: map<string, nat>, b: map<string, nat>)
    requires IsSumOf(m, a, b)
    ensures Sum(m) == Sum(a) + Sum(b)
    decreases |m|
  {
    if m == map[] {
      assert a == map[] && b == map[] by {
        assert a.Keys <= m.Keys && b.Keys <= m.Keys;
      }
    } else {
      var k :| k in m;
      RemoveKey(m, k);
      RemoveKey(a, k);
      RemoveKey(b, k);
      SumOfRest(m, a, b, k);
      assert Get(m, k) == Get(a, k) + Get(b, k);
      SumsAdd(m - {k}, a - {k}, b - {k});
    }
  }

  lemma {:induction false} RemoveKey(m: map<string, nat>, k: string)
    ensures Sum(m) == Sum(m - {k}) + Get(m, k)
  {
    if k in m {
      SumWithout(m, k);
    } else {
      assert m - {k} == m;
    }
  }

  ghost predicate Balanced(s: Stats) {
    Sum(s.bySource) == s.inserted && Sum(s.byType) == s.inserted
  }

  ghost function Handled(s: Stats): nat {
    s.inserted + s.deduped + s.rejected
  }

  lemma {:induction false} OneIsAccounted(p: Progress, raw: Raw, cutoff: int, now: int, accept: Accept)
    returns (p': Progress)
    requires Balanced(p.stats)
    ensures p' == IngestOne(p, raw, cutoff, now, accept)
    ensures Handled(p'.stats) == Handled(p.stats) + 1 && Balanced(p'.stats)
    ensures |p'.rows| - |p.rows| == p'.stats.inserted - p.stats.inserted
  {
    p' := IngestOne(p, raw, cutoff, now, accept);
    SumBump(p.stats.bySource, raw.source);
    SumBump(p.stats.byType, raw.iocType);
  }

  /** Every indicator is inserted, deduped or rejected, and the per-source and per-type counts add up. */
  lemma {:induction false} IngestIsAccounted(rows: seq<Detection>, call: Call, n: nat, window: nat, accept: Accept)
    returns (p: Progress)
    requires n <= |call.raws|
    ensures p == IngestFirst(rows, call, n, window, accept)
    ensures p.stats.inserted + p.stats.deduped + p.stats.rejected == n && Balanced(p.stats)
    ensures |p.rows| == |rows| + p.stats.inserted
    decreases n
  {
    if n == 0 {
      p := Progress(rows, NO_STATS);
    } else {
      var before := IngestIsAccounted(rows, call, n - 1, window, accept);
      p := OneIsAccounted(before, call.raws[n - 1], call.start - window, call.clock(n - 1), accept);
    }
  }

  /** Merging keeps the totals consistent. */
  lemma {:induction false} MergeKeepsBalance(mine: Stats, other: Stats, merged: Stats)
    requires Balanced(mine) && Balanced(other) && merged.inserted == mine.inserted + other.inserted
    requires IsSumOf(merged.bySource, mine.bySource, other.bySource)
    requires IsSumOf(merged.byType, mine.byType, other.byType)
    ensures Balanced(merged)
  {
    SumsAdd(merged.bySource, mine.bySource, other.bySource);
    SumsAdd(merged.byType, mine.byType, other.byType);
  }

  // ---------- Dedup ----------

  ghost predicate SameIoc(d: Detection, e: Detection) {
    d.source == e.source && d.iocType == e.iocType && d.value == e.value
  }

  /** Two detections of the same indicator from the same source are more than the window apart. */
  ghost predicate Spaced(rows: seq<Detection>, window: nat) {
    forall i, j :: 0 <= i < j < |rows| && SameIoc(rows[i], rows[j]) ==>
      rows[i].created - rows[j].created > window || rows[j].created - rows[i].created > window
  }

  /** No repeat was created later than the one found, and none is overlooked. */
  lemma {:induction false} FindRecentFindsLatest(
      rows: seq<Detection>, source: string, iocType: string, value: string, cutoff: int)
    ensures var r := FindRecent(rows, source, iocType, value, cutoff);
            forall i :: 0 <= i < |rows| && IsRepeat(rows[i], source, iocType, value, cutoff) ==>
              r.Some? && rows[i].created <= rows[r.value].created
    decreases |rows|
  {
    if rows != [] {
      FindRecentFindsLatest(rows[..|rows| - 1], source, iocType, value, cutoff);
    }
  }

  /** The clock readings of a call are not before its start. */
  ghost predicate ClockAdvances(call: Call) {
    forall i :: call.start <= call.clock(i)
  }

  lemma {:induction false} OneKeepsSpacing(
      p: Progress, raw: Raw, start: int, window: nat, now: int, accept: Accept) returns (p': Progress)
    requires Spaced(p.rows, window) && start <= now
    ensures p' == IngestOne(p, raw, start - window, now, accept) && Spaced(p'.rows, window)
  {
    p' := IngestOne(p, raw, start - window, now, accept);
    var normalized := accept(raw.iocType, raw.value);
    if normalized.Some? {
      FindRecentFindsLatest(p.rows, raw.source, raw.iocType, normalized.value, start - window);
    }
  }

  lemma {:induction false} IngestKeepsSpacing(rows: seq<Detection>, call: Call, n: nat, window: nat, accept: Accept)
    returns (p: Progress)
    requires n <= |call.raws| && ClockAdvances(call) && Spaced(rows, window)
    ensures p == IngestFirst(rows, call, n, window, accept) && Spaced(p.rows, window)
    decreases n
  {
    if n == 0 {
      p := Progress(rows, NO_STATS);
    } else {
      var before := IngestKeepsSpacing(rows, call, n - 1, window, accept);
      p := OneKeepsSpacing(before, call.raws[n - 1], call.start, window, call.clock(n - 1), accept);
    }
  }

  ghost function IngestCalls(rows: seq<Detection>, calls: seq<Call>, window: nat, accept: Accept): seq<Detection>
    decreases |calls|
  {
    if calls == [] then rows
    else IngestCalls(IngestFirst(rows, calls[0], |calls[0].raws|, window, accept).rows, calls[1..], window, accept)
  }

  /** Whatever batches come in, with repetitions inside and across them, detections stay spaced. */
  lemma {:induction false} DetectionsStaySpaced(rows: seq<Detection>, calls: seq<Call>, window: nat, accept: Accept)
    requires Spaced(rows, window) && forall c :: c in calls ==> ClockAdvances(c)
    ensures Spaced(IngestCalls(rows, calls, window, accept), window)
    decreases |calls|
  {
    if calls != [] {
      assert calls[0] in calls && forall c :: c in calls[1..] ==> c in calls;
      var p := IngestKeepsSpacing(rows, calls[0], |calls[0].raws|, window, accept);
      DetectionsStaySpaced(p.rows, calls[1..], window, accept);
    }
  }

  /** Every accepted indicator of a call ends up with a detection no older than the window. */
  lemma {:induction false} NothingAcceptedIsLost(
      rows: seq<Detection>, call: Call, n: nat, k: nat, window: nat, accept: Accept)
    returns (i: nat)
    requires k < n <= |call.raws| && ClockAdvances(call)
    requires accept(call.raws[k].iocType, call.raws[k].value).Some?
    ensures var after := IngestFirst(rows, call, n, window, accept).rows;
            var raw := call.raws[k];
            && i < |after|
            && IsRepeat(after[i], raw.source, raw.iocType, accept(raw.iocType, raw.value).value, call.start - window)
    decreases n
  {
    if k < n - 1 {
      i := NothingAcceptedIsLost(rows, call, n - 1, k, window, accept);
    } else {
      var before := IngestFirst(rows, call, n - 1, window, accept).rows;
      var raw := call.raws[k];
      var r := FindRecent(before, raw.source, raw.iocType, accept(raw.iocType, raw.value).value, call.start - window);
      i := if r.Some? then r.value else |before|;
    }
  }

  // ---------- What is written ----------

  /** `d'` is the row `d` after it was seen again at the time `now`. */
  ghost predicate IsSeenAgain(d: Detection, d': Detection, now: int) {
    SameIoc(d, d') && d'.created == d.created && d'.lastSeen == now
  }

  /**
   What one indicator does to the table: nothing if it is rejected; else the latest row of its source,
   type and value in the window is seen again, or a new row is written; all other rows stay.
   */
  lemma {:induction false} RowAfterRaw(p: Progress, raw: Raw, cutoff: int, now: int, accept: Accept)
    returns (rows: seq<Detection>, i: nat)
    ensures rows == IngestOne(p, raw, cutoff, now, accept).rows
    ensures accept(raw.iocType, raw.value) == None ==> rows == p.rows
    ensures accept(raw.iocType, raw.value).Some? ==>
      && i < |rows| && |p.rows| <= |rows| <= |p.rows| + 1
      && rows[i].source == raw.source && rows[i].iocType == raw.iocType
      && rows[i].value == accept(raw.iocType, raw.value).value
      && (forall k :: 0 <= k < |p.rows| && k != i ==> rows[k] == p.rows[k])
      && (if i < |p.rows| then |rows| == |p.rows| && IsSeenAgain(p.rows[i], rows[i], now) && rows[i].created >= cutoff
          else i == |p.rows| && rows[i].created == now == rows[i].lastSeen)
  {
    rows, i := IngestOne(p, raw, cutoff, now, accept).rows, 0;
    var normalized := accept(raw.iocType, raw.value);
    if normalized.Some? {
      var r := FindRecent(p.rows, raw.source, raw.iocType, normalized.value, cutoff);
      i := if r.Some? then r.value else |p.rows|;
    }
  }

  /** The rows from position `from` on that have the property. */
  ghost function NewRows(rows: seq<Detection>, from: nat, p: Detection -> bool): set<nat> {
    set i: nat | from <= i < |rows| && p(rows[i])
  }

  function FromSource(source: string): Detection -> bool {
    (d: Detection) => d.source == source
  }

  function OfType(iocType: string): Detection -> bool {
    (d: Detection) => d.iocType == iocType
  }

  lemma {:induction false} SameNewRows(rows: seq<Detection>, rows': seq<Detection>, from: nat, p: Detection -> bool)
    requires |rows| == |rows'| && forall k :: 0 <= k < |rows| ==> p(rows[k]) == p(rows'[k])
    ensures NewRows(rows, from, p) == NewRows(rows', from, p)
  {
  }

  lemma {:induction false} OneMoreNewRow(rows: seq<Detection>, d: Detection, from: nat, p: Detection -> bool)
    requires from <= |rows|
    ensures |NewRows(rows + [d], from, p)| == |NewRows(rows, from, p)| + if p(d) then 1 else 0
  {
    assert NewRows(rows + [d], from, p) == NewRows(rows, from, p) + if p(d) then {|rows|} else {};
  }

  lemma {:induction false} NewRowsAfter(
      p: Progress, raw: Raw, cutoff: int, now: int, accept: Accept, from: nat, source: string, iocType: string)
    returns (p': Progress)
    requires from <= |p.rows|
    ensures p' == IngestOne(p, raw, cutoff, now, accept) && |p.rows| <= |p'.rows|
    ensures |NewRows(p'.rows, from, FromSource(source))| - |NewRows(p.rows, from, FromSource(source))| ==
            Get(p'.stats.bySource, source) - Get(p.stats.bySource, source)
    ensures |NewRows(p'.rows, from, OfType(iocType))| - |NewRows(p.rows, from, OfType(iocType))| ==
            Get(p'.stats.byType, iocType) - Get(p.stats.byType, iocType)
  {
    p' := IngestOne(p, raw, cutoff, now, accept);
    if |p'.rows| == |p.rows| {
      SameNewRows(p.rows, p'.rows, from, FromSource(source));
      SameNewRows(p.rows, p'.rows, from, OfType(iocType));
    } else {
      var d := p'.rows[|p.rows|];
      OneMoreNewRow(p.rows, d, from, FromSource(source));
      OneMoreNewRow(p.rows, d, from, OfType(iocType));
    }
  }

  /** The counters say for each source and each type how many rows were written. */
  lemma {:induction false} CountersAreOfNewRows(
      rows: seq<Detection>, call: Call, n: nat, window: nat, accept: Accept, source: string, iocType: string)
    returns (p: Progress)
    requires n <= |call.raws|
    ensures p == IngestFirst(rows, call, n, window, accept) && |rows| <= |p.rows|
    ensures Get(p.stats.bySource, source) == |NewRows(p.rows, |rows|, FromSource(source))|
    ensures Get(p.stats.byType, iocType) == |NewRows(p.rows, |rows|, OfType(iocType))|
    decreases n
  {
    if n == 0 {
      p := Progress(rows, NO_STATS);
      assert NewRows(rows, |rows|, FromSource(source)) == {} && NewRows(rows, |rows|, OfType(iocType)) == {};
    } else {
      var before := CountersAreOfNewRows(rows, call, n - 1, window, accept, source, iocType);
      var raw, now := call.raws[n - 1], call.clock(n - 1);
      p := NewRowsAfter(before, raw, call.start - window, now, accept, |rows|, source, iocType);
    }
  }

  ghost predicate IsRefused(raw: Raw, accept: Accept) {
    accept(raw.iocType, raw.value) == None
  }

  /** The positions of the indicators among the first `n` that are not accepted. */
  ghost function Refused(raws: seq<Raw>, n: nat, accept: Accept): set<nat>
    requires n <= |raws|
  {
    set k: nat | k < n && IsRefused(raws[k], accept)
  }

  lemma {:induction false} OneMoreRefused(raws: seq<Raw>, n: nat, accept: Accept)
    requires n < |raws|
    ensures |Refused(raws, n + 1, accept)| == |Refused(raws, n, accept)| + if IsRefused(raws[n], accept) then 1 else 0
  {
    assert Refused(raws, n + 1, accept) == Refused(raws, n, accept) + if IsRefused(raws[n], accept) then {n} else {};
  }

  lemma {:induction false} RejectedAfter(p: Progress, raw: Raw, cutoff: int, now: int, accept: Accept)
    returns (p': Progress)
    ensures p' == IngestOne(p, raw, cutoff, now, accept)
    ensures p'.stats.rejected == p.stats.rejected + if IsRefused(raw, accept) then 1 else 0
  {
    p' := IngestOne(p, raw, cutoff, now, accept);
  }

  /** Rejected are exactly the indicators that are not accepted. */
  lemma {:induction false} RejectedAreCounted(rows: seq<Detection>, call: Call, n: nat, window: nat, accept: Accept)
    returns (p: Progress)
    requires n <= |call.raws|
    ensures p == IngestFirst(rows, call, n, window, accept)
    ensures p.stats.rejected == |Refused(call.raws, n, accept)|
    decreases n
  {
    if n == 0 {
      p := Progress(rows, NO_STATS);
      assert Refused(call.raws, 0, accept) == {};
    } else {
      var before := RejectedAreCounted(rows, call, n - 1, window, accept);
      OneMoreRefused(call.raws, n - 1, accept);
      p := RejectedAfter(before, call.raws[n - 1], call.start - window, call.clock(n - 1), accept);
    }
  }

}
