/**
 Merging sightings into findings, match/finding_merger.py.

 The upsert is stateful; what it builds up is an order-independent summary of all sightings of
 each (customer, indicator type, indicator value).
 */
module FindingMerge {
  import opened Options
  import opened Sequences

  datatype Severity = Info | Low | Medium | High | Critical

  function Rank(s: Severity): nat {
    match s
    case Info => 0
    case Low => 1
    case Medium => 2
    case High => 3
    case Critical => 4
  }

  datatype Key = Key(customer: int, iocType: string, value: string)

  /** A NULL source list or count in the table is read as empty, which is also how the code reads it. */
  datatype Finding = Finding(key: Key, severity: Severity, sources: seq<string>, sourceCount: nat, lastSeen: int)

  /** A detection matched to a customer, with the severity computed for the match. */
  datatype Sighting = Sighting(key: Key, source: string, severity: Severity, lastSeen: Option<int>, now: int)

  // ---------- The upsert ----------

  function Find(fs: seq<Finding>, key: Key): (r: Option<nat>)
    ensures r.Some? ==> r.value < |fs| && fs[r.value].key == key
    ensures r == None ==> forall i :: 0 <= i < |fs| ==> fs[i].key != key
  {
    if fs == [] then None
    else if fs[|fs| - 1].key == key then Some(|fs| - 1)
    else Find(fs[..|fs| - 1], key)
  }

  function MergeSighting(f: Finding, s: Sighting): Finding {
    f.(
      sources := if s.source in f.sources then f.sources else f.sources + [s.source],
      sourceCount := if s.source in f.sources then f.sourceCount else f.sourceCount + 1,
      severity := if Rank(s.severity) > Rank(f.severity) then s.severity else f.severity,
      lastSeen := if s.lastSeen.Some? then s.lastSeen.value else f.lastSeen)
  }

  function Upsert(fs: seq<Finding>, s: Sighting): seq<Finding> {
    match Find(fs, s.key)
    case Some(i) => fs[i := MergeSighting(fs[i], s)]
    case None => fs + [Finding(s.key, s.severity, [s.source], 1, s.now)]
  }

  /** The id of the finding the sighting ends up in. */
  function UpsertedId(fs: seq<Finding>, s: Sighting): (i: nat)
    ensures i < |Upsert(fs, s)| && Upsert(fs, s)[i].key == s.key
  {
    match Find(fs, s.key)
    case Some(i) => i
    case None => |fs|
  }

  class FindingStore {
    var findings: seq<Finding>

    constructor ()
      ensures findings == []
    {
      findings := [];
    }

    method Lookup(key: Key) returns (r: Option<nat>)
      ensures r == Find(findings, key)
    {
      r := None;
      for i := 0 to |findings|
        invariant r == Find(findings[..i], key)
      {
        assert findings[..i + 1][..i] == findings[..i];
        if findings[i].key == key {
          r := Some(i);
        }
      }
      assert findings[..|findings|] == findings;
    }

    method UpsertFinding(s: Sighting) returns (id: nat)
      modifies this
      ensures findings == Upsert(old(findings), s) && id == UpsertedId(old(findings), s)
    {
      var found := Lookup(s.key);
      if found == None {
        id := |findings|;
        findings := findings + [Finding(s.key, s.severity, [s.source], 1, s.now)];
      } else {
        id := found.value;
        var f := findings[id];
        if s.source !in f.sources {
          f := f.(sources := f.sources + [s.source], sourceCount := f.sourceCount + 1);
        }
        if Rank(s.severity) > Rank(f.severity) {
          f := f.(severity := s.severity);
        }
        if s.lastSeen.Some? {
          f := f.(lastSeen := s.lastSeen.value);
        }
        findings := findings[id := f];
      }
    }
  }

  // ---------- The order-independent view ----------

  function UpsertAll(ss: seq<Sighting>): seq<Finding> {
    if ss == [] then [] else Upsert(UpsertAll(ss[..|ss| - 1]), ss[|ss| - 1])
  }

  /** All sources that reported the key. */
  ghost function SourcesOf(ss: seq<Sighting>, key: Key): set<string> {
    set s | s in ss && s.key == key :: s.source
  }

  /** `sev` is the highest severity with which the key was seen. */
  ghost predicate IsMaxSeverity(ss: seq<Sighting>, key: Key, sev: Severity) {
    && (exists s :: s in ss && s.key == key && s.severity == sev)
    && (forall s :: s in ss && s.key == key ==> Rank(s.severity) <= Rank(sev))
  }

  ghost predicate NoDuplicates(xs: seq<string>) {
    forall i, j :: 0 <= i < j < |xs| ==> xs[i] != xs[j]
  }

  /** The finding is the summary of the sightings of its key. */
  ghost predicate Summarizes(f: Finding, ss: seq<Sighting>) {
    && NoDuplicates(f.sources)
    && (forall x :: x in f.sources <==> x in SourcesOf(ss, f.key))
    && f.sourceCount == |f.sources| == |SourcesOf(ss, f.key)|
    && IsMaxSeverity(ss, f.key, f.severity)
  }

  ghost predicate UniqueKeys(fs: seq<Finding>) {
    forall i, j :: 0 <= i < j < |fs| ==> fs[i].key != fs[j].key
  }

  lemma {:induction false} OtherKeyUnaffected(f: Finding, ss: seq<Sighting>, s: Sighting)
    requires Summarizes(f, ss) && s.key != f.key
    ensures Summarizes(f, ss + [s])
  {
    assert SourcesOf(ss + [s], f.key) == SourcesOf(ss, f.key);
    var w :| w in ss && w.key == f.key && w.severity == f.severity;
    assert w in ss + [s];
  }

  lemma {:induction false} SourcesAfter(ss: seq<Sighting>, s: Sighting)
    ensures SourcesOf(ss + [s], s.key) == SourcesOf(ss, s.key) + {s.source}
  {
    assert s in ss + [s];
  }

  lemma {:induction false} SeverityAfter(ss: seq<Sighting>, s: Sighting, sev: Severity)
    requires IsMaxSeverity(ss, s.key, sev)
    ensures IsMaxSeverity(ss + [s], s.key, if Rank(s.severity) > Rank(sev) then s.severity else sev)
  {
    var w :| w in ss && w.key == s.key && w.severity == sev;
    assert w in ss + [s] && s in ss + [s];
  }

  lemma {:induction false} MergedSummarizes(f: Finding, ss: seq<Sighting>, s: Sighting)
    requires Summarizes(f, ss) && s.key == f.key
    ensures Summarizes(MergeSighting(f, s), ss + [s])
  {
    SourcesAfter(ss, s);
    SeverityAfter(ss, s, f.severity);
  }

  lemma {:induction false} NewSummarizes(ss: seq<Sighting>, s: Sighting)
    requires forall t :: t in ss ==> t.key != s.key
    ensures Summarizes(Finding(s.key, s.severity, [s.source], 1, s.now), ss + [s])
  {
    assert s in ss + [s];
    assert SourcesOf(ss + [s], s.key) == {s.source};
  }

  ghost predicate Recorded(fs: seq<Finding>, key: Key) {
    exists i :: 0 <= i < |fs| && fs[i].key == key
  }

  lemma {:induction false} UpsertKeepsKeysUnique(fs: seq<Finding>, s: Sighting)
    requires UniqueKeys(fs)
    ensures UniqueKeys(Upsert(fs, s))
  {
  }

  lemma {:induction false} UnseenKey(fs: seq<Finding>, ss: seq<Sighting>, key: Key)
    requires (forall t :: t in ss ==> Recorded(fs, t.key)) && Find(fs, key) == None
    ensures forall t :: t in ss ==> t.key != key
  {
    forall t | t in ss ensures t.key != key {
      assert Recorded(fs, t.key);
    }
  }

  lemma {:induction false} UpsertSummarizes(fs: seq<Finding>, ss: seq<Sighting>, s: Sighting, i: nat)
    requires UniqueKeys(fs) && (forall t :: t in ss ==> Recorded(fs, t.key))
    requires i < |Upsert(fs, s)| && (i < |fs| ==> Summarizes(fs[i], ss))
    ensures Summarizes(Upsert(fs, s)[i], ss + [s])
  {
    var found := Find(fs, s.key);
    if found == Some(i) {
      MergedSummarizes(fs[i], ss, s);
    } else if i < |fs| {
      assert found.Some? ==> fs[i].key != fs[found.value].key;
      OtherKeyUnaffected(fs[i], ss, s);
    } else {
      UnseenKey(fs, ss, s.key);
      NewSummarizes(ss, s);
    }
  }

  /** One finding per key, each the summary of its sightings, and none missing. */
  ghost predicate IsView(fs: seq<Finding>, ss: seq<Sighting>) {
    && UniqueKeys(fs)
    && (forall i :: 0 <= i < |fs| ==> Summarizes(fs[i], ss))
    && (forall s :: s in ss ==> Recorded(fs, s.key))
  }

  lemma {:induction false} UpsertKeepsView(fs: seq<Finding>, ss: seq<Sighting>, s: Sighting)
    requires IsView(fs, ss)
    ensures IsView(Upsert(fs, s), ss + [s])
  {
    UpsertKeepsKeysUnique(fs, s);
    forall i | 0 <= i < |Upsert(fs, s)| ensures Summarizes(Upsert(fs, s)[i], ss + [s]) {
      UpsertSummarizes(fs, ss, s, i);
    }
    forall t | t in ss + [s] ensures Recorded(Upsert(fs, s), t.key) {
      UpsertRecords(fs, s, t.key);
    }
  }

  /** There is exactly one finding per key seen, and it summarizes the sightings of that key. */
  lemma {:induction false} FindingsSummarizeSightings(ss: seq<Sighting>) returns (fs: seq<Finding>)
    ensures fs == UpsertAll(ss) && IsView(fs, ss)
    decreases |ss|
  {
    if ss == [] {
      fs := [];
    } else {
      var front, s := ss[..|ss| - 1], ss[|ss| - 1];
      var before := FindingsSummarizeSightings(front);
      assert ss == front + [s];
      UpsertKeepsView(before, front, s);
      fs := Upsert(before, s);
    }
  }

  lemma {:induction false} UpsertRecords(fs: seq<Finding>, s: Sighting, key: Key)
    requires Recorded(fs, key) || key == s.key
    ensures Recorded(Upsert(fs, s), key)
  {
    if key == s.key {
      assert Upsert(fs, s)[UpsertedId(fs, s)].key == key;
    } else {
      var i :| 0 <= i < |fs| && fs[i].key == key;
      assert Upsert(fs, s)[i].key == key;
    }
  }

  /** Reordering the sightings changes neither the keys nor the severity, source set and count of any finding. */
  lemma {:induction false} SummaryIsOrderFree(ss: seq<Sighting>, ts: seq<Sighting>, i: nat) returns (j: nat)
    requires multiset(ss) == multiset(ts) && i < |UpsertAll(ss)|
    ensures j < |UpsertAll(ts)|
    ensures var f, g := UpsertAll(ss)[i], UpsertAll(ts)[j];
            && f.key == g.key && f.severity == g.severity && f.sourceCount == g.sourceCount
            && forall x :: x in f.sources <==> x in g.sources
  {
    SameMembers(ss, ts);
    var fs := FindingsSummarizeSightings(ss);
    var gs := FindingsSummarizeSightings(ts);
    assert Summarizes(fs[i], ss);
    j := KeyRecorded(fs[i], ss, ts, gs);
    assert Summarizes(gs[j], ts);
    assert SourcesOf(ss, fs[i].key) == SourcesOf(ts, fs[i].key);
    SameSeverity(ss, ts, fs[i].key, fs[i].severity, gs[j].severity);
  }

  lemma {:induction false} KeyRecorded(f: Finding, ss: seq<Sighting>, ts: seq<Sighting>, gs: seq<Finding>)
    returns (j: nat)
    requires Summarizes(f, ss) && (forall s :: s in ss ==> s in ts) && forall t :: t in ts ==> Recorded(gs, t.key)
    ensures j < |gs| && gs[j].key == f.key
  {
    var s :| s in ss && s.key == f.key && s.severity == f.severity;
    assert Recorded(gs, s.key);
    j :| 0 <= j < |gs| && gs[j].key == f.key;
  }

  lemma {:induction false} SameSeverity(ss: seq<Sighting>, ts: seq<Sighting>, key: Key, a: Severity, b: Severity)
    requires forall s :: s in ss <==> s in ts
    requires IsMaxSeverity(ss, key, a) && IsMaxSeverity(ts, key, b)
    ensures a == b
  {
    assert Rank(a) <= Rank(b) && Rank(b) <= Rank(a);
  }

  // ---------- What the router counts as a creation ----------

  /** The router takes a finding for new when its source count is 1 after the upsert. */
  predicate CountsAsCreated(fs: seq<Finding>, s: Sighting) {
    Upsert(fs, s)[UpsertedId(fs, s)].sourceCount == 1
  }

  /**
   It holds exactly when no other source has reported the key, so it differs from "the finding is
   new" exactly for a repeat by the only source so far.
   */
  lemma {:induction false} CountsAsCreatedIff(fs: seq<Finding>, ss: seq<Sighting>, s: Sighting)
    requires IsView(fs, ss)
    ensures CountsAsCreated(fs, s) <==> SourcesOf(ss, s.key) <= {s.source}
    ensures (CountsAsCreated(fs, s) <==> !Recorded(fs, s.key)) <==> SourcesOf(ss, s.key) != {s.source}
  {
    var found := Find(fs, s.key);
    if found.Some? {
      var f := fs[found.value];
      assert Summarizes(f, ss);
      var t :| t in ss && t.key == f.key && t.severity == f.severity;
      assert t.source in SourcesOf(ss, s.key);
      if |SourcesOf(ss, s.key)| == 1 {
        SingletonSet(SourcesOf(ss, s.key), t.source);
      }
      assert SourcesOf(ss, s.key) == {s.source} ==> s.source in f.sources;
    } else {
      UnseenKey(fs, ss, s.key);
      assert SourcesOf(ss, s.key) == {};
    }
  }

  /** Two sightings of one indicator by one source: one finding, counted as created twice. */
  lemma RepeatBySameSourceCountsTwice(key: Key, now: int)
    ensures var s := Sighting(key, "threatfox", High, None, now);
            && CountsAsCreated(UpsertAll([]), s) && CountsAsCreated(UpsertAll([s]), s)
            && |UpsertAll([s, s])| == 1
  {
    var s := Sighting(key, "threatfox", High, None, now);
    assert [s][..0] == [] && [s, s][..1] == [s];
    assert UpsertAll([s]) == [Finding(key, High, ["threatfox"], 1, now)];
  }

  // ---------- When a finding was last seen ----------

  ghost predicate Seen(ss: seq<Sighting>, key: Key) {
    exists s :: s in ss && s.key == key
  }

  /** The time the first sighting of the key was stored, unless a later one says when it was last seen. */
  ghost function LastSeenOf(ss: seq<Sighting>, key: Key): Option<int> {
    if ss == [] then None
    else
      var front, s := ss[..|ss| - 1], ss[|ss| - 1];
      if s.key != key then LastSeenOf(front, key)
      else if !Seen(front, key) then Some(s.now)
      else if s.lastSeen.Some? then s.lastSeen
      else LastSeenOf(front, key)
  }

  /** A finding keeps the latest known time of the sightings merged into it, whatever its order in time. */
  lemma {:induction false} LastSeenIs(ss: seq<Sighting>, i: nat)
    requires i < |UpsertAll(ss)|
    ensures LastSeenOf(ss, UpsertAll(ss)[i].key) == Some(UpsertAll(ss)[i].lastSeen)
    decreases |ss|
  {
    var front, s := ss[..|ss| - 1], ss[|ss| - 1];
    var before := FindingsSummarizeSightings(front);
    var found := Find(before, s.key);
    if i < |before| {
      LastSeenIs(front, i);
      assert Summarizes(before[i], front);
      var t :| t in front && t.key == before[i].key && t.severity == before[i].severity;
      assert Seen(front, before[i].key);
      assert found.Some? && found.value != i ==> before[found.value].key != before[i].key;
    } else {
      UnseenKey(before, front, s.key);
      assert !Seen(front, s.key);
    }
  }

  /** The severities are ranked in this order. */
  lemma SeverityOrder()
    ensures Rank(Info) < Rank(Low) < Rank(Medium) < Rank(High) < Rank(Critical)
  {
  }

}
