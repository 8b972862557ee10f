/**
 Feed fetch windows and run history of fetchers/scheduler.py.

 A feed run reads the history when it starts and writes its row when it ends; runs of one feed may
 overlap (start-up catch-up next to the schedule).  A run that has not ended yet is `InFlight`:
 it stands for the suspended coroutine and is invisible to queries on the history.
 Times are in whole seconds.
 */
module FeedWindow {
  import opened Options

  const HOUR: int := 3600
  const MAX_HOURS: int := 168

  datatype Status = InFlight | Success | Failure | Skipped

  datatype Run = Run(started: int, windowStart: int, sinceHours: int, status: Status, completed: int)

  datatype Config = Config(bufferHours: nat, firstWindowHours: nat)

  // ---------- The window ----------

  /** Python's `int(seconds / 3600)`: truncation towards zero. */
  function WholeHours(seconds: int): int {
    if seconds >= 0 then seconds / HOUR else -(-seconds / HOUR)
  }

  function SinceHours(started: int, windowStart: int): int {
    var hours := WholeHours(started - windowStart) + 1;
    if hours > MAX_HOURS then MAX_HOURS else if hours < 1 then 1 else hours
  }

  /** The run fetches the interval from here to its start. */
  function Reach(r: Run): int {
    r.started - r.sinceHours * HOUR
  }

  /** The fetch reaches back to the declared window start exactly when the window is at most a week. */
  lemma FetchCoversWindowIff(started: int, windowStart: int)
    ensures started - SinceHours(started, windowStart) * HOUR <= windowStart <==>
            started - windowStart <= MAX_HOURS * HOUR
  {
  }

  /**
   The fetch is no wider than it needs to be: at most an hour more than the window, one hour for a
   window that lies ahead, and 168 hours for a week and more.
   */
  lemma FetchIsTight(started: int, windowStart: int)
    ensures var window, hours := started - windowStart, SinceHours(started, windowStart);
            && (0 <= window < 168 * 3600 ==> (hours - 1) * 3600 <= window < hours * 3600)
            && (window < 0 ==> hours == 1)
            && (window >= 168 * 3600 ==> hours == 168)
  {
  }

  // ---------- The history ----------

  /** The completion time of the successful run that started last, if any. */
  ghost predicate IsLastSuccess(runs: seq<Run>, r: Option<int>) {
    match r
    case None => forall i :: 0 <= i < |runs| ==> runs[i].status != Success
    case Some(t) => exists i :: IsLatestSuccess(runs, i) && runs[i].completed == t
  }

  ghost predicate IsLatestSuccess(runs: seq<Run>, i: int) {
    && 0 <= i < |runs| && runs[i].status == Success
    && forall j :: 0 <= j < |runs| && runs[j].status == Success ==> runs[j].started <= runs[i].started
  }

  function WindowStart(cfg: Config, now: int, last: Option<int>): int {
    if last == None then now - cfg.firstWindowHours * HOUR else last.value - cfg.bufferHours * HOUR
  }

  function NewRun(cfg: Config, now: int, last: Option<int>): Run {
    var windowStart := WindowStart(cfg, now, last);
    Run(now, windowStart, SinceHours(now, windowStart), InFlight, now)
  }

  class FeedScheduler {
    var runs: seq<Run>

    constructor ()
      ensures runs == []
    {
      runs := [];
    }

    method GetLastSuccess() returns (last: Option<int>)
      ensures IsLastSuccess(runs, last)
    {
      last := None;
      var best := 0;
      for i := 0 to |runs|
        invariant last == None ==> IsLastSuccess(runs[..i], None)
        invariant last.Some? ==> IsLatestSuccess(runs[..i], best) && runs[best].completed == last.value
      {
        if runs[i].status == Success && (last == None || runs[i].started >= runs[best].started) {
          last := Some(runs[i].completed);
          best := i;
        }
      }
      assert runs[..|runs|] == runs;
    }

    /** The first part of a run: compute the window from the history. */
    method BeginRun(cfg: Config, now: int) returns (last: Option<int>)
      modifies this
      ensures IsLastSuccess(old(runs), last)
      ensures runs == old(runs) + [NewRun(cfg, now, last)]
    {
      last := GetLastSuccess();
      var windowStart;
      if last == None {
        windowStart := now - cfg.firstWindowHours * HOUR;
      } else {
        windowStart := last.value - cfg.bufferHours * HOUR;
      }
      runs := runs + [Run(now, windowStart, SinceHours(now, windowStart), InFlight, now)];
    }

    /** The end of a run: its row is written. */
    method RecordRun(i: nat, now: int, status: Status)
      requires i < |runs| && runs[i].status == InFlight && status != InFlight
      modifies this
      ensures runs == old(runs)[i := old(runs)[i].(status := status, completed := now)]
    {
      runs := runs[i := runs[i].(status := status, completed := now)];
    }
  }

  // ---------- Every history ----------

  datatype Event =
    | Begin(now: int, last: Option<int>)
    | End(now: int, i: nat, status: Status)

  ghost predicate Enabled(runs: seq<Run>, e: Event) {
    match e
    case Begin(_, last) => IsLastSuccess(runs, last)
    case End(_, i, status) => i < |runs| && runs[i].status == InFlight && status != InFlight
  }

  ghost function Step(runs: seq<Run>, cfg: Config, e: Event): seq<Run>
    requires Enabled(runs, e)
  {
    match e
    case Begin(now, last) => runs + [NewRun(cfg, now, last)]
    case End(now, i, status) => runs[i := runs[i].(status := status, completed := now)]
  }

  /** The events lead from `runs` to `runs'`; the clock goes from `clock` to `clock'` and never back. */
  ghost predicate Reaches(runs: seq<Run>, cfg: Config, clock: int, es: seq<Event>, runs': seq<Run>, clock': int)
    decreases |es|
  {
    if es == [] then runs == runs' && clock == clock'
    else
      && clock <= es[0].now && Enabled(runs, es[0])
      && Reaches(Step(runs, cfg, es[0]), cfg, es[0].now, es[1..], runs', clock')
  }

  /**
   A successful run `p` that started before run `r` either ended after `r` began, or `r` took its
   window from a success that started no earlier than `p`.
   */
  ghost predicate Linked(runs: seq<Run>, cfg: Config, p: nat, r: nat)
    requires p < r < |runs|
  {
    || runs[p].completed >= runs[r].started
    || exists l: nat :: l < r && runs[p].started <= runs[l].started && WindowFrom(runs, cfg, l, r)
  }

  ghost predicate WindowFrom(runs: seq<Run>, cfg: Config, l: nat, r: nat)
    requires l < r < |runs|
  {
    runs[l].status == Success && runs[r].windowStart == runs[l].completed - cfg.bufferHours * HOUR
  }

  ghost predicate StartsAscend(runs: seq<Run>) {
    forall i, j :: 0 <= i <= j < |runs| ==> runs[i].started <= runs[j].started
  }

  /** What holds of each single run. */
  ghost predicate RunKept(r: Run, cfg: Config, clock: int) {
    && r.started <= clock && r.completed <= clock
    && r.sinceHours == SinceHours(r.started, r.windowStart)
    && r.windowStart <= r.started - cfg.bufferHours * HOUR
  }

  ghost predicate RunsInv(runs: seq<Run>, cfg: Config, clock: int) {
    && StartsAscend(runs)
    && (forall i :: 0 <= i < |runs| ==> RunKept(runs[i], cfg, clock))
    && (forall p, r :: 0 <= p < r < |runs| && runs[p].status == Success ==> Linked(runs, cfg, p, r))
  }

  lemma {:induction false} BeginLinks(runs: seq<Run>, cfg: Config, e: Event, p: nat)
    requires e.Begin? && Enabled(runs, e) && p < |runs| && runs[p].status == Success
    ensures Linked(Step(runs, cfg, e), cfg, p, |runs|)
  {
    var i: nat :| IsLatestSuccess(runs, i) && runs[i].completed == e.last.value;
    assert WindowFrom(Step(runs, cfg, e), cfg, i, |runs|);
  }

  lemma {:induction false} BeginKeepsLinks(runs: seq<Run>, cfg: Config, e: Event, p: nat, r: nat)
    requires e.Begin? && Enabled(runs, e) && p < r < |runs| && Linked(runs, cfg, p, r)
    ensures Linked(Step(runs, cfg, e), cfg, p, r)
  {
    if runs[p].completed < runs[r].started {
      var l: nat :| l < r && runs[p].started <= runs[l].started && WindowFrom(runs, cfg, l, r);
      assert WindowFrom(Step(runs, cfg, e), cfg, l, r);
    }
  }

  lemma {:induction false} BeginKeepsInv(runs: seq<Run>, cfg: Config, clock: int, e: Event)
    requires cfg.bufferHours <= cfg.firstWindowHours
    requires RunsInv(runs, cfg, clock) && e.Begin? && clock <= e.now && Enabled(runs, e)
    ensures RunsInv(Step(runs, cfg, e), cfg, e.now)
  {
    var runs' := Step(runs, cfg, e);
    forall p, r | 0 <= p < r < |runs'| && runs'[p].status == Success ensures Linked(runs', cfg, p, r) {
      if r < |runs| {
        BeginKeepsLinks(runs, cfg, e, p, r);
      } else {
        BeginLinks(runs, cfg, e, p);
      }
    }
    if e.last.Some? {
      var i :| IsLatestSuccess(runs, i) && runs[i].completed == e.last.value;
      assert RunKept(runs[i], cfg, clock);
    }
    forall i | 0 <= i < |runs'| ensures RunKept(runs'[i], cfg, e.now) {
      assert i < |runs| ==> RunKept(runs[i], cfg, clock);
    }
  }

  lemma {:induction false} EndKeepsInv(runs: seq<Run>, cfg: Config, clock: int, e: Event)
    requires RunsInv(runs, cfg, clock) && e.End? && clock <= e.now && Enabled(runs, e)
    ensures RunsInv(Step(runs, cfg, e), cfg, e.now)
  {
    var runs' := Step(runs, cfg, e);
    forall i | 0 <= i < |runs'| ensures RunKept(runs'[i], cfg, e.now) {
      assert RunKept(runs[i], cfg, clock);
    }
    forall p, r | 0 <= p < r < |runs'| && runs'[p].status == Success ensures Linked(runs', cfg, p, r) {
      assert RunKept(runs[r], cfg, clock);
      if p != e.i && runs'[p].completed < runs'[r].started {
        assert Linked(runs, cfg, p, r);
        var l: nat :| l < r && runs[p].started <= runs[l].started && WindowFrom(runs, cfg, l, r);
        assert WindowFrom(runs', cfg, l, r);
      }
    }
  }

  lemma {:induction false} HistoryKeepsInv(
      runs: seq<Run>, cfg: Config, clock: int, es: seq<Event>, runs': seq<Run>, clock': int)
    requires cfg.bufferHours <= cfg.firstWindowHours
    requires RunsInv(runs, cfg, clock) && Reaches(runs, cfg, clock, es, runs', clock')
    ensures RunsInv(runs', cfg, clock')
    decreases |es|
  {
    if es != [] {
      if es[0].Begin? {
        BeginKeepsInv(runs, cfg, clock, es[0]);
      } else {
        EndKeepsInv(runs, cfg, clock, es[0]);
      }
      HistoryKeepsInv(Step(runs, cfg, es[0]), cfg, es[0].now, es[1..], runs', clock');
    }
  }

  // ---------- How far back ----------

  /** The run took its window from a success, or from the default of a feed that has had none. */
  ghost predicate HasOrigin(runs: seq<Run>, cfg: Config, r: nat)
    requires r < |runs|
  {
    || (exists l: nat :: l < r && WindowFrom(runs, cfg, l, r))
    || runs[r].windowStart == runs[r].started - cfg.firstWindowHours * HOUR
  }

  ghost predicate OriginsKept(runs: seq<Run>, cfg: Config) {
    forall r: nat :: r < |runs| ==> HasOrigin(runs, cfg, r)
  }

  lemma {:induction false} StepKeepsOrigin(runs: seq<Run>, cfg: Config, e: Event, r: nat)
    requires Enabled(runs, e) && r < |runs| && HasOrigin(runs, cfg, r)
    ensures HasOrigin(Step(runs, cfg, e), cfg, r)
  {
    if l: nat :| l < r && WindowFrom(runs, cfg, l, r) {
      assert WindowFrom(Step(runs, cfg, e), cfg, l, r);
    }
  }

  lemma {:induction false} NewRunHasOrigin(runs: seq<Run>, cfg: Config, e: Event)
    requires e.Begin? && Enabled(runs, e)
    ensures HasOrigin(Step(runs, cfg, e), cfg, |runs|)
  {
    if e.last.Some? {
      var i: nat :| IsLatestSuccess(runs, i) && runs[i].completed == e.last.value;
      assert WindowFrom(Step(runs, cfg, e), cfg, i, |runs|);
    }
  }

  lemma {:induction false} HistoryKeepsOrigins(
      runs: seq<Run>, cfg: Config, clock: int, es: seq<Event>, runs': seq<Run>, clock': int)
    requires OriginsKept(runs, cfg) && Reaches(runs, cfg, clock, es, runs', clock')
    ensures OriginsKept(runs', cfg)
    decreases |es|
  {
    if es != [] {
      var next := Step(runs, cfg, es[0]);
      forall r: nat | r < |next| ensures HasOrigin(next, cfg, r) {
        if r < |runs| {
          StepKeepsOrigin(runs, cfg, es[0], r);
        } else {
          NewRunHasOrigin(runs, cfg, es[0]);
        }
      }
      HistoryKeepsOrigins(next, cfg, es[0].now, es[1..], runs', clock');
    }
  }

  /** The run reaches back beyond `from`, by an hour at most. */
  ghost predicate ReachesJust(r: Run, from: int) {
    from - 3600 <= r.started - r.sinceHours * 3600 < from
  }

  /**
   Every run of every history whose window is shorter than a week reaches back to the buffer before
   the completion of an earlier success, or to the default window of a new feed, and at most an hour
   further.
   */
  lemma {:induction false} RunsReachJustFarEnough(
      cfg: Config, clock: int, es: seq<Event>, runs: seq<Run>, clock': int, r: nat)
    requires cfg.bufferHours <= cfg.firstWindowHours && Reaches([], cfg, clock, es, runs, clock')
    requires r < |runs| && runs[r].started - runs[r].windowStart < 168 * 3600
    ensures || (exists l: nat :: l < r && runs[l].status == Success
                                 && ReachesJust(runs[r], runs[l].completed - cfg.bufferHours * 3600))
            || ReachesJust(runs[r], runs[r].started - cfg.firstWindowHours * 3600)
  {
    HistoryKeepsInv([], cfg, clock, es, runs, clock');
    HistoryKeepsOrigins([], cfg, clock, es, runs, clock');
    assert RunKept(runs[r], cfg, clock') && HasOrigin(runs, cfg, r);
    FetchIsTight(runs[r].started, runs[r].windowStart);
    if l: nat :| l < r && WindowFrom(runs, cfg, l, r) {
      assert ReachesJust(runs[r], runs[l].completed - cfg.bufferHours * 3600);
    }
  }

  /** A feed without a success reaches back its default window; afterwards the last success decides. */
  lemma {:induction false} WindowIsFromLastSuccess(runs: seq<Run>, cfg: Config, now: int, last: Option<int>)
    requires IsLastSuccess(runs, last)
    ensures var r := NewRun(cfg, now, last);
            && r.started == now
            && (last == None <==> forall i :: 0 <= i < |runs| ==> runs[i].status != Success)
            && (last == None ==> r.windowStart == now - cfg.firstWindowHours * 3600)
            && (last.Some? ==> r.windowStart == last.value - cfg.bufferHours * 3600)
  {
  }

  // ---------- No gaps ----------

  /** Each success took at most the buffer. */
  ghost predicate Brief(runs: seq<Run>, cfg: Config) {
    forall i :: 0 <= i < |runs| && runs[i].status == Success ==>
      runs[i].completed - runs[i].started <= cfg.bufferHours * HOUR
  }

  /** `r` is the first success after the success `p`. */
  ghost predicate Neighbours(runs: seq<Run>, p: nat, r: nat) {
    && p < r < |runs| && runs[p].status == Success && runs[r].status == Success
    && forall k :: p < k < r ==> runs[k].status != Success
  }

  /** No two neighbouring successes started more than a week apart. */
  ghost predicate WeeklySuccess(runs: seq<Run>) {
    forall p: nat, r: nat :: Neighbours(runs, p, r) ==> runs[r].started - runs[p].started <= MAX_HOURS * HOUR
  }

  /** Points in time are real numbers, so that the time between two successive seconds can be a gap. */
  ghost predicate CoversTime(r: Run, t: real) {
    r.status == Success && Reach(r) as real <= t <= r.started as real
  }

  ghost predicate Covered(runs: seq<Run>, t: real) {
    exists i :: 0 <= i < |runs| && CoversTime(runs[i], t)
  }

  /** What is covered is one interval. */
  ghost predicate Gapless(runs: seq<Run>) {
    forall from, t, to :: Covered(runs, from) && Covered(runs, to) && from <= t <= to ==> Covered(runs, t)
  }

  /** The fetch of a success reaches back to the start of the success before it exactly when that is a week at most. */
  lemma {:induction false} ReachesPredecessorIff(runs: seq<Run>, cfg: Config, clock: int, p: nat, r: nat)
    requires RunsInv(runs, cfg, clock) && Brief(runs, cfg) && Neighbours(runs, p, r)
    ensures Reach(runs[r]) <= runs[p].started <==> runs[r].started - runs[p].started <= MAX_HOURS * HOUR
  {
    assert RunKept(runs[r], cfg, clock) && Linked(runs, cfg, p, r);
    if runs[p].completed < runs[r].started {
      var l: nat :| l < r && runs[p].started <= runs[l].started && WindowFrom(runs, cfg, l, r);
      assert l <= p;
    }
  }

  lemma {:induction false} StartIsCovered(runs: seq<Run>, cfg: Config, clock: int, i: nat)
    requires RunsInv(runs, cfg, clock) && i < |runs| && runs[i].status == Success
    ensures Covered(runs, runs[i].started as real)
  {
    assert RunKept(runs[i], cfg, clock);
    assert CoversTime(runs[i], runs[i].started as real);
  }

  /** Walks from success `x` towards success `y` until the fetches cover `t`. */
  lemma {:induction false} CoveredBetween(runs: seq<Run>, cfg: Config, clock: int, x: nat, y: nat, t: real)
    requires RunsInv(runs, cfg, clock) && Brief(runs, cfg) && WeeklySuccess(runs)
    requires x < y < |runs| && runs[x].status == Success && runs[y].status == Success
    requires runs[x].started as real < t <= runs[y].started as real
    ensures Covered(runs, t)
    decreases y
  {
    var p: nat := y - 1;
    while runs[p].status != Success
      invariant x <= p < y && forall k :: p < k < y ==> runs[k].status != Success
      decreases p
    {
      p := p - 1;
    }
    assert Neighbours(runs, p, y);
    ReachesPredecessorIff(runs, cfg, clock, p, y);
    if t > runs[p].started as real {
      assert CoversTime(runs[y], t);
    } else {
      CoveredBetween(runs, cfg, clock, x, p, t);
    }
  }

  /** Right after the earlier of two successes more than a week apart nothing is covered. */
  lemma {:induction false} UncoveredAfter(runs: seq<Run>, cfg: Config, clock: int, p: nat, r: nat)
    requires RunsInv(runs, cfg, clock) && Neighbours(runs, p, r)
    requires runs[r].started - runs[p].started > MAX_HOURS * HOUR
    ensures !Covered(runs, runs[p].started as real + 0.5) && !Gapless(runs)
  {
    var t := runs[p].started as real + 0.5;
    forall i | 0 <= i < |runs| ensures !CoversTime(runs[i], t) {
      assert RunKept(runs[i], cfg, clock);
      if i <= p {
        assert runs[i].started <= runs[p].started;
      } else if i >= r {
        assert runs[i].started >= runs[r].started;
      }
    }
    StartIsCovered(runs, cfg, clock, p);
    StartIsCovered(runs, cfg, clock, r);
  }

  lemma {:induction false} WeeklyIsGapless(
      runs: seq<Run>, cfg: Config, clock: int, from: real, t: real, to: real)
    requires RunsInv(runs, cfg, clock) && Brief(runs, cfg) && WeeklySuccess(runs)
    requires Covered(runs, from) && Covered(runs, to) && from <= t <= to
    ensures Covered(runs, t)
  {
    var x: nat :| x < |runs| && CoversTime(runs[x], from);
    var y: nat :| y < |runs| && CoversTime(runs[y], to);
    if t <= runs[x].started as real {
      assert CoversTime(runs[x], t);
    } else {
      assert x < y by {
        assert StartsAscend(runs);
      }
      CoveredBetween(runs, cfg, clock, x, y, t);
    }
  }

  /**
   Whatever runs failed, were skipped or overlapped in between: the times covered by successful
   fetches, none of which took longer than the buffer, form one interval exactly when no two
   neighbouring successes started more than a week apart.
   */
  lemma {:induction false} SuccessesLeaveNoGapIff(
      cfg: Config, clock: int, es: seq<Event>, runs: seq<Run>, clock': int)
    requires cfg.bufferHours <= cfg.firstWindowHours
    requires Reaches([], cfg, clock, es, runs, clock') && Brief(runs, cfg)
    ensures Gapless(runs) <==> WeeklySuccess(runs)
  {
    HistoryKeepsInv([], cfg, clock, es, runs, clock');
    if WeeklySuccess(runs) {
      forall from, t, to | Covered(runs, from) && Covered(runs, to) && from <= t <= to ensures Covered(runs, t) {
        WeeklyIsGapless(runs, cfg, clock', from, t, to);
      }
    } else {
      var p: nat, r: nat :| Neighbours(runs, p, r) && runs[r].started - runs[p].started > MAX_HOURS * HOUR;
      UncoveredAfter(runs, cfg, clock', p, r);
    }
  }

  /** A success at time 0 and the next one `pause` seconds later, each taking a minute. */
  ghost function TwoSuccesses(cfg: Config, pause: int): (runs: seq<Run>)
    ensures |runs| == 2
  {
    [NewRun(cfg, 0, None).(status := Success, completed := 60),
     NewRun(cfg, pause, Some(60)).(status := Success, completed := pause + 60)]
  }

  lemma {:induction false} TwoSuccessesAreReachable(cfg: Config, pause: int)
    returns (es: seq<Event>)
    requires pause > 60
    ensures Reaches([], cfg, 0, es, TwoSuccesses(cfg, pause), pause + 60)
  {
    var e0, e1 := Begin(0, None), End(60, 0, Success);
    var e2, e3 := Begin(pause, Some(60)), End(pause + 60, 1, Success);
    es := [e0, e1, e2, e3];
    var r0 := Step([], cfg, e0);
    var r1 := Step(r0, cfg, e1);
    assert IsLatestSuccess(r1, 0);
    var r2 := Step(r1, cfg, e2);
    var r3 := Step(r2, cfg, e3);
    assert r3 == TwoSuccesses(cfg, pause);
    assert es[1..] == [e1, e2, e3] && [e1, e2, e3][1..] == [e2, e3] && [e2, e3][1..] == [e3] && [e3][1..] == [];
    assert Reaches(r3, cfg, pause + 60, [], r3, pause + 60);
    assert Reaches(r2, cfg, pause, [e3], r3, pause + 60);
    assert Reaches(r1, cfg, 60, [e2, e3], r3, pause + 60);
    assert Reaches(r0, cfg, 0, [e1, e2, e3], r3, pause + 60);
  }

  /** Two successes in a row leave a gap in a reachable history exactly when they start more than a week apart. */
  lemma {:induction false} LatePauseLeavesGap(cfg: Config, pause: int) returns (es: seq<Event>, runs: seq<Run>)
    requires 1 <= cfg.bufferHours <= cfg.firstWindowHours && pause > 60
    ensures Reaches([], cfg, 0, es, runs, pause + 60) && |runs| == 2
    ensures Covered(runs, 0.0) && Covered(runs, pause as real)
    ensures !Covered(runs, 0.5) <==> pause > MAX_HOURS * HOUR
  {
    es := TwoSuccessesAreReachable(cfg, pause);
    runs := TwoSuccesses(cfg, pause);
    HistoryKeepsInv([], cfg, 0, es, runs, pause + 60);
    assert Brief(runs, cfg);
    assert Neighbours(runs, 0, 1);
    StartIsCovered(runs, cfg, pause + 60, 0);
    StartIsCovered(runs, cfg, pause + 60, 1);
    ReachesPredecessorIff(runs, cfg, pause + 60, 0, 1);
    if pause > MAX_HOURS * HOUR {
      UncoveredAfter(runs, cfg, pause + 60, 0, 1);
    } else {
      assert CoversTime(runs[1], 0.5);
    }
  }

  // ---------- Consecutive failures ----------

  const RECENT_RUNS: nat := 10

  /** The failures before the first success; `recent` lists the recorded runs, newest first. */
  function FailuresSinceSuccess(recent: seq<Status>): nat {
    if recent == [] || recent[0] == Success then 0
    else FailuresSinceSuccess(recent[1..]) + if recent[0] == Failure then 1 else 0
  }

  method ConsecutiveFailureCount(recorded: seq<Status>) returns (count: nat)
    ensures count == FailuresSinceSuccess(if |recorded| <= RECENT_RUNS then recorded else recorded[..RECENT_RUNS])
  {
    var recents := if |recorded| <= RECENT_RUNS then recorded else recorded[..RECENT_RUNS];
    count := 0;
    for i := 0 to |recents|
      invariant count + FailuresSinceSuccess(recents[i..]) == FailuresSinceSuccess(recents)
    {
      assert recents[i..][0] == recents[i] && recents[i..][1..] == recents[i + 1..];
      if recents[i] == Success {
        return;
      }
      if recents[i] == Failure {
        count := count + 1;
      }
    }
  }

  lemma {:induction false} FailuresSplit(recent: seq<Status>, n: nat)
    requires n <= |recent|
    ensures FailuresSinceSuccess(recent) ==
            FailuresSinceSuccess(recent[..n]) + if Success in recent[..n] then 0 else FailuresSinceSuccess(recent[n..])
    decreases n
  {
    if n > 0 {
      assert recent[..n][0] == recent[0] && recent[..n][1..] == recent[1..][..n - 1];
      assert recent[1..][n - 1..] == recent[n..];
      assert recent[..n] == [recent[0]] + recent[1..][..n - 1];
      FailuresSplit(recent[1..], n - 1);
    }
  }

  /**
   The count looks at ten runs only, so it can miss failures: it is the number of failures since the
   last success exactly when that success is among the ten, or no older failure follows it.
   */
  lemma {:induction false} TenRunsSufficeIff(recorded: seq<Status>)
    requires |recorded| > RECENT_RUNS
    ensures FailuresSinceSuccess(recorded[..RECENT_RUNS]) <= FailuresSinceSuccess(recorded)
    ensures FailuresSinceSuccess(recorded[..RECENT_RUNS]) == FailuresSinceSuccess(recorded) <==>
            Success in recorded[..RECENT_RUNS] || FailuresSinceSuccess(recorded[RECENT_RUNS..]) == 0
  {
    FailuresSplit(recorded, RECENT_RUNS);
  }

  /** The count is the number of failures before the first success; skipped runs are passed over. */
  lemma {:induction false} CountIsOfFailures(recent: seq<Status>, k: nat)
    requires k <= |recent| && Success !in recent[..k] && (k < |recent| ==> recent[k] == Success)
    ensures FailuresSinceSuccess(recent) == multiset(recent[..k])[Failure]
    decreases k
  {
    if k > 0 {
      assert recent[..k] == [recent[0]] + recent[1..][..k - 1];
      CountIsOfFailures(recent[1..], k - 1);
    }
  }

  lemma {:induction false} AllFailures(n: nat)
    ensures FailuresSinceSuccess(seq(n, _ => Failure)) == n
  {
    if n > 0 {
      var recent := seq(n, _ => Failure);
      AllFailures(n - 1);
      assert recent[1..] == seq(n - 1, _ => Failure);
    }
  }

  /** Eleven failures in a row and more are counted as ten. */
  lemma {:induction false} LongFailureIsCountedAsTen(n: nat)
    requires n > RECENT_RUNS
    ensures var recorded := seq(n, _ => Failure);
            FailuresSinceSuccess(recorded[..RECENT_RUNS]) == 10 && FailuresSinceSuccess(recorded) == n
  {
    var recorded: seq<Status> := seq(n, _ => Failure);
    AllFailures(n);
    AllFailures(RECENT_RUNS);
    assert recorded[..RECENT_RUNS] == seq(RECENT_RUNS, _ => Failure);
  }
}
