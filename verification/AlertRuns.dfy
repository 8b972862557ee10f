/**
 What the alert queue keeps over every run: any interleaving of enqueueing, acknowledgements by
 analysts, and the single and batch sends that the polls of the dispatch loop consist of.
 */
module AlertRuns {
  import opened Options
  import opened Counters
  import opened AlertQueue

  // ---------- Runs ----------

  /** The atomic changes of the queue.  `start` is the time at which the tick polled. */
  datatype Action =
    | Enqueue(now: int, customer: int, key: string, target: Option<nat>)
    | Acknowledge(id: nat)
    | TrySingle(start: int, now: int, later: int, id: nat, outcome: Outcome)
    | TryBatch(start: int, now: int, later: int, customer: int, alerts: seq<nat>, entities: Entities, ok: bool)

  ghost predicate Distinct(ids: seq<nat>) {
    forall i, j :: 0 <= i < j < |ids| ==> ids[i] != ids[j]
  }

  /** The alerts of one customer that a tick found due at `start`. */
  ghost predicate Due(rows: seq<Row>, ids: seq<nat>, start: int) {
    && ValidIds(ids, rows) && Distinct(ids)
    && forall k :: 0 <= k < |ids| ==> Eligible(rows[ids[k]], start)
  }

  ghost predicate Enabled(q: Queue, cfg: Config, a: Action) {
    match a
    case Enqueue(now, _, key, target) => IsExistingDispatch(q.rows, key, now - cfg.dedupeWindow, target)
    case Acknowledge(id) => id < |q.rows|
    case TrySingle(start, now, later, id, _) => start <= now <= later && id < |q.rows| && Eligible(q.rows[id], start)
    case TryBatch(start, now, later, _, alerts, _, _) => start <= now <= later && Due(q.rows, alerts, start)
  }

  ghost function Step(q: Queue, cfg: Config, a: Action): Queue
    requires Enabled(q, cfg, a)
  {
    match a
    case Enqueue(now, customer, key, target) => q.(rows := q.rows + [NewRow(customer, key, target, now)])
    case Acknowledge(id) => q.(rows := q.rows[id := q.rows[id].(state := Acknowledged)])
    case TrySingle(_, now, later, id, outcome) => SendSingle(q, cfg, id, now, later, outcome)
    case TryBatch(_, now, later, customer, alerts, entities, ok) =>
      var formed := FormBatch(q, customer, now - cfg.batchWindow, entities);
      SendBatch(formed, cfg, |q.batches|, alerts, entities, now, later, ok)
  }

  // ---------- Sends of a row ----------

  ghost predicate Delivers(s: Send, id: nat) {
    s.ok && Touches(s, id)
  }

  /** How many messages that contain the row Telegram accepted. */
  ghost function Deliveries(sends: seq<Send>, id: nat): nat {
    if sends == [] then 0
    else Deliveries(sends[..|sends| - 1], id) + if Delivers(sends[|sends| - 1], id) then 1 else 0
  }

  ghost predicate IsSingle(s: Send, id: nat) {
    s.Single? && s.row == id
  }

  /** The send hands the row to Telegram, accepted or not. */
  ghost predicate Touches(s: Send, id: nat) {
    match s case Single(row, _, _) => row == id case OfBatch(_, rows, _, _) => id in rows
  }

  /** How often the row was handed to Telegram as a message of its own. */
  ghost function SingleAttempts(sends: seq<Send>, id: nat): nat {
    if sends == [] then 0
    else SingleAttempts(sends[..|sends| - 1], id) + if IsSingle(sends[|sends| - 1], id) then 1 else 0
  }

  ghost function BatchSize(rows: seq<Row>, batch: nat): nat {
    if rows == [] then 0
    else BatchSize(rows[..|rows| - 1], batch) + if rows[|rows| - 1].batch == Some(batch) then 1 else 0
  }

  // ---------- The invariant ----------

  /** Attempts are counted after they were made, so there is one even when none is allowed. */
  function MaxTries(cfg: Config): nat {
    if cfg.maxAttempts == 0 then 1 else cfg.maxAttempts
  }

  /** What holds of one row, given the sends so far. */
  ghost predicate RowKept(r: Row, id: nat, sends: seq<Send>, cfg: Config) {
    && (r.state == Pending ==>
          && r.attempts < MaxTries(cfg) && r.dedupedOf == None
          && Deliveries(sends, id) == 0 && SingleAttempts(sends, id) <= r.attempts)
    && Deliveries(sends, id) <= 1
    && (Deliveries(sends, id) == 1 ==>
          r.state == Dispatched || r.state == Batched || r.state == AlertQueue.Acknowledged)
    && SingleAttempts(sends, id) <= MaxTries(cfg)
    && (r.dedupedOf.Some? ==>
          && r.state != Dispatched && r.state != Batched
          && Deliveries(sends, id) == 0 && SingleAttempts(sends, id) == 0)
  }

  /** A deduped row points to an older row with its key, which is not deduped itself. */
  ghost predicate DedupeKept(rows: seq<Row>, id: nat)
    requires id < |rows|
  {
    && (rows[id].state == Deduped ==> rows[id].dedupedOf.Some?)
    && (rows[id].dedupedOf.Some? ==>
          var t := rows[id].dedupedOf.value;
          t < id && rows[t].dedupeKey == rows[id].dedupeKey && rows[t].dedupedOf == None)
  }

  /** A pending row that was tried before waits until the backoff after each of its attempts is over. */
  ghost predicate BackoffKept(r: Row, id: nat, sends: seq<Send>, cfg: Config) {
    && (forall a :: 0 <= a < |sends| && IsSingle(sends[a], id) && r.state == Pending ==>
          r.nextRetry.Some? && r.nextRetry.value >= sends[a].time + cfg.backoff)
    && (forall a, b :: 0 <= a < b < |sends| && IsSingle(sends[a], id) && IsSingle(sends[b], id) ==>
          sends[b].time >= sends[a].time + cfg.backoff)
  }

  ghost predicate BatchKept(q: Queue, batch: nat)
    requires batch < |q.batches|
  {
    q.batches[batch].findingCount == BatchSize(q.rows, batch) == Sum(q.batches[batch].severities)
  }

  /** Sends and rows only mention rows and batches that exist. */
  ghost predicate InRange(q: Queue) {
    && (forall i :: 0 <= i < |q.rows| && q.rows[i].batch.Some? ==> q.rows[i].batch.value < |q.batches|)
    && (forall a, id: nat :: 0 <= a < |q.sends| && Touches(q.sends[a], id) ==> id < |q.rows|)
  }

  ghost predicate PendingUnbatched(rows: seq<Row>) {
    forall i :: 0 <= i < |rows| && rows[i].state == Pending ==> rows[i].batch == None
  }

  ghost predicate BatchInv(q: Queue) {
    && InRange(q)
    && PendingUnbatched(q.rows)
    && (forall b :: 0 <= b < |q.batches| ==> BatchKept(q, b))
  }

  ghost predicate Inv(q: Queue, cfg: Config) {
    && BatchInv(q)
    && (forall i :: 0 <= i < |q.rows| ==> RowKept(q.rows[i], i, q.sends, cfg))
    && (forall i :: 0 <= i < |q.rows| ==> DedupeKept(q.rows, i))
    && (forall i :: 0 <= i < |q.rows| ==> BackoffKept(q.rows[i], i, q.sends, cfg))
  }

  // ---------- What one action does to one row ----------

  datatype Move =
    | Stay
    | Acked
    | Muted
    | Sent
    | Bounced(later: int)
    | Joined(batch: nat)
    | JoinedAndBounced(batch: nat, later: int)

  function MoveRow(r: Row, cfg: Config, m: Move): Row {
    match m
    case Stay => r
    case Acked => r.(state := AlertQueue.Acknowledged)
    case Muted => r.(state := Silenced)
    case Sent => r.(state := Dispatched)
    case Bounced(later) => FailRow(r, cfg, later)
    case Joined(b) => r.(state := Batched, batch := Some(b))
    case JoinedAndBounced(b, later) => FailRow(r.(state := Batched, batch := Some(b)), cfg, later)
  }

  /** `sent` is what the action handed to Telegram, if anything, in a tick that polled at `start`. */
  ghost predicate Allowed(r: Row, id: nat, m: Move, sent: Option<Send>, start: int) {
    match m
    case Stay => sent.None? || !Touches(sent.value, id)
    case Acked => sent.None?
    case Muted => r.state == Pending && sent.None?
    case Sent =>
      Eligible(r, start) && sent.Some? && IsSingle(sent.value, id) && sent.value.ok && start <= sent.value.time
    case Bounced(later) =>
      && Eligible(r, start) && start <= later
      && sent.Some? && !sent.value.ok && start <= sent.value.time <= later
    case Joined(b) => r.state == Pending && sent.Some? && sent.value.OfBatch? && sent.value.batch == b
    case JoinedAndBounced(b, _) =>
      r.state == Pending && sent.Some? && sent.value.OfBatch? && sent.value.batch == b && !sent.value.ok
  }

  function Extend(sends: seq<Send>, sent: Option<Send>): seq<Send> {
    if sent.Some? then sends + [sent.value] else sends
  }

  lemma {:induction false} CountsAfter(sends: seq<Send>, sent: Send, id: nat)
    ensures Deliveries(sends + [sent], id) == Deliveries(sends, id) + if Delivers(sent, id) then 1 else 0
    ensures SingleAttempts(sends + [sent], id) == SingleAttempts(sends, id) + if IsSingle(sent, id) then 1 else 0
  {
    assert (sends + [sent])[..|sends|] == sends;
  }

  lemma {:induction false} MoveKeepsRow(
      r: Row, id: nat, m: Move, sends: seq<Send>, sent: Option<Send>, start: int, cfg: Config)
    requires RowKept(r, id, sends, cfg) && Allowed(r, id, m, sent, start)
    ensures RowKept(MoveRow(r, cfg, m), id, Extend(sends, sent), cfg)
  {
    if sent.Some? {
      CountsAfter(sends, sent.value, id);
    }
  }

  lemma {:induction false} MoveKeepsBackoff(
      r: Row, id: nat, m: Move, sends: seq<Send>, sent: Option<Send>, start: int, cfg: Config)
    requires BackoffKept(r, id, sends, cfg) && Allowed(r, id, m, sent, start)
    ensures BackoffKept(MoveRow(r, cfg, m), id, Extend(sends, sent), cfg)
  {
  }

  // ---------- What one action does to the table ----------

  lemma {:induction false} MarkAllFailedAt(rows: seq<Row>, cfg: Config, ids: seq<nat>, later: int, i: nat)
    requires ValidIds(ids, rows) && Distinct(ids) && i < |rows|
    ensures MarkAllFailed(rows, cfg, ids, later)[i] == if i in ids then FailRow(rows[i], cfg, later) else rows[i]
    decreases |ids|
  {
    if ids != [] {
      assert ids == [ids[0]] + ids[1..];
      MarkAllFailedAt(MarkFailed(rows, cfg, ids[0], later), cfg, ids[1..], later, i);
      if i == ids[0] {
        assert i !in ids[1..];
      }
    }
  }

  /** What the action hands to Telegram. */
  ghost function SentBy(q: Queue, cfg: Config, a: Action): Option<Send>
    requires Enabled(q, cfg, a)
  {
    match a
    case TrySingle(_, now, _, id, Accepted) => Some(Single(id, now, true))
    case TrySingle(_, now, _, id, Refused) => Some(Single(id, now, false))
    case TryBatch(_, now, _, customer, _, entities, ok) =>
      var rows := AssignBatch(q.rows, customer, now - cfg.batchWindow, |q.batches|);
      Some(OfBatch(|q.batches|, RowsShown(rows, |q.batches|, entities), now, ok))
    case _ => None
  }

  ghost function MoveBy(q: Queue, cfg: Config, a: Action, i: nat): Move
    requires Enabled(q, cfg, a) && i < |q.rows|
  {
    match a
    case Enqueue(_, _, _, _) => Stay
    case Acknowledge(id) => if i == id then Acked else Stay
    case TrySingle(_, _, later, id, outcome) =>
      if i != id then Stay
      else (match outcome
            case EntityMissing => Stay
            case IsSilenced => Muted
            case Accepted => Sent
            case Refused => Bounced(later))
    case TryBatch(_, now, later, customer, alerts, _, ok) =>
      var joins := Batchable(q.rows[i], customer, now - cfg.batchWindow);
      if !ok && i in alerts then (if joins then JoinedAndBounced(|q.batches|, later) else Bounced(later))
      else if joins then Joined(|q.batches|)
      else Stay
  }

  /** The time at which the tick of the action polled. */
  function StartOf(a: Action): int {
    if a.TrySingle? || a.TryBatch? then a.start else 0
  }

  lemma {:induction false} BatchSendTouches(q: Queue, cfg: Config, a: Action, i: nat)
    requires InRange(q) && Enabled(q, cfg, a) && a.TryBatch? && i < |q.rows|
    ensures Touches(SentBy(q, cfg, a).value, i) <==>
            Batchable(q.rows[i], a.customer, a.now - cfg.batchWindow) && a.entities(i).Some?
  {
  }

  /** Every existing row makes an allowed move, and the sends grow by what the action hands over. */
  lemma {:induction false} StepMovesRows(q: Queue, cfg: Config, a: Action, i: nat)
    requires InRange(q) && Enabled(q, cfg, a) && i < |q.rows|
    ensures var q' := Step(q, cfg, a);
            && i < |q'.rows| && q'.rows[i] == MoveRow(q.rows[i], cfg, MoveBy(q, cfg, a, i))
            && q'.sends == Extend(q.sends, SentBy(q, cfg, a))
            && Allowed(q.rows[i], i, MoveBy(q, cfg, a, i), SentBy(q, cfg, a), StartOf(a))
  {
    if a.TryBatch? {
      BatchSendTouches(q, cfg, a, i);
      var rows := AssignBatch(q.rows, a.customer, a.now - cfg.batchWindow, |q.batches|);
      MarkAllFailedAt(rows, cfg, a.alerts, a.later, i);
      if i in a.alerts {
        var k :| 0 <= k < |a.alerts| && a.alerts[k] == i;
      }
    }
  }

  // ---------- Rows keep their identity ----------

  /** No action changes a row's customer, key, creation time or dedupe target, or takes it out of its batch. */
  lemma {:induction false} RowsKeepIdentity(q: Queue, cfg: Config, a: Action, i: nat)
    requires BatchInv(q) && Enabled(q, cfg, a) && i < |q.rows|
    ensures var r, r' := q.rows[i], Step(q, cfg, a).rows[i];
            && r'.customer == r.customer && r'.dedupeKey == r.dedupeKey && r'.created == r.created
            && r'.dedupedOf == r.dedupedOf
            && (r.batch.Some? ==> r'.batch == r.batch)
            && (r.state != Pending ==>
                  r'.state != Pending && (r'.state == r.state || r'.state == AlertQueue.Acknowledged))
  {
    StepMovesRows(q, cfg, a, i);
  }

  // ---------- Batch conservation ----------

  lemma {:induction false} SameBatchesSameSize(rows: seq<Row>, rows': seq<Row>, batch: nat)
    requires |rows| <= |rows'|
    requires forall i :: 0 <= i < |rows| ==> (rows[i].batch == Some(batch) <==> rows'[i].batch == Some(batch))
    requires forall i :: |rows| <= i < |rows'| ==> rows'[i].batch != Some(batch)
    ensures BatchSize(rows, batch) == BatchSize(rows', batch)
    decreases |rows'|
  {
    if |rows'| > 0 {
      if |rows| == |rows'| {
        SameBatchesSameSize(rows[..|rows| - 1], rows'[..|rows'| - 1], batch);
      } else {
        SameBatchesSameSize(rows, rows'[..|rows'| - 1], batch);
      }
    }
  }

  /** A new batch holds exactly the members it was formed from. */
  lemma {:induction false} NewBatchSize(rows: seq<Row>, customer: int, cutoff: int, batch: nat)
    requires forall i :: 0 <= i < |rows| ==> rows[i].batch != Some(batch)
    ensures BatchSize(AssignBatch(rows, customer, cutoff, batch), batch) == |Members(rows, customer, cutoff)|
    decreases |rows|
  {
    if rows != [] {
      var n := |rows| - 1;
      NewBatchSize(rows[..n], customer, cutoff, batch);
      assert AssignBatch(rows, customer, cutoff, batch)[..n] == AssignBatch(rows[..n], customer, cutoff, batch);
    }
  }

  lemma {:induction false} SeveritiesSum(ids: seq<nat>, entities: Entities)
    ensures Sum(CountSeverities(ids, entities)) == |ids|
    decreases |ids|
  {
    if ids != [] {
      var n := |ids| - 1;
      SeveritiesSum(ids[..n], entities);
      SumBump(CountSeverities(ids[..n], entities), SeverityName(entities(ids[n])));
    }
  }

  lemma {:induction false} OldBatchStays(q: Queue, cfg: Config, a: Action, b: nat)
    requires BatchInv(q) && Enabled(q, cfg, a) && b < |q.batches|
    ensures var q' := Step(q, cfg, a);
            && b < |q'.batches| && q'.batches[b].findingCount == q.batches[b].findingCount
            && q'.batches[b].severities == q.batches[b].severities
            && BatchSize(q'.rows, b) == BatchSize(q.rows, b)
  {
    var q' := Step(q, cfg, a);
    forall i | 0 <= i < |q.rows| ensures q.rows[i].batch == Some(b) <==> q'.rows[i].batch == Some(b) {
      StepMovesRows(q, cfg, a, i);
    }
    SameBatchesSameSize(q.rows, q'.rows, b);
  }

  lemma {:induction false} NewBatchKept(q: Queue, cfg: Config, a: Action)
    requires BatchInv(q) && Enabled(q, cfg, a) && a.TryBatch?
    ensures var q' := Step(q, cfg, a); |q'.batches| == |q.batches| + 1 && BatchKept(q', |q.batches|)
  {
    var b := |q.batches|;
    var cutoff := a.now - cfg.batchWindow;
    var rows := AssignBatch(q.rows, a.customer, cutoff, b);
    var q' := Step(q, cfg, a);
    NewBatchSize(q.rows, a.customer, cutoff, b);
    SeveritiesSum(Members(q.rows, a.customer, cutoff), a.entities);
    forall i | 0 <= i < |rows| ensures rows[i].batch == Some(b) <==> q'.rows[i].batch == Some(b) {
      MarkAllFailedAt(rows, cfg, a.alerts, a.later, i);
    }
    SameBatchesSameSize(rows, q'.rows, b);
  }

  lemma {:induction false} StepKeepsBatches(q: Queue, cfg: Config, a: Action, b: nat)
    requires BatchInv(q) && Enabled(q, cfg, a) && b < |Step(q, cfg, a).batches|
    ensures BatchKept(Step(q, cfg, a), b)
  {
    if b < |q.batches| {
      OldBatchStays(q, cfg, a, b);
      assert BatchKept(q, b);
    } else {
      NewBatchKept(q, cfg, a);
    }
  }

  // ---------- Preservation ----------

  lemma {:induction false} UntouchedCounts(sends: seq<Send>, id: nat)
    requires forall a :: 0 <= a < |sends| ==> !Touches(sends[a], id)
    ensures Deliveries(sends, id) == 0 && SingleAttempts(sends, id) == 0
    decreases |sends|
  {
    if sends != [] {
      UntouchedCounts(sends[..|sends| - 1], id);
    }
  }

  lemma {:induction false} NewRowKept(q: Queue, cfg: Config, a: Action)
    requires Inv(q, cfg) && Enabled(q, cfg, a) && a.Enqueue?
    ensures var q', n := Step(q, cfg, a), |q.rows|;
            && RowKept(q'.rows[n], n, q'.sends, cfg) && BackoffKept(q'.rows[n], n, q'.sends, cfg)
            && DedupeKept(q'.rows, n)
  {
    var n := |q.rows|;
    forall b | 0 <= b < |q.sends| ensures !Touches(q.sends[b], n) {
    }
    UntouchedCounts(q.sends, n);
    if a.target.Some? {
      assert DedupeKept(q.rows, a.target.value);
      assert RowKept(q.rows[a.target.value], a.target.value, q.sends, cfg);
    }
  }

  lemma {:induction false} OldRowKept(q: Queue, cfg: Config, a: Action, i: nat)
    requires Inv(q, cfg) && Enabled(q, cfg, a) && i < |q.rows|
    ensures var q' := Step(q, cfg, a);
            && i < |q'.rows| && RowKept(q'.rows[i], i, q'.sends, cfg) && BackoffKept(q'.rows[i], i, q'.sends, cfg)
  {
    StepMovesRows(q, cfg, a, i);
    var m, sent := MoveBy(q, cfg, a, i), SentBy(q, cfg, a);
    MoveKeepsRow(q.rows[i], i, m, q.sends, sent, StartOf(a), cfg);
    MoveKeepsBackoff(q.rows[i], i, m, q.sends, sent, StartOf(a), cfg);
  }

  lemma {:induction false} OldDedupeKept(q: Queue, cfg: Config, a: Action, i: nat)
    requires Inv(q, cfg) && Enabled(q, cfg, a) && i < |q.rows|
    ensures var q' := Step(q, cfg, a); i < |q'.rows| && DedupeKept(q'.rows, i)
  {
    StepMovesRows(q, cfg, a, i);
    RowsKeepIdentity(q, cfg, a, i);
    assert DedupeKept(q.rows, i);
    if q.rows[i].dedupedOf.Some? {
      RowsKeepIdentity(q, cfg, a, q.rows[i].dedupedOf.value);
    }
  }

  lemma {:induction false} StepKeepsRange(q: Queue, cfg: Config, a: Action)
    requires InRange(q) && Enabled(q, cfg, a)
    ensures InRange(Step(q, cfg, a)) && |q.rows| <= |Step(q, cfg, a).rows|
  {
    var q' := Step(q, cfg, a);
    forall i | 0 <= i < |q'.rows| && q'.rows[i].batch.Some? ensures q'.rows[i].batch.value < |q'.batches| {
      if i < |q.rows| {
        StepMovesRows(q, cfg, a, i);
      }
    }
  }

  lemma {:induction false} StepKeepsBatchInv(q: Queue, cfg: Config, a: Action)
    requires BatchInv(q) && Enabled(q, cfg, a)
    ensures BatchInv(Step(q, cfg, a)) && |q.rows| <= |Step(q, cfg, a).rows|
  {
    var q' := Step(q, cfg, a);
    StepKeepsRange(q, cfg, a);
    forall i | 0 <= i < |q'.rows| && q'.rows[i].state == Pending ensures q'.rows[i].batch == None {
      if i < |q.rows| {
        StepMovesRows(q, cfg, a, i);
      }
    }
    forall b | 0 <= b < |q'.batches| ensures BatchKept(q', b) {
      StepKeepsBatches(q, cfg, a, b);
    }
  }

  lemma {:induction false} StepKeepsInv(q: Queue, cfg: Config, a: Action)
    requires Inv(q, cfg) && Enabled(q, cfg, a)
    ensures Inv(Step(q, cfg, a), cfg)
  {
    var q' := Step(q, cfg, a);
    StepKeepsBatchInv(q, cfg, a);
    forall i | 0 <= i < |q'.rows|
      ensures RowKept(q'.rows[i], i, q'.sends, cfg)
      ensures BackoffKept(q'.rows[i], i, q'.sends, cfg)
      ensures DedupeKept(q'.rows, i)
    {
      if i < |q.rows| {
        OldRowKept(q, cfg, a, i);
        OldDedupeKept(q, cfg, a, i);
      } else {
        NewRowKept(q, cfg, a);
      }
    }
  }

  // ---------- Whole runs ----------

  ghost predicate Reaches(q: Queue, cfg: Config, acts: seq<Action>, q': Queue)
    decreases |acts|
  {
    if acts == [] then q == q'
    else Enabled(q, cfg, acts[0]) && Reaches(Step(q, cfg, acts[0]), cfg, acts[1..], q')
  }

  const EMPTY := Queue([], [], [])

  lemma {:induction false} RunKeepsInv(q: Queue, cfg: Config, acts: seq<Action>, q': Queue)
    requires Inv(q, cfg) && Reaches(q, cfg, acts, q')
    ensures Inv(q', cfg) && |q.rows| <= |q'.rows|
    decreases |acts|
  {
    if acts != [] {
      StepKeepsInv(q, cfg, acts[0]);
      StepKeepsRange(q, cfg, acts[0]);
      RunKeepsInv(Step(q, cfg, acts[0]), cfg, acts[1..], q');
    }
  }

  lemma {:induction false} RunKeepsBatchInv(q: Queue, cfg: Config, acts: seq<Action>, q': Queue)
    requires BatchInv(q) && Reaches(q, cfg, acts, q')
    ensures BatchInv(q')
    decreases |acts|
  {
    if acts != [] {
      StepKeepsBatchInv(q, cfg, acts[0]);
      RunKeepsBatchInv(Step(q, cfg, acts[0]), cfg, acts[1..], q');
    }
  }

  /**
   In every reachable state each row is in at most one accepted message and was tried on its own at
   most `MaxTries` times, a pending row still has attempts left, and a row deduped away was never
   handed to Telegram and points to an older row with its key that is not deduped.
   */
  lemma {:induction false} AtMostOnceAndBoundedAttempts(cfg: Config, acts: seq<Action>, q: Queue, id: nat)
    requires Reaches(EMPTY, cfg, acts, q) && id < |q.rows|
    ensures Deliveries(q.sends, id) <= 1
    ensures SingleAttempts(q.sends, id) <= MaxTries(cfg)
    ensures q.rows[id].state == Pending ==> q.rows[id].attempts < MaxTries(cfg) && Deliveries(q.sends, id) == 0
    ensures q.rows[id].dedupedOf.Some? ==>
      var t := q.rows[id].dedupedOf.value;
      && t < id && q.rows[t].dedupeKey == q.rows[id].dedupeKey && q.rows[t].dedupedOf == None
      && Deliveries(q.sends, id) == 0 && SingleAttempts(q.sends, id) == 0
  {
    RunKeepsInv(EMPTY, cfg, acts, q);
    assert RowKept(q.rows[id], id, q.sends, cfg) && DedupeKept(q.rows, id);
  }

  /** Two attempts to send the same row on its own are at least the backoff apart. */
  lemma {:induction false} AttemptsAreSpaced(cfg: Config, acts: seq<Action>, q: Queue, id: nat, a: nat, b: nat)
    requires Reaches(EMPTY, cfg, acts, q) && id < |q.rows|
    requires a < b < |q.sends| && IsSingle(q.sends[a], id) && IsSingle(q.sends[b], id)
    ensures q.sends[b].time >= q.sends[a].time + cfg.backoff
  {
    RunKeepsInv(EMPTY, cfg, acts, q);
    assert BackoffKept(q.rows[id], id, q.sends, cfg);
  }

  /** A batch's count is the number of rows that carry its id, and the sum of its severity counts. */
  lemma {:induction false} BatchesAreConserved(cfg: Config, acts: seq<Action>, q: Queue, b: nat)
    requires Reaches(EMPTY, cfg, acts, q) && b < |q.batches|
    ensures q.batches[b].findingCount == BatchSize(q.rows, b) == Sum(q.batches[b].severities)
  {
    RunKeepsBatchInv(EMPTY, cfg, acts, q);
    assert BatchKept(q, b);
  }

  /**
   Once a row has left `Pending` it is never handed to Telegram again, whatever happens.
   */
  lemma {:induction false} LeavingPendingIsFinal(q: Queue, cfg: Config, acts: seq<Action>, q': Queue, id: nat)
    requires BatchInv(q) && Reaches(q, cfg, acts, q')
    requires id < |q.rows| && q.rows[id].state != Pending
    ensures id < |q'.rows| && q'.rows[id].state != Pending && q'.rows[id].batch == q.rows[id].batch
    ensures Deliveries(q'.sends, id) == Deliveries(q.sends, id)
    ensures SingleAttempts(q'.sends, id) == SingleAttempts(q.sends, id)
    decreases |acts|
  {
    if acts != [] {
      var next := Step(q, cfg, acts[0]);
      var sent := SentBy(q, cfg, acts[0]);
      StepMovesRows(q, cfg, acts[0], id);
      RowsKeepIdentity(q, cfg, acts[0], id);
      StepKeepsBatchInv(q, cfg, acts[0]);
      if acts[0].TryBatch? {
        BatchSendTouches(q, cfg, acts[0], id);
      }
      if sent.Some? {
        CountsAfter(q.sends, sent.value, id);
      }
      LeavingPendingIsFinal(next, cfg, acts[1..], q', id);
    }
  }

  /**
   What a row joins a batch for: from then on it stays in the batch, and it is delivered exactly when
   Telegram accepts the message of the batch and the row's entity still exists.
   */
  lemma {:induction false} BatchDecidesDelivery(
      q: Queue, cfg: Config, a: Action, acts: seq<Action>, q': Queue, id: nat)
    requires Inv(q, cfg) && Enabled(q, cfg, a) && a.TryBatch?
    requires id < |q.rows| && Batchable(q.rows[id], a.customer, a.now - cfg.batchWindow)
    requires Reaches(Step(q, cfg, a), cfg, acts, q')
    ensures id < |q'.rows| && q'.rows[id].batch == Some(|q.batches|)
    ensures Deliveries(q'.sends, id) == if a.ok && a.entities(id).Some? then 1 else 0
  {
    StepMovesRows(q, cfg, a, id);
    StepKeepsBatchInv(q, cfg, a);
    BatchSendTouches(q, cfg, a, id);
    assert RowKept(q.rows[id], id, q.sends, cfg);
    CountsAfter(q.sends, SentBy(q, cfg, a).value, id);
    LeavingPendingIsFinal(Step(q, cfg, a), cfg, acts, q', id);
  }

  /** The rows of a refused batch are lost: there is no retry for them. */
  lemma {:induction false} RefusedBatchIsNeverDelivered(
      q: Queue, cfg: Config, a: Action, acts: seq<Action>, q': Queue, id: nat)
    requires Inv(q, cfg) && Enabled(q, cfg, a) && a.TryBatch? && !a.ok
    requires id < |q.rows| && Batchable(q.rows[id], a.customer, a.now - cfg.batchWindow)
    requires Reaches(Step(q, cfg, a), cfg, acts, q')
    ensures id < |q'.rows| && q'.rows[id].batch == Some(|q.batches|) && Deliveries(q'.sends, id) == 0
  {
    BatchDecidesDelivery(q, cfg, a, acts, q', id);
  }
}
