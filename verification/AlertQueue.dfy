/**
 The alert queue: enqueueing with dedupe (alerts/dedupe.py, match/customer_router.py), batching
 (alerts/batcher.py) and the dispatch loop of Bot 1 (telegram/bot_alert.py).

 A row's id is its position in the table, a batch's id its position in the batch table.  The
 sends record every message handed to Telegram and whether Telegram took it.
 */
module AlertQueue {
  import opened Options
  import opened Counters

  datatype RowState = Pending | Dispatched | Batched | Deduped | Silenced | Failed | Acknowledged

  datatype Row = Row(
    customer: int,
    state: RowState,
    dedupeKey: string,
    dedupedOf: Option<nat>,
    batch: Option<nat>,
    attempts: nat,
    nextRetry: Option<int>,
    created: int)

  datatype Batch = Batch(customer: int, findingCount: nat, severities: map<string, nat>, dispatchedAt: Option<int>)

  /** A message handed to Telegram; that of a batch shows the rows of the batch whose entity still exists. */
  datatype Send =
    | Single(row: nat, time: int, ok: bool)
    | OfBatch(batch: nat, rows: set<nat>, time: int, ok: bool)

  datatype Config = Config(
    maxAttempts: nat, backoff: nat, dedupeWindow: nat, batchTrigger: nat, batchWindow: nat)

  datatype Queue = Queue(rows: seq<Row>, batches: seq<Batch>, sends: seq<Send>)

  /** How handing one alert to Telegram ends. */
  datatype Outcome = EntityMissing | IsSilenced | Accepted | Refused

  const POLL_LIMIT: nat := 50

  // ---------- Enqueueing ----------

  predicate AlreadyOut(r: Row, key: string, cutoff: int) {
    r.dedupeKey == key && r.created >= cutoff && (r.state == Dispatched || r.state == Batched)
  }

  /** The most recent row with the key that was dispatched or batched since `cutoff`, if any. */
  ghost predicate IsExistingDispatch(rows: seq<Row>, key: string, cutoff: int, r: Option<nat>) {
    match r
    case None => forall i :: 0 <= i < |rows| ==> !AlreadyOut(rows[i], key, cutoff)
    case Some(i) =>
      && i < |rows| && AlreadyOut(rows[i], key, cutoff)
      && forall j :: 0 <= j < |rows| && AlreadyOut(rows[j], key, cutoff) ==> rows[j].created <= rows[i].created
  }

  function NewRow(customer: int, key: string, target: Option<nat>, now: int): Row {
    Row(customer, if target.Some? then Deduped else Pending, key, target, None, 0, None, now)
  }

  // ---------- Failure and retry ----------

  function FailRow(r: Row, cfg: Config, later: int): Row {
    if r.attempts + 1 >= cfg.maxAttempts then
      r.(attempts := r.attempts + 1, state := Failed, nextRetry := None)
    else
      r.(attempts := r.attempts + 1, nextRetry := Some(later + cfg.backoff))
  }

  function MarkFailed(rows: seq<Row>, cfg: Config, id: nat, later: int): seq<Row>
    requires id < |rows|
  {
    rows[id := FailRow(rows[id], cfg, later)]
  }

  ghost predicate ValidIds(ids: seq<nat>, rows: seq<Row>) {
    forall k :: 0 <= k < |ids| ==> ids[k] < |rows|
  }

  function MarkAllFailed(rows: seq<Row>, cfg: Config, ids: seq<nat>, later: int): (r: seq<Row>)
    requires ValidIds(ids, rows)
    ensures |r| == |rows|
    decreases |ids|
  {
    if ids == [] then rows
    else MarkAllFailed(MarkFailed(rows, cfg, ids[0], later), cfg, ids[1..], later)
  }

  // ---------- Batching ----------

  predicate Batchable(r: Row, customer: int, cutoff: int) {
    r.customer == customer && r.state == Pending && r.created >= cutoff
  }

  /** The ids of the customer's pending rows created since `cutoff`, oldest id first. */
  function Members(rows: seq<Row>, customer: int, cutoff: int): seq<nat> {
    if rows == [] then []
    else
      var n := |rows| - 1;
      if Batchable(rows[n], customer, cutoff) then Members(rows[..n], customer, cutoff) + [n]
      else Members(rows[..n], customer, cutoff)
  }

  /** The finding or indicator a row is about, and whether an analyst has silenced it for now. */
  datatype Entity = Entity(severity: string, silenced: bool)

  /** The entity of each row, as far as it still exists. */
  type Entities = nat -> Option<Entity>

  function SeverityName(entity: Option<Entity>): string {
    if entity == None then "UNKNOWN" else entity.value.severity
  }

  function CountSeverities(ids: seq<nat>, entities: Entities): map<string, nat> {
    if ids == [] then map[]
    else Bump(CountSeverities(ids[..|ids| - 1], entities), SeverityName(entities(ids[|ids| - 1])))
  }

  function AssignBatch(rows: seq<Row>, customer: int, cutoff: int, batch: nat): seq<Row> {
    seq(|rows|, i requires 0 <= i < |rows| =>
      if Batchable(rows[i], customer, cutoff) then rows[i].(state := Batched, batch := Some(batch)) else rows[i])
  }

  function FormBatch(q: Queue, customer: int, cutoff: int, entities: Entities): Queue {
    var ids := Members(q.rows, customer, cutoff);
    q.(rows := AssignBatch(q.rows, customer, cutoff, |q.batches|),
       batches := q.batches + [Batch(customer, |ids|, CountSeverities(ids, entities), None)])
  }

  /** The rows that the message of the batch shows. */
  function RowsShown(rows: seq<Row>, batch: nat, entities: Entities): set<nat> {
    set i: nat | i < |rows| && rows[i].batch == Some(batch) && entities(i).Some?
  }

  /** Sends the batch as one message; when Telegram refuses, the tick's own alerts are marked failed. */
  function SendBatch(
      q: Queue, cfg: Config, batch: nat, alerts: seq<nat>, entities: Entities, now: int, later: int, ok: bool): Queue
    requires batch < |q.batches| && ValidIds(alerts, q.rows)
  {
    var sends := q.sends + [OfBatch(batch, RowsShown(q.rows, batch, entities), now, ok)];
    if ok then q.(batches := q.batches[batch := q.batches[batch].(dispatchedAt := Some(now))], sends := sends)
    else q.(rows := MarkAllFailed(q.rows, cfg, alerts, later), sends := sends)
  }

  // ---------- Single dispatch ----------

  function SendSingle(q: Queue, cfg: Config, id: nat, now: int, later: int, outcome: Outcome): Queue
    requires id < |q.rows|
  {
    match outcome
    case EntityMissing => q
    case IsSilenced => q.(rows := q.rows[id := q.rows[id].(state := Silenced)])
    case Accepted =>
      q.(rows := q.rows[id := q.rows[id].(state := Dispatched)], sends := q.sends + [Single(id, now, true)])
    case Refused =>
      q.(rows := MarkFailed(q.rows, cfg, id, later), sends := q.sends + [Single(id, now, false)])
  }

  function SendSingles(q: Queue, cfg: Config, ids: seq<nat>, env: TickEnvironment): (r: Queue)
    requires ValidIds(ids, q.rows)
    ensures |r.rows| == |q.rows|
    decreases |ids|
  {
    if ids == [] then q
    else
      var q' := SendSingle(q, cfg, ids[0], env.sendTime(ids[0]), env.failTime(ids[0]), OutcomeOf(env, ids[0]));
      SendSingles(q', cfg, ids[1..], env)
  }

  // ---------- One poll of the dispatch loop ----------

  /** What the world contributes to one tick: clocks, entities and Telegram's answers. */
  datatype TickEnvironment = TickEnvironment(
    start: int,
    sendTime: nat -> int,
    failTime: nat -> int,
    accepts: nat -> bool,
    batchTime: int -> int,
    batchFailTime: int -> int,
    batchOk: int -> bool,
    entities: Entities)

  /** How sending the row on its own ends: silence is looked up here, and only here. */
  function OutcomeOf(env: TickEnvironment, id: nat): Outcome {
    match env.entities(id)
    case None => EntityMissing
    case Some(e) => if e.silenced then IsSilenced else if env.accepts(id) then Accepted else Refused
  }

  /** Clocks do not go back within the tick. */
  ghost predicate ClocksAdvance(env: TickEnvironment) {
    && (forall i :: env.start <= env.sendTime(i) <= env.failTime(i))
    && (forall c :: env.start <= env.batchTime(c) <= env.batchFailTime(c))
  }

  predicate Eligible(r: Row, start: int) {
    r.state == Pending && (r.nextRetry == None || r.nextRetry.value <= start)
  }

  function InsertByCreated(id: nat, sorted: seq<nat>, rows: seq<Row>): (r: seq<nat>)
    requires id < |rows| && ValidIds(sorted, rows)
    ensures ValidIds(r, rows) && multiset(r) == multiset{id} + multiset(sorted)
  {
    if sorted == [] then [id]
    else if rows[id].created < rows[sorted[0]].created then [id] + sorted
    else
      assert sorted == [sorted[0]] + sorted[1..];
      [sorted[0]] + InsertByCreated(id, sorted[1..], rows)
  }

  /** The eligible rows among the first `n`, ordered by creation time. */
  function EligibleByCreated(rows: seq<Row>, n: nat, start: int): (r: seq<nat>)
    requires n <= |rows|
    ensures ValidIds(r, rows)
    decreases n
  {
    if n == 0 then []
    else
      var rest := EligibleByCreated(rows, n - 1, start);
      if Eligible(rows[n - 1], start) then InsertByCreated(n - 1, rest, rows) else rest
  }

  /** The rows one tick looks at. */
  function Poll(rows: seq<Row>, start: int): (r: seq<nat>)
    ensures ValidIds(r, rows)
  {
    var ids := EligibleByCreated(rows, |rows|, start);
    if |ids| <= POLL_LIMIT then ids else ids[..POLL_LIMIT]
  }

  /** The customers of the rows, in order of first appearance. */
  function Customers(ids: seq<nat>, rows: seq<Row>): seq<int>
    requires ValidIds(ids, rows)
  {
    if ids == [] then []
    else
      var n := |ids| - 1;
      var rest := Customers(ids[..n], rows);
      if rows[ids[n]].customer in rest then rest else rest + [rows[ids[n]].customer]
  }

  function OfCustomer(ids: seq<nat>, rows: seq<Row>, customer: int): (r: seq<nat>)
    requires ValidIds(ids, rows)
    ensures ValidIds(r, rows)
  {
    if ids == [] then []
    else
      var n := |ids| - 1;
      var rest := OfCustomer(ids[..n], rows, customer);
      if rows[ids[n]].customer == customer then rest + [ids[n]] else rest
  }

  function ServeCustomer(q: Queue, cfg: Config, customer: int, alerts: seq<nat>, env: TickEnvironment): (r: Queue)
    requires ValidIds(alerts, q.rows)
    ensures |r.rows| == |q.rows|
  {
    var cutoff := env.batchTime(customer) - cfg.batchWindow;
    if |Members(q.rows, customer, cutoff)| < cfg.batchTrigger then SendSingles(q, cfg, alerts, env)
    else
      SendBatch(FormBatch(q, customer, cutoff, env.entities), cfg, |q.batches|, alerts, env.entities,
                env.batchTime(customer), env.batchFailTime(customer), env.batchOk(customer))
  }

  function ServeCustomers(
      q: Queue, cfg: Config, customers: seq<int>, rows: seq<Row>, ids: seq<nat>, env: TickEnvironment): Queue
    requires ValidIds(ids, rows) && |rows| == |q.rows|
    decreases |customers|
  {
    if customers == [] then q
    else
      var q' := ServeCustomer(q, cfg, customers[0], OfCustomer(ids, rows, customers[0]), env);
      ServeCustomers(q', cfg, customers[1..], rows, ids, env)
  }

  function Tick(q: Queue, cfg: Config, env: TickEnvironment): Queue {
    var ids := Poll(q.rows, env.start);
    ServeCustomers(q, cfg, Customers(ids, q.rows), q.rows, ids, env)
  }

  // ---------- The code ----------

  class AlertStore {
    var rows: seq<Row>
    var batches: seq<Batch>
    var sends: seq<Send>

    constructor ()
      ensures View() == Queue([], [], [])
    {
      rows, batches, sends := [], [], [];
    }

    ghost function View(): Queue
      reads this
    {
      Queue(rows, batches, sends)
    }

    method FindExistingDispatch(key: string, cutoff: int) returns (r: Option<nat>)
      ensures IsExistingDispatch(rows, key, cutoff, r)
    {
      r := None;
      for i := 0 to |rows|
        invariant IsExistingDispatch(rows[..i], key, cutoff, r)
      {
        if AlreadyOut(rows[i], key, cutoff) && (r == None || rows[i].created >= rows[r.value].created) {
          r := Some(i);
        }
      }
      assert rows[..|rows|] == rows;
    }

    method Enqueue(cfg: Config, now: int, customer: int, key: string) returns (target: Option<nat>)
      modifies this
      ensures IsExistingDispatch(old(rows), key, now - cfg.dedupeWindow, target)
      ensures View() == old(View()).(rows := old(rows) + [NewRow(customer, key, target, now)])
    {
      target := FindExistingDispatch(key, now - cfg.dedupeWindow);
      rows := rows + [NewRow(customer, key, target, now)];
    }

    method Acknowledge(id: nat)
      requires id < |rows|
      modifies this
      ensures View() == old(View()).(rows := old(rows)[id := old(rows)[id].(state := Acknowledged)])
    {
      rows := rows[id := rows[id].(state := Acknowledged)];
    }

    method MarkRowFailed(cfg: Config, id: nat, later: int)
      requires id < |rows|
      modifies this`rows
      ensures rows == MarkFailed(old(rows), cfg, id, later)
    {
      var r := rows[id];
      r := r.(attempts := r.attempts + 1);
      if r.attempts >= cfg.maxAttempts {
        r := r.(state := Failed, nextRetry := None);
      } else {
        r := r.(nextRetry := Some(later + cfg.backoff));
      }
      rows := rows[id := r];
    }

    /** The id of a new batch of the customer's recent pending rows, if there are enough. */
    method CheckAndBatch(cfg: Config, customer: int, now: int, entities: Entities) returns (batch: Option<nat>)
      modifies this
      ensures batch == None <==> |Members(old(rows), customer, now - cfg.batchWindow)| < cfg.batchTrigger
      ensures batch == None ==> View() == old(View())
      ensures batch.Some? ==>
        && batch.value == |old(batches)|
        && View() == FormBatch(old(View()), customer, now - cfg.batchWindow, entities)
    {
      var cutoff := now - cfg.batchWindow;
      var pending := SelectPending(customer, cutoff);
      if |pending| < cfg.batchTrigger {
        return None;
      }
      var counts: map<string, nat> := map[];
      for k := 0 to |pending|
        invariant counts == CountSeverities(pending[..k], entities)
      {
        assert pending[..k + 1][..k] == pending[..k];
        counts := Bump(counts, SeverityName(entities(pending[k])));
      }
      assert pending[..|pending|] == pending;
      batch := Some(|batches|);
      batches := batches + [Batch(customer, |pending|, counts, None)];
      rows := AssignBatch(rows, customer, cutoff, batch.value);
    }

    method SelectPending(customer: int, cutoff: int) returns (pending: seq<nat>)
      ensures pending == Members(rows, customer, cutoff)
    {
      pending := [];
      for i := 0 to |rows|
        invariant pending == Members(rows[..i], customer, cutoff)
      {
        assert rows[..i + 1][..i] == rows[..i];
        if Batchable(rows[i], customer, cutoff) {
          pending := pending + [i];
        }
      }
      assert rows[..|rows|] == rows;
    }

    method DispatchBatch(
        cfg: Config, batch: nat, alerts: seq<nat>, entities: Entities, now: int, later: int, ok: bool)
      requires batch < |batches| && ValidIds(alerts, rows)
      modifies this
      ensures View() == SendBatch(old(View()), cfg, batch, alerts, entities, now, later, ok)
    {
      sends := sends + [OfBatch(batch, RowsShown(rows, batch, entities), now, ok)];
      if ok {
        batches := batches[batch := batches[batch].(dispatchedAt := Some(now))];
      } else {
        for k := 0 to |alerts|
          invariant batches == old(batches) && |rows| == |old(rows)|
          invariant sends == old(sends) + [OfBatch(batch, RowsShown(old(rows), batch, entities), now, ok)]
          invariant MarkAllFailed(rows, cfg, alerts[k..], later) == MarkAllFailed(old(rows), cfg, alerts, later)
        {
          assert alerts[k..][0] == alerts[k] && alerts[k..][1..] == alerts[k + 1..];
          MarkRowFailed(cfg, alerts[k], later);
        }
      }
    }

    method DispatchSingle(cfg: Config, id: nat, now: int, later: int, outcome: Outcome)
      requires id < |rows|
      modifies this
      ensures View() == SendSingle(old(View()), cfg, id, now, later, outcome)
    {
      match outcome
      case EntityMissing =>
      case IsSilenced =>
        rows := rows[id := rows[id].(state := Silenced)];
      case Accepted =>
        rows := rows[id := rows[id].(state := Dispatched)];
        sends := sends + [Single(id, now, true)];
      case Refused =>
        sends := sends + [Single(id, now, false)];
        MarkRowFailed(cfg, id, later);
    }

    method DispatchSingles(cfg: Config, alerts: seq<nat>, env: TickEnvironment)
      requires ValidIds(alerts, rows)
      modifies this
      ensures View() == SendSingles(old(View()), cfg, alerts, env)
    {
      for k := 0 to |alerts|
        invariant |rows| == |old(rows)|
        invariant SendSingles(View(), cfg, alerts[k..], env) == SendSingles(old(View()), cfg, alerts, env)
      {
        assert alerts[k..][0] == alerts[k] && alerts[k..][1..] == alerts[k + 1..];
        DispatchSingle(cfg, alerts[k], env.sendTime(alerts[k]), env.failTime(alerts[k]), OutcomeOf(env, alerts[k]));
      }
    }

    method DispatchCustomer(cfg: Config, customer: int, alerts: seq<nat>, env: TickEnvironment)
      requires ValidIds(alerts, rows)
      modifies this
      ensures View() == ServeCustomer(old(View()), cfg, customer, alerts, env)
    {
      var batch := CheckAndBatch(cfg, customer, env.batchTime(customer), env.entities);
      if batch.Some? {
        DispatchBatch(
          cfg, batch.value, alerts, env.entities,
          env.batchTime(customer), env.batchFailTime(customer), env.batchOk(customer));
      } else {
        DispatchSingles(cfg, alerts, env);
      }
    }

    /** One poll: batch or dispatch the due alerts, customer by customer. */
    method DispatchLoopOnce(cfg: Config, env: TickEnvironment)
      modifies this
      ensures View() == Tick(old(View()), cfg, env)
    {
      var polled := rows;
      var ids := Poll(rows, env.start);
      var customers := Customers(ids, rows);
      for k := 0 to |customers|
        invariant |rows| == |polled|
        invariant ServeCustomers(View(), cfg, customers[k..], polled, ids, env) == Tick(old(View()), cfg, env)
      {
        assert customers[k..][0] == customers[k] && customers[k..][1..] == customers[k + 1..];
        DispatchCustomer(cfg, customers[k], OfCustomer(ids, polled, customers[k]), env);
      }
    }
  }
}
