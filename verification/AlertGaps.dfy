/**
 Where the alert queue falls short of what one would expect of it: alerts delivered twice although
 they share a dedupe key, alerts batched before their retry is due or although they are silenced, and
 alerts that are lost.
 */
module AlertGaps {
  import opened Options
  import opened AlertQueue
  import opened AlertRuns
  import opened AlertTicks
  import opened AlertLosses

  // ---------- One key delivered twice ----------

  /** Some continuation of the run delivers both rows. */
  ghost predicate CanDeliverBoth(q: Queue, cfg: Config, i: nat, j: nat) {
    exists acts, q' :: Reaches(q, cfg, acts, q') && Deliveries(q'.sends, i) == 1 && Deliveries(q'.sends, j) == 1
  }

  /** Dedupe finds nothing for the key. */
  ghost predicate NothingOut(rows: seq<Row>, key: string, cutoff: int) {
    forall i :: 0 <= i < |rows| && rows[i].dedupeKey == key && rows[i].created >= cutoff ==>
      rows[i].state != Dispatched && rows[i].state != Batched
  }

  lemma {:induction false} NewRowIsUntouched(q: Queue, cfg: Config, a: Action)
    requires Inv(q, cfg) && Enabled(q, cfg, a) && a.Enqueue?
    ensures Deliveries(Step(q, cfg, a).sends, |q.rows|) == 0
  {
    forall b | 0 <= b < |q.sends| ensures !Touches(q.sends[b], |q.rows|) {
    }
    UntouchedCounts(q.sends, |q.rows|);
  }

  /** A row delivered in the end, but not pending now, has been delivered and acknowledged unless it is still out. */
  lemma {:induction false} DeliveredLater(q: Queue, cfg: Config, acts: seq<Action>, q': Queue, i: nat)
    requires Inv(q, cfg) && Reaches(q, cfg, acts, q') && i < |q.rows| && q.rows[i].state != Pending
    requires Deliveries(q'.sends, i) == 1
    ensures Deliveries(q.sends, i) == 1
    ensures q.rows[i].state in {Dispatched, Batched, AlertQueue.Acknowledged}
  {
    LeavingPendingIsFinal(q, cfg, acts, q', i);
    assert RowKept(q.rows[i], i, q.sends, cfg);
  }

  lemma {:induction false} AcceptedNow(q: Queue, cfg: Config, i: nat) returns (a: Action, q': Queue)
    requires Inv(q, cfg) && i < |q.rows| && q.rows[i].state == Pending
    ensures Enabled(q, cfg, a) && q' == Step(q, cfg, a) && Reaches(q, cfg, [a], q')
    ensures |q'.rows| == |q.rows| && Deliveries(q'.sends, i) == 1
    ensures forall k: nat :: k < |q.rows| && k != i ==>
      q'.rows[k] == q.rows[k] && Deliveries(q'.sends, k) == Deliveries(q.sends, k)
  {
    var time := if q.rows[i].nextRetry.Some? then q.rows[i].nextRetry.value else 0;
    a := TrySingle(time, time, time, i, Accepted);
    q' := Step(q, cfg, a);
    ReachesOne(q, cfg, a);
    assert RowKept(q.rows[i], i, q.sends, cfg);
    forall k: nat | k < |q.rows|
      ensures Deliveries(q'.sends, k) == Deliveries(q.sends, k) + if k == i then 1 else 0
    {
      CountsAfter(q.sends, Single(i, time, true), k);
    }
  }

  lemma {:induction false} BothGoOut(q: Queue, cfg: Config, i: nat, j: nat) returns (acts: seq<Action>, q': Queue)
    requires Inv(q, cfg) && i < j < |q.rows| && q.rows[j].state == Pending
    requires q.rows[i].state == Pending || Deliveries(q.sends, i) == 1
    ensures Reaches(q, cfg, acts, q') && Deliveries(q'.sends, i) == 1 == Deliveries(q'.sends, j)
  {
    if q.rows[i].state == Pending {
      var a, q1 := AcceptedNow(q, cfg, i);
      StepKeepsInv(q, cfg, a);
      var b, q2 := AcceptedNow(q1, cfg, j);
      ReachesConcat(q, cfg, [a], q1, [b], q2);
      acts, q' := [a] + [b], q2;
    } else {
      var b, q2 := AcceptedNow(q, cfg, j);
      acts, q' := [b], q2;
    }
  }

  /**
   Dedupe looks at alerts that are out, so an alert queued within the window of row `i`, with its key,
   can be delivered besides it exactly when nothing with the key is out at that moment and row `i` is
   still pending, or was delivered and then acknowledged.
   */
  lemma {:induction false} DeliveredTwiceIff(cfg: Config, before: seq<Action>, q: Queue, i: nat, a: Action)
    requires Reaches(EMPTY, cfg, before, q) && i < |q.rows| && a.Enqueue? && Enabled(q, cfg, a)
    requires a.key == q.rows[i].dedupeKey && q.rows[i].created >= a.now - cfg.dedupeWindow
    ensures CanDeliverBoth(Step(q, cfg, a), cfg, i, |q.rows|) <==>
            && NothingOut(q.rows, a.key, a.now - cfg.dedupeWindow)
            && (q.rows[i].state == Pending
                || (q.rows[i].state == AlertQueue.Acknowledged && Deliveries(q.sends, i) == 1))
  {
    var j, q1 := |q.rows|, Step(q, cfg, a);
    RunKeepsInv(EMPTY, cfg, before, q);
    StepKeepsInv(q, cfg, a);
    NewRowIsUntouched(q, cfg, a);
    assert q1.rows[i] == q.rows[i];
    if CanDeliverBoth(q1, cfg, i, j) {
      var acts, q' :| Reaches(q1, cfg, acts, q') && Deliveries(q'.sends, i) == 1 && Deliveries(q'.sends, j) == 1;
      if a.target.Some? {
        DeliveredLater(q1, cfg, acts, q', j);
        assert false;
      }
      if q.rows[i].state != Pending {
        DeliveredLater(q1, cfg, acts, q', i);
      }
    } else if NothingOut(q.rows, a.key, a.now - cfg.dedupeWindow)
              && (q.rows[i].state == Pending || Deliveries(q.sends, i) == 1) {
      var acts, q' := BothGoOut(q1, cfg, i, j);
    }
  }

  lemma {:induction false} TwoQueued(cfg: Config, now: int, customer: int, key: string)
    returns (acts: seq<Action>, q: Queue)
    ensures Reaches(EMPTY, cfg, acts, q) && Inv(q, cfg)
    ensures q.rows == [NewRow(customer, key, None, now), NewRow(customer, key, None, now)]
  {
    var a := Enqueue(now, customer, key, None);
    var q1 := Step(EMPTY, cfg, a);
    q := Step(q1, cfg, a);
    ReachesOne(EMPTY, cfg, a);
    ReachesOne(q1, cfg, a);
    ReachesConcat(EMPTY, cfg, [a], q1, [a], q);
    acts := [a] + [a];
    RunKeepsInv(EMPTY, cfg, acts, q);
  }

  /** Two alerts with one key, queued at the same moment, can both be delivered, whatever the settings. */
  lemma {:induction false} SameKeyDeliveredTwice(cfg: Config, now: int, customer: int, key: string)
    returns (acts: seq<Action>, q: Queue)
    ensures Reaches(EMPTY, cfg, acts, q)
    ensures |q.rows| >= 2 && Deliveries(q.sends, 0) == 1 == Deliveries(q.sends, 1)
    ensures q.rows[0].dedupeKey == key == q.rows[1].dedupeKey && q.rows[0].created == now == q.rows[1].created
  {
    var first, queued := TwoQueued(cfg, now, customer, key);
    var rest;
    rest, q := BothGoOut(queued, cfg, 0, 1);
    RunKeepsIdentity(queued, cfg, rest, q, 0);
    RunKeepsIdentity(queued, cfg, rest, q, 1);
    ReachesConcat(EMPTY, cfg, first, queued, rest, q);
    acts := first + rest;
  }

  lemma {:induction false} RunKeepsIdentity(q: Queue, cfg: Config, acts: seq<Action>, q': Queue, i: nat)
    requires BatchInv(q) && Reaches(q, cfg, acts, q') && i < |q.rows|
    ensures i < |q'.rows| && q'.rows[i].dedupeKey == q.rows[i].dedupeKey && q'.rows[i].created == q.rows[i].created
    decreases |acts|
  {
    if acts != [] {
      RowsKeepIdentity(q, cfg, acts[0], i);
      StepKeepsBatchInv(q, cfg, acts[0]);
      RunKeepsIdentity(Step(q, cfg, acts[0]), cfg, acts[1..], q', i);
    }
  }

  // ---------- Polls with one customer ----------

  /** In the tick of the time `now`, Telegram answers everything alike. */
  function Answering(now: int, ok: bool, entities: Entities): TickEnvironment {
    TickEnvironment(now, _ => now, _ => now, _ => ok, _ => now, _ => now, _ => ok, entities)
  }

  function Present(silenced: bool): Entities {
    _ => Some(Entity("HIGH", silenced))
  }

  lemma {:induction false} OnlyCustomer(ids: seq<nat>, rows: seq<Row>, customer: int)
    requires ValidIds(ids, rows) && forall k :: 0 <= k < |ids| ==> rows[ids[k]].customer == customer
    ensures Customers(ids, rows) == if ids == [] then [] else [customer]
    decreases |ids|
  {
    if ids != [] {
      OnlyCustomer(ids[..|ids| - 1], rows, customer);
    }
  }

  lemma {:induction false} AllOfCustomer(ids: seq<nat>, rows: seq<Row>, customer: int)
    requires ValidIds(ids, rows) && forall k :: 0 <= k < |ids| ==> rows[ids[k]].customer == customer
    ensures OfCustomer(ids, rows, customer) == ids
    decreases |ids|
  {
    if ids != [] {
      var n := |ids| - 1;
      AllOfCustomer(ids[..n], rows, customer);
      assert OfCustomer(ids, rows, customer) == ids[..n] + [ids[n]];
    }
  }

  /** A poll that finds rows of one customer due serves that customer. */
  lemma {:induction false} OneCustomerServed(q: Queue, cfg: Config, env: TickEnvironment, ids: seq<nat>, customer: int)
    requires Poll(q.rows, env.start) == ids && ids != []
    requires forall k :: 0 <= k < |ids| ==> q.rows[ids[k]].customer == customer
    ensures Tick(q, cfg, env) == ServeCustomer(q, cfg, customer, ids, env)
  {
    OnlyCustomer(ids, q.rows, customer);
    AllOfCustomer(ids, q.rows, customer);
    assert [customer][1..] == [];
    var served := ServeCustomer(q, cfg, customer, ids, env);
    assert ServeCustomers(served, cfg, [], q.rows, ids, env) == served;
  }

  lemma {:induction false} PollIsBatch(q: Queue, cfg: Config, env: TickEnvironment, ids: seq<nat>, customer: int)
    returns (a: Action)
    requires ClocksAdvance(env) && Poll(q.rows, env.start) == ids && ids != []
    requires forall k :: 0 <= k < |ids| ==> q.rows[ids[k]].customer == customer
    requires BatchTriggers(q.rows, cfg, customer, env)
    ensures a == TryBatch(env.start, env.batchTime(customer), env.batchFailTime(customer), customer, ids,
                          env.entities, env.batchOk(customer))
    ensures Enabled(q, cfg, a) && Tick(q, cfg, env) == Step(q, cfg, a)
  {
    a := TryBatch(env.start, env.batchTime(customer), env.batchFailTime(customer), customer, ids,
                  env.entities, env.batchOk(customer));
    PollIsDue(q.rows, env.start);
    OneCustomerServed(q, cfg, env, ids, customer);
    ServingIsBatch(q, cfg, env, ids, customer, a);
  }

  lemma {:induction false} ServingIsBatch(
      q: Queue, cfg: Config, env: TickEnvironment, ids: seq<nat>, customer: int, a: Action)
    requires BatchTriggers(q.rows, cfg, customer, env) && Enabled(q, cfg, a)
    requires a == TryBatch(env.start, env.batchTime(customer), env.batchFailTime(customer), customer, ids,
                           env.entities, env.batchOk(customer))
    ensures ServeCustomer(q, cfg, customer, ids, env) == Step(q, cfg, a)
  {
  }

  // ---------- One batch and its rows ----------

  const SETTINGS := Config(3, 60, 1800, 2, 300)

  /** After a refused single send at time 0, and a second alert at time 10. */
  function OneRetried(): Queue {
    Queue([Row(1, Pending, "a", None, None, 1, Some(60), 0), Row(1, Pending, "b", None, None, 0, None, 10)],
          [], [Single(0, 0, false)])
  }

  lemma {:induction false} OneRetriedIsReachable() returns (acts: seq<Action>)
    ensures Reaches(EMPTY, SETTINGS, acts, OneRetried())
  {
    var a := Enqueue(0, 1, "a", None);
    var q1 := Step(EMPTY, SETTINGS, a);
    ReachesOne(EMPTY, SETTINGS, a);
    var ticks, q2 := FirstTickIsARun(q1);
    ReachesConcat(EMPTY, SETTINGS, [a], q1, ticks, q2);
    var b := Enqueue(10, 1, "b", None);
    SecondAlert(q2, b);
    ReachesConcat(EMPTY, SETTINGS, [a] + ticks, q2, [b], OneRetried());
    acts := [a] + ticks + [b];
  }

  lemma {:induction false} SecondAlert(q: Queue, b: Action)
    requires q == Queue([Row(1, Pending, "a", None, None, 1, Some(60), 0)], [], [Single(0, 0, false)])
    requires b == Enqueue(10, 1, "b", None)
    ensures Reaches(q, SETTINGS, [b], OneRetried())
  {
    ReachesOne(q, SETTINGS, b);
    assert Step(q, SETTINGS, b) == OneRetried();
  }

  lemma {:induction false} FirstTickIsARun(q: Queue) returns (acts: seq<Action>, q': Queue)
    requires q == Queue([NewRow(1, "a", None, 0)], [], [])
    ensures Reaches(q, SETTINGS, acts, q')
    ensures q' == Queue([Row(1, Pending, "a", None, None, 1, Some(60), 0)], [], [Single(0, 0, false)])
  {
    var env := Answering(0, false, Present(false));
    acts := TickIsARun(q, SETTINGS, env);
    FirstServed(q, env);
    FirstPoll(q.rows);
    OneCustomerServed(q, SETTINGS, env, [0], 1);
    q' := Tick(q, SETTINGS, env);
  }

  lemma {:induction false} FirstPoll(rows: seq<Row>)
    requires rows == [NewRow(1, "a", None, 0)]
    ensures Poll(rows, 0) == [0]
  {
    assert EligibleByCreated(rows, 0, 0) == [];
  }

  lemma {:induction false} FirstServed(q: Queue, env: TickEnvironment)
    requires q == Queue([NewRow(1, "a", None, 0)], [], []) && env == Answering(0, false, Present(false))
    ensures ServeCustomer(q, SETTINGS, 1, [0], env) ==
            Queue([Row(1, Pending, "a", None, None, 1, Some(60), 0)], [], [Single(0, 0, false)])
  {
    assert q.rows[..0] == [];
    assert |Members(q.rows, 1, -300)| == 1;
    assert [0][1..] == [];
    var sent := SendSingle(q, SETTINGS, 0, 0, 0, Refused);
    assert sent.rows == [Row(1, Pending, "a", None, None, 1, Some(60), 0)] && sent.sends == [Single(0, 0, false)];
    assert SendSingles(sent, SETTINGS, [], env) == sent;
  }

  /** The batch that the poll at time 10 forms: only the second row is due, but the first one joins as well. */
  function SecondBatch(ok: bool, entities: Entities): Action {
    TryBatch(10, 10, 10, 1, [1], entities, ok)
  }

  lemma {:induction false} SecondPoll()
    ensures Poll(OneRetried().rows, 10) == [1]
    ensures |Members(OneRetried().rows, 1, -290)| == 2
  {
    var rows := OneRetried().rows;
    assert EligibleByCreated(rows, 0, 10) == [] && EligibleByCreated(rows, 1, 10) == [];
    assert EligibleByCreated(rows, 2, 10) == [1];
    assert rows[..1][..0] == [];
    assert Members(rows[..1], 1, -290) == [0];
  }

  lemma {:induction false} SecondTick(ok: bool, entities: Entities)
    ensures Enabled(OneRetried(), SETTINGS, SecondBatch(ok, entities))
    ensures Tick(OneRetried(), SETTINGS, Answering(10, ok, entities)) ==
            Step(OneRetried(), SETTINGS, SecondBatch(ok, entities))
  {
    SecondPoll();
    var a := PollIsBatch(OneRetried(), SETTINGS, Answering(10, ok, entities), [1], 1);
  }

  /** The row was never delivered before, and from the poll on it is delivered exactly if `delivered`. */
  ghost predicate PollDecides(q: Queue, env: TickEnvironment, id: nat, delivered: bool) {
    && id < |q.rows| && q.rows[id].state == Pending && Deliveries(q.sends, id) == 0
    && forall rest, q' :: Reaches(Tick(q, SETTINGS, env), SETTINGS, rest, q') ==>
      Deliveries(q'.sends, id) == if delivered then 1 else 0
  }

  /**
   A reachable queue whose two rows are batched by the next poll, whatever Telegram answers and whatever
   has become of the entities: that poll decides for good whether they are delivered.
   */
  lemma {:induction false} PollDecidesBatch(ok: bool, entities: Entities, id: nat)
    returns (acts: seq<Action>, q: Queue, env: TickEnvironment)
    requires id < 2
    ensures Reaches(EMPTY, SETTINGS, acts, q) && q == OneRetried()
    ensures env == Answering(10, ok, entities) && ClocksAdvance(env)
    ensures PollDecides(q, env, id, ok && entities(id).Some?)
  {
    acts := OneRetriedIsReachable();
    q, env := OneRetried(), Answering(10, ok, entities);
    SecondTick(ok, entities);
    RunKeepsInv(EMPTY, SETTINGS, acts, q);
    assert RowKept(q.rows[id], id, q.sends, SETTINGS);
    var a := SecondBatch(ok, entities);
    forall rest, q' | Reaches(Tick(q, SETTINGS, env), SETTINGS, rest, q')
      ensures Deliveries(q'.sends, id) == if ok && entities(id).Some? then 1 else 0
    {
      BatchDecidesDelivery(q, SETTINGS, a, rest, q', id);
    }
  }

  /** A row is delivered 50 seconds before its retry is due, because the batch of its customer takes it along. */
  lemma {:induction false} EarlyRetryInBatch() returns (acts: seq<Action>, q: Queue, env: TickEnvironment)
    ensures Reaches(EMPTY, SETTINGS, acts, q) && ClocksAdvance(env) && |q.rows| == 2
    ensures q.rows[0].nextRetry == Some(60) && env.start == 10 && !Eligible(q.rows[0], env.start)
    ensures PollDecides(q, env, 0, true)
  {
    acts, q, env := PollDecidesBatch(true, Present(false), 0);
  }

  /** Telegram refuses the batch: both rows are lost. */
  lemma {:induction false} RefusedBatchIsLost() returns (acts: seq<Action>, q: Queue, env: TickEnvironment)
    ensures Reaches(EMPTY, SETTINGS, acts, q) && ClocksAdvance(env) && !env.batchOk(1)
    ensures PollDecides(q, env, 0, false) && PollDecides(q, env, 1, false)
  {
    acts, q, env := PollDecidesBatch(false, Present(false), 0);
    acts, q, env := PollDecidesBatch(false, Present(false), 1);
  }

  /** Telegram accepts the batch, but the entity of its first row is missing: that row is lost. */
  lemma {:induction false} MissingEntityIsLost() returns (acts: seq<Action>, q: Queue, env: TickEnvironment)
    ensures Reaches(EMPTY, SETTINGS, acts, q) && ClocksAdvance(env) && env.batchOk(1) && env.entities(0) == None
    ensures PollDecides(q, env, 0, false) && PollDecides(q, env, 1, true)
  {
    var entities: Entities := i => if i == 0 then None else Some(Entity("HIGH", false));
    acts, q, env := PollDecidesBatch(true, entities, 0);
    acts, q, env := PollDecidesBatch(true, entities, 1);
  }

  /** Both findings are silenced, and are delivered all the same. */
  lemma {:induction false} SilencedAlertIsDelivered() returns (acts: seq<Action>, q: Queue, env: TickEnvironment)
    ensures Reaches(EMPTY, SETTINGS, acts, q) && ClocksAdvance(env)
    ensures forall i :: env.entities(i).Some? && env.entities(i).value.silenced
    ensures PollDecides(q, env, 0, true) && PollDecides(q, env, 1, true)
  {
    acts, q, env := PollDecidesBatch(true, Present(true), 0);
    acts, q, env := PollDecidesBatch(true, Present(true), 1);
  }

  lemma {:induction false} AfterRefusal() returns (acts: seq<Action>, q: Queue)
    ensures Reaches(EMPTY, SETTINGS, acts, q) && |q.rows| == 2
    ensures q.rows[0].state == Batched && q.rows[0].dedupeKey == "a" && q.rows[0].created == 0
    ensures q.rows[1].dedupeKey == "b" && Deliveries(q.sends, 0) == 0
  {
    var before, start, env := PollDecidesBatch(false, Present(false), 0);
    var a := SecondBatch(false, Present(false));
    SecondTick(false, Present(false));
    q := RowsAfterRefusal(start, a);
    ReachesOne(start, SETTINGS, a);
    ReachesConcat(EMPTY, SETTINGS, before, start, [a], q);
    acts := before + [a];
    RunKeepsInv(EMPTY, SETTINGS, before, start);
    BatchDecidesDelivery(start, SETTINGS, a, [], q, 0);
  }

  lemma {:induction false} RowsAfterRefusal(start: Queue, a: Action) returns (q: Queue)
    requires start == OneRetried() && a == SecondBatch(false, Present(false)) && Enabled(start, SETTINGS, a)
    ensures q == Step(start, SETTINGS, a) && |q.rows| == 2
    ensures q.rows[0].state == Batched && q.rows[0].dedupeKey == "a" && q.rows[0].created == 0
    ensures q.rows[1].dedupeKey == "b"
  {
    q := Step(start, SETTINGS, a);
    StepMovesRows(start, SETTINGS, a, 0);
    StepMovesRows(start, SETTINGS, a, 1);
  }

  /** After a refused batch, a new alert with the key of one of its rows is deduped to it, and both are lost. */
  lemma {:induction false} DedupedToLostAlert() returns (acts: seq<Action>, q: Queue, a: Action)
    ensures Reaches(EMPTY, SETTINGS, acts, q) && a.Enqueue? && Enabled(q, SETTINGS, a) && a.target == Some(0)
    ensures |q.rows| == 2
    ensures NeverDelivered(Step(q, SETTINGS, a), SETTINGS, 0) && NeverDelivered(Step(q, SETTINGS, a), SETTINGS, 2)
  {
    acts, q := AfterRefusal();
    DeliveriesIff(q.sends, 0);
    a := Enqueue(20, 1, "a", Some(0));
    DifferentKeys();
    RunKeepsInv(EMPTY, SETTINGS, acts, q);
    RunKeepsOut(EMPTY, SETTINGS, acts, q);
    assert OutKept(q.rows[0], 0, q.sends);
    DedupedIsLostIff(SETTINGS, acts, q, a);
  }

  lemma {:induction false} DifferentKeys()
    ensures "a" != "b"
  {
    assert "a"[0] != "b"[0];
  }

  // ---------- Charged without a message ----------

  const ONE_TRY := Config(1, 60, 1800, 2, 300)

  /** An old alert, and two recent ones of the same customer. */
  function OldAndNew(): Queue {
    Queue([NewRow(1, "a", None, 0), NewRow(1, "b", None, 990), NewRow(1, "c", None, 990)], [], [])
  }

  lemma {:induction false} OldAndNewIsReachable() returns (acts: seq<Action>)
    ensures Reaches(EMPTY, ONE_TRY, acts, OldAndNew())
  {
    var a, b, c := Enqueue(0, 1, "a", None), Enqueue(990, 1, "b", None), Enqueue(990, 1, "c", None);
    var q1 := Step(EMPTY, ONE_TRY, a);
    var q2 := Step(q1, ONE_TRY, b);
    ReachesOne(EMPTY, ONE_TRY, a);
    ReachesOne(q1, ONE_TRY, b);
    ReachesOne(q2, ONE_TRY, c);
    ReachesConcat(EMPTY, ONE_TRY, [a], q1, [b], q2);
    assert Step(q2, ONE_TRY, c) == OldAndNew();
    ReachesConcat(EMPTY, ONE_TRY, [a] + [b], q2, [c], OldAndNew());
    acts := [a] + [b] + [c];
  }

  lemma {:induction false} AllThreeDue(rows: seq<Row>) returns (ids: seq<nat>)
    requires rows == OldAndNew().rows
    ensures Poll(rows, 1000) == ids && |ids| == 3 && ids[0] == 0
    ensures forall k :: 0 <= k < |ids| ==> ids[k] < |rows| && rows[ids[k]].customer == 1
  {
    ids := [0, 1, 2];
    assert EligibleByCreated(rows, 0, 1000) == [];
    assert EligibleByCreated(rows, 1, 1000) == [0];
    assert EligibleByCreated(rows, 2, 1000) == [0, 1];
    assert EligibleByCreated(rows, 3, 1000) == [0, 1, 2];
  }

  lemma {:induction false} TwoAreRecent(rows: seq<Row>)
    requires rows == OldAndNew().rows
    ensures |Members(rows, 1, 700)| == 2
  {
    assert rows[..2][..1][..0] == [] && rows[..2][..1] == rows[..1];
    assert Members(rows[..1], 1, 700) == [];
    assert Members(rows[..2], 1, 700) == [1];
  }

  /** An alert that was never handed to Telegram fails for good, charged with a batch it was too old for. */
  lemma {:induction false} NeverSentButFailed() returns (acts: seq<Action>, q: Queue, env: TickEnvironment)
    ensures Reaches(EMPTY, ONE_TRY, acts, q) && ClocksAdvance(env) && |q.rows| == 3 && |Tick(q, ONE_TRY, env).rows| == 3
    ensures q.rows[0].state == Pending && Tick(q, ONE_TRY, env).rows[0].state == Failed
    ensures HandOvers(Tick(q, ONE_TRY, env).sends, 0) == 0
  {
    acts := OldAndNewIsReachable();
    q, env := OldAndNew(), Answering(1000, false, Present(false));
    OldAlertFails(q, env);
  }

  lemma {:induction false} OldAlertFails(q: Queue, env: TickEnvironment)
    requires q == OldAndNew() && env == Answering(1000, false, Present(false))
    ensures var after := Tick(q, ONE_TRY, env);
            |after.rows| == |q.rows| && after.rows[0].state == Failed && HandOvers(after.sends, 0) == 0
  {
    var a := OldAndNewPoll(q, env);
    OldRowFails(q, a, Tick(q, ONE_TRY, env));
  }

  lemma {:induction false} OldAndNewPoll(q: Queue, env: TickEnvironment) returns (a: Action)
    requires q == OldAndNew() && env == Answering(1000, false, Present(false))
    ensures Enabled(q, ONE_TRY, a) && Tick(q, ONE_TRY, env) == Step(q, ONE_TRY, a)
    ensures a.TryBatch? && !a.ok && 0 in a.alerts && a.now == 1000
  {
    var ids := AllThreeDue(q.rows);
    TwoAreRecent(q.rows);
    a := PollIsBatch(q, ONE_TRY, env, ids, 1);
  }

  lemma {:induction false} OldRowFails(q: Queue, a: Action, after: Queue)
    requires q.rows != [] && q.sends == [] && forall i :: 0 <= i < |q.rows| ==> q.rows[i].batch == None
    requires Enabled(q, ONE_TRY, a) && after == Step(q, ONE_TRY, a)
    requires a.TryBatch? && !a.ok && 0 in a.alerts && q.rows[0].created < a.now - ONE_TRY.batchWindow
    ensures |after.rows| == |q.rows| && after.rows[0].state == Failed && HandOvers(after.sends, 0) == 0
  {
    StepMovesRows(q, ONE_TRY, a, 0);
    BatchSendTouches(q, ONE_TRY, a, 0);
    HandOversAfter([], SentBy(q, ONE_TRY, a).value, 0);
  }
}
