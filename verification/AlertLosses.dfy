/**
 Which alerts get out, and which do not although they were tried: what a poll hands to Telegram, what
 becomes of alerts that were deduped to others, and attempts that are charged without a message.
 */
module AlertLosses {
  import opened Options
  import opened Counters
  import opened AlertQueue
  import opened AlertRuns
  import opened AlertTicks

  // ---------- What being out means ----------

  ghost predicate IsDelivered(sends: seq<Send>, id: nat) {
    exists a :: 0 <= a < |sends| && Delivers(sends[a], id)
  }

  /** An accepted message of the batch shows the row. */
  ghost predicate ShownInBatch(sends: seq<Send>, batch: nat, id: nat) {
    exists a :: 0 <= a < |sends| && Delivers(sends[a], id) && sends[a].OfBatch? && sends[a].batch == batch
  }

  /** A dispatched row was delivered; a batched one was delivered, if at all, with the batch it is in. */
  ghost predicate OutKept(r: Row, id: nat, sends: seq<Send>) {
    && (r.state == Dispatched ==> IsDelivered(sends, id))
    && (r.state == Batched ==>
          r.batch.Some? && (IsDelivered(sends, id) <==> ShownInBatch(sends, r.batch.value, id)))
  }

  lemma {:induction false} DeliveriesIff(sends: seq<Send>, id: nat)
    ensures Deliveries(sends, id) > 0 <==> IsDelivered(sends, id)
    decreases |sends|
  {
    if sends != [] {
      var n := |sends| - 1;
      DeliveriesIff(sends[..n], id);
      DeliveredBefore(sends[..n], sends[n], id);
      assert sends == sends[..n] + [sends[n]];
    }
  }

  lemma {:induction false} DeliveredBefore(sends: seq<Send>, sent: Send, id: nat)
    ensures IsDelivered(sends + [sent], id) <==> IsDelivered(sends, id) || Delivers(sent, id)
  {
    var more := sends + [sent];
    if IsDelivered(sends, id) {
      var a :| 0 <= a < |sends| && Delivers(sends[a], id);
      assert Delivers(more[a], id);
    }
    if Delivers(sent, id) {
      assert Delivers(more[|sends|], id);
    }
  }

  lemma {:induction false} ShownBefore(sends: seq<Send>, sent: Send, batch: nat, id: nat)
    ensures ShownInBatch(sends + [sent], batch, id) <==>
            ShownInBatch(sends, batch, id) || (Delivers(sent, id) && sent.OfBatch? && sent.batch == batch)
  {
    var more := sends + [sent];
    if ShownInBatch(sends, batch, id) {
      var a :| 0 <= a < |sends| && Delivers(sends[a], id) && sends[a].OfBatch? && sends[a].batch == batch;
      assert Delivers(more[a], id);
    }
    if Delivers(sent, id) {
      assert Delivers(more[|sends|], id);
    }
  }

  lemma {:induction false} MoveKeepsOut(
      r: Row, id: nat, m: Move, sends: seq<Send>, sent: Option<Send>, start: int, cfg: Config)
    requires RowKept(r, id, sends, cfg) && OutKept(r, id, sends) && Allowed(r, id, m, sent, start)
    ensures OutKept(MoveRow(r, cfg, m), id, Extend(sends, sent))
  {
    DeliveriesIff(sends, id);
    if sent.Some? {
      var r' := MoveRow(r, cfg, m);
      DeliveredBefore(sends, sent.value, id);
      if r'.batch.Some? {
        ShownBefore(sends, sent.value, r'.batch.value, id);
      }
    }
  }

  ghost predicate OutInv(q: Queue) {
    forall i :: 0 <= i < |q.rows| ==> OutKept(q.rows[i], i, q.sends)
  }

  lemma {:induction false} StepKeepsOut(q: Queue, cfg: Config, a: Action)
    requires Inv(q, cfg) && OutInv(q) && Enabled(q, cfg, a)
    ensures OutInv(Step(q, cfg, a))
  {
    var q' := Step(q, cfg, a);
    forall i | 0 <= i < |q'.rows| ensures OutKept(q'.rows[i], i, q'.sends) {
      if i < |q.rows| {
        StepMovesRows(q, cfg, a, i);
        MoveKeepsOut(q.rows[i], i, MoveBy(q, cfg, a, i), q.sends, SentBy(q, cfg, a), StartOf(a), cfg);
      }
    }
  }

  lemma {:induction false} RunKeepsOut(q: Queue, cfg: Config, acts: seq<Action>, q': Queue)
    requires Inv(q, cfg) && OutInv(q) && Reaches(q, cfg, acts, q')
    ensures OutInv(q')
    decreases |acts|
  {
    if acts != [] {
      StepKeepsInv(q, cfg, acts[0]);
      StepKeepsOut(q, cfg, acts[0]);
      RunKeepsOut(Step(q, cfg, acts[0]), cfg, acts[1..], q');
    }
  }

  /** No continuation delivers the row. */
  ghost predicate NeverDelivered(q: Queue, cfg: Config, id: nat) {
    forall acts, q' :: Reaches(q, cfg, acts, q') ==> Deliveries(q'.sends, id) == 0
  }

  /** Whether a row that is not pending is delivered is settled. */
  lemma {:induction false} SettledIff(q: Queue, cfg: Config, id: nat)
    requires BatchInv(q) && id < |q.rows| && q.rows[id].state != Pending
    ensures NeverDelivered(q, cfg, id) <==> !IsDelivered(q.sends, id)
  {
    DeliveriesIff(q.sends, id);
    assert Reaches(q, cfg, [], q);
    forall acts, q' | Reaches(q, cfg, acts, q') ensures Deliveries(q'.sends, id) == Deliveries(q.sends, id) {
      LeavingPendingIsFinal(q, cfg, acts, q', id);
    }
  }

  /**
   An alert deduped to another one is never delivered itself.  Its target is not delivered either,
   so that the indicator is lost, exactly when the target is in a batch and no accepted message of the
   batch shows it: Telegram refused the message, or the entity was missing.
   */
  lemma {:induction false} DedupedIsLostIff(cfg: Config, before: seq<Action>, q: Queue, a: Action)
    requires Reaches(EMPTY, cfg, before, q) && a.Enqueue? && Enabled(q, cfg, a) && a.target.Some?
    ensures NeverDelivered(Step(q, cfg, a), cfg, |q.rows|)
    ensures var r := q.rows[a.target.value];
            NeverDelivered(Step(q, cfg, a), cfg, a.target.value) <==>
            r.state == Batched && r.batch.Some? && !ShownInBatch(q.sends, r.batch.value, a.target.value)
  {
    var t, q1 := a.target.value, Step(q, cfg, a);
    RunKeepsInv(EMPTY, cfg, before, q);
    RunKeepsOut(EMPTY, cfg, before, q);
    StepKeepsInv(q, cfg, a);
    assert OutKept(q.rows[t], t, q.sends);
    assert RowKept(q1.rows[|q.rows|], |q.rows|, q1.sends, cfg);
    DeliveriesIff(q1.sends, |q.rows|);
    SettledIff(q1, cfg, t);
    SettledIff(q1, cfg, |q.rows|);
  }

  // ---------- Attempts ----------

  /** How often the row was handed to Telegram and refused, in a message of its own or of its batch. */
  ghost function Refusals(sends: seq<Send>, id: nat): nat {
    if sends == [] then 0
    else
      var last := sends[|sends| - 1];
      Refusals(sends[..|sends| - 1], id) + if Touches(last, id) && !last.ok then 1 else 0
  }

  /** The poll has the row among its due alerts, so a refused batch message is charged to it. */
  predicate IsCharged(a: Action, id: nat) {
    a.TryBatch? && !a.ok && id in a.alerts
  }

  /** The batch message that is refused shows the row. */
  predicate IsRefusedInBatch(q: Queue, cfg: Config, a: Action, id: nat)
    requires id < |q.rows|
  {
    && a.TryBatch? && !a.ok
    && Batchable(q.rows[id], a.customer, a.now - cfg.batchWindow) && a.entities(id).Some?
  }

  /** Charges for batch messages that did not show the row, minus messages refused without a charge. */
  ghost function Surplus(q: Queue, cfg: Config, acts: seq<Action>, id: nat): int
    decreases |acts|
  {
    if acts == [] || !Enabled(q, cfg, acts[0]) then 0
    else
      Surplus(Step(q, cfg, acts[0]), cfg, acts[1..], id)
      + (if id < |q.rows| && IsCharged(acts[0], id) then 1 else 0)
      - (if id < |q.rows| && IsRefusedInBatch(q, cfg, acts[0], id) then 1 else 0)
  }

  /** Rows that do not exist yet have no attempts. */
  ghost function AttemptsOf(q: Queue, id: nat): nat {
    if id < |q.rows| then q.rows[id].attempts else 0
  }

  lemma {:induction false} RefusalsAfter(sends: seq<Send>, sent: Send, id: nat)
    ensures Refusals(sends + [sent], id) == Refusals(sends, id) + if Touches(sent, id) && !sent.ok then 1 else 0
  {
    assert (sends + [sent])[..|sends|] == sends;
  }

  lemma {:induction false} StepCountsAttempts(q: Queue, cfg: Config, a: Action, id: nat)
    requires BatchInv(q) && Enabled(q, cfg, a) && id < |q.rows|
    ensures Step(q, cfg, a).rows[id].attempts - q.rows[id].attempts ==
            Refusals(Step(q, cfg, a).sends, id) - Refusals(q.sends, id)
            + (if IsCharged(a, id) then 1 else 0) - (if IsRefusedInBatch(q, cfg, a, id) then 1 else 0)
  {
    var sent := SentBy(q, cfg, a);
    StepMovesRows(q, cfg, a, id);
    if sent.Some? {
      RefusalsAfter(q.sends, sent.value, id);
    }
    if a.TryBatch? {
      BatchSendTouches(q, cfg, a, id);
    }
  }

  lemma {:induction false} NewRowHasNoRefusals(q: Queue, id: nat)
    requires InRange(q) && id >= |q.rows|
    ensures Refusals(q.sends, id) == 0
  {
    forall a | 0 <= a < |q.sends| ensures !Touches(q.sends[a], id) {
    }
    UntouchedRefusals(q.sends, id);
  }

  lemma {:induction false} UntouchedRefusals(sends: seq<Send>, id: nat)
    requires forall a :: 0 <= a < |sends| ==> !Touches(sends[a], id)
    ensures Refusals(sends, id) == 0
    decreases |sends|
  {
    if sends != [] {
      UntouchedRefusals(sends[..|sends| - 1], id);
    }
  }

  lemma {:induction false} RunCountsAttempts(q: Queue, cfg: Config, acts: seq<Action>, q': Queue, id: nat)
    requires BatchInv(q) && Reaches(q, cfg, acts, q')
    ensures AttemptsOf(q', id) - AttemptsOf(q, id) ==
            Refusals(q'.sends, id) - Refusals(q.sends, id) + Surplus(q, cfg, acts, id)
    decreases |acts|
  {
    if acts != [] {
      StepKeepsBatchInv(q, cfg, acts[0]);
      RunCountsAttempts(Step(q, cfg, acts[0]), cfg, acts[1..], q', id);
      if id < |q.rows| {
        StepCountsAttempts(q, cfg, acts[0], id);
      } else {
        NewRowHasNoRefusals(q, id);
        FreshRowIsUntouched(q, cfg, acts[0], id);
      }
    }
  }

  lemma {:induction false} FreshRowIsUntouched(q: Queue, cfg: Config, a: Action, id: nat)
    requires InRange(q) && Enabled(q, cfg, a) && id >= |q.rows|
    ensures AttemptsOf(Step(q, cfg, a), id) == 0 && Refusals(Step(q, cfg, a).sends, id) == 0
  {
    NewRowHasNoRefusals(q, id);
    var sent := SentBy(q, cfg, a);
    if sent.Some? {
      RefusalsAfter(q.sends, sent.value, id);
    }
  }

  /**
   The attempts of a row are its refusals, corrected by the refused batches of its customer: one more
   for each that did not show the row although it was due, one less for each that showed it although
   it was not.  So attempts exceed refusals exactly when the former outnumber the latter.
   */
  lemma {:induction false} AttemptsExceedRefusalsIff(cfg: Config, acts: seq<Action>, q: Queue, id: nat)
    requires Reaches(EMPTY, cfg, acts, q) && id < |q.rows|
    ensures q.rows[id].attempts == Refusals(q.sends, id) + Surplus(EMPTY, cfg, acts, id)
    ensures q.rows[id].attempts > Refusals(q.sends, id) <==> Surplus(EMPTY, cfg, acts, id) > 0
  {
    RunCountsAttempts(EMPTY, cfg, acts, q, id);
  }

  // ---------- What a poll hands over ----------

  /** How often the row was handed to Telegram, accepted or not. */
  ghost function HandOvers(sends: seq<Send>, id: nat): nat {
    if sends == [] then 0
    else HandOvers(sends[..|sends| - 1], id) + if Touches(sends[|sends| - 1], id) then 1 else 0
  }

  lemma {:induction false} HandOversAfter(sends: seq<Send>, sent: Send, id: nat)
    ensures HandOvers(sends + [sent], id) == HandOvers(sends, id) + if Touches(sent, id) then 1 else 0
  {
    assert (sends + [sent])[..|sends|] == sends;
  }

  /** A message of its own is tried for an alert whose entity exists and is not silenced. */
  predicate GoesOutAlone(env: TickEnvironment, id: nat) {
    env.entities(id).Some? && !env.entities(id).value.silenced
  }

  predicate BatchTriggers(rows: seq<Row>, cfg: Config, customer: int, env: TickEnvironment) {
    |Members(rows, customer, env.batchTime(customer) - cfg.batchWindow)| >= cfg.batchTrigger
  }

  /** A batch of the customer shows the alert if it is pending, recent, and its entity exists. */
  predicate GoesOutInBatch(r: Row, cfg: Config, customer: int, env: TickEnvironment, id: nat) {
    Batchable(r, customer, env.batchTime(customer) - cfg.batchWindow) && env.entities(id).Some?
  }

  lemma {:induction false} SinglesHandOver(q: Queue, cfg: Config, ids: seq<nat>, env: TickEnvironment, id: nat)
    requires ValidIds(ids, q.rows) && Distinct(ids)
    ensures HandOvers(SendSingles(q, cfg, ids, env).sends, id) ==
            HandOvers(q.sends, id) + if id in ids && GoesOutAlone(env, id) then 1 else 0
    decreases |ids|
  {
    if ids != [] {
      var first := ids[0];
      var next := SendSingle(q, cfg, first, env.sendTime(first), env.failTime(first), OutcomeOf(env, first));
      assert ids == [first] + ids[1..] && first !in ids[1..];
      HandOversAfter(q.sends, Single(first, env.sendTime(first), env.accepts(first)), id);
      SinglesHandOver(next, cfg, ids[1..], env, id);
    }
  }

  /** What serving one customer hands over, as a number for each row. */
  ghost function HandedOver(
      rows: seq<Row>, cfg: Config, customer: int, alerts: seq<nat>, env: TickEnvironment, id: nat): nat
    requires id < |rows|
  {
    if BatchTriggers(rows, cfg, customer, env) then
      if GoesOutInBatch(rows[id], cfg, customer, env, id) then 1 else 0
    else if id in alerts && GoesOutAlone(env, id) then 1 else 0
  }

  lemma {:induction false} ServingHandsOver(
      q: Queue, cfg: Config, customer: int, alerts: seq<nat>, env: TickEnvironment, id: nat)
    requires InRange(q) && ValidIds(alerts, q.rows) && Distinct(alerts) && id < |q.rows|
    ensures HandOvers(ServeCustomer(q, cfg, customer, alerts, env).sends, id) ==
            HandOvers(q.sends, id) + HandedOver(q.rows, cfg, customer, alerts, env, id)
  {
    if BatchTriggers(q.rows, cfg, customer, env) {
      var now := env.batchTime(customer);
      var rows := AssignBatch(q.rows, customer, now - cfg.batchWindow, |q.batches|);
      var sent := OfBatch(|q.batches|, RowsShown(rows, |q.batches|, env.entities), now, env.batchOk(customer));
      HandOversAfter(q.sends, sent, id);
    } else {
      SinglesHandOver(q, cfg, alerts, env, id);
    }
  }

  lemma {:induction false} MembersAreOfCustomer(rows: seq<Row>, rows': seq<Row>, customer: int, cutoff: int)
    requires |rows| == |rows'|
    requires forall i :: 0 <= i < |rows| ==> rows[i].customer == rows'[i].customer
    requires forall i :: 0 <= i < |rows| && rows[i].customer == customer ==> rows[i] == rows'[i]
    ensures Members(rows, customer, cutoff) == Members(rows', customer, cutoff)
    decreases |rows|
  {
    if rows != [] {
      MembersAreOfCustomer(rows[..|rows| - 1], rows'[..|rows'| - 1], customer, cutoff);
    }
  }

  /** Serving one customer of the poll, before which only other customers were served. */
  lemma {:induction false} ServingInTurn(
      q: Queue, cfg: Config, customer: int, rows: seq<Row>, ids: seq<nat>, env: TickEnvironment) returns (next: Queue)
    requires ClocksAdvance(env) && Due(rows, ids, env.start) && |rows| == |q.rows| && BatchInv(q)
    requires forall i :: 0 <= i < |rows| && rows[i].customer == customer ==> q.rows[i] == rows[i]
    requires forall i :: 0 <= i < |rows| ==> q.rows[i].customer == rows[i].customer
    ensures next == ServeCustomer(q, cfg, customer, OfCustomer(ids, rows, customer), env) && BatchInv(next)
    ensures forall i :: 0 <= i < |rows| ==> next.rows[i].customer == rows[i].customer
    ensures forall i :: 0 <= i < |rows| && rows[i].customer != customer ==> next.rows[i] == q.rows[i]
  {
    var alerts := OfCustomer(ids, rows, customer);
    OfCustomerIsDue(ids, rows, customer, env.start);
    OfCustomerMembers(ids, rows, customer);
    next := ServeCustomer(q, cfg, customer, alerts, env);
    var acts := ServingIsARun(q, cfg, customer, alerts, env);
    RunKeepsBatchInv(q, cfg, acts, next);
    ServingKeepsCustomers(q, cfg, customer, alerts, env);
  }

  lemma {:induction false} ServingInTurnHandsOver(
      q: Queue, cfg: Config, customer: int, rows: seq<Row>, ids: seq<nat>, env: TickEnvironment, id: nat)
    requires Due(rows, ids, env.start) && |rows| == |q.rows| && InRange(q) && id < |rows|
    requires forall i :: 0 <= i < |rows| && rows[i].customer == customer ==> q.rows[i] == rows[i]
    requires forall i :: 0 <= i < |rows| ==> q.rows[i].customer == rows[i].customer
    ensures var alerts := OfCustomer(ids, rows, customer);
            HandOvers(ServeCustomer(q, cfg, customer, alerts, env).sends, id) ==
            HandOvers(q.sends, id)
            + if rows[id].customer == customer then HandedOver(rows, cfg, customer, alerts, env, id) else 0
  {
    var alerts := OfCustomer(ids, rows, customer);
    OfCustomerDistinct(ids, rows, customer);
    OfCustomerMembers(ids, rows, customer);
    ServingHandsOver(q, cfg, customer, alerts, env, id);
    MembersAreOfCustomer(q.rows, rows, customer, env.batchTime(customer) - cfg.batchWindow);
  }

  /** Serving the customers in turn hands a row over when its own customer is served, and only then. */
  lemma {:induction false} ServingAllHandsOver(
      q: Queue, cfg: Config, customers: seq<int>, rows: seq<Row>, ids: seq<nat>, env: TickEnvironment, id: nat)
    requires ClocksAdvance(env) && Due(rows, ids, env.start) && |rows| == |q.rows| && DistinctCustomers(customers)
    requires BatchInv(q) && id < |rows|
    requires forall i :: 0 <= i < |rows| && rows[i].customer in customers ==> q.rows[i] == rows[i]
    requires forall i :: 0 <= i < |rows| ==> q.rows[i].customer == rows[i].customer
    ensures var c := rows[id].customer;
            HandOvers(ServeCustomers(q, cfg, customers, rows, ids, env).sends, id) ==
            HandOvers(q.sends, id)
            + if c in customers then HandedOver(rows, cfg, c, OfCustomer(ids, rows, c), env, id) else 0
    decreases |customers|
  {
    if customers != [] {
      var first := customers[0];
      assert customers == [first] + customers[1..];
      var next := ServingInTurn(q, cfg, first, rows, ids, env);
      ServingInTurnHandsOver(q, cfg, first, rows, ids, env, id);
      ServingAllHandsOver(next, cfg, customers[1..], rows, ids, env, id);
    }
  }

  // ---------- What a poll does to each row ----------

  /** The customer's pending alerts that were created since `cutoff`. */
  ghost function Recent(rows: seq<Row>, customer: int, cutoff: int): set<nat> {
    set i: nat | i < |rows| && rows[i].customer == customer && rows[i].state == Pending && rows[i].created >= cutoff
  }

  lemma {:induction false} MembersAreRecent(rows: seq<Row>, customer: int, cutoff: int)
    ensures |Members(rows, customer, cutoff)| == |Recent(rows, customer, cutoff)|
    ensures forall i: nat :: i in Recent(rows, customer, cutoff) <==> i < |rows| && Batchable(rows[i], customer, cutoff)
    decreases |rows|
  {
    if rows != [] {
      var n := |rows| - 1;
      MembersAreRecent(rows[..n], customer, cutoff);
      var before := Recent(rows[..n], customer, cutoff);
      assert Recent(rows, customer, cutoff) ==
             if Batchable(rows[n], customer, cutoff) then before + {n} else before;
    }
  }

  /** The poll finds an alert of the customer due. */
  ghost predicate IsServed(rows: seq<Row>, ids: seq<nat>, customer: int)
    requires ValidIds(ids, rows)
  {
    exists k :: 0 <= k < |ids| && rows[ids[k]].customer == customer
  }

  /**
   What one poll hands to Telegram, for each row: with its customer's batch if enough alerts of the
   customer are recent, else on its own if it is due and not silenced; and nothing for customers
   without a due alert.
   */
  lemma {:induction false} PollHandsOver(q: Queue, cfg: Config, env: TickEnvironment, id: nat)
    requires ClocksAdvance(env) && BatchInv(q) && id < |q.rows|
    ensures var c, ids := q.rows[id].customer, Poll(q.rows, env.start);
            var recent := Recent(q.rows, c, env.batchTime(c) - cfg.batchWindow);
            HandOvers(Tick(q, cfg, env).sends, id) ==
            HandOvers(q.sends, id)
            + if !IsServed(q.rows, ids, c) || env.entities(id) == None then 0
              else if |recent| >= cfg.batchTrigger then (if id in recent then 1 else 0)
              else if id in ids && !env.entities(id).value.silenced then 1 else 0
  {
    var c, ids := q.rows[id].customer, Poll(q.rows, env.start);
    TickHandsOver(q, cfg, env, id);
    CustomersIff(ids, q.rows, c);
    HandedOverIs(q.rows, cfg, ids, env, id);
  }

  lemma {:induction false} TickHandsOver(q: Queue, cfg: Config, env: TickEnvironment, id: nat)
    requires ClocksAdvance(env) && BatchInv(q) && id < |q.rows|
    ensures var c, ids := q.rows[id].customer, Poll(q.rows, env.start);
            HandOvers(Tick(q, cfg, env).sends, id) ==
            HandOvers(q.sends, id)
            + if c in Customers(ids, q.rows) then HandedOver(q.rows, cfg, c, OfCustomer(ids, q.rows, c), env, id) else 0
  {
    var ids := Poll(q.rows, env.start);
    PollIsDue(q.rows, env.start);
    CustomersAreDistinct(ids, q.rows);
    ServingAllHandsOver(q, cfg, Customers(ids, q.rows), q.rows, ids, env, id);
  }

  lemma {:induction false} HandedOverIs(rows: seq<Row>, cfg: Config, ids: seq<nat>, env: TickEnvironment, id: nat)
    requires ValidIds(ids, rows) && id < |rows|
    ensures var c := rows[id].customer;
            var recent := Recent(rows, c, env.batchTime(c) - cfg.batchWindow);
            HandedOver(rows, cfg, c, OfCustomer(ids, rows, c), env, id) ==
            if env.entities(id) == None then 0
            else if |recent| >= cfg.batchTrigger then (if id in recent then 1 else 0)
            else if id in ids && !env.entities(id).value.silenced then 1 else 0
  {
    var c := rows[id].customer;
    OfCustomerMembers(ids, rows, c);
    MembersAreRecent(rows, c, env.batchTime(c) - cfg.batchWindow);
  }

  /**
   Silence keeps an alert from going out on its own only: a poll hands a silenced alert over exactly
   when it finds an alert of the customer due, enough of them are recent, and this one is among those.
   */
  lemma {:induction false} SilencedGoesOutIff(q: Queue, cfg: Config, env: TickEnvironment, id: nat)
    requires ClocksAdvance(env) && BatchInv(q) && id < |q.rows|
    requires env.entities(id).Some? && env.entities(id).value.silenced
    ensures var c := q.rows[id].customer;
            var recent := Recent(q.rows, c, env.batchTime(c) - cfg.batchWindow);
            HandOvers(Tick(q, cfg, env).sends, id) > HandOvers(q.sends, id) <==>
            IsServed(q.rows, Poll(q.rows, env.start), c) && |recent| >= cfg.batchTrigger && id in recent
  {
    PollHandsOver(q, cfg, env, id);
  }

  /** A refused alert is due again exactly from the backoff after the refusal on, if it has attempts left. */
  lemma RefusedIsDueIff(r: Row, cfg: Config, later: int, start: int)
    requires r.state == Pending
    ensures var r' := FailRow(r, cfg, later);
            && (Eligible(r', start) <==> r.attempts + 1 < cfg.maxAttempts && later + cfg.backoff <= start)
            && (r'.state == Failed <==> r.attempts + 1 >= cfg.maxAttempts)
            && r'.attempts == r.attempts + 1
  {
  }

  /** A new alert is due at once unless it is deduped. */
  lemma NewIsDueIff(customer: int, key: string, target: Option<nat>, now: int, start: int)
    ensures var r := NewRow(customer, key, target, now);
            && (Eligible(r, start) <==> target == None) && (r.state == Deduped <==> target.Some?)
            && r.customer == customer && r.dedupeKey == key && r.dedupedOf == target && r.created == now
            && r.attempts == 0 && r.batch == None
  {
  }

  /** What becomes of a due alert that is sent on its own. */
  function SentAlone(r: Row, cfg: Config, env: TickEnvironment, id: nat): Row {
    match env.entities(id)
    case None => r
    case Some(e) =>
      if e.silenced then r.(state := Silenced)
      else if env.accepts(id) then r.(state := Dispatched)
      else FailRow(r, cfg, env.failTime(id))
  }

  /** What becomes of an alert of a customer whose batch, number `b`, is sent. */
  function SentInBatch(
      r: Row, cfg: Config, env: TickEnvironment, customer: int, b: nat, isRecent: bool, isDue: bool): Row
  {
    var joined := if isRecent then r.(state := Batched, batch := Some(b)) else r;
    if isDue && !env.batchOk(customer) then FailRow(joined, cfg, env.batchFailTime(customer)) else joined
  }

  lemma {:induction false} SinglesSettle(q: Queue, cfg: Config, ids: seq<nat>, env: TickEnvironment, id: nat)
    requires ValidIds(ids, q.rows) && Distinct(ids) && id < |q.rows|
    ensures SendSingles(q, cfg, ids, env).rows[id] ==
            if id in ids then SentAlone(q.rows[id], cfg, env, id) else q.rows[id]
    decreases |ids|
  {
    if ids != [] {
      var first := ids[0];
      var next := SendSingle(q, cfg, first, env.sendTime(first), env.failTime(first), OutcomeOf(env, first));
      assert ids == [first] + ids[1..] && first !in ids[1..];
      SinglesSettle(next, cfg, ids[1..], env, id);
    }
  }

  /** The row after its customer was served. */
  ghost predicate IsSettled(
      r: Row, r': Row, cfg: Config, env: TickEnvironment, id: nat, recent: set<nat>, isDue: bool)
  {
    if |recent| >= cfg.batchTrigger then
      exists b: nat :: r' == SentInBatch(r, cfg, env, r.customer, b, id in recent, isDue)
    else
      r' == if isDue then SentAlone(r, cfg, env, id) else r
  }

  lemma {:induction false} ServingSettles(
      q: Queue, cfg: Config, customer: int, alerts: seq<nat>, env: TickEnvironment, id: nat)
    requires ValidIds(alerts, q.rows) && Distinct(alerts) && id < |q.rows| && q.rows[id].customer == customer
    ensures var recent := Recent(q.rows, customer, env.batchTime(customer) - cfg.batchWindow);
            var r' := ServeCustomer(q, cfg, customer, alerts, env).rows[id];
            IsSettled(q.rows[id], r', cfg, env, id, recent, id in alerts)
  {
    var cutoff := env.batchTime(customer) - cfg.batchWindow;
    var r' := ServeCustomer(q, cfg, customer, alerts, env).rows[id];
    MembersAreRecent(q.rows, customer, cutoff);
    if |Members(q.rows, customer, cutoff)| < cfg.batchTrigger {
      SinglesSettle(q, cfg, alerts, env, id);
    } else {
      var rows := AssignBatch(q.rows, customer, cutoff, |q.batches|);
      MarkAllFailedAt(rows, cfg, alerts, env.batchFailTime(customer), id);
      assert r' == SentInBatch(q.rows[id], cfg, env, customer, |q.batches|,
                               id in Recent(q.rows, customer, cutoff), id in alerts);
    }
  }

  lemma {:induction false} ServingAllSettles(
      q: Queue, cfg: Config, customers: seq<int>, rows: seq<Row>, ids: seq<nat>, env: TickEnvironment, id: nat)
    requires ClocksAdvance(env) && Due(rows, ids, env.start) && |rows| == |q.rows| && DistinctCustomers(customers)
    requires BatchInv(q) && id < |rows|
    requires forall i :: 0 <= i < |rows| && rows[i].customer in customers ==> q.rows[i] == rows[i]
    requires forall i :: 0 <= i < |rows| ==> q.rows[i].customer == rows[i].customer
    ensures |ServeCustomers(q, cfg, customers, rows, ids, env).rows| == |rows|
    ensures var c, r' := rows[id].customer, ServeCustomers(q, cfg, customers, rows, ids, env).rows[id];
            if c in customers then
              IsSettled(rows[id], r', cfg, env, id, Recent(rows, c, env.batchTime(c) - cfg.batchWindow), id in ids)
            else r' == q.rows[id]
    decreases |customers|
  {
    if customers != [] {
      var first := customers[0];
      assert customers == [first] + customers[1..];
      var next := ServingInTurn(q, cfg, first, rows, ids, env);
      ServingAllSettles(next, cfg, customers[1..], rows, ids, env, id);
      if rows[id].customer == first {
        ServingFirstSettles(q, cfg, first, rows, ids, env, id);
      }
    }
  }

  lemma {:induction false} ServingFirstSettles(
      q: Queue, cfg: Config, customer: int, rows: seq<Row>, ids: seq<nat>, env: TickEnvironment, id: nat)
    requires Due(rows, ids, env.start) && |rows| == |q.rows| && id < |rows| && rows[id].customer == customer
    requires forall i :: 0 <= i < |rows| && rows[i].customer == customer ==> q.rows[i] == rows[i]
    requires forall i :: 0 <= i < |rows| ==> q.rows[i].customer == rows[i].customer
    ensures var r' := ServeCustomer(q, cfg, customer, OfCustomer(ids, rows, customer), env).rows[id];
            var recent := Recent(rows, customer, env.batchTime(customer) - cfg.batchWindow);
            IsSettled(rows[id], r', cfg, env, id, recent, id in ids)
  {
    OfCustomerDistinct(ids, rows, customer);
    OfCustomerMembers(ids, rows, customer);
    ServingSettles(q, cfg, customer, OfCustomer(ids, rows, customer), env, id);
    var cutoff := env.batchTime(customer) - cfg.batchWindow;
    assert Recent(rows, customer, cutoff) == Recent(q.rows, customer, cutoff);
  }

  /**
   What one poll makes of each row: nothing if no alert of its customer is due; else the row joins the
   customer's batch and is charged with its refusal, or is silenced, sent or refused on its own.
   */
  lemma {:induction false} PollSettles(q: Queue, cfg: Config, env: TickEnvironment, id: nat) returns (r': Row)
    requires ClocksAdvance(env) && BatchInv(q) && id < |q.rows|
    ensures |Tick(q, cfg, env).rows| == |q.rows| && r' == Tick(q, cfg, env).rows[id]
    ensures var c, ids := q.rows[id].customer, Poll(q.rows, env.start);
            if IsServed(q.rows, ids, c) then
              IsSettled(q.rows[id], r', cfg, env, id, Recent(q.rows, c, env.batchTime(c) - cfg.batchWindow), id in ids)
            else r' == q.rows[id]
  {
    r' := TickSettles(q, cfg, env, id);
    CustomersIff(Poll(q.rows, env.start), q.rows, q.rows[id].customer);
  }

  lemma {:induction false} TickSettles(q: Queue, cfg: Config, env: TickEnvironment, id: nat) returns (r': Row)
    requires ClocksAdvance(env) && BatchInv(q) && id < |q.rows|
    ensures |Tick(q, cfg, env).rows| == |q.rows| && r' == Tick(q, cfg, env).rows[id]
    ensures var c, ids := q.rows[id].customer, Poll(q.rows, env.start);
            if c in Customers(ids, q.rows) then
              IsSettled(q.rows[id], r', cfg, env, id, Recent(q.rows, c, env.batchTime(c) - cfg.batchWindow), id in ids)
            else r' == q.rows[id]
  {
    var ids := Poll(q.rows, env.start);
    PollIsDue(q.rows, env.start);
    CustomersAreDistinct(ids, q.rows);
    ServingAllSettles(q, cfg, Customers(ids, q.rows), q.rows, ids, env, id);
    r' := Tick(q, cfg, env).rows[id];
  }

  // ---------- What a batch records ----------

  /** The entity has this severity, or is missing and counted as unknown. */
  predicate HasSeverity(entity: Option<Entity>, severity: string) {
    match entity
    case None => severity == "UNKNOWN"
    case Some(e) => e.severity == severity
  }

  ghost function RecentWith(
      rows: seq<Row>, customer: int, cutoff: int, entities: Entities, severity: string): set<nat>
  {
    set i | i in Recent(rows, customer, cutoff) && HasSeverity(entities(i), severity)
  }

  lemma {:induction false} RecentWithLast(
      rows: seq<Row>, customer: int, cutoff: int, entities: Entities, severity: string)
    requires rows != []
    ensures var n := |rows| - 1;
            RecentWith(rows, customer, cutoff, entities, severity) ==
            RecentWith(rows[..n], customer, cutoff, entities, severity)
            + if Batchable(rows[n], customer, cutoff) && HasSeverity(entities(n), severity) then {n} else {}
  {
  }

  /** A batch counts its alerts by severity. */
  lemma {:induction false} BatchCountsSeverities(
      rows: seq<Row>, customer: int, cutoff: int, entities: Entities, severity: string)
    ensures Get(CountSeverities(Members(rows, customer, cutoff), entities), severity) ==
            |RecentWith(rows, customer, cutoff, entities, severity)|
    decreases |rows|
  {
    if rows == [] {
      assert RecentWith(rows, customer, cutoff, entities, severity) == {};
    } else {
      var n := |rows| - 1;
      BatchCountsSeverities(rows[..n], customer, cutoff, entities, severity);
      RecentWithLast(rows, customer, cutoff, entities, severity);
      if Batchable(rows[n], customer, cutoff) {
        var before := Members(rows[..n], customer, cutoff);
        assert (before + [n])[..|before|] == before;
      }
    }
  }

  /** A batch has the time of its accepted message, if it has one, and rows of its own customer only. */
  ghost predicate BatchRecorded(q: Queue, b: nat)
    requires b < |q.batches|
  {
    && (forall t :: q.batches[b].dispatchedAt == Some(t) <==> HasMessage(q.sends, b, t))
    && (forall i :: 0 <= i < |q.rows| && q.rows[i].batch == Some(b) ==> q.rows[i].customer == q.batches[b].customer)
  }

  ghost predicate HasMessage(sends: seq<Send>, b: nat, time: int) {
    exists k :: 0 <= k < |sends| && sends[k].OfBatch? && sends[k].batch == b && sends[k].ok && sends[k].time == time
  }

  ghost predicate RecordInv(q: Queue) {
    && (forall k :: 0 <= k < |q.sends| && q.sends[k].OfBatch? ==> q.sends[k].batch < |q.batches|)
    && (forall b: nat :: b < |q.batches| ==> BatchRecorded(q, b))
  }

  lemma {:induction false} MessageAfter(sends: seq<Send>, sent: Send, b: nat, time: int)
    ensures HasMessage(sends + [sent], b, time) <==>
            HasMessage(sends, b, time) || (sent.OfBatch? && sent.batch == b && sent.ok && sent.time == time)
  {
    var more := sends + [sent];
    if HasMessage(sends, b, time) {
      var k :| 0 <= k < |sends| && sends[k].OfBatch? && sends[k].batch == b && sends[k].ok && sends[k].time == time;
      assert more[k] == sends[k];
    }
    assert more[|sends|] == sent;
  }

  lemma {:induction false} MessagesAfter(q: Queue, cfg: Config, a: Action, b: nat, time: int)
    requires Enabled(q, cfg, a)
    ensures HasMessage(Step(q, cfg, a).sends, b, time) <==>
            HasMessage(q.sends, b, time) || (a.TryBatch? && a.ok && b == |q.batches| && a.now == time)
  {
    var sent := SentBy(q, cfg, a);
    if sent.Some? {
      MessageAfter(q.sends, sent.value, b, time);
    }
  }

  lemma {:induction false} StepKeepsRecord(q: Queue, cfg: Config, a: Action, b: nat)
    requires BatchInv(q) && RecordInv(q) && Enabled(q, cfg, a) && b < |Step(q, cfg, a).batches|
    ensures BatchRecorded(Step(q, cfg, a), b)
  {
    var q' := Step(q, cfg, a);
    assert b < |q.batches| ==> BatchRecorded(q, b);
    forall t ensures q'.batches[b].dispatchedAt == Some(t) <==> HasMessage(q'.sends, b, t) {
      MessagesAfter(q, cfg, a, b, t);
    }
    forall i | 0 <= i < |q'.rows| && q'.rows[i].batch == Some(b)
      ensures q'.rows[i].customer == q'.batches[b].customer
    {
      if i < |q.rows| {
        StepMovesRows(q, cfg, a, i);
      }
    }
  }

  lemma {:induction false} RunKeepsRecords(q: Queue, cfg: Config, acts: seq<Action>, q': Queue)
    requires BatchInv(q) && RecordInv(q) && Reaches(q, cfg, acts, q')
    ensures RecordInv(q')
    decreases |acts|
  {
    if acts != [] {
      var next := Step(q, cfg, acts[0]);
      StepKeepsBatchInv(q, cfg, acts[0]);
      forall b: nat | b < |next.batches| ensures BatchRecorded(next, b) {
        StepKeepsRecord(q, cfg, acts[0], b);
      }
      RunKeepsRecords(next, cfg, acts[1..], q');
    }
  }

  /** In every reachable state a batch has the time of its accepted message, and rows of its own customer only. */
  lemma {:induction false} BatchesRecordMessages(cfg: Config, acts: seq<Action>, q: Queue, b: nat)
    requires Reaches(EMPTY, cfg, acts, q) && b < |q.batches|
    ensures forall t :: q.batches[b].dispatchedAt == Some(t) <==> HasMessage(q.sends, b, t)
    ensures forall i :: 0 <= i < |q.rows| && q.rows[i].batch == Some(b) ==> q.rows[i].customer == q.batches[b].customer
  {
    RunKeepsRecords(EMPTY, cfg, acts, q);
    assert BatchRecorded(q, b);
  }

  /** A new alert is deduped exactly when one with its key, created within the window, is out, and to the latest. */
  lemma {:induction false} DedupedIff(rows: seq<Row>, key: string, cutoff: int, target: Option<nat>)
    requires IsExistingDispatch(rows, key, cutoff, target)
    ensures target.Some? <==>
            exists i :: 0 <= i < |rows| && rows[i].dedupeKey == key && rows[i].created >= cutoff
                        && (rows[i].state == Dispatched || rows[i].state == Batched)
    ensures target.Some? ==>
      && target.value < |rows| && rows[target.value].dedupeKey == key && rows[target.value].created >= cutoff
      && rows[target.value].state in {Dispatched, Batched}
      && forall i :: 0 <= i < |rows| && rows[i].dedupeKey == key && rows[i].state in {Dispatched, Batched} ==>
           rows[i].created <= rows[target.value].created
  {
    if i :| 0 <= i < |rows| && rows[i].dedupeKey == key && rows[i].created >= cutoff
            && (rows[i].state == Dispatched || rows[i].state == Batched) {
      assert AlreadyOut(rows[i], key, cutoff);
    }
  }
}
