/**
 The polls of the dispatch loop are runs of the atomic actions of `AlertRuns`, so everything
 proved there holds of the loop; and a poll takes the oldest due rows first.
 */
module AlertTicks {
  import opened Options
  import opened AlertQueue
  import opened AlertRuns

  // ---------- What a poll selects ----------

  ghost predicate OldestFirst(ids: seq<nat>, rows: seq<Row>)
    requires ValidIds(ids, rows)
  {
    forall i, j :: 0 <= i < j < |ids| ==> rows[ids[i]].created <= rows[ids[j]].created
  }

  lemma {:induction false} InsertMembers(id: nat, sorted: seq<nat>, rows: seq<Row>)
    requires id < |rows| && ValidIds(sorted, rows)
    ensures forall x :: x in InsertByCreated(id, sorted, rows) <==> x == id || x in sorted
  {
    forall x ensures x in InsertByCreated(id, sorted, rows) <==> x == id || x in sorted {
      assert x in multiset(InsertByCreated(id, sorted, rows)) <==> x == id || x in multiset(sorted);
    }
  }

  lemma {:induction false} ConsKeepsOrder(id: nat, sorted: seq<nat>, rows: seq<Row>)
    requires id < |rows| && ValidIds(sorted, rows) && OldestFirst(sorted, rows) && Distinct(sorted) && id !in sorted
    requires forall x :: x in sorted ==> x < |rows| && rows[id].created <= rows[x].created
    ensures OldestFirst([id] + sorted, rows) && Distinct([id] + sorted)
  {
  }

  lemma {:induction false} TailFollowsHead(sorted: seq<nat>, rows: seq<Row>)
    requires sorted != [] && ValidIds(sorted, rows) && OldestFirst(sorted, rows) && Distinct(sorted)
    ensures forall x :: x in sorted[1..] ==> x < |rows| && x != sorted[0] && rows[sorted[0]].created <= rows[x].created
    ensures forall x :: x in sorted ==> x < |rows| && rows[sorted[0]].created <= rows[x].created
    ensures ValidIds(sorted[1..], rows) && OldestFirst(sorted[1..], rows) && Distinct(sorted[1..])
    ensures forall x :: x in sorted[1..] ==> x in sorted
  {
    forall x | x in sorted[1..] ensures x < |rows| && x != sorted[0] && rows[sorted[0]].created <= rows[x].created {
      var m :| 0 <= m < |sorted[1..]| && sorted[1..][m] == x;
      assert sorted[m + 1] == x;
    }
    assert sorted == [sorted[0]] + sorted[1..];
  }

  lemma {:induction false} InsertKeepsOrder(id: nat, sorted: seq<nat>, rows: seq<Row>)
    requires id < |rows| && ValidIds(sorted, rows) && OldestFirst(sorted, rows) && Distinct(sorted) && id !in sorted
    ensures OldestFirst(InsertByCreated(id, sorted, rows), rows) && Distinct(InsertByCreated(id, sorted, rows))
    decreases |sorted|
  {
    if sorted != [] {
      TailFollowsHead(sorted, rows);
      if rows[id].created < rows[sorted[0]].created {
        ConsKeepsOrder(id, sorted, rows);
      } else {
        InsertKeepsOrder(id, sorted[1..], rows);
        InsertMembers(id, sorted[1..], rows);
        ConsKeepsOrder(sorted[0], InsertByCreated(id, sorted[1..], rows), rows);
      }
    }
  }

  lemma {:induction false} EligibleMembers(rows: seq<Row>, n: nat, start: int)
    requires n <= |rows|
    ensures forall i :: i in EligibleByCreated(rows, n, start) <==> 0 <= i < n && Eligible(rows[i], start)
    decreases n
  {
    if n > 0 {
      EligibleMembers(rows, n - 1, start);
      InsertMembers(n - 1, EligibleByCreated(rows, n - 1, start), rows);
    }
  }

  lemma {:induction false} EligibleInOrder(rows: seq<Row>, n: nat, start: int) returns (ids: seq<nat>)
    requires n <= |rows|
    ensures ids == EligibleByCreated(rows, n, start)
    ensures OldestFirst(ids, rows) && Distinct(ids)
    decreases n
  {
    if n == 0 {
      ids := [];
    } else {
      var rest := EligibleInOrder(rows, n - 1, start);
      if Eligible(rows[n - 1], start) {
        assert n - 1 !in rest by {
          EligibleMembers(rows, n - 1, start);
        }
        InsertKeepsOrder(n - 1, rest, rows);
        ids := InsertByCreated(n - 1, rest, rows);
      } else {
        ids := rest;
      }
    }
  }

  lemma {:induction false} PollIsDue(rows: seq<Row>, start: int)
    ensures Due(rows, Poll(rows, start), start)
  {
    EligibleMembers(rows, |rows|, start);
    var all := EligibleInOrder(rows, |rows|, start);
    var ids := Poll(rows, start);
    forall k | 0 <= k < |ids| ensures Eligible(rows[ids[k]], start) {
      assert ids[k] == all[k] && all[k] in all;
    }
  }

  lemma {:induction false} LeftForLater(rows: seq<Row>, start: int, i: nat)
    requires i < |rows| && Eligible(rows[i], start) && i !in Poll(rows, start)
    ensures var ids := Poll(rows, start);
            |ids| == POLL_LIMIT && forall k :: 0 <= k < |ids| ==> rows[ids[k]].created <= rows[i].created
  {
    EligibleMembers(rows, |rows|, start);
    var all := EligibleInOrder(rows, |rows|, start);
    var ids := Poll(rows, start);
    assert forall k :: 0 <= k < |ids| ==> all[k] == ids[k] && all[k] in ids;
    var m :| 0 <= m < |all| && all[m] == i;
    assert m >= POLL_LIMIT;
  }

  /** A poll takes due rows only, oldest first; a due row it leaves for later is not older than the fifty it takes. */
  lemma {:induction false} PollTakesOldestDue(rows: seq<Row>, start: int, i: nat)
    requires i < |rows|
    ensures var ids := Poll(rows, start);
            && Due(rows, ids, start) && OldestFirst(ids, rows) && |ids| <= 50
            && var due := rows[i].state == Pending && (rows[i].nextRetry == None || rows[i].nextRetry.value <= start);
               && (i in ids ==> due)
               && (due && i !in ids ==>
                     |ids| == 50 && forall k :: 0 <= k < |ids| ==> rows[ids[k]].created <= rows[i].created)
  {
    PollIsDue(rows, start);
    assert OldestFirst(Poll(rows, start), rows) by {
      var all := EligibleInOrder(rows, |rows|, start);
    }
    if Eligible(rows[i], start) && i !in Poll(rows, start) {
      LeftForLater(rows, start, i);
    }
  }

  lemma {:induction false} OfCustomerMembers(ids: seq<nat>, rows: seq<Row>, customer: int)
    requires ValidIds(ids, rows)
    ensures forall x :: x in OfCustomer(ids, rows, customer) <==> x in ids && x < |rows| && rows[x].customer == customer
    decreases |ids|
  {
    if ids != [] {
      var n := |ids| - 1;
      OfCustomerMembers(ids[..n], rows, customer);
      assert ids == ids[..n] + [ids[n]];
    }
  }

  lemma {:induction false} LastIsNew(ids: seq<nat>)
    requires ids != [] && Distinct(ids)
    ensures ids[|ids| - 1] !in ids[..|ids| - 1]
  {
  }

  lemma {:induction false} OfCustomerDistinct(ids: seq<nat>, rows: seq<Row>, customer: int)
    requires ValidIds(ids, rows) && Distinct(ids)
    ensures Distinct(OfCustomer(ids, rows, customer))
    decreases |ids|
  {
    if ids != [] {
      var n := |ids| - 1;
      OfCustomerDistinct(ids[..n], rows, customer);
      OfCustomerMembers(ids[..n], rows, customer);
      LastIsNew(ids);
    }
  }

  lemma {:induction false} OfCustomerIsDue(ids: seq<nat>, rows: seq<Row>, customer: int, start: int)
    requires Due(rows, ids, start)
    ensures var mine := OfCustomer(ids, rows, customer);
            && Due(rows, mine, start)
            && forall k :: 0 <= k < |mine| ==> rows[mine[k]].customer == customer
  {
    OfCustomerDistinct(ids, rows, customer);
    OfCustomerMembers(ids, rows, customer);
    var mine := OfCustomer(ids, rows, customer);
    forall k | 0 <= k < |mine| ensures Eligible(rows[mine[k]], start) && rows[mine[k]].customer == customer {
      assert mine[k] in ids;
    }
  }

  ghost predicate DistinctCustomers(cs: seq<int>) {
    forall i, j :: 0 <= i < j < |cs| ==> cs[i] != cs[j]
  }

  /** The customers of a poll are those of the rows it found due. */
  lemma {:induction false} CustomersIff(ids: seq<nat>, rows: seq<Row>, customer: int)
    requires ValidIds(ids, rows)
    ensures customer in Customers(ids, rows) <==> exists k :: 0 <= k < |ids| && rows[ids[k]].customer == customer
    decreases |ids|
  {
    if ids != [] {
      var n := |ids| - 1;
      CustomersIff(ids[..n], rows, customer);
      CustomersIff(ids[..n], rows, rows[ids[n]].customer);
      if k :| 0 <= k < n && rows[ids[..n][k]].customer == customer {
        assert rows[ids[k]].customer == customer;
      }
      if k :| 0 <= k < |ids| && rows[ids[k]].customer == customer {
        assert k < n ==> rows[ids[..n][k]].customer == customer;
      }
    }
  }

  lemma {:induction false} CustomersAreDistinct(ids: seq<nat>, rows: seq<Row>)
    requires ValidIds(ids, rows)
    ensures DistinctCustomers(Customers(ids, rows))
    decreases |ids|
  {
    if ids != [] {
      CustomersAreDistinct(ids[..|ids| - 1], rows);
    }
  }

  // ---------- Runs ----------

  lemma {:induction false} ReachesHead(q: Queue, cfg: Config, a1: seq<Action>, q1: Queue, a2: seq<Action>, q2: Queue)
    requires a1 != [] && Reaches(q, cfg, a1, q1) && Reaches(Step(q, cfg, a1[0]), cfg, a1[1..] + a2, q2)
    ensures Reaches(q, cfg, a1 + a2, q2)
  {
    assert (a1 + a2)[0] == a1[0] && (a1 + a2)[1..] == a1[1..] + a2;
  }

  lemma {:induction false} ReachesConcat(q: Queue, cfg: Config, a1: seq<Action>, q1: Queue, a2: seq<Action>, q2: Queue)
    requires Reaches(q, cfg, a1, q1) && Reaches(q1, cfg, a2, q2)
    ensures Reaches(q, cfg, a1 + a2, q2)
    decreases |a1|
  {
    if a1 == [] {
      assert a1 + a2 == a2;
    } else {
      ReachesConcat(Step(q, cfg, a1[0]), cfg, a1[1..], q1, a2, q2);
      ReachesHead(q, cfg, a1, q1, a2, q2);
    }
  }

  lemma {:induction false} ReachesOne(q: Queue, cfg: Config, a: Action)
    requires Enabled(q, cfg, a)
    ensures Reaches(q, cfg, [a], Step(q, cfg, a))
  {
    assert [a][1..] == [];
    assert Reaches(Step(q, cfg, a), cfg, [], Step(q, cfg, a));
  }

  lemma {:induction false} SinglesAreARun(q: Queue, cfg: Config, ids: seq<nat>, env: TickEnvironment)
    returns (acts: seq<Action>)
    requires ClocksAdvance(env) && Due(q.rows, ids, env.start)
    ensures Reaches(q, cfg, acts, SendSingles(q, cfg, ids, env))
    decreases |ids|
  {
    if ids == [] {
      acts := [];
    } else {
      var id := ids[0];
      assert ids == [id] + ids[1..];
      var a := TrySingle(env.start, env.sendTime(id), env.failTime(id), id, OutcomeOf(env, id));
      assert Enabled(q, cfg, a);
      var next := Step(q, cfg, a);
      ReachesOne(q, cfg, a);
      forall k | 0 <= k < |ids[1..]| ensures ids[1..][k] < |next.rows| && Eligible(next.rows[ids[1..][k]], env.start) {
        assert ids[1..][k] == ids[k + 1];
      }
      var rest := SinglesAreARun(next, cfg, ids[1..], env);
      ReachesConcat(q, cfg, [a], next, rest, SendSingles(q, cfg, ids, env));
      acts := [a] + rest;
    }
  }

  lemma {:induction false} SinglesLeaveOthers(q: Queue, cfg: Config, ids: seq<nat>, env: TickEnvironment, i: nat)
    requires ValidIds(ids, q.rows) && i < |q.rows| && i !in ids
    ensures SendSingles(q, cfg, ids, env).rows[i] == q.rows[i]
    decreases |ids|
  {
    if ids != [] {
      var id := ids[0];
      var next := SendSingle(q, cfg, id, env.sendTime(id), env.failTime(id), OutcomeOf(env, id));
      SinglesLeaveOthers(next, cfg, ids[1..], env, i);
    }
  }

  /** Serving one customer is a run, and leaves the rows of the other customers alone. */
  lemma {:induction false} ServingIsARun(q: Queue, cfg: Config, customer: int, alerts: seq<nat>, env: TickEnvironment)
    returns (acts: seq<Action>)
    requires ClocksAdvance(env) && Due(q.rows, alerts, env.start)
    requires forall k :: 0 <= k < |alerts| ==> q.rows[alerts[k]].customer == customer
    ensures Reaches(q, cfg, acts, ServeCustomer(q, cfg, customer, alerts, env))
    ensures forall i :: 0 <= i < |q.rows| && q.rows[i].customer != customer ==>
              ServeCustomer(q, cfg, customer, alerts, env).rows[i] == q.rows[i]
  {
    var now := env.batchTime(customer);
    var q' := ServeCustomer(q, cfg, customer, alerts, env);
    if |Members(q.rows, customer, now - cfg.batchWindow)| < cfg.batchTrigger {
      acts := SinglesAreARun(q, cfg, alerts, env);
      forall i: nat | i < |q.rows| && q.rows[i].customer != customer ensures q'.rows[i] == q.rows[i] {
        SinglesLeaveOthers(q, cfg, alerts, env, i);
      }
    } else {
      var later, ok := env.batchFailTime(customer), env.batchOk(customer);
      var a := TryBatch(env.start, now, later, customer, alerts, env.entities, ok);
      assert Enabled(q, cfg, a);
      ReachesOne(q, cfg, a);
      acts := [a];
      var rows := AssignBatch(q.rows, customer, now - cfg.batchWindow, |q.batches|);
      forall i | 0 <= i < |q.rows| && q.rows[i].customer != customer ensures q'.rows[i] == q.rows[i] {
        MarkAllFailedAt(rows, cfg, alerts, env.batchFailTime(customer), i);
      }
    }
  }

  lemma {:induction false} ServingAllIsARun(
      q: Queue, cfg: Config, customers: seq<int>, rows: seq<Row>, ids: seq<nat>, env: TickEnvironment)
    returns (acts: seq<Action>)
    requires ClocksAdvance(env) && Due(rows, ids, env.start) && |rows| == |q.rows| && DistinctCustomers(customers)
    requires forall i :: 0 <= i < |rows| && rows[i].customer in customers ==> q.rows[i] == rows[i]
    requires forall i :: 0 <= i < |rows| ==> q.rows[i].customer == rows[i].customer
    ensures Reaches(q, cfg, acts, ServeCustomers(q, cfg, customers, rows, ids, env))
    decreases |customers|
  {
    if customers == [] {
      acts := [];
    } else {
      var c := customers[0];
      assert customers == [c] + customers[1..];
      var alerts := OfCustomer(ids, rows, c);
      OfCustomerIsDue(ids, rows, c, env.start);
      var first := ServingIsARun(q, cfg, c, alerts, env);
      var next := ServeCustomer(q, cfg, c, alerts, env);
      ServingKeepsCustomers(q, cfg, c, alerts, env);
      var rest := ServingAllIsARun(next, cfg, customers[1..], rows, ids, env);
      ReachesConcat(q, cfg, first, next, rest, ServeCustomers(q, cfg, customers, rows, ids, env));
      acts := first + rest;
    }
  }

  lemma {:induction false} SinglesKeepCustomers(q: Queue, cfg: Config, ids: seq<nat>, env: TickEnvironment)
    requires ValidIds(ids, q.rows)
    ensures forall i :: 0 <= i < |q.rows| ==> SendSingles(q, cfg, ids, env).rows[i].customer == q.rows[i].customer
    decreases |ids|
  {
    if ids != [] {
      var id := ids[0];
      var next := SendSingle(q, cfg, id, env.sendTime(id), env.failTime(id), OutcomeOf(env, id));
      SinglesKeepCustomers(next, cfg, ids[1..], env);
    }
  }

  lemma {:induction false} ServingKeepsCustomers(
      q: Queue, cfg: Config, customer: int, alerts: seq<nat>, env: TickEnvironment)
    requires ValidIds(alerts, q.rows) && Distinct(alerts)
    ensures forall i :: 0 <= i < |q.rows| ==>
              ServeCustomer(q, cfg, customer, alerts, env).rows[i].customer == q.rows[i].customer
  {
    var cutoff := env.batchTime(customer) - cfg.batchWindow;
    SinglesKeepCustomers(q, cfg, alerts, env);
    forall i | 0 <= i < |q.rows|
      ensures ServeCustomer(q, cfg, customer, alerts, env).rows[i].customer == q.rows[i].customer
    {
      MarkAllFailedAt(AssignBatch(q.rows, customer, cutoff, |q.batches|), cfg, alerts, env.batchFailTime(customer), i);
    }
  }

  /** One poll of the dispatch loop is a run of enabled actions. */
  lemma {:induction false} TickIsARun(q: Queue, cfg: Config, env: TickEnvironment) returns (acts: seq<Action>)
    requires ClocksAdvance(env)
    ensures Reaches(q, cfg, acts, Tick(q, cfg, env))
  {
    var ids := Poll(q.rows, env.start);
    PollIsDue(q.rows, env.start);
    CustomersAreDistinct(ids, q.rows);
    acts := ServingAllIsARun(q, cfg, Customers(ids, q.rows), q.rows, ids, env);
  }

  /** So a poll keeps everything the invariant says. */
  lemma {:induction false} TickKeepsInv(q: Queue, cfg: Config, env: TickEnvironment)
    requires ClocksAdvance(env) && Inv(q, cfg)
    ensures Inv(Tick(q, cfg, env), cfg)
  {
    var acts := TickIsARun(q, cfg, env);
    RunKeepsInv(q, cfg, acts, Tick(q, cfg, env));
  }
}
