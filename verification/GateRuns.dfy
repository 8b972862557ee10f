/**
 Safety of the confirmation gate over whole runs: any interleaving of the two halves of the
 calls of any sessions and tools, with a clock that never goes back.
 */
module GateRuns {
  import opened Options
  import opened ConfirmGate
  import opened Sequences

  datatype Event =
    | Begin(now: int, session: string, tool: string, destructive: bool, args: Args)
    | Finish(now: int, session: string, tool: string, destructive: bool, args: Args, asks: bool)

  ghost function Outcome(p: Registry, e: Event): Decision
    requires e.Begin?
  {
    Decide(Prune(p, e.now), e.session, e.tool, e.destructive, e.args)
  }

  ghost function Step(p: Registry, e: Event): Registry {
    match e
    case Begin(now, _, _, _, _) => Consume(Prune(p, now), Outcome(p, e))
    case Finish(now, session, tool, destructive, args, asks) => Register(p, now, session, tool, destructive, args, asks)
  }

  /** The registry after the events, starting from the empty one of a fresh process. */
  ghost function After(es: seq<Event>): Registry {
    if es == [] then map[] else Step(After(es[..|es| - 1]), es[|es| - 1])
  }

  ghost predicate Monotone(es: seq<Event>) {
    forall i, j :: 0 <= i <= j < |es| ==> es[i].now <= es[j].now
  }

  /** What each event decides, in the registry its predecessors left; nothing for a `Finish`. */
  ghost function Decisions(es: seq<Event>): (ds: seq<Option<Decision>>)
    ensures |ds| == |es|
  {
    if es == [] then []
    else
      var front, last := es[..|es| - 1], es[|es| - 1];
      Decisions(front) + [if last.Begin? then Some(Outcome(After(front), last)) else None]
  }

  /** Event `i` runs a body with the confirmed flag set, for a destructive tool. */
  ghost predicate ConfirmedExecution(es: seq<Event>, i: nat)
    requires i < |es|
  {
    es[i].Begin? && es[i].destructive && Confirmed(es[i].args) && Decisions(es)[i].Some? && Decisions(es)[i].value.Run?
  }

  ghost predicate Registers(e: Event, k: Key) {
    e.Finish? && e.asks && e.destructive && k == Key(e.session, e.tool, HashArgs(e.args))
  }

  ghost predicate Consumes(es: seq<Event>, i: nat, k: Key)
    requires i < |es|
  {
    Decisions(es)[i].Some? && Decisions(es)[i].value.Run? && Decisions(es)[i].value.consumed == Some(k)
  }

  // ---------- One decision ----------

  /** Every narrowed candidate is a candidate. */
  lemma {:induction false} NarrowSubset(c: Registry, current: Args)
    ensures Narrow(c, current) <= c.Keys
  {
  }

  /** A confirmed execution consumes one live entry of its own session and tool, and runs on its arguments. */
  lemma {:induction false} DecisionIsLicensed(p: Registry, session: string, tool: string, args: Args)
    requires Confirmed(args)
    requires forall k :: k in p ==> k.hash == HashArgs(p[k].args)
    ensures var d := Decide(p, session, tool, true, args);
            d.Run? ==>
              && d.consumed.Some? && d.consumed.value in p
              && d.consumed.value.session == session && d.consumed.value.tool == tool
              && Confirmed(d.args) && SameButConfirmed(d.args, p[d.consumed.value].args)
  {
    var c := OfTool(p, session, tool);
    var left := Narrow(c, args);
    if Key(session, tool, HashArgs(args)) in c {
      EqualDigestsIff(args, c[Key(session, tool, HashArgs(args))].args);
    } else if |left| == 1 {
      NarrowSubset(c, args);
      var x :| x in left;
      SingletonSet(left, x);
      ConfirmKeepsArguments(c[x].args);
      assert Decide(p, session, tool, true, args) == Run(c[x].args[CONFIRMED := Bool(true)], Some(x));
    }
  }

  lemma {:induction false} ConfirmKeepsArguments(args: Args)
    ensures var confirmed := args[CONFIRMED := Bool(true)];
            Confirmed(confirmed) && SameButConfirmed(confirmed, args)
  {
  }

  /** A call runs as it came, without an entry, exactly when the tool is not destructive or the flag is not set. */
  lemma {:induction false} RunsAsItCameIff(
      p: Registry, session: string, tool: string, destructive: bool, args: Args)
    ensures Decide(p, session, tool, destructive, args) == Run(args, None) <==>
            !destructive || "confirmed" !in args || args["confirmed"] in {Null, Bool(false), Int(0), Str("")}
  {
    ConfirmedIff(args);
  }

  /** A confirm that repeats the arguments of a pending call runs as it came, whatever else is pending. */
  lemma {:induction false} RepeatedArgumentsRun(p: Registry, args: Args, k: Key)
    requires Confirmed(args) && k in p && k.hash == HashArgs(p[k].args) && SameButConfirmed(args, p[k].args)
    ensures Decide(p, k.session, k.tool, true, args) == Run(args, Some(k))
  {
    EqualDigestsIff(args, p[k].args);
    assert k in OfTool(p, k.session, k.tool);
  }

  /**
   A confirm that misses the strict key executes exactly when one entry of its session and tool is
   left, or one agrees with strictly more of the resent arguments than every other; it is unmatched
   exactly when there is none, and ambiguous otherwise.
   */
  lemma {:induction false} FallbackIsUnambiguous(p: Registry, session: string, tool: string, args: Args)
    requires Confirmed(args) && Key(session, tool, HashArgs(args)) !in p
    ensures var c, d := OfTool(p, session, tool), Decide(p, session, tool, true, args);
            && (d.Run? <==> |c| == 1 || exists k :: UniqueBest(c, args, k))
            && (d.Run? ==> d.consumed.Some? && d.consumed.value in c
                           && (c.Keys == {d.consumed.value} || UniqueBest(c, args, d.consumed.value))
                           && d.args == p[d.consumed.value].args[CONFIRMED := Bool(true)])
            && (d == Unmatched <==> c == map[])
  {
    var c := OfTool(p, session, tool);
    assert args != map[];
    if k :| UniqueBest(c, args, k) {
      assert c.Keys == {k} || |c.Keys| > 1 by {
        if |c.Keys| == 1 {
          SingletonSet(c.Keys, k);
        }
      }
      assert (set x | x in c && UniqueBest(c, args, x)) == {k};
      assert Narrow(c, args) == {k};
    } else if |c.Keys| == 1 {
      var x :| x in c.Keys;
      SingletonSet(c.Keys, x);
    }
    assert |c| == |c.Keys|;
  }

  // ---------- Every entry stems from a registration ----------

  /** Entry `k` was registered by event `j`, at most a TTL before its expiry, and not consumed since. */
  ghost predicate StemsFrom(es: seq<Event>, k: Key, entry: Entry, j: nat) {
    && j < |es|
    && Registers(es[j], k)
    && entry == Entry(es[j].now + PENDING_TTL_SECONDS, es[j].args)
    && forall m :: j < m < |es| ==> !Consumes(es, m, k)
  }

  lemma {:induction false} DecisionsOfPrefix(es: seq<Event>, n: nat)
    requires n <= |es|
    ensures Decisions(es[..n]) == Decisions(es)[..n]
    decreases |es|
  {
    if n == |es| {
      assert es[..n] == es;
    } else {
      assert es[..|es| - 1][..n] == es[..n];
      DecisionsOfPrefix(es[..|es| - 1], n);
    }
  }

  lemma {:induction false} DecisionAt(es: seq<Event>, i: nat)
    requires i < |es|
    ensures Decisions(es)[i] == if es[i].Begin? then Some(Outcome(After(es[..i]), es[i])) else None
  {
    DecisionsOfPrefix(es, i + 1);
    assert es[..i + 1][..i] == es[..i];
  }

  /** The entry `k` of a registry after one more event: newly registered, or carried over unconsumed. */
  lemma {:induction false} EntryAfterStep(p: Registry, e: Event, k: Key)
    requires k in Step(p, e)
    ensures Registers(e, k) ==> Step(p, e)[k] == Entry(e.now + PENDING_TTL_SECONDS, e.args)
    ensures !Registers(e, k) ==> k in p && Step(p, e)[k] == p[k]
    ensures e.Begin? ==> p[k].expires >= e.now && !(Outcome(p, e).Run? && Outcome(p, e).consumed == Some(k))
  {
  }

  lemma {:induction false} EntriesStemFromRegistrations(es: seq<Event>, k: Key) returns (j: nat)
    requires k in After(es)
    ensures StemsFrom(es, k, After(es)[k], j)
    decreases |es|
  {
    var n := |es| - 1;
    var front, e := es[..n], es[n];
    EntryAfterStep(After(front), e, k);
    if Registers(e, k) {
      j := n;
    } else {
      j := EntriesStemFromRegistrations(front, k);
      DecisionsOfPrefix(es, n);
      forall m | j < m < |es| ensures !Consumes(es, m, k) {
        if m < n {
          assert Decisions(front)[m] == Decisions(es)[m];
          assert !Consumes(front, m, k);
        }
      }
    }
  }

  lemma {:induction false} HashesMatch(es: seq<Event>)
    ensures forall k :: k in After(es) ==> k.hash == HashArgs(After(es)[k].args)
  {
    forall k | k in After(es) ensures k.hash == HashArgs(After(es)[k].args) {
      var j := EntriesStemFromRegistrations(es, k);
    }
  }

  /**
   Main safety theorem.  A confirmed execution is licensed by a pending confirmation of the same
   session and tool, registered at most the TTL earlier, whose arguments it runs on, and which no
   earlier execution has used; and it removes that entry.
   */
  lemma {:induction false} ConfirmedExecutionIsLicensed(es: seq<Event>, i: nat) returns (k: Key, j: nat)
    requires Monotone(es) && i < |es| && ConfirmedExecution(es, i)
    ensures Consumes(es, i, k) && k !in After(es[..i + 1])
    ensures k.session == es[i].session && k.tool == es[i].tool
    ensures j < i && Registers(es[j], k)
    ensures es[i].now - PENDING_TTL_SECONDS <= es[j].now <= es[i].now
    ensures Confirmed(Decisions(es)[i].value.args)
    ensures SameButConfirmed(Decisions(es)[i].value.args, es[j].args)
    ensures forall m :: j < m < i ==> !Consumes(es, m, k)
  {
    var before := es[..i];
    var p := Prune(After(before), es[i].now);
    DecisionAt(es, i);
    HashesMatch(before);
    DecisionIsLicensed(p, es[i].session, es[i].tool, es[i].args);
    k := Decisions(es)[i].value.consumed.value;
    j := EntriesStemFromRegistrations(before, k);
    DecisionsOfPrefix(es, i);
    forall m | j < m < i ensures !Consumes(es, m, k) {
      assert Decisions(before)[m] == Decisions(es)[m];
      assert !Consumes(before, m, k);
    }
    assert es[..i + 1][..i] == before;
    assert After(es[..i + 1]) == Step(After(before), es[i]);
  }

  // ---------- How long a confirmation stays pending ----------

  ghost predicate Untouched(es: seq<Event>, j: nat, k: Key) {
    forall m :: j < m < |es| ==> !Registers(es[m], k) && !Consumes(es, m, k)
  }

  lemma {:induction false} UntouchedBefore(es: seq<Event>, j: nat, k: Key)
    requires j < |es| - 1 && Untouched(es, j, k)
    ensures Untouched(es[..|es| - 1], j, k)
  {
    var n := |es| - 1;
    DecisionsOfPrefix(es, n);
    forall m | j < m < n ensures !Registers(es[..n][m], k) && !Consumes(es[..n], m, k) {
      assert Decisions(es[..n])[m] == Decisions(es)[m];
      assert !Registers(es[m], k) && !Consumes(es, m, k);
    }
  }

  lemma {:induction false} EntrySurvives(p: Registry, e: Event, k: Key)
    requires k in p && !Registers(e, k) && p[k].expires >= e.now
    requires e.Begin? ==> !(Outcome(p, e).Run? && Outcome(p, e).consumed == Some(k))
    ensures k in Step(p, e)
  {
  }

  lemma {:induction false} RegisteredEntry(es: seq<Event>, j: nat, k: Key)
    requires Monotone(es) && j < |es| && Registers(es[j], k) && Untouched(es, j, k)
    ensures k in After(es) ==> After(es)[k] == Entry(es[j].now + 300, es[j].args)
    ensures es[|es| - 1].now <= es[j].now + 300 ==> k in After(es)
    decreases |es|
  {
    var n := |es| - 1;
    if j < n {
      UntouchedBefore(es, j, k);
      RegisteredEntry(es[..n], j, k);
      assert !Registers(es[n], k) && !Consumes(es, n, k);
      if k in After(es) {
        EntryAfterStep(After(es[..n]), es[n], k);
      }
      if es[n].now <= es[j].now + 300 {
        assert es[..n][n - 1].now <= es[n].now;
        EntrySurvives(After(es[..n]), es[n], k);
      }
    }
  }

  /**
   A call that asked for confirmation can be confirmed for exactly 300 seconds, with the arguments it
   was made with, unless it is confirmed or asked again in between.
   */
  lemma {:induction false} PendingLastsFiveMinutes(es: seq<Event>, j: nat, k: Key, now: int)
    requires Monotone(es) && j < |es| && Registers(es[j], k) && Untouched(es, j, k) && es[|es| - 1].now <= now
    ensures k in Prune(After(es), now) <==> now <= es[j].now + 300
    ensures k in After(es) ==> After(es)[k].args == es[j].args
  {
    RegisteredEntry(es, j, k);
  }

  // ---------- Counting ----------

  ghost function Registrations(es: seq<Event>, k: Key): nat {
    if es == [] then 0
    else Registrations(es[..|es| - 1], k) + if Registers(es[|es| - 1], k) then 1 else 0
  }

  ghost function Executions(es: seq<Event>, k: Key): nat {
    if es == [] then 0
    else Executions(es[..|es| - 1], k) + if Consumes(es, |es| - 1, k) then 1 else 0
  }

  /** Confirmed executions of a (session, tool, arguments) never outnumber its registrations. */
  lemma {:induction false} ExecutionsNeverOutnumberRegistrations(es: seq<Event>, k: Key)
    ensures Executions(es, k) + (if k in After(es) then 1 else 0) <= Registrations(es, k)
    decreases |es|
  {
    if es != [] {
      var n := |es| - 1;
      ExecutionsNeverOutnumberRegistrations(es[..n], k);
      var p, e := After(es[..n]), es[n];
      if k in Step(p, e) {
        EntryAfterStep(p, e, k);
      }
      if Consumes(es, n, k) {
        ConsumedIsPresent(Prune(p, e.now), e.session, e.tool, e.destructive, e.args);
      }
    }
  }

  lemma {:induction false} ConsumedIsPresent(p: Registry, session: string, tool: string, destructive: bool, args: Args)
    ensures var d := Decide(p, session, tool, destructive, args);
            d.Run? && d.consumed.Some? ==> d.consumed.value in p
  {
    NarrowSubset(OfTool(p, session, tool), args);
  }

  /** A refused confirm executes nothing and changes nothing but expired entries. */
  lemma RefusalChangesOnlyExpired(p: Registry, e: Event, k: Key)
    requires e.Begin? && !Outcome(p, e).Run?
    ensures k in Step(p, e) <==> k in p && p[k].expires >= e.now
    ensures k in Step(p, e) ==> Step(p, e)[k] == p[k]
  {
  }

  // ---------- Sessions do not interfere ----------

  function OfSession(es: seq<Event>, session: string): seq<Event> {
    if es == [] then []
    else if es[|es| - 1].session == session then OfSession(es[..|es| - 1], session) + [es[|es| - 1]]
    else OfSession(es[..|es| - 1], session)
  }

  /** The two registries agree on the entries of `session` that are still live at `now`. */
  ghost predicate AgreeOn(p: Registry, q: Registry, session: string, now: int) {
    forall k: Key :: k.session == session ==>
      && (k in p && p[k].expires >= now <==> k in q && q[k].expires >= now)
      && (k in p && p[k].expires >= now ==> p[k] == q[k])
  }

  lemma {:induction false} AgreeingRegistriesDecideAlike(p: Registry, q: Registry, e: Event)
    requires e.Begin? && AgreeOn(p, q, e.session, e.now)
    ensures Outcome(p, e) == Outcome(q, e)
    ensures AgreeOn(Step(p, e), Step(q, e), e.session, e.now)
  {
    var p', q' := Prune(p, e.now), Prune(q, e.now);
    assert OfTool(p', e.session, e.tool) == OfTool(q', e.session, e.tool);
  }

  lemma {:induction false} OtherSessionsLeaveEntriesAlone(p: Registry, e: Event, session: string)
    requires e.session != session
    ensures AgreeOn(Step(p, e), p, session, e.now)
  {
    if e.Begin? {
      OwnSessionConsumed(Prune(p, e.now), e.session, e.tool, e.destructive, e.args);
    }
  }

  lemma {:induction false} OwnSessionConsumed(p: Registry, session: string, tool: string, destructive: bool, args: Args)
    ensures var d := Decide(p, session, tool, destructive, args);
            d.Run? && d.consumed.Some? ==> d.consumed.value.session == session
  {
    NarrowSubset(OfTool(p, session, tool), args);
  }

  lemma {:induction false} AgreementStep(p: Registry, q: Registry, e: Event, session: string, now: int)
    requires AgreeOn(p, q, session, e.now) && e.now <= now
    ensures AgreeOn(Step(p, e), if e.session == session then Step(q, e) else q, session, now)
  {
    if e.session != session {
      OtherSessionsLeaveEntriesAlone(p, e, session);
    } else if e.Begin? {
      AgreeingRegistriesDecideAlike(p, q, e);
    }
  }

  lemma {:induction false} AfterSnoc(es: seq<Event>, e: Event)
    ensures After(es + [e]) == Step(After(es), e)
  {
    assert (es + [e])[..|es|] == es;
  }

  lemma {:induction false} ProjectionAgrees(es: seq<Event>, session: string, now: int)
    requires Monotone(es) && forall i :: 0 <= i < |es| ==> es[i].now <= now
    ensures AgreeOn(After(es), After(OfSession(es, session)), session, now)
    decreases |es|
  {
    if es != [] {
      var n := |es| - 1;
      var e := es[n];
      ProjectionAgrees(es[..n], session, e.now);
      AgreementStep(After(es[..n]), After(OfSession(es[..n], session)), e, session, now);
      AfterSnoc(OfSession(es[..n], session), e);
    }
  }

  /**
   Session isolation.  Whatever the other sessions do in between, and although pruning is global,
   a call is decided exactly as it would be in the run of its own session alone.
   */
  lemma {:induction false} SessionsAreIsolated(es: seq<Event>, i: nat)
    requires Monotone(es) && i < |es| && es[i].Begin?
    ensures var own := OfSession(es[..i + 1], es[i].session);
            own != [] && own[|own| - 1] == es[i] && Decisions(own)[|own| - 1] == Decisions(es)[i]
  {
    var before := OfSession(es[..i], es[i].session);
    var own := before + [es[i]];
    assert es[..i + 1][..i] == es[..i];
    assert OfSession(es[..i + 1], es[i].session) == own;
    DecisionAt(es, i);
    DecisionAt(own, |before|);
    assert own[..|before|] == before;
    ProjectionAgrees(es[..i], es[i].session, es[i].now);
    AgreeingRegistriesDecideAlike(After(es[..i]), After(before), es[i]);
  }
}
