/**
 The confirmation gate inside an analyst turn: which of its refusals make the function-calling loop
 stop calling the tool (agent/loop/function_calling.py, agent/tools/_action_base.py).

 Both refusals are failures, but only the one for a missing pending call contains the text the loop
 looks for.
 */
module GatedTurn {
  import opened Options
  import opened ConfirmGate
  import opened GateRuns
  import opened Sequences
  import opened AgentTurn

  /** One call of an action tool, with the registry and the clock it meets. */
  datatype GateCall = GateCall(
    pending: Registry, now: int, session: string, tool: string, destructive: bool, args: Args)

  ghost function Decided(c: GateCall): Decision {
    Decide(Prune(c.pending, c.now), c.session, c.tool, c.destructive, c.args)
  }

  /** What the loop reads off the result: that of the tool body if it ran, else that of the refusal. */
  function OutcomeOf(d: Decision, body: ToolOutcome): ToolOutcome {
    if d.Run? then body else ToolOutcome(false, d == Unmatched)
  }

  /** The model's call `call` reaches the gate as `c`, and the loop sees the gate's answer. */
  ghost predicate Passes(t: Turn, call: ToolCall, c: GateCall, body: ToolOutcome, env: Environment) {
    && call.name == Some(c.tool) && call.args == Object(Confirmed(c.args))
    && c.tool != "" && c.tool in env.registry && c.tool !in t.blocked
    && env.tool(t.dispatches) == OutcomeOf(Decided(c), body)
  }

  // ---------- Refusals ----------

  /** The gate refuses confirmed calls of destructive tools only, and for one of two reasons. */
  lemma {:induction false} RefusedCallIsConfirmed(c: GateCall)
    requires !Decided(c).Run?
    ensures c.destructive && Confirmed(c.args)
    ensures Key(c.session, c.tool, HashArgs(c.args)) !in Prune(c.pending, c.now)
    ensures Decided(c) == Unmatched || Decided(c) == Ambiguous
  {
  }

  /** A refused call blocks its tool exactly when the session has no pending call of the tool left. */
  lemma {:induction false} RefusalBlocksIff(t: Turn, call: ToolCall, c: GateCall, body: ToolOutcome, env: Environment)
    requires Passes(t, call, c, body, env) && !Decided(c).Run?
    ensures c.tool in AnswerOne(t, call, env).turn.blocked <==> Decided(c) == Unmatched
    ensures Decided(c) == Unmatched <==> OfTool(Prune(c.pending, c.now), c.session, c.tool) == map[]
  {
    RefusedCallIsConfirmed(c);
    FallbackIsUnambiguous(Prune(c.pending, c.now), c.session, c.tool, c.args);
  }

  // ---------- The rest of the turn ----------

  ghost predicate NoCallOf(calls: seq<ToolCall>, tool: string) {
    forall call :: call in calls ==> call.name != Some(tool)
  }

  ghost predicate ReplyWithout(r: Reply, tool: string) {
    r.Reply? && r.choice.Some? ==> NoCallOf(r.choice.value.toolCalls, tool)
  }

  lemma {:induction false} OtherCallsKeepBlocked(t: Turn, calls: seq<ToolCall>, env: Environment, tool: string)
    requires NoCallOf(calls, tool)
    ensures tool in AnswerAll(t, calls, env).turn.blocked <==> tool in t.blocked
    decreases |calls|
  {
    if calls != [] {
      assert calls[0] in calls && forall call :: call in calls[1..] ==> call in calls;
      OtherCallsKeepBlocked(AnswerOne(t, calls[0], env).turn, calls[1..], env, tool);
    }
  }

  /** The loop has asked once more, and starts on the tool calls of the reply. */
  ghost function Asked(t: Turn, env: Environment): Turn
    requires env.llm(t.requests).Reply? && env.llm(t.requests).choice.Some?
  {
    var reply := env.llm(t.requests);
    Append(CountUsage(Send(t), reply), AssistantCalls(Ids(reply.choice.value.toolCalls)))
  }

  /** The first `n` steps from `t` all go on, and lead to `t'`. */
  ghost predicate GoesOn(t: Turn, n: nat, cap: nat, env: Environment, t': Turn)
    decreases n
  {
    if n == 0 then t == t'
    else OneStep(t, cap, env).Continue? && GoesOn(OneStep(t, cap, env).next, n - 1, cap, env, t')
  }

  lemma {:induction false} OtherStepsKeepBlocked(
      t: Turn, n: nat, cap: nat, env: Environment, t': Turn, tool: string)
    requires GoesOn(t, n, cap, env, t')
    requires forall k :: t.requests <= k < t.requests + n ==> ReplyWithout(env.llm(k), tool)
    ensures tool in t'.blocked <==> tool in t.blocked
    decreases n
  {
    if n > 0 {
      var calls := env.llm(t.requests).choice.value.toolCalls;
      OtherCallsKeepBlocked(Asked(t, env), calls, env, tool);
      AnswerAllAnswersEach(Asked(t, env), calls, env);
      OtherStepsKeepBlocked(OneStep(t, cap, env).next, n - 1, cap, env, t', tool);
    }
  }

  /**
   After a refused confirm, the next call of the tool in the same reply reaches the tool again exactly
   when the refusal was not for a missing pending call.
   */
  lemma {:induction false} RefusedToolIsStoppedInReplyIff(
      t: Turn, first: ToolCall, c: GateCall, body: ToolOutcome, between: seq<ToolCall>, again: ToolCall,
      env: Environment)
    requires Passes(t, first, c, body, env) && !Decided(c).Run?
    requires NoCallOf(between, c.tool) && again.name == Some(c.tool) && again.args.Object?
    ensures var t' := AnswerAll(AnswerOne(t, first, env).turn, between, env).turn;
            AnswerOne(t', again, env).turn.dispatches == t'.dispatches + 1 <==> Decided(c) != Unmatched
  {
    var t1 := AnswerOne(t, first, env).turn;
    RefusalBlocksIff(t, first, c, body, env);
    OtherCallsKeepBlocked(t1, between, env, c.tool);
    DispatchedIff(AnswerAll(t1, between, env).turn, again, env);
  }

  /**
   The same for any later reply of the turn: `rest` are the calls after the refused one, then come `n`
   steps without a call of the tool, and then a reply in which the calls `before` precede the next one.
   */
  lemma {:induction false} RefusedToolIsStoppedIff(
      t: Turn, first: ToolCall, c: GateCall, body: ToolOutcome, rest: seq<ToolCall>, n: nat, t': Turn,
      before: seq<ToolCall>, again: ToolCall, cap: nat, env: Environment)
    requires Passes(t, first, c, body, env) && !Decided(c).Run?
    requires NoCallOf(rest, c.tool) && NoCallOf(before, c.tool)
    requires again.name == Some(c.tool) && again.args.Object?
    requires var t2 := AnswerAll(AnswerOne(t, first, env).turn, rest, env).turn;
             && GoesOn(t2, n, cap, env, t')
             && forall k :: t2.requests <= k < t2.requests + n ==> ReplyWithout(env.llm(k), c.tool)
    requires env.llm(t'.requests).Reply? && env.llm(t'.requests).choice.Some?
    ensures var t3 := AnswerAll(Asked(t', env), before, env).turn;
            AnswerOne(t3, again, env).turn.dispatches == t3.dispatches + 1 <==> Decided(c) != Unmatched
  {
    var t1 := AnswerOne(t, first, env).turn;
    RefusalBlocksIff(t, first, c, body, env);
    OtherCallsKeepBlocked(t1, rest, env, c.tool);
    OtherStepsKeepBlocked(AnswerAll(t1, rest, env).turn, n, cap, env, t', c.tool);
    OtherCallsKeepBlocked(Asked(t', env), before, env, c.tool);
    DispatchedIff(AnswerAll(Asked(t', env), before, env).turn, again, env);
  }

  // ---------- Whole turns ----------

  /** The `n`-th dispatch of a turn: its two clock readings, its arguments, and what the tool body does if it runs. */
  datatype Call = Call(
    now: int, later: int, tool: string, destructive: bool, args: Args, asks: bool, body: ToolOutcome)

  /** The registry after one call: begun, and finished if the body ran. */
  ghost function Served(p: Registry, session: string, c: Call): Registry {
    var begin := Begin(c.now, session, c.tool, c.destructive, c.args);
    var d, begun := GateRuns.Outcome(p, begin), GateRuns.Step(p, begin);
    if d.Run? then GateRuns.Step(begun, Finish(c.later, session, c.tool, c.destructive, d.args, c.asks)) else begun
  }

  /** One registry goes through the turn: this is what the `n`-th dispatch meets. */
  ghost function RegistryAt(p: Registry, session: string, calls: nat -> Call, n: nat): Registry {
    if n == 0 then p else Served(RegistryAt(p, session, calls, n - 1), session, calls(n - 1))
  }

  ghost function GateCallAt(p: Registry, session: string, calls: nat -> Call, n: nat): GateCall {
    var c := calls(n);
    GateCall(RegistryAt(p, session, calls, n), c.now, session, c.tool, c.destructive, c.args)
  }

  /** The tools answer as the gate lets them. */
  ghost function Gated(
      llm: nat -> Reply, p: Registry, session: string, calls: nat -> Call, registry: set<string>): Environment
  {
    Environment(
      llm, (n: nat) => OutcomeOf(Decided(GateCallAt(p, session, calls, n)), calls(n).body), registry)
  }

  /** Event `i` of the log is a dispatch, and the gate call it stands for. */
  ghost predicate StandsFor(log: seq<AgentTurn.Event>, i: nat, c: GateCall, body: ToolOutcome) {
    && i < |log|
    && log[i] == Dispatch(c.tool, Confirmed(c.args), OutcomeOf(Decided(c), body))
  }

  /** In every turn, a tool refused for a missing pending call is not dispatched again, whatever the model does. */
  lemma {:induction false} UnmatchedConfirmIsNotRepeated(
      historyLength: nat, maxSteps: nat, cap: nat, env: Environment, i: nat, j: nat, c: GateCall, body: ToolOutcome)
    requires var log := Loop(Start(historyLength), 0, maxSteps, cap, env).0.log;
             && StandsFor(log, i, c, body) && Decided(c) == Unmatched
             && i < j < |log| && log[j].Dispatch?
    ensures Loop(Start(historyLength), 0, maxSteps, cap, env).0.log[j].name != c.tool
  {
    RefusedCallIsConfirmed(c);
    TurnIsSafe(historyLength, maxSteps, cap, env);
  }

  // ---------- Repeating an ambiguous confirm ----------

  lemma {:induction false} PruneTwice(p: Registry, now: int, later: int)
    requires now <= later
    ensures Prune(Prune(p, now), later) == Prune(p, later)
  {
  }

  /**
   A confirm repeated right after an ambiguous refusal, with whatever arguments, executes exactly when
   it now names a pending call by its arguments, or one call is left or agrees best with them.
   */
  lemma {:induction false} RepeatRunsIff(p: Registry, session: string, calls: nat -> Call, n: nat)
    requires Decided(GateCallAt(p, session, calls, n)) == Ambiguous && calls(n).now <= calls(n + 1).now
    requires calls(n + 1).tool == calls(n).tool && calls(n + 1).destructive && Confirmed(calls(n + 1).args)
    ensures var again := calls(n + 1);
            var left := OfTool(Prune(RegistryAt(p, session, calls, n), again.now), session, again.tool);
            Decided(GateCallAt(p, session, calls, n + 1)).Run? <==>
            || Key(session, again.tool, HashArgs(again.args)) in left
            || |left| == 1 || exists k :: UniqueBest(left, again.args, k)
  {
    var before, again := RegistryAt(p, session, calls, n), calls(n + 1);
    assert RegistryAt(p, session, calls, n + 1) == Prune(before, calls(n).now);
    PruneTwice(before, calls(n).now, again.now);
    var live := Prune(before, again.now);
    if Key(session, again.tool, HashArgs(again.args)) !in live {
      FallbackIsUnambiguous(live, session, again.tool, again.args);
    }
  }

  const ONE: Args := map["target" := Str("192.0.2.1")]
  const TWO: Args := map["target" := Str("192.0.2.2")]

  /** Two pending calls of one tool. */
  function TwoPending(session: string, tool: string): Registry {
    map[Key(session, tool, ONE) := Entry(300, ONE), Key(session, tool, TWO) := Entry(300, TWO)]
  }

  /** Both asked for confirmation at time 0. */
  lemma {:induction false} TwoPendingIsReachable(session: string, tool: string)
    ensures After([Finish(0, session, tool, true, ONE, true), Finish(0, session, tool, true, TWO, true)]) ==
            TwoPending(session, tool)
  {
    var a, b := Finish(0, session, tool, true, ONE, true), Finish(0, session, tool, true, TWO, true);
    assert [a, b][..1] == [a] && [a][..0] == [];
    assert HashArgs(ONE) == ONE && HashArgs(TWO) == TWO;
    assert After([a]) == map[Key(session, tool, ONE) := Entry(300, ONE)];
  }

  lemma {:induction false} TwoArguments()
    ensures ONE != TWO
  {
    assert ONE["target"].s[8] != TWO["target"].s[8];
  }

  lemma {:induction false} ScoreCountsArguments(current: Args, stored: Args)
    ensures Score(current, stored) <= |current.Keys - {CONFIRMED}|
  {
    var agreeing := set x | x in current && x != CONFIRMED && x in stored && PyEquals(stored[x], current[x]);
    SubsetSize(agreeing, current.Keys - {CONFIRMED});
  }

  /** Where several calls of a tool are pending, a confirm without arguments is ambiguous. */
  lemma {:induction false} BareConfirmIsAmbiguous(p: Registry, session: string, tool: string, args: Args)
    requires Confirmed(args) && args.Keys == {CONFIRMED} && Key(session, tool, map[]) !in p
    requires |OfTool(p, session, tool)| >= 2
    ensures Decide(p, session, tool, true, args) == Ambiguous
  {
    var c := OfTool(p, session, tool);
    assert HashArgs(args) == map[];
    assert args.Keys - {CONFIRMED} == {};
    forall k | k in c ensures !UniqueBest(c, args, k) {
      ScoreCountsArguments(args, c[k].args);
    }
    FallbackIsUnambiguous(p, session, tool, args);
  }

  /** Calls of one tool at time 0: first a bare confirm, then a confirm with the given arguments. */
  function Confirms(tool: string, again: Args, body: ToolOutcome): nat -> Call {
    n => Call(0, 0, tool, true, (if n == 0 then map[] else again)[CONFIRMED := Bool(true)], false, body)
  }

  /** A bare confirm of one of two pending calls leaves the registry as it is. */
  lemma {:induction false} FirstConfirmIsAmbiguous(session: string, tool: string, again: Args, body: ToolOutcome)
    ensures Decided(GateCallAt(TwoPending(session, tool), session, Confirms(tool, again, body), 0)) == Ambiguous
    ensures RegistryAt(TwoPending(session, tool), session, Confirms(tool, again, body), 1) == TwoPending(session, tool)
  {
    var p := TwoPending(session, tool);
    TwoArguments();
    assert Prune(p, 0) == p && OfTool(p, session, tool) == p;
    assert p.Keys == {Key(session, tool, ONE), Key(session, tool, TWO)};
    BareConfirmIsAmbiguous(p, session, tool, map[CONFIRMED := Bool(true)]);
  }

  /** A model that confirms the tool twice in its first reply, and answers in its second. */
  function ConfirmsTwice(tool: string): nat -> Reply {
    var call := ToolCall("1", Some(tool), Object(true));
    n => Reply(0, 0, Some(if n == 0 then Choice(Blank, [call, call], false) else Choice(Text("done"), [], false)))
  }

  lemma {:induction false} DispatchedUnblocked(
      t: Turn, call: ToolCall, env: Environment, c: GateCall, body: ToolOutcome) returns (t': Turn)
    requires Passes(t, call, c, body, env) && Decided(c) == Ambiguous && t.blocked == {}
    ensures t' == AnswerOne(t, call, env).turn && AnswerOne(t, call, env).ok
    ensures t'.blocked == {} && t'.dispatches == t.dispatches + 1 && t'.requests == t.requests && t'.tokens == t.tokens
    ensures t'.log == t.log + [Dispatch(c.tool, Confirmed(c.args), OutcomeOf(Decided(c), body))]
  {
    t' := AnswerOne(t, call, env).turn;
  }

  lemma {:induction false} FirstStepDispatchesBoth(
      start: Turn, env: Environment, cap: nat, c1: GateCall, c2: GateCall, body: ToolOutcome) returns (next: Turn)
    requires c1.tool == c2.tool != "" && Confirmed(c1.args) && Confirmed(c2.args) && Decided(c1) == Ambiguous
    requires env.llm == ConfirmsTwice(c1.tool) && env.registry == {c1.tool}
    requires env.tool(0) == OutcomeOf(Decided(c1), body) && env.tool(1) == OutcomeOf(Decided(c2), body)
    requires start.blocked == {} && start.requests == start.tokens == start.dispatches == 0 && start.log == []
    ensures OneStep(start, cap, env) == Continue(next)
    ensures |next.log| == 3 && StandsFor(next.log, 1, c1, body) && StandsFor(next.log, 2, c2, body)
  {
    var call := ToolCall("1", Some(c1.tool), Object(true));
    var t0 := Asked(start, env);
    var t1 := DispatchedUnblocked(t0, call, env, c1, body);
    next := AnswerOne(t1, call, env).turn;
    assert |next.log| == 3 && next.log[..2] == t1.log;
    assert [call, call][1..] == [call] && [call][1..] == [];
    assert AnswerAll(next, [], env) == Progress(next, true);
    assert AnswerAll(t1, [call], env) == Progress(next, true);
    assert AnswerAll(t0, [call, call], env) == Progress(next, true);
  }

  /** The turn in which a bare confirm of one of two pending calls is followed by a second confirm. */
  ghost function SecondConfirm(session: string, tool: string, again: Args, body: ToolOutcome): Environment {
    Gated(ConfirmsTwice(tool), TwoPending(session, tool), session, Confirms(tool, again, body), {tool})
  }

  lemma {:induction false} ConfirmsAnswered(session: string, tool: string, again: Args, body: ToolOutcome)
    returns (env: Environment, c1: GateCall, c2: GateCall)
    ensures env == SecondConfirm(session, tool, again, body)
    ensures env.llm == ConfirmsTwice(tool) && env.registry == {tool}
    ensures c1 == GateCall(TwoPending(session, tool), 0, session, tool, true, map[CONFIRMED := Bool(true)])
    ensures c2 == GateCall(TwoPending(session, tool), 0, session, tool, true, again[CONFIRMED := Bool(true)])
    ensures Decided(c1) == Ambiguous
    ensures env.tool(0) == OutcomeOf(Decided(c1), body) && env.tool(1) == OutcomeOf(Decided(c2), body)
  {
    var p, calls := TwoPending(session, tool), Confirms(tool, again, body);
    env := SecondConfirm(session, tool, again, body);
    c1, c2 := GateCallAt(p, session, calls, 0), GateCallAt(p, session, calls, 1);
    FirstConfirmIsAmbiguous(session, tool, again, body);
  }

  lemma {:induction false} BothConfirmsAreDispatched(
      historyLength: nat, maxSteps: nat, cap: nat, session: string, tool: string, again: Args, body: ToolOutcome)
    returns (log: seq<AgentTurn.Event>, c1: GateCall, c2: GateCall)
    requires maxSteps > 0 && tool != ""
    ensures log == Loop(Start(historyLength), 0, maxSteps, cap, SecondConfirm(session, tool, again, body)).0.log
    ensures c1 == GateCall(TwoPending(session, tool), 0, session, tool, true, map[CONFIRMED := Bool(true)])
    ensures c2 == GateCall(TwoPending(session, tool), 0, session, tool, true, again[CONFIRMED := Bool(true)])
    ensures Decided(c1) == Ambiguous && StandsFor(log, 1, c1, body) && StandsFor(log, 2, c2, body)
  {
    var env;
    env, c1, c2 := ConfirmsAnswered(session, tool, again, body);
    var next := FirstStepDispatchesBoth(Start(historyLength), env, cap, c1, c2, body);
    LoopKeepsLog(next, 1, maxSteps, cap, env);
    log := Loop(Start(historyLength), 0, maxSteps, cap, env).0.log;
    assert next.log == log[..|next.log|];
  }

  /** An ambiguous confirm is refused, but the loop lets the model repeat it at once, and it is refused again. */
  lemma {:induction false} AmbiguousConfirmIsRepeated(
      historyLength: nat, maxSteps: nat, cap: nat, session: string, tool: string, body: ToolOutcome)
    returns (log: seq<AgentTurn.Event>, c1: GateCall, c2: GateCall)
    requires maxSteps > 0 && tool != ""
    ensures log == Loop(Start(historyLength), 0, maxSteps, cap, SecondConfirm(session, tool, map[], body)).0.log
    ensures Decided(c1) == Ambiguous == Decided(c2)
    ensures StandsFor(log, 1, c1, body) && StandsFor(log, 2, c2, body)
  {
    log, c1, c2 := BothConfirmsAreDispatched(historyLength, maxSteps, cap, session, tool, map[], body);
  }

  /** Repeated with the arguments of one of the pending calls, the confirm executes the body in the same turn. */
  lemma {:induction false} AmbiguousConfirmThenExecutes(
      historyLength: nat, maxSteps: nat, cap: nat, session: string, tool: string, body: ToolOutcome)
    returns (log: seq<AgentTurn.Event>, c1: GateCall, c2: GateCall)
    requires maxSteps > 0 && tool != ""
    ensures log == Loop(Start(historyLength), 0, maxSteps, cap, SecondConfirm(session, tool, ONE, body)).0.log
    ensures Decided(c1) == Ambiguous && Decided(c2) == Run(ONE[CONFIRMED := Bool(true)], Some(Key(session, tool, ONE)))
    ensures StandsFor(log, 1, c1, body) && StandsFor(log, 2, c2, body)
  {
    log, c1, c2 := BothConfirmsAreDispatched(historyLength, maxSteps, cap, session, tool, ONE, body);
    StrictConfirmRuns(c2, session, tool);
  }

  lemma {:induction false} StrictConfirmRuns(c: GateCall, session: string, tool: string)
    requires c == GateCall(TwoPending(session, tool), 0, session, tool, true, ONE[CONFIRMED := Bool(true)])
    ensures Decided(c) == Run(ONE[CONFIRMED := Bool(true)], Some(Key(session, tool, ONE)))
  {
    assert HashArgs(c.args) == ONE;
    assert Key(session, tool, ONE) in OfTool(Prune(c.pending, 0), session, tool);
  }
}
