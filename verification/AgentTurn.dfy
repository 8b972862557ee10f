/**
 One analyst turn of the agent: the function-calling loop of agent/loop/function_calling.py.

 The language model and the tool bodies are the environment: their `n`-th reply is `llm(n)`,
 `tool(n)`, for any functions `llm` and `tool`.  Message texts are kept only as far as the loop
 branches on them.
 */
module AgentTurn {
  import opened Options

  /** Text content: blank, containing raw tool-call markup, or anything else. */
  datatype Content = Blank | Leaked | Text(text: string)

  /** Decoded arguments: not JSON, not acceptable as keyword arguments, or an object. */
  datatype CallArgs = Malformed | Uncallable | Object(confirmed: bool)

  datatype ToolCall = ToolCall(id: string, name: Option<string>, args: CallArgs)
  datatype Choice = Choice(content: Content, toolCalls: seq<ToolCall>, truncated: bool)
  datatype Reply = ApiError | Reply(promptTokens: nat, completionTokens: nat, choice: Option<Choice>)

  /** The two facts the loop reads off a tool's result. */
  datatype ToolOutcome = ToolOutcome(success: bool, mentionsPending: bool)

  datatype Environment = Environment(llm: nat -> Reply, tool: nat -> ToolOutcome, registry: set<string>)

  datatype ToolBody = BlockedError | UnknownToolError | Outcome(outcome: ToolOutcome)

  datatype Message =
    | Plain
    | AssistantCalls(ids: seq<string>)
    | ToolAnswer(id: string, body: ToolBody)

  /** What the turn does to the outside world. */
  datatype Event =
    | Request(messages: seq<Message>, tokensBefore: nat)
    | Dispatch(name: string, confirmed: bool, outcome: ToolOutcome)

  datatype Turn = Turn(
    messages: seq<Message>,
    blocked: set<string>,
    tokens: nat,
    llmCalls: nat,
    requests: nat,
    dispatches: nat,
    log: seq<Event>)

  datatype Answer = Final(content: Content) | Fallback | Failed

  // ---------- The loop as a function ----------

  /** The turn after `t`, and whether it goes on. */
  datatype Progress = Progress(turn: Turn, ok: bool)

  function Send(t: Turn): Turn {
    t.(log := t.log + [Request(t.messages, t.tokens)], requests := t.requests + 1)
  }

  function CountUsage(t: Turn, reply: Reply): Turn
    requires reply.Reply?
  {
    t.(llmCalls := t.llmCalls + 1, tokens := t.tokens + reply.promptTokens + reply.completionTokens)
  }

  function Append(t: Turn, m: Message): Turn {
    t.(messages := t.messages + [m])
  }

  predicate FailedPendingCheck(e: Event) {
    e.Dispatch? && e.confirmed && !e.outcome.success && e.outcome.mentionsPending
  }

  function AnswerOne(t: Turn, call: ToolCall, env: Environment): Progress {
    if call.name.Some? && call.name.value in t.blocked then
      Progress(Append(t, ToolAnswer(call.id, BlockedError)), true)
    else if call.name == None || call.name.value == "" || call.name.value !in env.registry then
      Progress(Append(t, ToolAnswer(call.id, UnknownToolError)), true)
    else if !call.args.Object? then
      Progress(t, false)
    else
      var outcome := env.tool(t.dispatches);
      var e := Dispatch(call.name.value, call.args.confirmed, outcome);
      var t' := t.(
        log := t.log + [e],
        dispatches := t.dispatches + 1,
        blocked := if FailedPendingCheck(e) then t.blocked + {e.name} else t.blocked);
      Progress(Append(t', ToolAnswer(call.id, Outcome(outcome))), true)
  }

  function AnswerAll(t: Turn, calls: seq<ToolCall>, env: Environment): Progress
    decreases |calls|
  {
    if calls == [] then Progress(t, true)
    else
      var p := AnswerOne(t, calls[0], env);
      if p.ok then AnswerAll(p.turn, calls[1..], env) else p
  }

  function Ids(calls: seq<ToolCall>): seq<string> {
    seq(|calls|, i requires 0 <= i < |calls| => calls[i].id)
  }

  function ForceFinalAnswer(t: Turn, env: Environment): (Turn, Answer) {
    var t1 := Send(Append(t, Plain));
    var reply := env.llm(t.requests);
    if reply.ApiError? then (t1, Failed)
    else
      var t2 := CountUsage(t1, reply);
      if reply.choice.None? || reply.choice.value.content.Blank? then (t2, Fallback)
      else (t2, Final(reply.choice.value.content))
  }

  /** The branch without tool calls. */
  function Conclude(t: Turn, choice: Choice, env: Environment): (Turn, Answer) {
    if choice.content.Leaked? then (t, Failed)
    else if choice.content.Blank? then ForceFinalAnswer(t, env)
    else if choice.truncated then
      var t1 := Send(t);
      var reply := env.llm(t.requests);
      if reply.ApiError? then (t1, Failed)
      else
        var t2 := CountUsage(t1, reply);
        if reply.choice.Some? && !reply.choice.value.content.Blank? then (t2, Final(reply.choice.value.content))
        else (t2, Final(choice.content))
    else (t, Final(choice.content))
  }

  datatype StepResult = Continue(next: Turn) | Stop(last: Turn, answer: Answer)

  /** One round of the loop: ask, check the budget, and either end the turn or answer the tool calls. */
  function OneStep(t: Turn, tokenCap: nat, env: Environment): StepResult {
    var t1 := Send(t);
    var reply := env.llm(t.requests);
    if reply.ApiError? then Stop(t1, Failed)
    else
      var t2 := CountUsage(t1, reply);
      if t2.tokens > tokenCap then
        var (t3, answer) := ForceFinalAnswer(t2, env);
        Stop(t3, answer)
      else if reply.choice.None? then Stop(t2, Failed)
      else if reply.choice.value.toolCalls == [] then
        var (t3, answer) := Conclude(t2, reply.choice.value, env);
        Stop(t3, answer)
      else
        var calls := reply.choice.value.toolCalls;
        var p := AnswerAll(Append(t2, AssistantCalls(Ids(calls))), calls, env);
        if p.ok then Continue(p.turn) else Stop(p.turn, Failed)
  }

  function Loop(t: Turn, step: nat, maxSteps: nat, tokenCap: nat, env: Environment): (Turn, Answer)
    decreases maxSteps - step
  {
    if step >= maxSteps then ForceFinalAnswer(t, env)
    else
      match OneStep(t, tokenCap, env)
      case Continue(next) => Loop(next, step + 1, maxSteps, tokenCap, env)
      case Stop(last, answer) => (last, answer)
  }

  function Start(historyLength: nat): Turn {
    Turn(seq(historyLength + 1, _ => Plain), {}, 0, 0, 0, 0, [])
  }

  // ---------- The loop as the code runs it ----------

  method RunFunctionCalling(historyLength: nat, maxSteps: nat, tokenCap: nat, env: Environment)
    returns (t: Turn, answer: Answer)
    ensures (t, answer) == Loop(Start(historyLength), 0, maxSteps, tokenCap, env)
  {
    t := Start(historyLength);
    var step := 0;
    while step < maxSteps
      invariant step <= maxSteps
      invariant Loop(t, step, maxSteps, tokenCap, env) == Loop(Start(historyLength), 0, maxSteps, tokenCap, env)
    {
      var reply := env.llm(t.requests);
      t := Send(t);
      if reply.ApiError? {
        return t, Failed;
      }
      t := CountUsage(t, reply);
      if t.tokens > tokenCap {
        var (forcedTurn, forcedAnswer) := ForceFinalAnswer(t, env);
        return forcedTurn, forcedAnswer;
      }
      if reply.choice.None? {
        return t, Failed;
      }
      var choice := reply.choice.value;
      if choice.toolCalls == [] {
        var (lastTurn, lastAnswer) := Conclude(t, choice, env);
        return lastTurn, lastAnswer;
      }
      t := Append(t, AssistantCalls(Ids(choice.toolCalls)));
      var ok;
      t, ok := ExecuteToolCalls(t, choice.toolCalls, env);
      if !ok {
        return t, Failed;
      }
      step := step + 1;
    }
    var (forcedTurn, forcedAnswer) := ForceFinalAnswer(t, env);
    return forcedTurn, forcedAnswer;
  }

  /** The inner loop over the tool calls of one reply. */
  method ExecuteToolCalls(start: Turn, calls: seq<ToolCall>, env: Environment) returns (t: Turn, ok: bool)
    ensures Progress(t, ok) == AnswerAll(start, calls, env)
  {
    t := start;
    var i := 0;
    while i < |calls|
      invariant i <= |calls|
      invariant AnswerAll(t, calls[i..], env) == AnswerAll(start, calls, env)
    {
      assert calls[i..][0] == calls[i] && calls[i..][1..] == calls[i + 1..];
      var p := AnswerOne(t, calls[i], env);
      t := p.turn;
      if !p.ok {
        return t, false;
      }
      i := i + 1;
    }
    ok := true;
  }

  // ---------- What a turn keeps ----------

  /** The messages are the answers to the calls `ids`, in order. */
  ghost predicate Answers(ms: seq<Message>, ids: seq<string>) {
    && |ms| == |ids|
    && forall k :: 0 <= k < |ids| ==> ms[k].ToolAnswer? && ms[k].id == ids[k]
  }

  /**
   Every assistant message with tool calls is followed by exactly one answer per call, with the
   same ids in the same order, and there are no other tool answers.
   */
  ghost predicate Disciplined(ms: seq<Message>)
    decreases |ms|
  {
    ms == [] ||
    match ms[0]
    case Plain => Disciplined(ms[1..])
    case AssistantCalls(ids) =>
      1 + |ids| <= |ms| && Answers(ms[1..1 + |ids|], ids) && Disciplined(ms[1 + |ids|..])
    case ToolAnswer(_, _) => false
  }

  /** The first `n` messages are a message without calls, or one with calls and its answers. */
  ghost predicate StartsWith(ms: seq<Message>, n: nat) {
    && 0 < n <= |ms|
    && match ms[0]
       case Plain => n == 1
       case AssistantCalls(ids) => n == 1 + |ids| && Answers(ms[1..n], ids)
       case ToolAnswer(_, _) => false
  }

  lemma {:induction false} DisciplinedSplit(ms: seq<Message>) returns (n: nat)
    requires ms != [] && Disciplined(ms)
    ensures StartsWith(ms, n) && Disciplined(ms[n..])
  {
    n := if ms[0].Plain? then 1 else 1 + |ms[0].ids|;
  }

  lemma {:induction false} DisciplinedJoin(ms: seq<Message>, n: nat)
    requires StartsWith(ms, n) && Disciplined(ms[n..])
    ensures Disciplined(ms)
  {
  }

  lemma {:induction false} StartConcat(x: seq<Message>, y: seq<Message>, n: nat)
    requires StartsWith(x, n)
    ensures StartsWith(x + y, n) && (x + y)[n..] == x[n..] + y
  {
    assert (x + y)[1..n] == x[1..n];
  }

  lemma {:induction false} DisciplinedConcat(x: seq<Message>, y: seq<Message>)
    requires Disciplined(x) && Disciplined(y)
    ensures Disciplined(x + y)
    decreases |x|
  {
    if x == [] {
      assert x + y == y;
    } else {
      var n := DisciplinedSplit(x);
      DisciplinedConcat(x[n..], y);
      StartConcat(x, y, n);
      DisciplinedJoin(x + y, n);
    }
  }

  lemma {:induction false} PlainsAreDisciplined(n: nat)
    ensures Disciplined(seq(n, _ => Plain))
  {
    if n > 0 {
      var ms: seq<Message> := seq(n, _ => Plain);
      PlainsAreDisciplined(n - 1);
      assert ms[1..] == seq(n - 1, _ => Plain);
    }
  }

  lemma {:induction false} AnswersCons(m: Message, ms: seq<Message>, ids: seq<string>)
    requires m.ToolAnswer? && Answers(ms, ids)
    ensures Answers([m] + ms, [m.id] + ids)
  {
  }

  /** `AnswerAll` leaves what was there and adds one answer per call, unless it stops the turn. */
  lemma {:induction false} AnswerAllAnswersEach(t: Turn, calls: seq<ToolCall>, env: Environment)
    ensures var p := AnswerAll(t, calls, env);
            && p.turn.requests == t.requests && p.turn.llmCalls == t.llmCalls && p.turn.tokens == t.tokens
            && t.messages <= p.turn.messages
            && (p.ok ==> Answers(p.turn.messages[|t.messages|..], Ids(calls)))
    decreases |calls|
  {
    if calls != [] {
      var first := AnswerOne(t, calls[0], env);
      if first.ok {
        AnswerAllAnswersEach(first.turn, calls[1..], env);
        var p := AnswerAll(t, calls, env);
        if p.ok {
          var n := |t.messages|;
          var m := first.turn.messages[n];
          assert p.turn.messages[n] == m;
          AnswersCons(m, p.turn.messages[n + 1..], Ids(calls[1..]));
          assert p.turn.messages[n..] == [m] + p.turn.messages[n + 1..];
          assert Ids(calls) == [calls[0].id] + Ids(calls[1..]);
        }
      }
    }
  }

  /** Over the log so far: every request carried a disciplined history. */
  ghost predicate RequestsDisciplined(log: seq<Event>) {
    forall e :: e in log && e.Request? ==> Disciplined(e.messages)
  }

  /** No tool is dispatched again after its confirmed call failed the pending check. */
  ghost predicate NoRetryAfterFailedCheck(log: seq<Event>) {
    forall i, j :: 0 <= i < j < |log| && FailedPendingCheck(log[i]) && log[j].Dispatch? ==> log[j].name != log[i].name
  }

  ghost function CountRequests(log: seq<Event>): nat {
    if log == [] then 0
    else CountRequests(log[..|log| - 1]) + if log[|log| - 1].Request? then 1 else 0
  }

  ghost function CountOverCap(log: seq<Event>, cap: nat): nat {
    if log == [] then 0
    else
      var last := log[|log| - 1];
      CountOverCap(log[..|log| - 1], cap) + if last.Request? && last.tokensBefore > cap then 1 else 0
  }

  /** What holds of the turn and its log between any two steps. */
  ghost predicate Kept(t: Turn, env: Environment) {
    && RequestsDisciplined(t.log)
    && NoRetryAfterFailedCheck(t.log)
    && (forall e :: e in t.log && FailedPendingCheck(e) ==> e.name in t.blocked)
    && (forall e :: e in t.log && e.Dispatch? ==> e.name in env.registry)
    && CountRequests(t.log) == t.requests
    && t.llmCalls <= t.requests
  }

  lemma {:induction false} SendKeeps(t: Turn, env: Environment, cap: nat)
    requires Kept(t, env) && Disciplined(t.messages)
    ensures Kept(Send(t), env)
    ensures CountOverCap(Send(t).log, cap) == CountOverCap(t.log, cap) + if t.tokens > cap then 1 else 0
  {
    var log := Send(t).log;
    assert log[..|log| - 1] == t.log;
  }

  lemma {:induction false} DispatchKeeps(t: Turn, e: Event, env: Environment, cap: nat)
    requires Kept(t, env) && e.Dispatch? && e.name !in t.blocked && e.name in env.registry
    ensures var blocked := if FailedPendingCheck(e) then t.blocked + {e.name} else t.blocked;
            Kept(t.(log := t.log + [e], dispatches := t.dispatches + 1, blocked := blocked), env)
    ensures CountOverCap(t.log + [e], cap) == CountOverCap(t.log, cap)
  {
    var log := t.log + [e];
    assert log[..|log| - 1] == t.log;
  }

  lemma {:induction false} AnswerOneKeeps(t: Turn, call: ToolCall, env: Environment, cap: nat)
    requires Kept(t, env)
    ensures Kept(AnswerOne(t, call, env).turn, env)
    ensures CountOverCap(AnswerOne(t, call, env).turn.log, cap) == CountOverCap(t.log, cap)
  {
    if AnswerOne(t, call, env).turn.log != t.log {
      DispatchKeeps(t, Dispatch(call.name.value, call.args.confirmed, env.tool(t.dispatches)), env, cap);
    }
  }

  lemma {:induction false} AnswerAllKeeps(t: Turn, calls: seq<ToolCall>, env: Environment, cap: nat)
    requires Kept(t, env)
    ensures Kept(AnswerAll(t, calls, env).turn, env)
    ensures CountOverCap(AnswerAll(t, calls, env).turn.log, cap) == CountOverCap(t.log, cap)
    decreases |calls|
  {
    if calls != [] {
      AnswerOneKeeps(t, calls[0], env, cap);
      AnswerAllKeeps(AnswerOne(t, calls[0], env).turn, calls[1..], env, cap);
    }
  }

  /** A reply with tool calls, fully answered, keeps the history disciplined. */
  lemma {:induction false} AnsweredCallsAreDisciplined(t: Turn, calls: seq<ToolCall>, env: Environment)
    requires Disciplined(t.messages)
    requires AnswerAll(Append(t, AssistantCalls(Ids(calls))), calls, env).ok
    ensures Disciplined(AnswerAll(Append(t, AssistantCalls(Ids(calls))), calls, env).turn.messages)
  {
    var t1 := Append(t, AssistantCalls(Ids(calls)));
    var ms := AnswerAll(t1, calls, env).turn.messages;
    AnswerAllAnswersEach(t1, calls, env);
    var n := |t.messages|;
    var added := ms[n..];
    assert ms == t.messages + added by {
      assert ms[..n] == t1.messages[..n] == t.messages;
    }
    assert added[0] == ms[n] == t1.messages[n];
    assert added[1..1 + |calls|] == ms[n + 1..] && added[1 + |calls|..] == [];
    DisciplinedConcat(t.messages, added);
  }

  lemma {:induction false} ForceKeeps(t: Turn, env: Environment, cap: nat)
    requires Kept(t, env) && Disciplined(t.messages) && t.llmCalls == t.requests
    ensures var (t', answer) := ForceFinalAnswer(t, env);
            && Kept(t', env) && t'.requests == t.requests + 1
            && CountOverCap(t'.log, cap) <= CountOverCap(t.log, cap) + 1
  {
    assert Disciplined([Plain]) by {
      assert [Plain][1..] == [];
    }
    DisciplinedConcat(t.messages, [Plain]);
    SendKeeps(Append(t, Plain), env, cap);
  }

  lemma {:induction false} ConcludeKeeps(t: Turn, choice: Choice, env: Environment, cap: nat)
    requires Kept(t, env) && Disciplined(t.messages) && t.llmCalls == t.requests
    ensures var (t', answer) := Conclude(t, choice, env);
            && Kept(t', env) && t'.requests <= t.requests + 1
            && CountOverCap(t'.log, cap) <= CountOverCap(t.log, cap) + 1
  {
    if choice.content.Blank? {
      ForceKeeps(t, env, cap);
    } else if !choice.content.Leaked? && choice.truncated {
      SendKeeps(t, env, cap);
    }
  }

  lemma {:induction false} CallsKeep(t: Turn, calls: seq<ToolCall>, env: Environment, cap: nat)
    requires Kept(t, env) && Disciplined(t.messages)
    ensures var p := AnswerAll(Append(t, AssistantCalls(Ids(calls))), calls, env);
            && Kept(p.turn, env)
            && p.turn.requests == t.requests && p.turn.llmCalls == t.llmCalls && p.turn.tokens == t.tokens
            && CountOverCap(p.turn.log, cap) == CountOverCap(t.log, cap)
            && (p.ok ==> Disciplined(p.turn.messages))
  {
    var t1 := Append(t, AssistantCalls(Ids(calls)));
    AnswerAllKeeps(t1, calls, env, cap);
    AnswerAllAnswersEach(t1, calls, env);
    if AnswerAll(t1, calls, env).ok {
      AnsweredCallsAreDisciplined(t, calls, env);
    }
  }

  /** One ordinary step up to the token check. */
  lemma {:induction false} StepKeeps(t: Turn, reply: Reply, env: Environment, cap: nat)
    requires Kept(t, env) && Disciplined(t.messages) && reply.Reply? && t.tokens <= cap
    ensures Kept(CountUsage(Send(t), reply), env)
    ensures CountOverCap(CountUsage(Send(t), reply).log, cap) == CountOverCap(t.log, cap)
  {
    SendKeeps(t, env, cap);
  }

  lemma {:induction false} OneStepKeeps(t: Turn, cap: nat, env: Environment)
    requires Kept(t, env) && Disciplined(t.messages) && t.llmCalls == t.requests && t.tokens <= cap
    ensures match OneStep(t, cap, env)
            case Continue(t') =>
              && Kept(t', env) && Disciplined(t'.messages) && t'.llmCalls == t'.requests == t.requests + 1
              && t'.tokens <= cap && CountOverCap(t'.log, cap) == CountOverCap(t.log, cap)
            case Stop(t', _) =>
              && Kept(t', env) && t'.requests <= t.requests + 2
              && CountOverCap(t'.log, cap) <= CountOverCap(t.log, cap) + 1
  {
    var reply := env.llm(t.requests);
    if reply.ApiError? {
      SendKeeps(t, env, cap);
    } else {
      StepKeeps(t, reply, env, cap);
      var t2 := CountUsage(Send(t), reply);
      if t2.tokens > cap {
        ForceKeeps(t2, env, cap);
      } else if reply.choice.Some? {
        if reply.choice.value.toolCalls == [] {
          ConcludeKeeps(t2, reply.choice.value, env, cap);
        } else {
          CallsKeep(t2, reply.choice.value.toolCalls, env, cap);
        }
      }
    }
  }

  lemma {:induction false} LoopKeeps(t: Turn, step: nat, maxSteps: nat, cap: nat, env: Environment)
    returns (t': Turn, answer: Answer)
    requires Kept(t, env) && Disciplined(t.messages) && t.llmCalls == t.requests == step <= maxSteps
    requires t.tokens <= cap && CountOverCap(t.log, cap) == 0
    ensures (t', answer) == Loop(t, step, maxSteps, cap, env)
    ensures Kept(t', env) && t'.requests <= maxSteps + 1 && CountOverCap(t'.log, cap) <= 1
    decreases maxSteps - step
  {
    if step >= maxSteps {
      ForceKeeps(t, env, cap);
      var forced := ForceFinalAnswer(t, env);
      t', answer := forced.0, forced.1;
    } else {
      OneStepKeeps(t, cap, env);
      match OneStep(t, cap, env)
      case Continue(next) =>
        t', answer := LoopKeeps(next, step + 1, maxSteps, cap, env);
      case Stop(last, final) =>
        t', answer := last, final;
    }
  }

  /**
   Whatever the model and the tools reply: every request carries a disciplined history, a tool
   that failed the pending check is not dispatched again in the turn, only registered tools are
   dispatched, there are at most `maxSteps + 1` requests, and at most one of them is made after
   the token cap is passed.
   */
  lemma TurnIsSafe(historyLength: nat, maxSteps: nat, cap: nat, env: Environment)
    ensures var (t, answer) := Loop(Start(historyLength), 0, maxSteps, cap, env);
            && RequestsDisciplined(t.log)
            && NoRetryAfterFailedCheck(t.log)
            && (forall e :: e in t.log && e.Dispatch? ==> e.name in env.registry)
            && t.llmCalls <= CountRequests(t.log) <= maxSteps + 1
            && CountOverCap(t.log, cap) <= 1
  {
    PlainsAreDisciplined(historyLength + 1);
    var t, answer := LoopKeeps(Start(historyLength), 0, maxSteps, cap, env);
  }

  // ---------- Blocked tools ----------

  /** A call reaches its tool exactly if the tool is registered and not blocked, and the arguments are an object. */
  lemma {:induction false} DispatchedIff(t: Turn, call: ToolCall, env: Environment)
    ensures AnswerOne(t, call, env).turn.dispatches == t.dispatches + 1 <==>
            && call.name.Some? && call.name.value != "" && call.name.value in env.registry
            && call.name.value !in t.blocked && call.args.Object?
    ensures AnswerOne(t, call, env).turn.dispatches == t.dispatches <==>
            AnswerOne(t, call, env).turn.log == t.log
  {
    assert AnswerOne(t, call, env).turn.log != t.log ==> |AnswerOne(t, call, env).turn.log| == |t.log| + 1;
  }

  /** Nothing that was done is forgotten. */
  lemma {:induction false} AnswersKeepLog(t: Turn, calls: seq<ToolCall>, env: Environment)
    ensures t.log <= AnswerAll(t, calls, env).turn.log
    decreases |calls|
  {
    if calls != [] {
      AnswersKeepLog(AnswerOne(t, calls[0], env).turn, calls[1..], env);
    }
  }

  lemma {:induction false} StepKeepsLog(t: Turn, cap: nat, env: Environment)
    ensures match OneStep(t, cap, env)
            case Continue(t') => t.log <= t'.log
            case Stop(t', _) => t.log <= t'.log
  {
    var reply := env.llm(t.requests);
    if reply.Reply? && reply.choice.Some? {
      var calls := reply.choice.value.toolCalls;
      AnswersKeepLog(Append(CountUsage(Send(t), reply), AssistantCalls(Ids(calls))), calls, env);
    }
  }

  lemma {:induction false} LoopKeepsLog(t: Turn, step: nat, maxSteps: nat, cap: nat, env: Environment)
    ensures t.log <= Loop(t, step, maxSteps, cap, env).0.log
    decreases maxSteps - step
  {
    if step < maxSteps {
      StepKeepsLog(t, cap, env);
      match OneStep(t, cap, env)
      case Continue(t') => LoopKeepsLog(t', step + 1, maxSteps, cap, env);
      case Stop(_, _) =>
    }
  }

  // ---------- Leaked markup ----------

  /** The reply carries raw tool-call markup as its text. */
  predicate Leaks(r: Reply) {
    r.Reply? && r.choice.Some? && r.choice.value.content.Leaked?
  }

  /** The text of the reply is not final: it is blank, or was cut off. */
  predicate AsksAgain(choice: Choice) {
    choice.content.Blank? || (choice.content.Text? && choice.truncated)
  }

  lemma {:induction false} ForcedLeakIff(t: Turn, env: Environment)
    ensures ForceFinalAnswer(t, env).1 == Final(Leaked) <==> Leaks(env.llm(t.requests))
  {
  }

  lemma {:induction false} ConcludedLeakIff(t: Turn, choice: Choice, env: Environment)
    ensures Conclude(t, choice, env).1 == Final(Leaked) <==> AsksAgain(choice) && Leaks(env.llm(t.requests))
  {
    ForcedLeakIff(t, env);
  }

  /** The tokens of the replies to the first `n` requests. */
  ghost function Spent(env: Environment, n: nat): nat {
    if n == 0 then 0
    else
      var r := env.llm(n - 1);
      Spent(env, n - 1) + if r.Reply? then r.promptTokens + r.completionTokens else 0
  }

  /** The step with request `n` ends the turn, and the request after it is the last one. */
  ghost predicate AsksOnceMore(env: Environment, n: nat, cap: nat) {
    var r := env.llm(n);
    && r.Reply?
    && (Spent(env, n + 1) > cap || (r.choice.Some? && r.choice.value.toolCalls == [] && AsksAgain(r.choice.value)))
  }

  /** What decides how calls are answered: the tools blocked, and the number of dispatches so far. */
  datatype Standing = Standing(blocked: set<string>, dispatches: nat)

  function StandingOf(t: Turn): Standing {
    Standing(t.blocked, t.dispatches)
  }

  /** The call names a registered tool that is not blocked. */
  predicate NamesTool(call: ToolCall, blocked: set<string>, registry: set<string>) {
    call.name.Some? && call.name.value != "" && call.name.value in registry && call.name.value !in blocked
  }

  function StandingAfter(s: Standing, call: ToolCall, env: Environment): Standing {
    if NamesTool(call, s.blocked, env.registry) && call.args.Object? then
      var outcome := env.tool(s.dispatches);
      var blocks := call.args.confirmed && !outcome.success && outcome.mentionsPending;
      Standing(if blocks then s.blocked + {call.name.value} else s.blocked, s.dispatches + 1)
    else s
  }

  function StandingAfterAll(s: Standing, calls: seq<ToolCall>, env: Environment): Standing
    decreases |calls|
  {
    if calls == [] then s else StandingAfterAll(StandingAfter(s, calls[0], env), calls[1..], env)
  }

  /** Each call that names a tool at its turn has an object as its arguments. */
  predicate AllUsable(s: Standing, calls: seq<ToolCall>, env: Environment)
    decreases |calls|
  {
    calls == []
    || ((NamesTool(calls[0], s.blocked, env.registry) ==> calls[0].args.Object?)
        && AllUsable(StandingAfter(s, calls[0], env), calls[1..], env))
  }

  /** The calls of a reply are all answered exactly when their arguments are usable. */
  lemma {:induction false} AnsweredIff(t: Turn, calls: seq<ToolCall>, env: Environment)
    ensures var p := AnswerAll(t, calls, env);
            && (p.ok <==> AllUsable(StandingOf(t), calls, env))
            && (p.ok ==> StandingOf(p.turn) == StandingAfterAll(StandingOf(t), calls, env))
    decreases |calls|
  {
    if calls != [] {
      AnsweredIff(AnswerOne(t, calls[0], env).turn, calls[1..], env);
    }
  }

  /** Request `n` is within budget, and is answered by tool calls that can all be answered. */
  ghost predicate GoesOnAt(n: nat, s: Standing, cap: nat, env: Environment) {
    var r := env.llm(n);
    && r.Reply? && Spent(env, n + 1) <= cap
    && r.choice.Some? && r.choice.value.toolCalls != [] && AllUsable(s, r.choice.value.toolCalls, env)
  }

  lemma {:induction false} StepLeakIff(t: Turn, cap: nat, env: Environment)
    requires t.tokens == Spent(env, t.requests)
    ensures OneStep(t, cap, env).Continue? <==> GoesOnAt(t.requests, StandingOf(t), cap, env)
    ensures match OneStep(t, cap, env)
            case Stop(_, answer) =>
              answer == Final(Leaked) <==> AsksOnceMore(env, t.requests, cap) && Leaks(env.llm(t.requests + 1))
            case Continue(next) =>
              && next.requests == t.requests + 1 && next.tokens == Spent(env, next.requests)
              && StandingOf(next) ==
                 StandingAfterAll(StandingOf(t), env.llm(t.requests).choice.value.toolCalls, env)
  {
    var reply := env.llm(t.requests);
    if reply.Reply? {
      var t2 := CountUsage(Send(t), reply);
      if t2.tokens > cap {
        ForcedLeakIff(t2, env);
      } else if reply.choice.Some? {
        var calls := reply.choice.value.toolCalls;
        if calls == [] {
          ConcludedLeakIff(t2, reply.choice.value, env);
        } else {
          AnsweredIff(Append(t2, AssistantCalls(Ids(calls))), calls, env);
          AnswerAllAnswersEach(Append(t2, AssistantCalls(Ids(calls))), calls, env);
        }
      }
    }
  }

  /** From request `r` on, `n` steps go on. */
  ghost predicate GoesOnFor(r: nat, s: Standing, n: nat, cap: nat, env: Environment)
    decreases n
  {
    n == 0
    || (GoesOnAt(r, s, cap, env)
        && GoesOnFor(r + 1, StandingAfterAll(s, env.llm(r).choice.value.toolCalls, env), n - 1, cap, env))
  }

  /** After `n` steps that go on, either the steps are used up or the next step asks once more; and that leaks. */
  ghost predicate LeaksAfter(r: nat, s: Standing, n: nat, steps: nat, cap: nat, env: Environment) {
    && n <= steps && GoesOnFor(r, s, n, cap, env)
    && if n == steps then Leaks(env.llm(r + n)) else AsksOnceMore(env, r + n, cap) && Leaks(env.llm(r + n + 1))
  }

  ghost predicate LeaksEventually(r: nat, s: Standing, steps: nat, cap: nat, env: Environment) {
    exists n: nat :: LeaksAfter(r, s, n, steps, cap, env)
  }

  /** With no steps left, or where the steps do not go on, only the very next request can leak. */
  lemma {:induction false} LeaksAtOnce(r: nat, s: Standing, steps: nat, cap: nat, env: Environment)
    requires steps == 0 || !GoesOnAt(r, s, cap, env)
    ensures LeaksEventually(r, s, steps, cap, env) <==>
            if steps == 0 then Leaks(env.llm(r)) else AsksOnceMore(env, r, cap) && Leaks(env.llm(r + 1))
  {
    assert GoesOnFor(r, s, 0, cap, env);
    assert LeaksEventually(r, s, steps, cap, env) <==> LeaksAfter(r, s, 0, steps, cap, env);
  }

  lemma {:induction false} LeaksLater(r: nat, s: Standing, steps: nat, cap: nat, env: Environment)
    requires steps > 0 && GoesOnAt(r, s, cap, env)
    ensures LeaksEventually(r, s, steps, cap, env) <==>
            LeaksEventually(r + 1, StandingAfterAll(s, env.llm(r).choice.value.toolCalls, env), steps - 1, cap, env)
  {
    var next, left := StandingAfterAll(s, env.llm(r).choice.value.toolCalls, env), steps - 1;
    if LeaksEventually(r + 1, next, left, cap, env) {
      var n: nat :| LeaksAfter(r + 1, next, n, left, cap, env);
      assert LeaksAfter(r, s, n + 1, steps, cap, env);
    }
    if LeaksEventually(r, s, steps, cap, env) {
      var n: nat :| LeaksAfter(r, s, n, steps, cap, env);
      assert n > 0 && LeaksAfter(r + 1, next, n - 1, left, cap, env);
    }
  }

  lemma {:induction false} LoopLeakIff(t: Turn, step: nat, maxSteps: nat, cap: nat, env: Environment)
    requires step <= maxSteps && t.tokens == Spent(env, t.requests)
    ensures Loop(t, step, maxSteps, cap, env).1 == Final(Leaked) <==>
            LeaksEventually(t.requests, StandingOf(t), maxSteps - step, cap, env)
    decreases maxSteps - step
  {
    if step == maxSteps {
      ForcedLeakIff(t, env);
      LeaksAtOnce(t.requests, StandingOf(t), 0, cap, env);
    } else {
      StepLeakIff(t, cap, env);
      match OneStep(t, cap, env)
      case Stop(_, _) => LeaksAtOnce(t.requests, StandingOf(t), maxSteps - step, cap, env);
      case Continue(next) =>
        LoopLeakIff(next, step + 1, maxSteps, cap, env);
        LeaksLater(t.requests, StandingOf(t), maxSteps - step, cap, env);
    }
  }

  /**
   Raw tool-call markup is rejected only in the replies of ordinary steps.  It reaches the analyst
   exactly when the loop asks once more, because the steps or the tokens are used up or an answer
   without tool calls was blank or cut off, and the reply to that last request contains the markup.
   */
  lemma {:induction false} LeakReachesAnalystIff(historyLength: nat, maxSteps: nat, cap: nat, env: Environment)
    ensures Loop(Start(historyLength), 0, maxSteps, cap, env).1 == Final(Leaked) <==>
            LeaksEventually(0, Standing({}, 0), maxSteps, cap, env)
  {
    LoopLeakIff(Start(historyLength), 0, maxSteps, cap, env);
  }

  /** A model that first says `first`, at the given cost, and then leaks its markup. */
  function LeakAfter(first: Content, truncated: bool, cost: nat): Environment {
    Environment(
      n => if n == 0 then Reply(cost, 0, Some(Choice(first, [], truncated)))
           else Reply(0, 0, Some(Choice(Leaked, [], false))),
      _ => ToolOutcome(true, false), {})
  }

  function LeakingAtOnce(): Environment {
    Environment(_ => Reply(0, 0, Some(Choice(Leaked, [], false))), _ => ToolOutcome(true, false), {})
  }

  /** The leak happens in each of the four ways: steps used up, tokens used up, a blank answer, a truncated one. */
  lemma {:induction false} LeakHappens(historyLength: nat, maxSteps: nat, cap: nat, text: string)
    requires maxSteps > 0
    ensures Loop(Start(historyLength), 0, 0, cap, LeakingAtOnce()).1 == Final(Leaked)
    ensures Loop(Start(historyLength), 0, maxSteps, cap, LeakAfter(Text(text), false, cap + 1)).1 == Final(Leaked)
    ensures Loop(Start(historyLength), 0, maxSteps, cap, LeakAfter(Blank, false, 0)).1 == Final(Leaked)
    ensures Loop(Start(historyLength), 0, maxSteps, cap, LeakAfter(Text(text), true, 0)).1 == Final(Leaked)
  {
  }
}
