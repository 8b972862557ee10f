/**
 What a turn of the agent ends with, and what it reports, from the replies alone.

 A turn goes through steps that go on, up to a reply that does not or until its steps are used up.
 That last reply, and at most one more, decide the answer.
 */
module AgentAnswers {
  import opened Options
  import opened AgentTurn

  // ---------- Where the turn stops ----------

  /** What the calls of `n` replies from request `r` on leave behind. */
  ghost function StandingAt(r: nat, s: Standing, n: nat, env: Environment): Standing
    decreases n
  {
    if n == 0 || !env.llm(r).Reply? || env.llm(r).choice == None then s
    else StandingAt(r + 1, StandingAfterAll(s, env.llm(r).choice.value.toolCalls, env), n - 1, env)
  }

  /** From request `r` on, `n` steps go on, and then the steps are used up or the next one does not go on. */
  ghost predicate StopsAfter(r: nat, s: Standing, n: nat, steps: nat, cap: nat, env: Environment) {
    && n <= steps && GoesOnFor(r, s, n, cap, env)
    && (n < steps ==> !GoesOnAt(r + n, StandingAt(r, s, n, env), cap, env))
  }

  /** The turn `t` has counted all replies so far. */
  ghost predicate UpToDate(t: Turn, env: Environment) {
    t.tokens == Spent(env, t.requests) && t.llmCalls == t.requests
  }

  ghost function EndOf(last: Turn, exhausted: bool, cap: nat, env: Environment): (Turn, Answer) {
    if exhausted then ForceFinalAnswer(last, env)
    else
      match OneStep(last, cap, env)
      case Continue(next) => (next, Failed)
      case Stop(t, answer) => (t, answer)
  }

  lemma {:induction false} StepCounts(t: Turn, cap: nat, env: Environment)
    requires UpToDate(t, env)
    ensures match OneStep(t, cap, env)
            case Continue(next) => next.llmCalls == next.requests == t.requests + 1
            case Stop(_, _) => true
  {
    var reply := env.llm(t.requests);
    if reply.Reply? && reply.choice.Some? {
      var calls := reply.choice.value.toolCalls;
      AnswerAllAnswersEach(Append(CountUsage(Send(t), reply), AssistantCalls(Ids(calls))), calls, env);
    }
  }

  lemma {:induction false} LoopStops(t: Turn, step: nat, maxSteps: nat, cap: nat, env: Environment)
    returns (n: nat, last: Turn)
    requires step <= maxSteps && UpToDate(t, env)
    ensures StopsAfter(t.requests, StandingOf(t), n, maxSteps - step, cap, env)
    ensures UpToDate(last, env) && last.requests == t.requests + n
    ensures StandingOf(last) == StandingAt(t.requests, StandingOf(t), n, env)
    ensures Loop(t, step, maxSteps, cap, env) == EndOf(last, n == maxSteps - step, cap, env)
    decreases maxSteps - step
  {
    n, last := 0, t;
    if step < maxSteps {
      StepLeakIff(t, cap, env);
      StepCounts(t, cap, env);
      match OneStep(t, cap, env)
      case Stop(_, _) =>
      case Continue(next) =>
        n, last := LoopStops(next, step + 1, maxSteps, cap, env);
        n := n + 1;
    }
  }

  // ---------- The answer ----------

  /** Reply `k` has the text `c`, which is not blank. */
  predicate Says(env: Environment, k: nat, c: Content) {
    var r := env.llm(k);
    r.Reply? && r.choice.Some? && r.choice.value.content == c && c != Blank
  }

  /** Reply `k` has no text. */
  predicate IsMute(env: Environment, k: nat) {
    var r := env.llm(k);
    r.Reply? && (r.choice == None || r.choice.value.content == Blank)
  }

  /** The reply without tool calls `choice`, and reply `k` if a further one is needed, make `c` the answer. */
  predicate Concludes(choice: Choice, env: Environment, k: nat, c: Content) {
    match choice.content
    case Leaked => false
    case Blank => Says(env, k, c)
    case Text(x) =>
      if !choice.truncated then c == Text(x)
      else Says(env, k, c) || (IsMute(env, k) && c == Text(x))
  }

  /** Reply `k` is over budget, or ends the turn without tool calls. */
  ghost predicate IsOverCap(env: Environment, k: nat, cap: nat) {
    env.llm(k).Reply? && Spent(env, k + 1) > cap
  }

  ghost predicate HasAnswer(env: Environment, k: nat, cap: nat) {
    var r := env.llm(k);
    r.Reply? && Spent(env, k + 1) <= cap && r.choice.Some? && r.choice.value.toolCalls == []
  }

  /** `c` is the answer: said in a forced reply, or by the concluding one and its retry. */
  ghost predicate AnswersWith(k: nat, exhausted: bool, cap: nat, env: Environment, c: Content) {
    if exhausted then Says(env, k, c)
    else
      || (IsOverCap(env, k, cap) && Says(env, k + 1, c))
      || (HasAnswer(env, k, cap) && Concludes(env.llm(k).choice.value, env, k + 1, c))
  }

  /** The analyst gets the apology: the forced reply has no text. */
  ghost predicate Apologizes(k: nat, exhausted: bool, cap: nat, env: Environment) {
    if exhausted then IsMute(env, k)
    else
      && IsMute(env, k + 1)
      && (IsOverCap(env, k, cap) || (HasAnswer(env, k, cap) && env.llm(k).choice.value.content == Blank))
  }

  /** The turn fails: an API error, no choice, leaked markup in a step, or arguments that cannot be used. */
  ghost predicate Fails(k: nat, s: Standing, exhausted: bool, cap: nat, env: Environment) {
    var r := env.llm(k);
    if exhausted then r.ApiError?
    else
      || r.ApiError?
      || (IsOverCap(env, k, cap) && env.llm(k + 1).ApiError?)
      || (r.Reply? && Spent(env, k + 1) <= cap && r.choice == None)
      || (HasAnswer(env, k, cap)
          && (r.choice.value.content == Leaked || (AsksAgain(r.choice.value) && env.llm(k + 1).ApiError?)))
      || (r.Reply? && Spent(env, k + 1) <= cap && r.choice.Some? && !AllUsable(s, r.choice.value.toolCalls, env))
  }

  lemma {:induction false} ForcedAnswer(t: Turn, env: Environment)
    ensures var a, k := ForceFinalAnswer(t, env).1, t.requests;
            && (forall c :: a == Final(c) <==> Says(env, k, c))
            && (a == Fallback <==> IsMute(env, k)) && (a == Failed <==> env.llm(k).ApiError?)
  {
  }

  lemma {:induction false} ConcludedAnswer(t: Turn, choice: Choice, env: Environment)
    ensures var a, k := Conclude(t, choice, env).1, t.requests;
            && (forall c :: a == Final(c) <==> Concludes(choice, env, k, c))
            && (a == Fallback <==> choice.content == Blank && IsMute(env, k))
            && (a == Failed <==> choice.content == Leaked || (AsksAgain(choice) && env.llm(k).ApiError?))
  {
    ForcedAnswer(t, env);
  }

  lemma {:induction false} EndAnswer(last: Turn, exhausted: bool, cap: nat, env: Environment)
    requires UpToDate(last, env)
    requires !exhausted ==> !GoesOnAt(last.requests, StandingOf(last), cap, env)
    ensures var a, k := EndOf(last, exhausted, cap, env).1, last.requests;
            && (forall c :: a == Final(c) <==> AnswersWith(k, exhausted, cap, env, c))
            && (a == Fallback <==> Apologizes(k, exhausted, cap, env))
            && (a == Failed <==> Fails(k, StandingOf(last), exhausted, cap, env))
  {
    if exhausted {
      ForcedAnswer(last, env);
    } else {
      StepLeakIff(last, cap, env);
      var reply := env.llm(last.requests);
      if reply.Reply? {
        var t := CountUsage(Send(last), reply);
        ForcedAnswer(t, env);
        if reply.choice.Some? {
          ConcludedAnswer(t, reply.choice.value, env);
          AnsweredIff(Append(t, AssistantCalls(Ids(reply.choice.value.toolCalls))), reply.choice.value.toolCalls, env);
        }
      }
    }
  }

  /**
   The answer of every turn, from the replies alone: after `n` steps that go on, the reply that does
   not, or the lack of further steps, decides whether there is a text, an apology, or none.
   */
  lemma {:induction false} AnswerIsDecided(historyLength: nat, maxSteps: nat, cap: nat, env: Environment)
    returns (n: nat, s: Standing, answer: Answer)
    ensures StopsAfter(0, Standing({}, 0), n, maxSteps, cap, env) && s == StandingAt(0, Standing({}, 0), n, env)
    ensures answer == Loop(Start(historyLength), 0, maxSteps, cap, env).1
    ensures forall c :: answer == Final(c) <==> AnswersWith(n, n == maxSteps, cap, env, c)
    ensures answer == Fallback <==> Apologizes(n, n == maxSteps, cap, env)
    ensures answer == Failed <==> Fails(n, s, n == maxSteps, cap, env)
  {
    var last;
    n, last := LoopStops(Start(historyLength), 0, maxSteps, cap, env);
    s, answer := StandingOf(last), Loop(Start(historyLength), 0, maxSteps, cap, env).1;
    EndAnswer(last, n == maxSteps, cap, env);
  }

  // ---------- What is reported ----------

  /** How many of the first `n` requests were answered at all. */
  ghost function Replies(env: Environment, n: nat): nat {
    if n == 0 then 0 else Replies(env, n - 1) + if env.llm(n - 1).Reply? then 1 else 0
  }

  ghost predicate Reported(t: Turn, env: Environment) {
    t.tokens == Spent(env, t.requests) && t.llmCalls == Replies(env, t.requests)
  }

  lemma {:induction false} ForcedIsReported(t: Turn, env: Environment)
    requires Reported(t, env)
    ensures Reported(ForceFinalAnswer(t, env).0, env)
  {
  }

  lemma {:induction false} StepIsReported(t: Turn, cap: nat, env: Environment)
    requires Reported(t, env)
    ensures match OneStep(t, cap, env)
            case Continue(next) => Reported(next, env)
            case Stop(last, _) => Reported(last, env)
  {
    var reply := env.llm(t.requests);
    if reply.Reply? {
      var t2 := CountUsage(Send(t), reply);
      ForcedIsReported(t2, env);
      if reply.choice.Some? {
        var calls := reply.choice.value.toolCalls;
        AnswerAllAnswersEach(Append(t2, AssistantCalls(Ids(calls))), calls, env);
      }
    }
  }

  lemma {:induction false} LoopIsReported(t: Turn, step: nat, maxSteps: nat, cap: nat, env: Environment)
    requires Reported(t, env)
    ensures Reported(Loop(t, step, maxSteps, cap, env).0, env)
    decreases maxSteps - step
  {
    if step >= maxSteps {
      ForcedIsReported(t, env);
    } else {
      StepIsReported(t, cap, env);
      match OneStep(t, cap, env)
      case Continue(next) => LoopIsReported(next, step + 1, maxSteps, cap, env);
      case Stop(_, _) =>
    }
  }

  /** The turn reports the tokens and the number of all replies it got, the forced and retried ones included. */
  lemma {:induction false} UsageIsReported(historyLength: nat, maxSteps: nat, cap: nat, env: Environment)
    ensures var t := Loop(Start(historyLength), 0, maxSteps, cap, env).0;
            t.tokens == Spent(env, t.requests) && t.llmCalls == Replies(env, t.requests)
  {
    LoopIsReported(Start(historyLength), 0, maxSteps, cap, env);
  }

  /** The first request carries the history and the analyst's message. */
  lemma {:induction false} FirstRequest(historyLength: nat, maxSteps: nat, cap: nat, env: Environment)
    requires maxSteps > 0
    ensures var log := Loop(Start(historyLength), 0, maxSteps, cap, env).0.log;
            && log != [] && log[0].Request? && log[0].tokensBefore == 0
            && |log[0].messages| == historyLength + 1 && forall m :: m in log[0].messages ==> m == Plain
  {
    var t := Start(historyLength);
    var first := Send(t);
    StepStartsWithRequest(t, cap, env);
    match OneStep(t, cap, env)
    case Continue(next) =>
      LoopKeepsLog(next, 1, maxSteps, cap, env);
      assert next.log[0] == Loop(t, 0, maxSteps, cap, env).0.log[0];
    case Stop(_, _) =>
  }

  lemma {:induction false} StepStartsWithRequest(t: Turn, cap: nat, env: Environment)
    ensures match OneStep(t, cap, env)
            case Continue(t') => Send(t).log <= t'.log
            case Stop(t', _) => Send(t).log <= t'.log
  {
    var reply := env.llm(t.requests);
    if reply.Reply? && reply.choice.Some? {
      var calls := reply.choice.value.toolCalls;
      AnswersKeepLog(Append(CountUsage(Send(t), reply), AssistantCalls(Ids(calls))), calls, env);
    }
  }

  /**
   What the model is told about a call: that its tool is blocked, that there is no such tool, or what
   the tool it reached returned.
   */
  lemma {:induction false} AnswerSays(t: Turn, call: ToolCall, env: Environment)
    requires AnswerOne(t, call, env).ok
    ensures var ms := AnswerOne(t, call, env).turn.messages;
            && |ms| == |t.messages| + 1 && ms[|t.messages|].ToolAnswer?
            && var m := ms[|t.messages|];
               && m.id == call.id
               && (m.body == BlockedError <==> call.name.Some? && call.name.value in t.blocked)
               && (m.body == UnknownToolError <==>
                     !(call.name.Some? && call.name.value in t.blocked)
                     && (call.name == None || call.name.value == "" || call.name.value !in env.registry))
               && (m.body.Outcome? ==> m.body.outcome == env.tool(t.dispatches))
  {
  }
}
