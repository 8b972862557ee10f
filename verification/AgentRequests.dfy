/**
 What the requests of one analyst turn carry, from the replies alone.

 The history only grows: each request repeats the one before it and adds what the reply to that one
 calls for.
 */
module AgentRequests {
  import opened Options
  import opened AgentTurn

  /** A request: the messages it carries, and the tokens used up before it. */
  datatype Asked = Asked(messages: seq<Message>, tokensBefore: nat)

  ghost function Requests(log: seq<Event>): seq<Asked> {
    if log == [] then []
    else
      var e := log[|log| - 1];
      Requests(log[..|log| - 1]) + if e.Request? then [Asked(e.messages, e.tokensBefore)] else []
  }

  /** `b` is `a` with the tool calls of a reply and one answer to each, in order. */
  ghost predicate AnswersAdded(a: seq<Message>, b: seq<Message>, calls: seq<ToolCall>) {
    && |b| == |a| + 1 + |calls| && b[..|a|] == a && b[|a|] == AssistantCalls(Ids(calls))
    && Answers(b[|a| + 1..], Ids(calls))
  }

  /**
   What request `k + 1` carries if request `k` carried `a`: past the token cap and after a blank answer
   one more message, after an answer that was cut off the same, and after tool calls these and their
   answers, with one more message when the steps are used up.
   */
  ghost predicate Follows(a: seq<Message>, b: seq<Message>, k: nat, cap: nat, env: Environment) {
    && env.llm(k).Reply?
    && if Spent(env, k + 1) > cap then b == a + [Plain]
       else
         && env.llm(k).choice.Some?
         && var choice := env.llm(k).choice.value;
            if choice.toolCalls == [] then
              || (choice.content == Blank && b == a + [Plain])
              || (choice.content.Text? && choice.truncated && b == a)
            else
              || AnswersAdded(a, b, choice.toolCalls)
              || (exists c :: AnswersAdded(a, c, choice.toolCalls) && b == c + [Plain])
  }

  /** Every request follows from the one before it, and knows the tokens spent until then. */
  ghost predicate Chained(rs: seq<Asked>, cap: nat, env: Environment) {
    && (forall k :: 0 <= k < |rs| ==> rs[k].tokensBefore == Spent(env, k))
    && forall k :: 0 <= k < |rs| - 1 ==> Follows(rs[k].messages, rs[k + 1].messages, k, cap, env)
  }

  /** The request after `rs` may carry `b`. */
  ghost predicate MayFollow(rs: seq<Asked>, b: seq<Message>, cap: nat, env: Environment) {
    rs != [] ==> Follows(rs[|rs| - 1].messages, b, |rs| - 1, cap, env)
  }

  lemma {:induction false} ChainedSnoc(rs: seq<Asked>, r: Asked, cap: nat, env: Environment)
    requires Chained(rs, cap, env) && MayFollow(rs, r.messages, cap, env) && r.tokensBefore == Spent(env, |rs|)
    ensures Chained(rs + [r], cap, env)
  {
    var more := rs + [r];
    forall k | 0 <= k < |more| - 1 ensures Follows(more[k].messages, more[k + 1].messages, k, cap, env) {
      if k < |rs| - 1 {
        assert more[k] == rs[k] && more[k + 1] == rs[k + 1];
      }
    }
  }

  lemma {:induction false} RequestsSnoc(log: seq<Event>, e: Event)
    ensures Requests(log + [e]) == Requests(log) + if e.Request? then [Asked(e.messages, e.tokensBefore)] else []
  {
    assert (log + [e])[..|log|] == log;
  }

  /** The turn is about to ask: what it has asked so far is chained, and the next request may follow. */
  ghost predicate Ready(t: Turn, cap: nat, env: Environment) {
    && |Requests(t.log)| == t.requests && t.tokens == Spent(env, t.requests)
    && Chained(Requests(t.log), cap, env)
    && MayFollow(Requests(t.log), t.messages, cap, env)
  }

  lemma {:induction false} SendChains(t: Turn, cap: nat, env: Environment) returns (t': Turn)
    requires Ready(t, cap, env)
    ensures t' == Send(t) && Requests(t'.log) == Requests(t.log) + [Asked(t.messages, t.tokens)]
    ensures Chained(Requests(t'.log), cap, env)
  {
    t' := Send(t);
    RequestsSnoc(t.log, Request(t.messages, t.tokens));
    ChainedSnoc(Requests(t.log), Asked(t.messages, t.tokens), cap, env);
  }

  lemma {:induction false} ForcedChains(t: Turn, cap: nat, env: Environment)
    requires Ready(Append(t, Plain), cap, env)
    ensures Chained(Requests(ForceFinalAnswer(t, env).0.log), cap, env)
  {
    var sent := SendChains(Append(t, Plain), cap, env);
  }

  lemma {:induction false} ConcludedChains(t: Turn, choice: Choice, cap: nat, env: Environment)
    requires Chained(Requests(t.log), cap, env)
    requires choice.content == Blank ==> Ready(Append(t, Plain), cap, env)
    requires choice.content.Text? && choice.truncated ==> Ready(t, cap, env)
    ensures Chained(Requests(Conclude(t, choice, env).0.log), cap, env)
  {
    if choice.content == Blank {
      ForcedChains(t, cap, env);
    } else if choice.content.Text? && choice.truncated {
      var sent := SendChains(t, cap, env);
    }
  }

  lemma {:induction false} CallsAskNothing(t: Turn, calls: seq<ToolCall>, env: Environment)
    ensures Requests(AnswerAll(t, calls, env).turn.log) == Requests(t.log)
    decreases |calls|
  {
    if calls != [] {
      CallAsksNothing(t, calls[0], env);
      CallsAskNothing(AnswerOne(t, calls[0], env).turn, calls[1..], env);
    }
  }

  lemma {:induction false} CallAsksNothing(t: Turn, call: ToolCall, env: Environment)
    ensures Requests(AnswerOne(t, call, env).turn.log) == Requests(t.log)
  {
    var log := AnswerOne(t, call, env).turn.log;
    if log != t.log {
      RequestsSnoc(t.log, log[|t.log|]);
    }
  }

  /** The turn after a request and its reply, which has not been used for anything yet. */
  ghost predicate HasReply(t: Turn, cap: nat, env: Environment) {
    && t.requests > 0 && |Requests(t.log)| == t.requests && t.tokens == Spent(env, t.requests)
    && Chained(Requests(t.log), cap, env) && Requests(t.log)[t.requests - 1].messages == t.messages
    && env.llm(t.requests - 1).Reply?
  }

  lemma {:induction false} ReplyArrives(t: Turn, cap: nat, env: Environment) returns (t': Turn)
    requires Ready(t, cap, env) && env.llm(t.requests).Reply?
    ensures t' == CountUsage(Send(t), env.llm(t.requests)) && HasReply(t', cap, env)
    ensures t'.requests == t.requests + 1
  {
    var sent := SendChains(t, cap, env);
    t' := CountUsage(sent, env.llm(t.requests));
  }

  lemma {:induction false} CallsAreAnswered(t: Turn, calls: seq<ToolCall>, cap: nat, env: Environment)
    returns (p: Progress)
    requires HasReply(t, cap, env) && t.tokens <= cap
    requires env.llm(t.requests - 1).choice.Some? && env.llm(t.requests - 1).choice.value.toolCalls == calls != []
    ensures p == AnswerAll(Append(t, AssistantCalls(Ids(calls))), calls, env)
    ensures Requests(p.turn.log) == Requests(t.log)
    ensures p.ok ==> Ready(p.turn, cap, env) && Ready(Append(p.turn, Plain), cap, env)
  {
    var t1 := Append(t, AssistantCalls(Ids(calls)));
    p := AnswerAll(t1, calls, env);
    CallsAskNothing(t1, calls, env);
    AnswerAllAnswersEach(t1, calls, env);
    if p.ok {
      var ms := p.turn.messages;
      assert ms[..|t1.messages|] == t1.messages;
      assert ms[..|t.messages|] == t1.messages[..|t.messages|] == t.messages;
      assert AnswersAdded(t.messages, ms, calls);
    }
  }

  /** After a step that goes on the turn is ready, for a further step and for the forced answer. */
  lemma {:induction false} StepChains(t: Turn, cap: nat, env: Environment)
    requires Ready(t, cap, env)
    ensures match OneStep(t, cap, env)
            case Continue(next) => Ready(next, cap, env) && Ready(Append(next, Plain), cap, env)
            case Stop(last, _) => Chained(Requests(last.log), cap, env)
  {
    var reply := env.llm(t.requests);
    if reply.ApiError? {
      var sent := SendChains(t, cap, env);
    } else {
      var t2 := ReplyArrives(t, cap, env);
      if t2.tokens > cap {
        ForcedChains(t2, cap, env);
      } else if reply.choice.Some? {
        if reply.choice.value.toolCalls == [] {
          ConcludedChains(t2, reply.choice.value, cap, env);
        } else {
          var p := CallsAreAnswered(t2, reply.choice.value.toolCalls, cap, env);
        }
      }
    }
  }

  lemma {:induction false} LoopChains(t: Turn, step: nat, maxSteps: nat, cap: nat, env: Environment)
    requires Ready(t, cap, env) && Ready(Append(t, Plain), cap, env)
    ensures Chained(Requests(Loop(t, step, maxSteps, cap, env).0.log), cap, env)
    decreases maxSteps - step
  {
    if step >= maxSteps {
      ForcedChains(t, cap, env);
    } else {
      StepChains(t, cap, env);
      match OneStep(t, cap, env)
      case Continue(next) => LoopChains(next, step + 1, maxSteps, cap, env);
      case Stop(_, _) =>
    }
  }

  /** In every turn, each request carries the previous one and what its reply calls for, and nothing else. */
  lemma {:induction false} RequestsAreChained(historyLength: nat, maxSteps: nat, cap: nat, env: Environment)
    ensures Chained(Requests(Loop(Start(historyLength), 0, maxSteps, cap, env).0.log), cap, env)
  {
    LoopChains(Start(historyLength), 0, maxSteps, cap, env);
  }
}
