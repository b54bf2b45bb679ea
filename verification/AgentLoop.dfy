/**
 The worker's tool-calling loop (src/agents/agent_loop.py).

 The model's replies and the tools' results are oracles; None is an exception.
 */
module AgentLoop {
  import opened Wrappers
  import opened Transcript

  /** Step, position of the call in its message, tool name and arguments. */
  type Tools = (nat, nat, string, Arguments) -> Option<string>

  const NO_ARGUMENTS: Arguments := Arguments("{}", None)

  /** Arguments that do not parse count as none. */
  function ArgumentsOf(call: Call): Arguments { if call.parsed.Some? then call.parsed.value else NO_ARGUMENTS }

  datatype Outcome = Going(messages: seq<Message>) | Done(messages: seq<Message>, text: string) | Raised

  /** After the answers to the first `n` calls. */
  function AnswerCalls(messages: seq<Message>, calls: seq<Call>, step: nat, tools: Tools, n: nat): (r: Outcome)
    requires n <= |calls|
    ensures !r.Done?
  {
    if n == 0 then Going(messages)
    else
      var before := AnswerCalls(messages, calls, step, tools, n - 1);
      var call := calls[n - 1];
      var said := tools(step, n - 1, call.name, ArgumentsOf(call));
      if before.Raised? || said.None? then Raised else Going(before.messages + [Tool(call.id, said.value)])
  }

  function Round(messages: seq<Message>, reply: Option<Reply>, step: nat, tools: Tools): Outcome {
    if reply.None? then Raised
    else
      var r := reply.value;
      var after := messages + [Assistant(r.content, r.calls)];
      if r.calls == [] then Done(after, r.content) else AnswerCalls(after, r.calls, step, tools, |r.calls|)
  }

  function Rounds(start: seq<Message>, llm: nat -> Option<Reply>, tools: Tools, n: nat): Outcome {
    if n == 0 then Going(start)
    else
      var before := Rounds(start, llm, tools, n - 1);
      if before.Going? then Round(before.messages, llm(n - 1), n - 1, tools) else before
  }

  datatype Event = AssistantSaid(step: nat, content: string) | ToolSaid(step: nat, tool: string, result: string)

  function Clip(s: string, n: nat): (r: string)
    ensures r <= s && |r| == if |s| < n then |s| else n
  { 
    if |s| <= n then s else s[..n]
  }

  predicate Tells(e: Event, m: Message) {
    match m
    case Assistant(content, _) => e.AssistantSaid? && e.content == Clip(content, 500)
    case Tool(_, text) => e.ToolSaid? && e.result == Clip(text, 200)
    case _ => false
  }

  /** The progress events tell the transcript, message by message, after the first two. */
  predicate Mirrors(events: seq<Event>, ms: seq<Message>) {
    |ms| == |events| + 2 && forall i :: 0 <= i < |events| ==> Tells(events[i], ms[i + 2])
  }

  /** `sent` are the lists given to the model, one for each call; the result is None where the
      loop raises. */
  method RunAgentLoop(system: string, user: string, maxIterations: nat, llm: nat -> Option<Reply>, tools: Tools)
    returns (result: Option<string>, messages: seq<Message>, sent: seq<seq<Message>>, events: seq<Event>)
    ensures |sent| <= maxIterations
    ensures var start := [System(system), User(user)];
      && (forall i: nat :: i < |sent| ==> Rounds(start, llm, tools, i) == Going(sent[i]))
      && (|sent| < maxIterations ==> !Rounds(start, llm, tools, |sent|).Going?)
      && var last := Rounds(start, llm, tools, maxIterations);
         && result == (if last.Raised? then None else if last.Done? then Some(last.text) else Some(""))
         && (!last.Raised? ==> messages == last.messages && Mirrors(events, messages))
  {
    hide Rounds, Round, AnswerCalls, Mirrors;
    ghost var start := [System(system), User(user)];
    Starting(start, llm, tools);
    messages := [System(system), User(user)];
    sent, events := [], [];
    result := Some("");
    for step := 0 to maxIterations
      invariant |sent| == step && result == Some("")
      invariant Rounds(start, llm, tools, step) == Going(messages)
      invariant forall i: nat :: i < |sent| ==> Rounds(start, llm, tools, i) == Going(sent[i])
      invariant Mirrors(events, messages)
    {
      sent := sent + [messages];
      var response := llm(step);
      RoundsNext(start, llm, tools, step);
      RoundIs(messages, response, step, tools);
      if response.None? {
        RoundsStay(start, llm, tools, step + 1, maxIterations);
        return None, messages, sent, events;
      }
      var msg := response.value;
      MirrorsNext(events, messages, AssistantSaid(step, Clip(msg.content, 500)), Assistant(msg.content, msg.calls));
      messages := messages + [Assistant(msg.content, msg.calls)];
      events := events + [AssistantSaid(step, Clip(msg.content, 500))];
      if msg.calls == [] {
        RoundsStay(start, llm, tools, step + 1, maxIterations);
        return Some(msg.content), messages, sent, events;
      }
      ghost var asked := messages;
      for k := 0 to |msg.calls|
        invariant AnswerCalls(asked, msg.calls, step, tools, k) == Going(messages)
        invariant Mirrors(events, messages)
      {
        var call := msg.calls[k];
        var said := tools(step, k, call.name, ArgumentsOf(call));
        AnswersNext(asked, msg.calls, step, tools, k);
        if said.None? {
          AnswersStay(asked, msg.calls, step, tools, k + 1, |msg.calls|);
          RoundsStay(start, llm, tools, step + 1, maxIterations);
          return None, messages, sent, events;
        }
        MirrorsNext(events, messages, ToolSaid(step, call.name, Clip(said.value, 200)), Tool(call.id, said.value));
        messages := messages + [Tool(call.id, said.value)];
        events := events + [ToolSaid(step, call.name, Clip(said.value, 200))];
      }
    }
  }

  lemma {:induction false} Starting(start: seq<Message>, llm: nat -> Option<Reply>, tools: Tools)
    ensures Rounds(start, llm, tools, 0) == Going(start)
    ensures |start| == 2 ==> Mirrors([], start)
  {
  }

  lemma {:induction false} RoundIs(messages: seq<Message>, reply: Option<Reply>, step: nat, tools: Tools)
    ensures reply.None? ==> Round(messages, reply, step, tools) == Raised
    ensures reply.Some? ==>
      var r := reply.value;
      var asked := messages + [Assistant(r.content, r.calls)];
      && AnswerCalls(asked, r.calls, step, tools, 0) == Going(asked)
      && Round(messages, reply, step, tools) == if r.calls == [] then Done(asked, r.content)
          else AnswerCalls(asked, r.calls, step, tools, |r.calls|)
  {
  }

  lemma {:induction false} MirrorsNext(events: seq<Event>, ms: seq<Message>, e: Event, m: Message)
    requires Mirrors(events, ms) && Tells(e, m)
    ensures Mirrors(events + [e], ms + [m])
  {
  }

  lemma {:induction false} AnswersNext(messages: seq<Message>, calls: seq<Call>, step: nat, tools: Tools, k: nat)
    requires k < |calls|
    ensures var (before, said) := (AnswerCalls(messages, calls, step, tools, k),
        tools(step, k, calls[k].name, ArgumentsOf(calls[k])));
      var after := if before.Raised? || said.None? then Raised
          else Going(before.messages + [Tool(calls[k].id, said.value)]);
      AnswerCalls(messages, calls, step, tools, k + 1) == after
  {
  }

  lemma {:induction false} RoundsNext(start: seq<Message>, llm: nat -> Option<Reply>, tools: Tools, n: nat)
    ensures Rounds(start, llm, tools, n).Going? ==>
      Rounds(start, llm, tools, n + 1) == Round(Rounds(start, llm, tools, n).messages, llm(n), n, tools)
  {
  }

  lemma {:induction false} RoundsStay(start: seq<Message>, llm: nat -> Option<Reply>, tools: Tools, m: nat, n: nat)
    requires m <= n && !Rounds(start, llm, tools, m).Going?
    ensures Rounds(start, llm, tools, n) == Rounds(start, llm, tools, m)
    decreases n - m
  {
    if m == n {
    } else {
      RoundsStay(start, llm, tools, m, n - 1);
    }
  }

  lemma {:induction false} AnswersStay(messages: seq<Message>, calls: seq<Call>, step: nat, tools: Tools, m: nat,
        n: nat)
    requires m <= n <= |calls| && AnswerCalls(messages, calls, step, tools, m).Raised?
    ensures AnswerCalls(messages, calls, step, tools, n).Raised?
    decreases n - m
  {
    if m == n {
    } else {
      AnswersStay(messages, calls, step, tools, m, n - 1);
    }
  }

  /** The answer to the call is what its tool says to the parsed arguments, or to none where they do not parse. */
  predicate IsToolsAnswer(m: Message, call: Call, step: nat, k: nat, tools: Tools) {
    && m.Tool? && m.callId == call.id
    && match call.parsed
       case Some(arguments) => tools(step, k, call.name, arguments) == Some(m.text)
       case None => tools(step, k, call.name, Arguments("{}", None)) == Some(m.text)
  }

  /** Unless a tool raises, each call has got its answer. */
  lemma {:induction false} AnswersAreComplete(messages: seq<Message>, calls: seq<Call>, step: nat, tools: Tools,
        n: nat) returns (answers: seq<Message>)
    requires n <= |calls| && AnswerCalls(messages, calls, step, tools, n).Going?
    ensures Answer(calls, answers) && |answers| == n
    ensures AnswerCalls(messages, calls, step, tools, n) == Going(messages + answers)
    ensures forall k: nat :: k < n ==> IsToolsAnswer(answers[k], calls[k], step, k, tools)
  {
    answers := [];
    if n == 0 {
    } else {
      var before := AnswersAreComplete(messages, calls, step, tools, n - 1);
      var said := tools(step, n - 1, calls[n - 1].name, ArgumentsOf(calls[n - 1])).value;
      answers := before + [Tool(calls[n - 1].id, said)];
      assert messages + answers == messages + before + [Tool(calls[n - 1].id, said)];
    }
  }

  /** Every list sent to the model, and the final one, is well formed. */
  lemma {:induction false} TranscriptIsWellFormed(system: string, user: string, llm: nat -> Option<Reply>, tools: Tools,
        n: nat)
    ensures var r := Rounds([System(system), User(user)], llm, tools, n); !r.Raised? ==> WellFormed(r.messages)
  {
    var start := [System(system), User(user)];
    if n == 0 {
    } else {
      TranscriptIsWellFormed(system, user, llm, tools, n - 1);
      var before := Rounds(start, llm, tools, n - 1);
      if before.Going? && llm(n - 1).Some? {
        var r := llm(n - 1).value;
        var asked := before.messages + [Assistant(r.content, r.calls)];
        if AnswerCalls(asked, r.calls, n - 1, tools, |r.calls|).Going? {
          var answers := AnswersAreComplete(asked, r.calls, n - 1, tools, |r.calls|);
          AppendBlock(before.messages, r.content, r.calls, answers);
          assert asked + answers == before.messages + [Assistant(r.content, r.calls)] + answers;
          if r.calls == [] { assert asked + answers == asked; }
        }
      }
    }
  }

  /** A tool raises for one of the first `n` calls. */
  ghost predicate SomeToolRaises(calls: seq<Call>, step: nat, tools: Tools, n: nat)
    requires n <= |calls|
  {
    exists k: nat :: k < n && ToolRaisesAt(calls, step, tools, k)
  }

  predicate ToolRaisesAt(calls: seq<Call>, step: nat, tools: Tools, k: nat)
    requires k < |calls|
  {
    tools(step, k, calls[k].name, match calls[k].parsed case Some(a) => a case None => Arguments("{}", None)).None?
  }

  lemma {:induction false} CallsRaiseExactlyWhen(messages: seq<Message>, calls: seq<Call>, step: nat, tools: Tools,
        n: nat)
    requires n <= |calls|
    ensures AnswerCalls(messages, calls, step, tools, n).Raised? <==> SomeToolRaises(calls, step, tools, n)
  {
    if n == 0 {
    } else {
      CallsRaiseExactlyWhen(messages, calls, step, tools, n - 1);
      assert tools(step, n - 1, calls[n - 1].name, ArgumentsOf(calls[n - 1])).None?
          <==> ToolRaisesAt(calls, step, tools, n - 1);
      hide ToolRaisesAt;
    }
  }

  /** Where the loop goes on, it ends with this iteration's reply exactly when that has no tool calls, and the
      result is what it says; it raises exactly when the model's call or a tool does. */
  lemma {:induction false} IterationEnds(start: seq<Message>, llm: nat -> Option<Reply>, tools: Tools, i: nat)
    requires Rounds(start, llm, tools, i).Going?
    ensures var r := Rounds(start, llm, tools, i + 1);
      && (r.Done? <==> llm(i).Some? && llm(i).value.calls == [])
      && (r.Done? ==> r.text == llm(i).value.content)
      && (r.Raised? <==> llm(i).None? || SomeToolRaises(llm(i).value.calls, i, tools, |llm(i).value.calls|))
  {
    RoundsNext(start, llm, tools, i);
    if llm(i).Some? {
      var (ms, r) := (Rounds(start, llm, tools, i).messages, llm(i).value);
      CallsRaiseExactlyWhen(ms + [Assistant(r.content, r.calls)], r.calls, i, tools, |r.calls|);
    }
  }
}
