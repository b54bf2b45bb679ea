/**
 The orchestrator's tool-calling loop (src/orchestrator/orchestrator.py:329-510) and what it
 leaves in the session, for executes of one session that follow one another.  Module SharedSession is
 about executes that overlap.
 */
module Orchestrating {
  import opened Wrappers
  import opened Text
  import opened Transcript
  import Review

  /** What a tool says, and whether it dispatched an agent. */
  datatype ToolResult = Said(text: string, dispatched: bool) | ToolRaises

  /** Iteration, position of the call in its message, and the call. */
  type Tools = (nat, nat, Call) -> ToolResult

  const MAX_ITERATIONS: nat := 25
  const FORCE_FINALIZE: string := "请立即调用 finalize 工具来完成任务，总结目前的工作成果。"
  const NO_RESULT: string := "任务执行完毕，但未产生最终结果。"
  const LLM_FAILED: string := "编排器调用 LLM 失败"

  datatype End = Going | Replied | Accepted | LlmFailed | Raised

  datatype Conversation = Conversation(messages: seq<Message>, dispatched: bool, end: End, final: string)

  function ParseError(call: Call): string {
    "工具调用参数解析失败: " + (if |call.raw| <= 200 then call.raw else call.raw[..200])
  }

  /** The text that answers a call; None when its tool raises. */
  function AnswerText(call: Call, result: ToolResult): Option<string> {
    if call.parsed.None? then Some(ParseError(call)) else if result.Said? then Some(result.text) else None
  }

  /** A finalize call that the review lets through. */
  predicate Accepts(call: Call, result: ToolResult) {
    call.parsed.Some? && result.Said? && call.name == "finalize" && !Contains(result.text, Review.FAILED_MARK)
  }

  function AnswerOne(c: Conversation, call: Call, result: ToolResult): Conversation {
    var text := AnswerText(call, result);
    if text.None? then c.(end := Raised)
    else
      var answered := c.(messages := c.messages + [Tool(call.id, text.value)],
                         dispatched := c.dispatched || (call.parsed.Some? && result.dispatched));
      if Accepts(call, result) then
        var summary := call.parsed.value.summary;
        answered.(end := Accepted, final := if summary.Some? then summary.value else text.value)
      else answered
  }

  /** After the first `n` calls, up to an accepted finalize or an exception. */
  function AnswerCalls(c: Conversation, calls: seq<Call>, i: nat, tools: Tools, n: nat): Conversation
    requires n <= |calls|
  {
    if n == 0 then c
    else
      var before := AnswerCalls(c, calls, i, tools, n - 1);
      if before.end.Going? then AnswerOne(before, calls[n - 1], tools(i, n - 1, calls[n - 1])) else before
  }

  /** The list sent in iteration `i`: near the limit the user is made to ask for the end. */
  function Sending(c: Conversation, i: nat): seq<Message> {
    if i == MAX_ITERATIONS - 4 && c.dispatched then c.messages + [User(FORCE_FINALIZE)] else c.messages
  }

  function Turn(c: Conversation, reply: Option<Reply>, tools: Tools, i: nat): Conversation {
    var ms := Sending(c, i);
    if reply.None? then c.(messages := ms, end := LlmFailed, final := LLM_FAILED)
    else
      var r := reply.value;
      var asked := c.(messages := ms + [Assistant(r.content, r.calls)]);
      if r.calls == [] then asked.(end := Replied, final := if r.content != "" then r.content else c.final)
      else AnswerCalls(asked, r.calls, i, tools, |r.calls|)
  }

  function Turns(start: seq<Message>, llm: nat -> Option<Reply>, tools: Tools, n: nat): Conversation {
    if n == 0 then Conversation(start, false, Going, NO_RESULT)
    else
      var before := Turns(start, llm, tools, n - 1);
      if before.end.Going? then Turn(before, llm(n - 1), tools, n - 1) else before
  }

  function StartOf(history: seq<Message>, prompt: string, user: string): seq<Message> {
    if history != [] then history + [User(user)] else [System(prompt), User(user)]
  }

  /** What a run leaves in the session.  A session without messages has no list that the run could
      extend, so an exception that escapes its first run leaves it empty. */
  function Left(history: seq<Message>, last: Conversation): seq<Message> {
    if last.end.Raised? && history == [] then [] else last.messages
  }

  class Session {
    var messages: seq<Message>

    constructor ()
      ensures messages == []
    {
      messages := [];
    }

    /** One execute in this session.  The result is None where an exception escapes; then the
        session's own list, if it had one, has been extended all the same. */
    method Execute(prompt: string, user: string, llm: nat -> Option<Reply>, tools: Tools)
      returns (result: Option<string>, sent: seq<seq<Message>>)
      modifies this
      ensures |sent| <= MAX_ITERATIONS
      ensures var start := StartOf(old(messages), prompt, user); var last := Turns(start, llm, tools, MAX_ITERATIONS);
        && (forall i: nat :: i < |sent| ==> SentAt(start, llm, tools, i, sent[i]))
        && (|sent| < MAX_ITERATIONS ==> !Turns(start, llm, tools, |sent|).end.Going?)
        && result == (if last.end.Raised? then None else Some(last.final))
        && messages == Left(old(messages), last)
    {
      hide Turns, Turn, AnswerCalls, AnswerOne, Sending;
      ghost var start := StartOf(messages, prompt, user);
      var shared := messages != [];
      var first := if shared then messages + [User(user)] else [System(prompt), User(user)];
      var c := Conversation(first, false, Going, NO_RESULT);
      FirstTurn(start, llm, tools);
      sent := [];
      var i := 0;
      while i < MAX_ITERATIONS && c.end.Going?
        invariant messages == old(messages)
        invariant 0 <= i <= MAX_ITERATIONS && |sent| == i && c == Turns(start, llm, tools, i)
        invariant forall j: nat :: j < i ==> SentAt(start, llm, tools, j, sent[j])
      {
        TurnsNext(start, llm, tools, i);
        TurnIs(c, llm(i), tools, i);
        if i == MAX_ITERATIONS - 4 && c.dispatched {
          c := c.(messages := c.messages + [User(FORCE_FINALIZE)]);
        }
        sent := sent + [c.messages];
        var response := llm(i);
        if response.None? {
          c := c.(end := LlmFailed, final := LLM_FAILED);
        } else {
          var msg := response.value;
          c := c.(messages := c.messages + [Assistant(msg.content, msg.calls)]);
          if msg.calls == [] {
            c := c.(end := Replied, final := if msg.content != "" then msg.content else c.final);
          } else {
            c := HandleCalls(c, msg.calls, i, tools);
          }
        }
        i := i + 1;
      }
      TurnsStay(start, llm, tools, i, MAX_ITERATIONS);
      if c.end.Raised? {
        if shared {
          messages := c.messages;
        }
        return None, sent;
      }
      messages := c.messages;
      return Some(c.final), sent;
    }

    /** The loop over one message's tool calls. */
    method HandleCalls(c: Conversation, calls: seq<Call>, i: nat, tools: Tools) returns (r: Conversation)
      requires c.end.Going?
      ensures r == AnswerCalls(c, calls, i, tools, |calls|)
    {
      r := c;
      var k := 0;
      while k < |calls| && r.end.Going?
        invariant 0 <= k <= |calls| && r == AnswerCalls(c, calls, i, tools, k)
      {
        var call := calls[k];
        if call.parsed.None? {
          r := r.(messages := r.messages + [Tool(call.id, ParseError(call))]);
        } else {
          var result := tools(i, k, call);
          match result
          case ToolRaises =>
            r := r.(end := Raised);
          case Said(text, dispatched) =>
            r := r.(messages := r.messages + [Tool(call.id, text)], dispatched := r.dispatched || dispatched);
            if call.name == "finalize" && !Contains(text, Review.FAILED_MARK) {
              var summary := call.parsed.value.summary;
              r := r.(end := Accepted, final := if summary.Some? then summary.value else text);
            }
        }
        k := k + 1;
      }
      CallsStay(c, calls, i, tools, k, |calls|);
    }
  }

  /** `ms` is the list of iteration `i`, which is reached. */
  ghost predicate SentAt(start: seq<Message>, llm: nat -> Option<Reply>, tools: Tools, i: nat, ms: seq<Message>) {
    Turns(start, llm, tools, i).end.Going? && ms == Sending(Turns(start, llm, tools, i), i)
  }

  lemma {:induction false} FirstTurn(start: seq<Message>, llm: nat -> Option<Reply>, tools: Tools)
    ensures Turns(start, llm, tools, 0) == Conversation(start, false, Going, NO_RESULT)
  {
  }

  lemma {:induction false} TurnsNext(start: seq<Message>, llm: nat -> Option<Reply>, tools: Tools, n: nat)
    ensures Turns(start, llm, tools, n).end.Going? ==>
      Turns(start, llm, tools, n + 1) == Turn(Turns(start, llm, tools, n), llm(n), tools, n)
  {
  }

  lemma {:induction false} TurnIs(c: Conversation, reply: Option<Reply>, tools: Tools, i: nat)
    ensures Sending(c, i) == if i == MAX_ITERATIONS - 4 && c.dispatched then c.messages + [User(FORCE_FINALIZE)]
        else c.messages
    ensures var ms := Sending(c, i);
      Turn(c, reply, tools, i) ==
        if reply.None? then c.(messages := ms, end := LlmFailed, final := LLM_FAILED)
        else if reply.value.calls == [] then
          c.(messages := ms + [Assistant(reply.value.content, [])], end := Replied,
             final := if reply.value.content != "" then reply.value.content else c.final)
        else AnswerCalls(c.(messages := ms + [Assistant(reply.value.content, reply.value.calls)]), reply.value.calls, i,
            tools, |reply.value.calls|)
  {
  }

  lemma {:induction false} TurnsStay(start: seq<Message>, llm: nat -> Option<Reply>, tools: Tools, m: nat, n: nat)
    requires m <= n && (m == n || !Turns(start, llm, tools, m).end.Going?)
    ensures Turns(start, llm, tools, n) == Turns(start, llm, tools, m)
    decreases n - m
  {
    if m == n {
    } else {
      TurnsStay(start, llm, tools, m, n - 1);
    }
  }

  lemma {:induction false} CallsStay(c: Conversation, calls: seq<Call>, i: nat, tools: Tools, m: nat, n: nat)
    requires m <= n <= |calls| && (m == n || !AnswerCalls(c, calls, i, tools, m).end.Going?)
    ensures AnswerCalls(c, calls, i, tools, n) == AnswerCalls(c, calls, i, tools, m)
    decreases n - m
  {
    if m == n {
    } else {
      CallsStay(c, calls, i, tools, m, n - 1);
    }
  }

  // ---------------------------------------------------------------- well-formedness

  /** Every tool returns, and no finalize is accepted but as the last call. */
  predicate Smooth(calls: seq<Call>, i: nat, tools: Tools, n: nat)
    requires n <= |calls|
  {
    forall k: nat :: k < n ==> SmoothAt(calls, i, tools, k)
  }

  predicate SmoothAt(calls: seq<Call>, i: nat, tools: Tools, k: nat)
    requires k < |calls|
  {
    && AnswerText(calls[k], tools(i, k, calls[k])).Some?
    && (k + 1 < |calls| ==> !Accepts(calls[k], tools(i, k, calls[k])))
  }

  /** The answers are to the first calls in order, and all of the first `n` have theirs exactly when
      nothing stopped the loop before. */
  lemma {:induction false} AnswersInOrder(c: Conversation, calls: seq<Call>, i: nat, tools: Tools, n: nat)
        returns (answers: seq<Message>)
    requires c.end.Going? && n <= |calls|
    ensures Answer(calls, answers) && |answers| <= n
    ensures var r := AnswerCalls(c, calls, i, tools, n);
      && r.messages == c.messages + answers
      && (r.end.Going? || r.end.Accepted? || r.end.Raised?)
      && (r.end.Going? ==> |answers| == n)
      && (n == |calls| ==> (|answers| == |calls| <==> Smooth(calls, i, tools, n)))
      && (n < |calls| ==> (r.end.Going? <==> Smooth(calls, i, tools, n)))
      && (n < |calls| && !r.end.Going? ==> |answers| < |calls|)
  {
    answers := [];
    if n == 0 {
    } else {
      var before := AnswersInOrder(c, calls, i, tools, n - 1);
      var p := AnswerCalls(c, calls, i, tools, n - 1);
      answers := before;
      var call, result := calls[n - 1], tools(i, n - 1, calls[n - 1]);
      SmoothNext(calls, i, tools, n);
      hide Smooth;
      if p.end.Going? && AnswerText(call, result).Some? {
        answers := before + [Tool(call.id, AnswerText(call, result).value)];
        assert c.messages + answers == p.messages + [Tool(call.id, AnswerText(call, result).value)];
      }
    }
  }

  lemma {:induction false} SmoothNext(calls: seq<Call>, i: nat, tools: Tools, n: nat)
    requires 0 < n <= |calls|
    ensures Smooth(calls, i, tools, n) <==> Smooth(calls, i, tools, n - 1) && SmoothAt(calls, i, tools, n - 1)
  {
  }

  lemma {:induction false} SendingIsWellFormed(c: Conversation, i: nat)
    requires WellFormed(c.messages)
    ensures WellFormed(Sending(c, i))
  {
    AppendPlain(c.messages, User(FORCE_FINALIZE));
  }

  /** A turn from a well-formed list leaves one exactly when it is smooth. */
  lemma {:induction false} TurnIsWellFormedExactlyWhen(c: Conversation, reply: Option<Reply>, tools: Tools, i: nat)
    requires WellFormed(c.messages) && c.end.Going?
    ensures WellFormed(Turn(c, reply, tools, i).messages) <==>
      (reply.Some? ==> Smooth(reply.value.calls, i, tools, |reply.value.calls|))
    ensures Turn(c, reply, tools, i).end.Going? ==> WellFormed(Turn(c, reply, tools, i).messages)
  {
    TurnIs(c, reply, tools, i);
    SendingIsWellFormed(c, i);
    if reply.Some? {
      var ms, r := Sending(c, i), reply.value;
      var asked := c.(messages := ms + [Assistant(r.content, r.calls)]);
      var answers := AnswersInOrder(asked, r.calls, i, tools, |r.calls|);
      hide AnswerCalls, Sending, Turn, Smooth;
      AppendBlock(ms, r.content, r.calls, answers);
      assert r.calls == [] ==> answers == [] && asked.messages + answers == asked.messages;
    }
  }

  /** While the loop goes on, and no other execute adds to its list, that list is well formed, so every list
      it sends is: each tool call has exactly its own answer before anything else, bad arguments and the
      forced finalize included. */
  lemma {:induction false} EverySentIsWellFormed(start: seq<Message>, llm: nat -> Option<Reply>, tools: Tools, n: nat)
    requires WellFormed(start)
    ensures var c := Turns(start, llm, tools, n); c.end.Going? ==> WellFormed(c.messages) && WellFormed(Sending(c, n))
  {
    if n == 0 {
    } else {
      EverySentIsWellFormed(start, llm, tools, n - 1);
      var before := Turns(start, llm, tools, n - 1);
      if before.end.Going? { TurnIsWellFormedExactlyWhen(before, llm(n - 1), tools, n - 1); }
    }
    if Turns(start, llm, tools, n).end.Going? { SendingIsWellFormed(Turns(start, llm, tools, n), n); }
  }

  predicate SmoothTurn(start: seq<Message>, llm: nat -> Option<Reply>, tools: Tools, i: nat) {
    Turns(start, llm, tools, i).end.Going? && llm(i).Some? ==>
      Smooth(llm(i).value.calls, i, tools, |llm(i).value.calls|)
  }

  /** The run's transcript is well formed exactly when in every turn each tool returned and an accepted
      finalize was the last call of its message. */
  lemma {:induction false} RunIsWellFormedExactlyWhen(start: seq<Message>, llm: nat -> Option<Reply>, tools: Tools,
        n: nat)
    requires WellFormed(start)
    ensures WellFormed(Turns(start, llm, tools, n).messages) <==> AllSmooth(start, llm, tools, n)
  {
    hide SmoothTurn, WellFormed;
    if n == 0 {
    } else {
      RunIsWellFormedExactlyWhen(start, llm, tools, n - 1);
      OneMoreTurn(start, llm, tools, n);
      UpToNext(start, llm, tools, n);
    }
  }

  lemma {:induction false} OneMoreTurn(start: seq<Message>, llm: nat -> Option<Reply>, tools: Tools, n: nat)
    requires n > 0 && WellFormed(start)
    ensures WellFormed(Turns(start, llm, tools, n).messages) <==>
      WellFormed(Turns(start, llm, tools, n - 1).messages) && SmoothTurn(start, llm, tools, n - 1)
  {
    hide Smooth, Turn, WellFormed;
    var before := Turns(start, llm, tools, n - 1);
    if before.end.Going? {
      EverySentIsWellFormed(start, llm, tools, n - 1);
      TurnsNext(start, llm, tools, n - 1);
      TurnIsWellFormedExactlyWhen(before, llm(n - 1), tools, n - 1);
    }
  }

  predicate AllSmooth(start: seq<Message>, llm: nat -> Option<Reply>, tools: Tools, n: nat) {
    forall i: nat :: i < n ==> SmoothTurn(start, llm, tools, i)
  }

  lemma {:induction false} UpToNext(start: seq<Message>, llm: nat -> Option<Reply>, tools: Tools, n: nat)
    requires n > 0
    ensures AllSmooth(start, llm, tools, n)
       <==> AllSmooth(start, llm, tools, n - 1) && SmoothTurn(start, llm, tools, n - 1)
  {
    hide SmoothTurn;
  }

  // ---------------------------------------------------------------- what the session is left with

  lemma {:induction false} StartIsWellFormedExactlyWhen(history: seq<Message>, prompt: string, user: string)
    ensures WellFormed(StartOf(history, prompt, user)) <==> WellFormed(history)
  {
    AppendUser(history, user);
  }

  /** The transcript of a run extends the list it started with. */
  lemma {:induction false} TurnsExtend(start: seq<Message>, llm: nat -> Option<Reply>, tools: Tools, n: nat)
    ensures start <= Turns(start, llm, tools, n).messages
  {
    hide Smooth, Accepts, AnswerOne;
    if n == 0 {
    } else {
      TurnsExtend(start, llm, tools, n - 1);
      var before := Turns(start, llm, tools, n - 1);
      if before.end.Going? && llm(n - 1).Some? {
        var r := llm(n - 1).value;
        var asked := before.(messages := Sending(before, n - 1) + [Assistant(r.content, r.calls)]);
        var answers := AnswersInOrder(asked, r.calls, n - 1, tools, |r.calls|);
      }
    }
  }

  /** Execute leaves nothing unanswered in the session: every turn was smooth, or an exception
      escaped while the session had no messages, when it does not share the run's list. */
  predicate Clean(history: seq<Message>, prompt: string, user: string, llm: nat -> Option<Reply>, tools: Tools) {
    var start := StartOf(history, prompt, user);
    || AllSmooth(start, llm, tools, MAX_ITERATIONS)
    || (history == [] && Turns(start, llm, tools, MAX_ITERATIONS).end.Raised?)
  }

  /** After an execute on a well-formed session the next one starts with a well-formed list, whatever
      the user asks, exactly when that execute was clean. */
  lemma {:induction false} NextStartIsWellFormedExactlyWhen(
      history: seq<Message>, prompt: string, user: string, llm: nat -> Option<Reply>, tools: Tools, prompt': string,
        user': string)
    requires WellFormed(history)
    ensures var left := Left(history, Turns(StartOf(history, prompt, user), llm, tools, MAX_ITERATIONS));
      WellFormed(StartOf(left, prompt', user')) <==> Clean(history, prompt, user, llm, tools)
  {
    var start := StartOf(history, prompt, user);
    var last := Turns(start, llm, tools, MAX_ITERATIONS);
    StartIsWellFormedExactlyWhen(history, prompt, user);
    StartIsWellFormedExactlyWhen(Left(history, last), prompt', user');
    RunIsWellFormedExactlyWhen(start, llm, tools, MAX_ITERATIONS);
  }

  /** What one execute is given. */
  datatype Input = Input(prompt: string, user: string, llm: nat -> Option<Reply>, tools: Tools)

  /** The session's messages after the first `n` executes in it. */
  function History(inputs: seq<Input>, n: nat): seq<Message>
    requires n <= |inputs|
  {
    if n == 0 then []
    else
      var (h, e) := (History(inputs, n - 1), inputs[n - 1]);
      Left(h, Turns(StartOf(h, e.prompt, e.user), e.llm, e.tools, MAX_ITERATIONS))
  }

  predicate CleanAt(inputs: seq<Input>, m: nat)
    requires m < |inputs|
  {
    var e := inputs[m];
    Clean(History(inputs, m), e.prompt, e.user, e.llm, e.tools)
  }

  predicate AllClean(inputs: seq<Input>, n: nat)
    requires n <= |inputs|
  {
    forall m: nat :: m < n ==> CleanAt(inputs, m)
  }

  /** Once a session is ill formed every later execute leaves it so. */
  lemma {:induction false} OnceIllFormed(history: seq<Message>, e: Input)
    requires !WellFormed(history)
    ensures !WellFormed(Left(history, Turns(StartOf(history, e.prompt, e.user), e.llm, e.tools, MAX_ITERATIONS)))
  {
    var start := StartOf(history, e.prompt, e.user);
    var last := Turns(start, e.llm, e.tools, MAX_ITERATIONS);
    TurnsExtend(start, e.llm, e.tools, MAX_ITERATIONS);
    hide Turns;
    IllFormedStays(history, User(e.user), last.messages[|start|..]);
    assert last.messages == history + [User(e.user)] + last.messages[|start|..];
  }

  /** Over any sequence of executes in a new session, each begun after the one before has ended: the list the next one
      starts with is well formed
      exactly when all before it were clean, and then so is every list the next one sends. */
  lemma {:induction false} SessionIsWellFormedExactlyWhen(inputs: seq<Input>, n: nat, prompt: string, user: string,
        llm: nat -> Option<Reply>, tools: Tools, i: nat, ms: seq<Message>)
    requires n <= |inputs|
    ensures var start := StartOf(History(inputs, n), prompt, user);
      && (WellFormed(start) <==> AllClean(inputs, n))
      && (AllClean(inputs, n) && SentAt(start, llm, tools, i, ms) ==> WellFormed(ms))
  {
    HistoryIsWellFormedExactlyWhen(inputs, n);
    var start := StartOf(History(inputs, n), prompt, user);
    StartIsWellFormedExactlyWhen(History(inputs, n), prompt, user);
    if WellFormed(start) { EverySentIsWellFormed(start, llm, tools, i); }
  }

  lemma {:induction false} HistoryIsWellFormedExactlyWhen(inputs: seq<Input>, n: nat)
    requires n <= |inputs|
    ensures WellFormed(History(inputs, n)) <==> AllClean(inputs, n)
  {
    if n == 0 {
    } else {
      HistoryIsWellFormedExactlyWhen(inputs, n - 1);
      var (h, e) := (History(inputs, n - 1), inputs[n - 1]);
      if WellFormed(h) {
        NextStartIsWellFormedExactlyWhen(h, e.prompt, e.user, e.llm, e.tools, "", "");
        StartIsWellFormedExactlyWhen(History(inputs, n), "", "");
      } else {
        OnceIllFormed(h, e);
      }
      AllCleanNext(inputs, n);
    }
  }

  lemma {:induction false} AllCleanNext(inputs: seq<Input>, n: nat)
    requires 0 < n <= |inputs|
    ensures AllClean(inputs, n) <==> AllClean(inputs, n - 1) && CleanAt(inputs, n - 1)
  {
    hide CleanAt;
  }

  // ---------------------------------------------------------------- a finalize that is not the last call

  const FINALIZE: Call := Call("id1", "finalize", "{}", Some(Arguments("{}", None)))
  const LISTING: Call := Call("id2", "list_artifacts", "{}", Some(Arguments("{}", None)))

  /** In a new session the model calls finalize and then another tool: finalize is accepted, the other
      call is never answered, and the next execute starts with an ill-formed list. */
  lemma {:induction false} EarlyFinalizeSpoilsTheSession(prompt: string, user: string, next: string)
    ensures var llm, tools := (i: nat) => Some(Reply("", [FINALIZE, LISTING])),
        (i: nat, k: nat, call: Call) => Said("ok", false);
      var last := Turns(StartOf([], prompt, user), llm, tools, MAX_ITERATIONS);
      last.end.Accepted? && !WellFormed(StartOf(Left([], last), prompt, next))
  {
    var llm, tools := (i: nat) => Some(Reply("", [FINALIZE, LISTING])),
        (i: nat, k: nat, call: Call) => Said("ok", false);
    var start := StartOf([], prompt, user);
    var calls := [FINALIZE, LISTING];
    var c := Conversation(start, false, Going, NO_RESULT);
    assert !Contains("ok", Review.FAILED_MARK);
    assert Accepts(FINALIZE, Said("ok", false));
    FirstTurn(start, llm, tools);
    TurnIs(c, llm(0), tools, 0);
    var asked := c.(messages := start + [Assistant("", calls)]);
    assert AnswerCalls(asked, calls, 0, tools, 0) == asked;
    assert AnswerCalls(asked, calls, 0, tools, 1).end == Accepted;
    CallsStay(asked, calls, 0, tools, 1, 2);
    assert Turns(start, llm, tools, 1).end == Accepted;
    TurnsStay(start, llm, tools, 1, MAX_ITERATIONS);
    assert !SmoothAt(calls, 0, tools, 0);
    assert !SmoothTurn(start, llm, tools, 0);
    assert !AllSmooth(start, llm, tools, MAX_ITERATIONS);
    NextStartIsWellFormedExactlyWhen([], prompt, user, llm, tools, prompt, next);
  }
}
