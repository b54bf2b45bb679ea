/**
 How an orchestrator run ends and with what result (src/orchestrator/orchestrator.py:404-497).
 */
module OrchestratorEnds {
  import opened Wrappers
  import opened Text
  import opened Transcript
  import opened Orchestrating
  import Review

  // ---------------------------------------------------------------- one call

  /** The call is a finalize whose answer does not hold the review's mark. */
  predicate LetThrough(call: Call, result: ToolResult) {
    && call.parsed.Some? && call.name == "finalize"
    && result.Said? && !Contains(result.text, Review.FAILED_MARK)
  }

  /** The call's arguments are JSON and its tool raises. */
  predicate Breaks(call: Call, result: ToolResult) { call.parsed.Some? && result.ToolRaises? }

  /** Neither: the loop goes on to the next call. */
  predicate GoesOn(call: Call, result: ToolResult) { !LetThrough(call, result) && !Breaks(call, result) }

  /** The first `k` calls of the message let the loop go on. */
  predicate GoesOnTo(calls: seq<Call>, i: nat, tools: Tools, k: nat)
    requires k <= |calls|
  {
    forall j: nat :: j < k ==> GoesOn(calls[j], tools(i, j, calls[j]))
  }

  /** The result that an accepted finalize gives. */
  predicate Gives(call: Call, result: ToolResult, final: string)
    requires LetThrough(call, result)
  {
    final == match call.parsed.value.summary case Some(summary) => summary case None => result.text
  }

  /** What the call's answer says: the tool's own words, or that the arguments are no JSON, with at most 200
      of their characters. */
  predicate Says(call: Call, result: ToolResult, text: string) {
    if call.parsed.Some? then result == Said(text, true) || result == Said(text, false)
    else
      var head := "工具调用参数解析失败: ";
      && head <= text && text[|head|..] <= call.raw && |text| - |head| == if |call.raw| < 200 then |call.raw| else 200
  }

  lemma {:induction false} OneCall(c: Conversation, call: Call, result: ToolResult)
    requires c.end.Going?
    ensures var r := AnswerOne(c, call, result);
      && (r.end.Going? <==> GoesOn(call, result))
      && (r.end.Raised? <==> Breaks(call, result))
      && (r.end.Accepted? <==> LetThrough(call, result))
      && (r.end.Accepted? ==> Gives(call, result, r.final)) && (!r.end.Accepted? ==> r.final == c.final)
      && (r.end.Raised? ==> r.messages == c.messages)
      && (!r.end.Raised? ==>
            && |r.messages| == |c.messages| + 1 && c.messages <= r.messages
            && r.messages[|c.messages|].Tool? && r.messages[|c.messages|].callId == call.id
            && Says(call, result, r.messages[|c.messages|].text))
      && (r.dispatched <==> c.dispatched || (call.parsed.Some? && result.Said? && result.dispatched))
  {
    hide Contains;
  }

  /** The loop over a message's calls stops at the first that is let through or breaks. */
  lemma {:induction false} CallsEnd(c: Conversation, calls: seq<Call>, i: nat, tools: Tools, n: nat)
    requires c.end.Going? && n <= |calls|
    ensures var r := AnswerCalls(c, calls, i, tools, n);
      && (r.end.Going? <==> GoesOnTo(calls, i, tools, n))
      && (r.end.Going? ==> r.final == c.final)
      && (r.end.Going? || r.end.Accepted? || r.end.Raised?)
      && (r.end.Accepted? <==> exists k: nat ::
            k < n && GoesOnTo(calls, i, tools, k) && LetThrough(calls[k], tools(i, k, calls[k])))
      && (r.end.Raised? <==> exists k: nat ::
            k < n && GoesOnTo(calls, i, tools, k) && Breaks(calls[k], tools(i, k, calls[k])))
      && (forall k: nat :: k < n && GoesOnTo(calls, i, tools, k) && LetThrough(calls[k], tools(i, k, calls[k])) ==>
            Gives(calls[k], tools(i, k, calls[k]), r.final))
  {
    if n == 0 {
    } else {
      CallsEnd(c, calls, i, tools, n - 1);
      var before := AnswerCalls(c, calls, i, tools, n - 1);
      if before.end.Going? { OneCall(before, calls[n - 1], tools(i, n - 1, calls[n - 1])); }
      OnlyFirst(calls, i, tools, n - 1);
      hide LetThrough, Breaks, AnswerOne, Gives;
    }
  }

  /** A call after one at which the loop stopped is not reached. */
  lemma {:induction false} OnlyFirst(calls: seq<Call>, i: nat, tools: Tools, n: nat)
    requires n < |calls|
    ensures GoesOnTo(calls, i, tools, n + 1)
       <==> GoesOnTo(calls, i, tools, n) && GoesOn(calls[n], tools(i, n, calls[n]))
    ensures forall k: nat :: k < n && GoesOnTo(calls, i, tools, n) ==> GoesOnTo(calls, i, tools, k)
    ensures forall k: nat :: k < n && GoesOnTo(calls, i, tools, n) ==> GoesOn(calls[k], tools(i, k, calls[k]))
  {
    hide GoesOn;
  }

  /** Message `at` of the list is the answer to the call. */
  predicate AnswersAt(ms: seq<Message>, at: nat, call: Call, result: ToolResult) {
    at < |ms| && ms[at].Tool? && ms[at].callId == call.id && Says(call, result, ms[at].text)
  }

  /** As long as the loop goes on, each call has its own answer in its place. */
  lemma {:induction false} CallsAnswered(c: Conversation, calls: seq<Call>, i: nat, tools: Tools, n: nat)
    requires c.end.Going? && n <= |calls| && GoesOnTo(calls, i, tools, n)
    ensures var (r, at) := (AnswerCalls(c, calls, i, tools, n), |c.messages|);
      && r.end.Going? && |r.messages| == at + n && c.messages <= r.messages
      && (forall k: nat :: k < n ==> AnswersAt(r.messages, at + k, calls[k], tools(i, k, calls[k])))
  {
    var at := |c.messages|;
    hide Says;
    if n == 0 {
    } else {
      var (p, r) := (AnswerCalls(c, calls, i, tools, n - 1), AnswerCalls(c, calls, i, tools, n));
      OnlyFirst(calls, i, tools, n - 1);
      CallsAnswered(c, calls, i, tools, n - 1);
      OneCall(p, calls[n - 1], tools(i, n - 1, calls[n - 1]));
      hide GoesOnTo, GoesOn, AnswerOne, AnswerCalls;
      forall k: nat | k < n ensures AnswersAt(r.messages, at + k, calls[k], tools(i, k, calls[k])) {
        if k < n - 1 {
          assert AnswersAt(p.messages, at + k, calls[k], tools(i, k, calls[k]));
          assert r.messages[at + k] == p.messages[at + k];
        }
      }
    }
  }

  /** The call's tool was executed and dispatched an agent. */
  predicate Dispatches(call: Call, result: ToolResult) { call.parsed.Some? && result.Said? && result.dispatched }

  lemma {:induction false} CallsDispatch(c: Conversation, calls: seq<Call>, i: nat, tools: Tools, n: nat)
    requires c.end.Going? && n <= |calls| && GoesOnTo(calls, i, tools, n)
    ensures AnswerCalls(c, calls, i, tools, n).end.Going?
    ensures AnswerCalls(c, calls, i, tools, n).dispatched <==>
      c.dispatched || exists k: nat :: k < n && Dispatches(calls[k], tools(i, k, calls[k]))
  {
    if n == 0 {
    } else {
      OnlyFirst(calls, i, tools, n - 1);
      CallsDispatch(c, calls, i, tools, n - 1);
      OneCall(AnswerCalls(c, calls, i, tools, n - 1), calls[n - 1], tools(i, n - 1, calls[n - 1]));
      assert Dispatches(calls[n - 1], tools(i, n - 1, calls[n - 1])) ==>
        exists k: nat :: k < n && Dispatches(calls[k], tools(i, k, calls[k]));
      hide GoesOnTo, GoesOn, AnswerOne;
    }
  }

  // ---------------------------------------------------------------- whole runs

  /** Call `k` of the reply of iteration `i` is handled: the run gets to that iteration and all calls before
      it let the loop go on. */
  ghost predicate Reaches(start: seq<Message>, llm: nat -> Option<Reply>, tools: Tools, i: nat, k: nat) {
    && Turns(start, llm, tools, i).end.Going? && llm(i).Some? && k < |llm(i).value.calls|
    && GoesOnTo(llm(i).value.calls, i, tools, k)
  }

  /** The run ends in iteration `i`, and how: the model call fails, the reply has no tool calls, a finalize is
      let through, or a tool raises. */
  ghost predicate EndsIn(start: seq<Message>, llm: nat -> Option<Reply>, tools: Tools, i: nat, end: End) {
    match end
    case Going => false
    case LlmFailed => Turns(start, llm, tools, i).end.Going? && llm(i).None?
    case Replied => Turns(start, llm, tools, i).end.Going? && llm(i).Some? && llm(i).value.calls == []
    case Accepted => exists k: nat ::
      Reaches(start, llm, tools, i, k) && LetThrough(CallAt(llm, i, k), ResultAt(llm, tools, i, k))
    case Raised => exists k: nat ::
      Reaches(start, llm, tools, i, k) && Breaks(CallAt(llm, i, k), ResultAt(llm, tools, i, k))
  }

  function CallAt(llm: nat -> Option<Reply>, i: nat, k: nat): Call
    requires llm(i).Some? && k < |llm(i).value.calls|
  {
    llm(i).value.calls[k]
  }

  function ResultAt(llm: nat -> Option<Reply>, tools: Tools, i: nat, k: nat): ToolResult
    requires llm(i).Some? && k < |llm(i).value.calls|
  {
    tools(i, k, CallAt(llm, i, k))
  }

  /** One iteration. */
  lemma {:induction false} TurnEnds(start: seq<Message>, llm: nat -> Option<Reply>, tools: Tools, i: nat, end: End)
    requires Turns(start, llm, tools, i).end.Going? && end != Going
    ensures var (c, r) := (Turns(start, llm, tools, i), Turns(start, llm, tools, i + 1));
      && (r.end == end <==> EndsIn(start, llm, tools, i, end))
      && (r.end.Going? ==> r.final == c.final)
      && (r.end.LlmFailed? ==> r.final == "编排器调用 LLM 失败")
      && (r.end.Replied? ==> r.final == if llm(i).value.content == "" then c.final else llm(i).value.content)
  {
    var c := Turns(start, llm, tools, i);
    TurnsNext(start, llm, tools, i);
    TurnIs(c, llm(i), tools, i);
    if llm(i).Some? && llm(i).value.calls != [] {
      var r := llm(i).value;
      CallsEnd(c.(messages := Sending(c, i) + [Assistant(r.content, r.calls)]), r.calls, i, tools, |r.calls|);
      hide Turns, Turn, Sending, AnswerCalls, GoesOnTo, LetThrough, Breaks, Gives;
      forall k: nat | k < |r.calls|
        ensures CallAt(llm, i, k) == r.calls[k] && ResultAt(llm, tools, i, k) == tools(i, k, r.calls[k])
      {
      }
    } else {
      hide Turns, Turn, Sending, LetThrough, Breaks;
    }
  }

  lemma {:induction false} EndsOnlyWhereGoing(start: seq<Message>, llm: nat -> Option<Reply>, tools: Tools, i: nat,
        end: End)
    requires EndsIn(start, llm, tools, i, end)
    ensures Turns(start, llm, tools, i).end.Going?
  {
    hide Turns;
  }

  /** A run ends in a given way exactly when one of its iterations does. */
  lemma {:induction false} RunEndsExactlyWhen(start: seq<Message>, llm: nat -> Option<Reply>, tools: Tools, n: nat,
        end: End)
    requires end != Going
    ensures Turns(start, llm, tools, n).end == end <==> exists i: nat :: i < n && EndsIn(start, llm, tools, i, end)
  {
    hide EndsIn, Turn;
    if n == 0 {
    } else {
      RunEndsExactlyWhen(start, llm, tools, n - 1, end);
      if Turns(start, llm, tools, n - 1).end.Going? {
        TurnEnds(start, llm, tools, n - 1, end);
      } else {
        if EndsIn(start, llm, tools, n - 1, end) { EndsOnlyWhereGoing(start, llm, tools, n - 1, end); }
      }
    }
  }

  /** An accepted run's result is the summary of the finalize that was let through, or its answer where it has
      no summary. */
  lemma {:induction false} AcceptedResult(start: seq<Message>, llm: nat -> Option<Reply>, tools: Tools, n: nat, i: nat,
        k: nat)
    requires i < n && Reaches(start, llm, tools, i, k) && LetThrough(CallAt(llm, i, k), ResultAt(llm, tools, i, k))
    ensures var r := Turns(start, llm, tools, n);
      r.end.Accepted? && Gives(CallAt(llm, i, k), ResultAt(llm, tools, i, k), r.final)
  {
    var c, r := Turns(start, llm, tools, i), llm(i).value;
    TurnsNext(start, llm, tools, i);
    TurnIs(c, llm(i), tools, i);
    CallsEnd(c.(messages := Sending(c, i) + [Assistant(r.content, r.calls)]), r.calls, i, tools, |r.calls|);
    hide Turns, Turn, Sending, AnswerCalls;
    assert Turns(start, llm, tools, i + 1).end.Accepted?;
    TurnsStay(start, llm, tools, i + 1, n);
  }

  /** A finalize whose answer holds the mark leaves the run going: the next call is handled, or the run gets to
      the next iteration. */
  lemma {:induction false} RefusedGoesOn(start: seq<Message>, llm: nat -> Option<Reply>, tools: Tools, i: nat, k: nat)
    requires Reaches(start, llm, tools, i, k)
    requires ResultAt(llm, tools, i, k).Said? && Contains(ResultAt(llm, tools, i, k).text, Review.FAILED_MARK)
    ensures if k + 1 < |llm(i).value.calls| then Reaches(start, llm, tools, i, k + 1)
            else Turns(start, llm, tools, i + 1).end.Going?
  {
    var calls := llm(i).value.calls;
    OnlyFirst(calls, i, tools, k);
    if k + 1 == |calls| {
      var c := Turns(start, llm, tools, i);
      TurnsNext(start, llm, tools, i);
      TurnIs(c, llm(i), tools, i);
      CallsEnd(c.(messages := Sending(c, i) + [Assistant(llm(i).value.content, calls)]), calls, i, tools, |calls|);
    }
  }

  /** A finalize answered by the review never ends the run while some dispatched type has not produced a file
      that is not empty. */
  lemma {:induction false} UnproducedNeverEnds(start: seq<Message>, llm: nat -> Option<Reply>, tools: Tools, i: nat,
        k: nat,
      summary: string, dispatched: seq<string>, place: Review.Place, t: string)
    requires Reaches(start, llm, tools, i, k)
    requires ResultAt(llm, tools, i, k).Said?
    requires ResultAt(llm, tools, i, k).text == Review.FinalizeAnswer(summary, true, dispatched, Some(place))
    requires t in dispatched && !Review.Produced(t, place.files)
    ensures !LetThrough(CallAt(llm, i, k), ResultAt(llm, tools, i, k))
    ensures if k + 1 < |llm(i).value.calls| then Reaches(start, llm, tools, i, k + 1)
            else Turns(start, llm, tools, i + 1).end.Going?
  {
    hide Review.Produced;
    Review.MarkedExactlyWhen(summary, true, dispatched, Some(place));
    RefusedGoesOn(start, llm, tools, i, k);
  }

  // ---------------------------------------------------------------- the forced finalize

  /** The user is made to ask for the end in iteration 21 of 25, exactly when an agent was dispatched before. */
  lemma {:induction false} NudgedExactlyWhen(start: seq<Message>, llm: nat -> Option<Reply>, tools: Tools, i: nat)
    requires Turns(start, llm, tools, i).end.Going?
    ensures var c := Turns(start, llm, tools, i);
      && (Sending(c, i) == c.messages || Sending(c, i) == c.messages + [User(FORCE_FINALIZE)])
      && (Sending(c, i) != c.messages <==> i == 21 && DispatchedBefore(start, llm, tools, i))
  {
    DispatchedExactlyWhen(start, llm, tools, i);
  }

  /** Some tool call that was handled before iteration `n` dispatched an agent. */
  ghost predicate DispatchedBefore(start: seq<Message>, llm: nat -> Option<Reply>, tools: Tools, n: nat) {
    exists i: nat :: i < n && DispatchedIn(start, llm, tools, i)
  }

  /** A call handled in iteration `i` dispatched an agent. */
  ghost predicate DispatchedIn(start: seq<Message>, llm: nat -> Option<Reply>, tools: Tools, i: nat) {
    exists k: nat :: Reaches(start, llm, tools, i, k) && Dispatches(CallAt(llm, i, k), ResultAt(llm, tools, i, k))
  }

  lemma {:induction false} TurnDispatches(start: seq<Message>, llm: nat -> Option<Reply>, tools: Tools, i: nat)
    requires Turns(start, llm, tools, i + 1).end.Going?
    ensures Turns(start, llm, tools, i).end.Going?
    ensures Turns(start, llm, tools, i + 1).dispatched <==>
      Turns(start, llm, tools, i).dispatched || DispatchedIn(start, llm, tools, i)
  {
    var c := Turns(start, llm, tools, i);
    TurnsNext(start, llm, tools, i);
    TurnIs(c, llm(i), tools, i);
    var r := llm(i).value;
    var asked := c.(messages := Sending(c, i) + [Assistant(r.content, r.calls)]);
    CallsEnd(asked, r.calls, i, tools, |r.calls|);
    CallsDispatch(asked, r.calls, i, tools, |r.calls|);
    forall k: nat | k < |r.calls|
      ensures Reaches(start, llm, tools, i, k)
      ensures CallAt(llm, i, k) == r.calls[k] && ResultAt(llm, tools, i, k) == tools(i, k, r.calls[k])
    {
    }
    hide Turns, Turn, Sending, AnswerCalls, GoesOnTo, Dispatches, Reaches;
    if k: nat :| Reaches(start, llm, tools, i, k) && Dispatches(CallAt(llm, i, k), ResultAt(llm, tools, i, k)) {
      ReachesIn(start, llm, tools, i, k);
      assert Dispatches(r.calls[k], tools(i, k, r.calls[k]));
    }
  }

  lemma {:induction false} ReachesIn(start: seq<Message>, llm: nat -> Option<Reply>, tools: Tools, i: nat, k: nat)
    requires Reaches(start, llm, tools, i, k)
    ensures llm(i).Some? && k < |llm(i).value.calls|
  {
  }

  lemma {:induction false} DispatchedExactlyWhen(start: seq<Message>, llm: nat -> Option<Reply>, tools: Tools, n: nat)
    requires Turns(start, llm, tools, n).end.Going?
    ensures Turns(start, llm, tools, n).dispatched <==> DispatchedBefore(start, llm, tools, n)
  {
    hide DispatchedIn, Turn;
    if n == 0 {
    } else {
      TurnDispatches(start, llm, tools, n - 1);
      DispatchedExactlyWhen(start, llm, tools, n - 1);
    }
  }
}
