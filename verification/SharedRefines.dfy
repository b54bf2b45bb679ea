/**
 An execute that nobody interrupts, step by step on the shared lists, does what the loop of the orchestrator
 does (src/orchestrator/orchestrator.py:407-502).
 */
module SharedRefines {
  import opened Wrappers
  import opened Transcript
  import opened Orchestrating
  import opened SharedSession

  /** What the session's list was when the execute began. */
  datatype Origin = Origin(session: nat, history: seq<Message>)

  /** An execute with a list of its own leaves the session's list alone. */
  ghost predicate Spares(w: World, l: nat, o: Origin) {
    o.session < |w.lists| && (l != o.session ==> w.lists[o.session] == o.history)
  }

  /** Execute `c` on list `l` is where the loop is after `m` of the calls of iteration `i`. */
  ghost predicate AfterCalls(w: World, c: nat, l: nat, conv: Conversation, calls: seq<Call>, i: nat, m: nat,
        o: Origin) {
    && Spares(w, l, o) && Shape(w) && c < |w.pcs| && l < |w.lists| && w.lists[l] == conv.messages
    && (conv.end.Going? && m < |calls| ==>
          w.pcs[c] == Answering(l, i, conv.dispatched, calls, m) && w.session == o.session)
    && (conv.end.Going? && m >= |calls| ==> AtTop(w, c, l, conv.dispatched, i + 1, o))
    && (conv.end.Accepted? ==> w.session == l && (w.pcs[c] == Over || w.pcs[c] == Quit(l)))
    && (conv.end.Raised? ==> w.pcs[c] == Quit(l) && w.session == o.session)
  }

  /** The execute is ready for iteration `i`, or over with its list saved when there is none. */
  ghost predicate AtTop(w: World, c: nat, l: nat, dispatched: bool, i: nat, o: Origin)
    requires c < |w.pcs|
  {
    if i < MAX_ITERATIONS then w.pcs[c] == Ready(l, i, dispatched) && w.session == o.session
    else w.pcs[c] == Over && w.session == l
  }

  /** The execute is where the loop is after `i` iterations. */
  ghost predicate Matches(w: World, c: nat, l: nat, conv: Conversation, i: nat, o: Origin) {
    && Spares(w, l, o) && Shape(w) && c < |w.pcs| && l < |w.lists| && w.lists[l] == conv.messages
    && (conv.end.Going? ==> AtTop(w, c, l, conv.dispatched, i, o))
    && (!conv.end.Going? ==> w.pcs[c] == Over || w.pcs[c] == Quit(l))
    && (!conv.end.Going? && !conv.end.Raised? ==> w.session == l)
    && (conv.end.Raised? ==> w.session == o.session)
  }

  /** Execute `c` takes `kinds` one after the other, and nobody else takes a step. */
  ghost predicate Alone(w: World, c: nat, kinds: seq<Kind>, v: World)
    decreases |kinds|
  {
    if kinds == [] then w == v
    else
      exists u :: Alone(w, c, kinds[..|kinds| - 1], u) && Shape(u) && c < |u.pcs| &&
        Move(u, c, kinds[|kinds| - 1]) == Some(v)
  }

  lemma {:induction false} AloneMore(w: World, c: nat, kinds: seq<Kind>, u: World, kind: Kind, v: World)
    requires Alone(w, c, kinds, u) && Shape(u) && c < |u.pcs| && Move(u, c, kind) == Some(v)
    ensures Alone(w, c, kinds + [kind], v) && Shape(v) && c < |v.pcs|
  {
    assert (kinds + [kind])[..|kinds|] == kinds;
    MoveShape(u, c, kind, v);
    if u.lists != [] { MoveEffect(u, c, kind, v, 0); }
  }

  /** One tool's answer. */
  lemma {:induction false} CallStep(w: World, c: nat, l: nat, conv: Conversation, calls: seq<Call>, i: nat, m: nat,
                                    result: ToolResult, o: Origin) returns (v: World)
    requires m < |calls| && AfterCalls(w, c, l, conv, calls, i, m, o) && conv.end.Going?
    ensures Move(w, c, ToolSays(result)) == Some(v)
    ensures AfterCalls(v, c, l, AnswerOne(conv, calls[m], result), calls, i, m + 1, o)
  {
    hide Accepts, AnswerText;
    v := Move(w, c, ToolSays(result)).value;
    MoveShape(w, c, ToolSays(result), v);
  }

  /** All of them, up to where the loop stops. */
  lemma {:induction false} CallsRun(w: World, w0: World, c: nat, kinds: seq<Kind>, l: nat, conv: Conversation,
        calls: seq<Call>,
                                    i: nat, tools: Tools, m: nat, o: Origin) returns (more: seq<Kind>, v: World)
    requires m <= |calls| && calls != [] && AfterCalls(w, c, l, conv, calls, i, 0, o) && conv.end.Going?
    requires Alone(w0, c, kinds, w)
    ensures AfterCalls(v, c, l, AnswerCalls(conv, calls, i, tools, m), calls, i, m, o)
    ensures Alone(w0, c, kinds + more, v)
  {
    hide AnswerOne, AfterCalls, Move, Alone;
    if m == 0 {
      more, v := [], w;
      assert kinds + more == kinds;
    } else {
      more, v := CallsRun(w, w0, c, kinds, l, conv, calls, i, tools, m - 1, o);
      var p := AnswerCalls(conv, calls, i, tools, m - 1);
      if p.end.Going? {
        var result := tools(i, m - 1, calls[m - 1]);
        var u := CallStep(v, c, l, p, calls, i, m - 1, result, o);
        AfterFacts(v, c, l, p, calls, i, m - 1, o);
        AloneMore(w0, c, kinds + more, v, ToolSays(result), u);
        assert kinds + (more + [ToolSays(result)]) == kinds + more + [ToolSays(result)];
        more, v := more + [ToolSays(result)], u;
      } else {
        Stopped(v, c, l, p, calls, i, m - 1, o);
      }
    }
  }

  lemma {:induction false} AfterFacts(w: World, c: nat, l: nat, conv: Conversation, calls: seq<Call>, i: nat, m: nat,
        o: Origin)
    requires AfterCalls(w, c, l, conv, calls, i, m, o)
    ensures Shape(w) && c < |w.pcs|
  {
  }

  lemma {:induction false} Stopped(w: World, c: nat, l: nat, conv: Conversation, calls: seq<Call>, i: nat, m: nat,
        o: Origin)
    requires AfterCalls(w, c, l, conv, calls, i, m, o) && !conv.end.Going?
    ensures AfterCalls(w, c, l, conv, calls, i, m + 1, o)
  {
  }

  /** An iteration that nobody interrupts is a turn of the loop: the same list, the same end, and the list is the
      session's exactly where execute saves it. */
  lemma {:induction false} UninterruptedIsTurn(w: World, c: nat, l: nat, conv: Conversation, i: nat,
        reply: Option<Reply>,
                                               tools: Tools, o: Origin) returns (kinds: seq<Kind>, v: World)
    requires Matches(w, c, l, conv, i, o) && conv.end.Going? && i < MAX_ITERATIONS
    ensures Alone(w, c, kinds, v)
    ensures Matches(v, c, l, Turn(conv, reply, tools, i), i + 1, o)
  {
    kinds, v := AsksTheModel(w, c, l, conv, i, o);
    TurnIs(conv, reply, tools, i);
    var ms := Sending(conv, i);
    var u := Move(v, c, ModelSays(reply)).value;
    AloneMore(w, c, kinds, v, ModelSays(reply), u);
    kinds := kinds + [ModelSays(reply)];
    v := u;
    if reply.Some? && reply.value.calls != [] {
      var r := reply.value;
      var asked := conv.(messages := ms + [Assistant(r.content, r.calls)]);
      assert AfterCalls(v, c, l, asked, r.calls, i, 0, o);
      var more, x := CallsRun(v, w, c, kinds, l, asked, r.calls, i, tools, |r.calls|, o);
      var answers := AnswersInOrder(asked, r.calls, i, tools, |r.calls|);
      kinds, v := kinds + more, x;
    }
  }

  /** The forced finalize where it is due, and the list sent. */
  lemma {:induction false} AsksTheModel(w: World, c: nat, l: nat, conv: Conversation, i: nat, o: Origin)
        returns (kinds: seq<Kind>, v: World)
    requires Matches(w, c, l, conv, i, o) && conv.end.Going? && i < MAX_ITERATIONS
    ensures Alone(w, c, kinds, v) && Shape(v) && c < |v.pcs| && l < |v.lists|
    ensures v.lists[l] == Sending(conv, i) && v.pcs[c] == Asked(l, i, conv.dispatched) && v.session == w.session &&
        Spares(v, l, o)
  {
    kinds, v := [], w;
    if MustNudge(i, conv.dispatched) {
      var u := Move(v, c, Nudge).value;
      AloneMore(w, c, kinds, v, Nudge, u);
      kinds, v := kinds + [Nudge], u;
    }
    var u := Move(v, c, Send).value;
    AloneMore(w, c, kinds, v, Send, u);
    kinds, v := kinds + [Send], u;
  }

  lemma {:induction false} Begins(w: World, c: nat, prompt: string, user: string) returns (v: World, l: nat)
    requires Shape(w) && c < |w.pcs| && w.pcs[c] == Idle
    ensures Alone(w, c, [Begin(prompt, user)], v) && l == if w.lists[w.session] != [] then w.session else |w.lists|
    ensures Matches(v, c, l, Conversation(StartOf(w.lists[w.session], prompt, user), false, Going, NO_RESULT), 0,
                    Origin(w.session, w.lists[w.session]))
  {
    v := Move(w, c, Begin(prompt, user)).value;
    l := if w.lists[w.session] != [] then w.session else |w.lists|;
    assert Alone(w, c, [], w);
    AloneMore(w, c, [], w, Begin(prompt, user), v);
    assert [] + [Begin(prompt, user)] == [Begin(prompt, user)];
  }

  /** From its beginning, an execute that nobody interrupts has the transcript of the loop after any number of
      iterations, ends where the loop ends, and then leaves its list to the session unless an exception
      escaped. */
  lemma {:induction false} UninterruptedIsExecute(w: World, c: nat, prompt: string, user: string,
      llm: nat -> Option<Reply>, tools: Tools, n: nat) returns (kinds: seq<Kind>, v: World, l: nat)
    requires Shape(w) && c < |w.pcs| && w.pcs[c] == Idle && n <= MAX_ITERATIONS
    ensures Alone(w, c, kinds, v)
    ensures Matches(v, c, l, Turns(StartOf(w.lists[w.session], prompt, user), llm, tools, n), n,
                    Origin(w.session, w.lists[w.session]))
    ensures l == if w.lists[w.session] != [] then w.session else |w.lists|
  {
    var u;
    u, l := Begins(w, c, prompt, user);
    hide Turns, Alone, Matches;
    var h := w.lists[w.session];
    kinds, v := FromTheStart(w, c, [Begin(prompt, user)], u, l, StartOf(h, prompt, user), llm, tools, n,
                             Origin(w.session, h));
  }

  lemma {:induction false} FromTheStart(w: World, c: nat, first: seq<Kind>, u: World, l: nat, start: seq<Message>,
      llm: nat -> Option<Reply>, tools: Tools, n: nat, o: Origin) returns (kinds: seq<Kind>, v: World)
    requires Alone(w, c, first, u) && Matches(u, c, l, Conversation(start, false, Going, NO_RESULT), 0, o)
    requires n <= MAX_ITERATIONS
    ensures Alone(w, c, kinds, v) && Matches(v, c, l, Turns(start, llm, tools, n), n, o)
  {
    hide Turns, Alone, Matches;
    FirstTurn(start, llm, tools);
    if n == 0 {
      kinds, v := first, u;
    } else {
      kinds, v := FromTheStart(w, c, first, u, l, start, llm, tools, n - 1, o);
      kinds, v := OneMore(w, c, kinds, v, l, start, llm, tools, n - 1, o);
    }
  }

  /** One iteration more, if the loop still goes on. */
  lemma {:induction false} OneMore(w: World, c: nat, before: seq<Kind>, u: World, l: nat, start: seq<Message>,
      llm: nat -> Option<Reply>, tools: Tools, i: nat, o: Origin) returns (kinds: seq<Kind>, v: World)
    requires Alone(w, c, before, u) && Matches(u, c, l, Turns(start, llm, tools, i), i, o) && i < MAX_ITERATIONS
    ensures Alone(w, c, kinds, v) && Matches(v, c, l, Turns(start, llm, tools, i + 1), i + 1, o)
  {
    var conv := Turns(start, llm, tools, i);
    hide Turn, Turns, Alone, Matches;
    if conv.end.Going? {
      var more, x := UninterruptedIsTurn(u, c, l, conv, i, llm(i), tools, o);
      AloneThen(w, c, before, u, more, x);
      TurnsNext(start, llm, tools, i);
      kinds, v := before + more, x;
    } else {
      EndedMatches(u, c, l, conv, i, o);
      TurnsStay(start, llm, tools, i, i + 1);
      kinds, v := before, u;
    }
  }

  lemma {:induction false} EndedMatches(w: World, c: nat, l: nat, conv: Conversation, i: nat, o: Origin)
    requires Matches(w, c, l, conv, i, o) && !conv.end.Going?
    ensures Matches(w, c, l, conv, i + 1, o)
  {
  }

  lemma {:induction false} AloneThen(w: World, c: nat, kinds: seq<Kind>, u: World, more: seq<Kind>, v: World)
    requires Alone(w, c, kinds, u) && Alone(u, c, more, v)
    ensures Alone(w, c, kinds + more, v)
    decreases |more|
  {
    if more == [] {
      assert kinds + more == kinds;
    } else {
      var n := |more| - 1;
      var x :| Alone(u, c, more[..n], x) && Shape(x) && c < |x.pcs| && Move(x, c, more[n]) == Some(v);
      AloneThen(w, c, kinds, u, more[..n], x);
      AloneMore(w, c, kinds + more[..n], x, more[n], v);
      assert kinds + more[..n] + [more[n]] == kinds + more;
    }
  }

  /** Run to its end, what an execute that nobody interrupts leaves in the session is what the loop leaves. */
  lemma {:induction false} LeavesWhatExecuteLeaves(w: World, c: nat, prompt: string, user: string,
      llm: nat -> Option<Reply>, tools: Tools) returns (kinds: seq<Kind>, v: World)
    requires Shape(w) && c < |w.pcs| && w.pcs[c] == Idle
    ensures Alone(w, c, kinds, v) && Shape(v)
    ensures var h := w.lists[w.session];
      v.lists[v.session] == Orchestrating.Left(h, Turns(StartOf(h, prompt, user), llm, tools, MAX_ITERATIONS))
  {
    var l;
    kinds, v, l := UninterruptedIsExecute(w, c, prompt, user, llm, tools, MAX_ITERATIONS);
    hide Alone, Turns, StartOf, Move;
  }
}
