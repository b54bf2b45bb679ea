/**
 Executes of one session that overlap (src/api/routes.py:125, 160-197 and
 src/orchestrator/orchestrator.py:377-510).

 Every chat of a session runs in the background with the same session object, and nothing
 serializes them.  An execute that finds messages in the session goes on with that very list,
 so that several may extend one list; one that finds none starts its own, which becomes the
 session's when it ends.  Between any two steps of one execute the others may take theirs.
 */
module SharedSession {
  import opened Wrappers
  import opened Transcript
  import opened Orchestrating

  /** Where an execute is, with the number of its list, its iteration and whether it has dispatched an
      agent.  Quit: it ended with a tool call of its own unanswered. */
  datatype Pc =
    | Idle
    | Ready(list: nat, i: nat, dispatched: bool)
    | Nudged(list: nat, i: nat)
    | Asked(list: nat, i: nat, dispatched: bool)
    | Answering(list: nat, i: nat, dispatched: bool, calls: seq<Call>, k: nat)
    | Quit(list: nat)
    | Over

  /** The lists by number; `session` is the number of the session's. */
  datatype World = World(lists: seq<seq<Message>>, session: nat, pcs: seq<Pc>)

  /** Begin: the user's message; Nudge: the forced finalize; Send: the list goes to the model;
      ModelSays: its reply, None when the call fails; ToolSays: a tool's result; Abort: cancelled, or a callback
      raises. */
  datatype Kind =
    | Begin(prompt: string, user: string) | Nudge | Send | ModelSays(reply: Option<Reply>)
    | ToolSays(result: ToolResult) | Abort

  datatype Step = Step(run: nat, kind: Kind)

  predicate PcOk(pc: Pc, lists: nat) {
    match pc
    case Idle => true
    case Over => true
    case Answering(l, _, _, calls, k) => l < lists && k < |calls|
    case _ => pc.list < lists
  }

  ghost predicate Shape(w: World) {
    w.session < |w.lists| && forall c :: 0 <= c < |w.pcs| ==> PcOk(w.pcs[c], |w.lists|)
  }

  /** Adds a message to a list and moves the execute. */
  function Append(w: World, c: nat, l: nat, m: Message, pc: Pc): World
    requires c < |w.pcs| && l < |w.lists|
  {
    w.(lists := w.lists[l := w.lists[l] + [m]], pcs := w.pcs[c := pc])
  }

  function Goes(w: World, c: nat, pc: Pc): World
    requires c < |w.pcs|
  {
    w.(pcs := w.pcs[c := pc])
  }

  /** The end of the loop: the execute's list is the session's. */
  function Saved(w: World, l: nat): World { w.(session := l) }

  predicate MustNudge(i: nat, dispatched: bool) { i == MAX_ITERATIONS - 4 && dispatched }

  /** After the answer to call `k`. */
  function Next(l: nat, i: nat, dispatched: bool, calls: seq<Call>, k: nat): Pc {
    if k + 1 < |calls| then Answering(l, i, dispatched, calls, k + 1)
    else if i + 1 < MAX_ITERATIONS then Ready(l, i + 1, dispatched) else Over
  }

  /** Execute `c` takes a step of the given kind; None when it cannot. */
  function Move(w: World, c: nat, kind: Kind): Option<World>
    requires Shape(w) && c < |w.pcs|
  {
    match (kind, w.pcs[c])
    case (Begin(prompt, user), Idle) =>
      if w.lists[w.session] != [] then Some(Append(w, c, w.session, User(user), Ready(w.session, 0, false)))
      else Some(World(w.lists + [[System(prompt), User(user)]], w.session, w.pcs[c := Ready(|w.lists|, 0, false)]))
    case (Nudge, Ready(l, i, d)) =>
      if MustNudge(i, d) then Some(Append(w, c, l, User(FORCE_FINALIZE), Nudged(l, i))) else None
    case (Send, Ready(l, i, d)) => if MustNudge(i, d) then None else Some(Goes(w, c, Asked(l, i, d)))
    case (Send, Nudged(l, i)) => Some(Goes(w, c, Asked(l, i, true)))
    case (ModelSays(reply), Asked(l, i, d)) =>
      if reply.None? then Some(Saved(Goes(w, c, Over), l))
      else
        var said := Assistant(reply.value.content, reply.value.calls);
        if reply.value.calls == [] then Some(Saved(Append(w, c, l, said, Over), l))
        else Some(Append(w, c, l, said, Answering(l, i, d, reply.value.calls, 0)))
    case (ToolSays(result), Answering(l, i, d, calls, k)) =>
      var (call, text) := (calls[k], AnswerText(calls[k], result));
      if text.None? then Some(Goes(w, c, Quit(l)))
      else
        var told := Tool(call.id, text.value);
        if Accepts(call, result) then
          Some(Saved(Append(w, c, l, told, if k + 1 < |calls| then Quit(l) else Over), l))
        else
          var next := Next(l, i, d || (call.parsed.Some? && result.dispatched), calls, k);
          var after := Append(w, c, l, told, next);
          Some(if next.Over? then Saved(after, l) else after)
    case (Abort, Answering(l, _, _, _, _)) => Some(Goes(w, c, Quit(l)))
    case (Abort, Quit(_)) => None
    case (Abort, Over) => None
    case (Abort, _) => Some(Goes(w, c, Over))
    case _ => None
  }

  ghost predicate Init(history: seq<Message>, w: World) {
    w.lists == [history] && w.session == 0 && forall c :: 0 <= c < |w.pcs| ==> w.pcs[c] == Idle
  }

  ghost predicate StepAt(ss: seq<Step>, ws: seq<World>, i: nat)
    requires |ws| == |ss| + 1
  {
    i < |ss| ==> Shape(ws[i]) && ss[i].run < |ws[i].pcs| && Move(ws[i], ss[i].run, ss[i].kind) == Some(ws[i + 1])
  }

  /** Any number of executes of a session with this history, interleaved in any way. */
  ghost predicate IsRun(history: seq<Message>, ss: seq<Step>, ws: seq<World>) {
    |ws| == |ss| + 1 && Init(history, ws[0]) && forall i: nat :: StepAt(ss, ws, i)
  }

  // ---------------------------------------------------------------- what disturbs a list

  /** The execute has, or left, a tool call on the list without its answer. */
  predicate Owes(pc: Pc, l: nat) { (pc.Answering? || pc.Quit?) && pc.list == l }

  /** The list that the step adds a message to. */
  function AddsTo(w: World, c: nat, kind: Kind): Option<nat>
    requires Shape(w) && c < |w.pcs|
  {
    match (kind, w.pcs[c])
    case (Begin(_, _), Idle) => if w.lists[w.session] != [] then Some(w.session) else None
    case (Nudge, Ready(l, i, d)) => if MustNudge(i, d) then Some(l) else None
    case (ModelSays(reply), Asked(l, _, _)) => if reply.Some? then Some(l) else None
    case (ToolSays(result), Answering(l, _, _, calls, k)) => if AnswerText(calls[k], result).Some? then Some(l)
        else None
    case _ => None
  }

  /** The step adds to the list while another execute owes an answer on it. */
  ghost predicate Intrudes(w: World, s: Step, l: nat) {
    && Shape(w) && s.run < |w.pcs| && AddsTo(w, s.run, s.kind) == Some(l)
    && exists d :: 0 <= d < |w.pcs| && d != s.run && Owes(w.pcs[d], l)
  }

  ghost predicate IntrudedBefore(ss: seq<Step>, ws: seq<World>, l: nat, i: nat)
    requires |ws| == |ss| + 1 && i <= |ss|
  {
    exists j: nat :: j < i && Intrudes(ws[j], ss[j], l)
  }

  // ---------------------------------------------------------------- the state of one list

  /** A well-formed list, an assistant message, and answers to the first of its calls but not to all. */
  ghost predicate Block(ms: seq<Message>, base: seq<Message>, content: string, calls: seq<Call>,
        answers: seq<Message>) {
    && ms == base + [Assistant(content, calls)] + answers
    && WellFormed(base) && Answer(calls, answers) && |answers| < |calls|
  }

  /** The list ends in the block of calls that the execute is answering, or has left. */
  ghost predicate HalfAnswered(ms: seq<Message>, pc: Pc) {
    exists base, content, calls, answers ::
      Block(ms, base, content, calls, answers) && (pc.Answering? ==> calls == pc.calls && |answers| == pc.k)
  }

  /** Nothing can make the list well formed again. */
  ghost predicate Hopeless(ms: seq<Message>) { forall more :: IllWith(ms, more) }

  ghost predicate IllWith(ms: seq<Message>, more: seq<Message>) { !WellFormed(ms + more) }

  ghost predicate Sound(w: World, l: nat)
    requires l < |w.lists|
  {
    && (forall c, d :: 0 <= c < |w.pcs| && 0 <= d < |w.pcs| && Owes(w.pcs[c], l) && Owes(w.pcs[d], l) ==> c == d)
    && (forall c :: 0 <= c < |w.pcs| && Owes(w.pcs[c], l) ==> HalfAnswered(w.lists[l], w.pcs[c]))
    && (NoneOwes(w, l) ==> WellFormed(w.lists[l]))
  }

  ghost predicate NoneOwes(w: World, l: nat) { forall c :: 0 <= c < |w.pcs| ==> !Owes(w.pcs[c], l) }

  lemma {:induction false} HalfAnsweredIsIll(ms: seq<Message>, pc: Pc)
    requires HalfAnswered(ms, pc)
    ensures !WellFormed(ms)
  {
    var base, content, calls, answers :| Block(ms, base, content, calls, answers);
    AppendBlock(base, content, calls, answers);
  }

  lemma {:induction false} HopelessAfter(ms: seq<Message>, m: Message)
    requires !WellFormed(ms) && !m.Tool?
    ensures Hopeless(ms + [m])
  {
    forall more ensures IllWith(ms + [m], more) {
      IllFormedStays(ms, m, more);
    }
  }

  lemma {:induction false} HopelessStays(ms: seq<Message>, m: Message)
    requires Hopeless(ms)
    ensures Hopeless(ms + [m]) && !WellFormed(ms)
  {
    forall more ensures IllWith(ms + [m], more) {
      assert IllWith(ms, [m] + more);
      assert ms + [m] + more == ms + ([m] + more);
    }
    assert IllWith(ms, []);
    assert ms + [] == ms;
  }

  // ---------------------------------------------------------------- one step

  /** What a step adds, and what the execute owes on the list before and after it. */
  ghost predicate AddsRightly(before: Pc, m: Message, after: Pc, l: nat) {
    match m
    case Tool(id, _) =>
      && before.Answering? && before.list == l && before.k < |before.calls| && id == before.calls[before.k].id
      && (Owes(after, l) <==> before.k + 1 < |before.calls|)
      && (after.Answering? ==> after.list == l && after.calls == before.calls && after.k == before.k + 1)
    case Assistant(_, calls) =>
      !Owes(before, l) && (Owes(after, l) <==> calls != []) &&
        (Owes(after, l) ==> after.Answering? && after.calls == calls && after.k == 0)
    case _ => !Owes(before, l) && !Owes(after, l)
  }

  lemma {:induction false} MoveEffect(w: World, c: nat, kind: Kind, v: World, l: nat)
    requires Shape(w) && c < |w.pcs| && l < |w.lists| && Move(w, c, kind) == Some(v)
    ensures |w.lists| <= |v.lists| && |v.pcs| == |w.pcs| && v.pcs == w.pcs[c := v.pcs[c]]
    ensures AddsTo(w, c, kind) == Some(l) ==>
      |v.lists[l]| > 0 && v.lists[l] == w.lists[l] + [v.lists[l][|v.lists[l]| - 1]]
      && AddsRightly(w.pcs[c], v.lists[l][|v.lists[l]| - 1], v.pcs[c], l)
    ensures AddsTo(w, c, kind) != Some(l) ==>
      v.lists[l] == w.lists[l] && (Owes(v.pcs[c], l) <==> Owes(w.pcs[c], l)) &&
        (Owes(v.pcs[c], l) ==> v.pcs[c] == w.pcs[c] || v.pcs[c].Quit?)
  {
    hide AnswerText, Accepts;
  }

  lemma {:induction false} MoveShape(w: World, c: nat, kind: Kind, v: World)
    requires Shape(w) && c < |w.pcs| && Move(w, c, kind) == Some(v)
    ensures Shape(v) && |v.lists| <= |w.lists| + 1
    ensures |v.lists| > |w.lists| ==> WellFormed(v.lists[|w.lists|]) && NoneOwes(v, |w.lists|)
  {
    hide AnswerText, Accepts;
    if |v.lists| > |w.lists| {
      assert forall d :: 0 <= d < |w.pcs| ==> PcOk(w.pcs[d], |w.lists|);
    }
  }

  /** A step that does not intrude keeps the list sound. */
  lemma {:induction false} SoundStep(w: World, c: nat, kind: Kind, v: World, l: nat)
    requires Shape(w) && c < |w.pcs| && l < |w.lists| && Move(w, c, kind) == Some(v)
    requires Sound(w, l) && !Intrudes(w, Step(c, kind), l)
    ensures l < |v.lists| && Sound(v, l)
  {
    MoveEffect(w, c, kind, v, l);
    hide Move, AddsRightly, WellFormed, HalfAnswered;
    assert forall d :: 0 <= d < |w.pcs| && d != c ==> v.pcs[d] == w.pcs[d];
    if AddsTo(w, c, kind) == Some(l) {
      assert forall d :: 0 <= d < |w.pcs| && d != c ==> !Owes(w.pcs[d], l);
      assert Owes(w.pcs[c], l) || NoneOwes(w, l);
      AddedSoundly(w.lists[l], v.lists[l], w.pcs[c], v.pcs[c], l);
    } else if Owes(w.pcs[c], l) {
      QuitHalfway(w.lists[l], w.pcs[c], v.pcs[c]);
    } else {
      assert NoneOwes(v, l) ==> NoneOwes(w, l) by {
        assert forall d :: 0 <= d < |w.pcs| ==> Owes(w.pcs[d], l) == Owes(v.pcs[d], l);
      }
    }
  }

  lemma {:induction false} QuitHalfway(ms: seq<Message>, before: Pc, after: Pc)
    requires HalfAnswered(ms, before) && (after == before || after.Quit?)
    ensures HalfAnswered(ms, after)
  {
    var base, content, calls, answers :|
      Block(ms, base, content, calls, answers) &&
      (before.Answering? ==> calls == before.calls && |answers| == before.k);
  }

  lemma {:induction false} AddedSoundly(ms: seq<Message>, r: seq<Message>, before: Pc, after: Pc, l: nat)
    requires |r| > 0 && r == ms + [r[|r| - 1]] && AddsRightly(before, r[|r| - 1], after, l)
    requires if Owes(before, l) then HalfAnswered(ms, before) else WellFormed(ms)
    ensures if Owes(after, l) then HalfAnswered(r, after) else WellFormed(r)
  {
    var m := r[|r| - 1];
    hide WellFormed;
    match m
    case Tool(_, _) =>
      var base, content, calls, answers :|
        Block(ms, base, content, calls, answers) &&
        (before.Answering? ==> calls == before.calls && |answers| == before.k);
      var more := answers + [m];
      assert r == base + [Assistant(content, calls)] + more;
      AppendBlock(base, content, calls, more);
      if Owes(after, l) { assert Block(r, base, content, calls, more); }
    case Assistant(content, calls) =>
      AppendBlock(ms, content, calls, []);
      assert ms + [Assistant(content, calls)] + [] == r;
      if calls != [] { assert Block(r, ms, content, calls, []); }
    case _ =>
      AppendPlain(ms, m);
  }

  /** A step that intrudes on a sound list spoils it for good. */
  lemma {:induction false} IntrusionSpoils(w: World, c: nat, kind: Kind, v: World, l: nat)
    requires Shape(w) && c < |w.pcs| && l < |w.lists| && Move(w, c, kind) == Some(v)
    requires Sound(w, l) && Intrudes(w, Step(c, kind), l)
    ensures l < |v.lists| && Hopeless(v.lists[l])
  {
    MoveEffect(w, c, kind, v, l);
    hide Move, WellFormed, HalfAnswered;
    var d :| 0 <= d < |w.pcs| && d != c && Owes(w.pcs[d], l);
    HalfAnsweredIsIll(w.lists[l], w.pcs[d]);
    HopelessAfter(w.lists[l], v.lists[l][|v.lists[l]| - 1]);
  }

  lemma {:induction false} HopelessStep(w: World, c: nat, kind: Kind, v: World, l: nat)
    requires Shape(w) && c < |w.pcs| && l < |w.lists| && Move(w, c, kind) == Some(v) && Hopeless(w.lists[l])
    ensures l < |v.lists| && Hopeless(v.lists[l])
  {
    MoveEffect(w, c, kind, v, l);
    hide Move, Hopeless;
    if AddsTo(w, c, kind) == Some(l) { HopelessStays(w.lists[l], v.lists[l][|v.lists[l]| - 1]); }
  }

  // ---------------------------------------------------------------- whole runs

  /** In every interleaving a list is sound until a step intrudes on it, and hopeless from then on. */
  lemma {:induction false} SoundUntilIntruded(history: seq<Message>, ss: seq<Step>, ws: seq<World>, i: nat, l: nat)
    requires WellFormed(history) && IsRun(history, ss, ws) && i <= |ss| && l < |ws[i].lists|
    ensures Shape(ws[i])
    ensures if IntrudedBefore(ss, ws, l, i) then Hopeless(ws[i].lists[l]) else Sound(ws[i], l)
  {
    hide WellFormed, Hopeless, Intrudes, HalfAnswered;
    if i == 0 {
    } else {
      assert StepAt(ss, ws, i - 1);
      var (w, s, v) := (ws[i - 1], ss[i - 1], ws[i]);
      MoveShape(w, s.run, s.kind, v);
      BeforeNext(ss, ws, l, i);
      hide Move, IntrudedBefore, IsRun;
      assert s == Step(s.run, s.kind);
      if l < |w.lists| {
        SoundUntilIntruded(history, ss, ws, i - 1, l);
        if IntrudedBefore(ss, ws, l, i - 1) {
          HopelessStep(w, s.run, s.kind, v, l);
        } else if Intrudes(w, s, l) {
          IntrusionSpoils(w, s.run, s.kind, v, l);
        } else {
          SoundStep(w, s.run, s.kind, v, l);
        }
      } else {
        NotYetIntruded(history, ss, ws, l, i);
      }
    }
  }

  lemma {:induction false} BeforeNext(ss: seq<Step>, ws: seq<World>, l: nat, i: nat)
    requires |ws| == |ss| + 1 && 0 < i <= |ss|
    ensures IntrudedBefore(ss, ws, l, i) <==> IntrudedBefore(ss, ws, l, i - 1) || Intrudes(ws[i - 1], ss[i - 1], l)
  {
    hide Intrudes;
  }

  /** Nothing intrudes on a list that does not exist yet. */
  lemma {:induction false} NotYetIntruded(history: seq<Message>, ss: seq<Step>, ws: seq<World>, l: nat, i: nat)
    requires IsRun(history, ss, ws) && 0 < i <= |ss| && l >= |ws[i - 1].lists|
    ensures !IntrudedBefore(ss, ws, l, i)
  {
    forall j: nat | j < i ensures !Intrudes(ws[j], ss[j], l) {
      ListsGrow(history, ss, ws, j, i - 1);
      assert forall c :: 0 <= c < |ws[j].pcs| && Shape(ws[j]) ==> PcOk(ws[j].pcs[c], |ws[j].lists|);
    }
  }

  lemma {:induction false} ListsGrow(history: seq<Message>, ss: seq<Step>, ws: seq<World>, j: nat, i: nat)
    requires IsRun(history, ss, ws) && j <= i <= |ss|
    ensures |ws[j].lists| <= |ws[i].lists|
    decreases i - j
  {
    if i == j {
    } else {
      ListsGrow(history, ss, ws, j, i - 1);
      assert StepAt(ss, ws, i - 1);
      hide AnswerText, Accepts;
    }
  }

  /** A list sent to the model is well formed exactly when no step before added to it while another
      execute owed an answer on it, and no other execute owes one now.  Tools that raise and finalizes
      accepted too early are included: what their execute left unanswered it owes for ever. */
  lemma {:induction false} SentIsWellFormedExactlyWhen(history: seq<Message>, ss: seq<Step>, ws: seq<World>, i: nat)
    requires WellFormed(history) && IsRun(history, ss, ws) && i < |ss| && ss[i].kind.Send?
    ensures Sends(ws[i], ss[i])
    ensures var l := ws[i].pcs[ss[i].run].list;
      WellFormed(ws[i].lists[l]) <==> !IntrudedBefore(ss, ws, l, i) && NoneOwes(ws[i], l)
  {
    assert StepAt(ss, ws, i);
    var (w, s) := (ws[i], ss[i]);
    assert PcOk(w.pcs[s.run], |w.lists|);
    var l := w.pcs[s.run].list;
    hide Move, WellFormed, IsRun, Intrudes;
    SoundUntilIntruded(history, ss, ws, i, l);
    if IntrudedBefore(ss, ws, l, i) {
      HopelessStays(w.lists[l], User(""));
    } else if !NoneOwes(w, l) {
      var d :| 0 <= d < |w.pcs| && Owes(w.pcs[d], l);
      HalfAnsweredIsIll(w.lists[l], w.pcs[d]);
    }
  }

  /** The execute is about to send a list. */
  predicate Sends(w: World, s: Step) {
    && s.run < |w.pcs| && (w.pcs[s.run].Ready? || w.pcs[s.run].Nudged?) && w.pcs[s.run].list < |w.lists|
  }

  // ---------------------------------------------------------------- an overlap that spoils the list

  const HISTORY: seq<Message> := [System("prompt"), User("first"), Assistant("done", [])]
  const CALL: Call := Call("id", "list_artifacts", "{}", Some(Arguments("{}", None)))

  /** One execute waits for its tool when another chat of the session begins. */
  const OVERLAP: seq<Step> := [
    Step(0, Begin("prompt", "second")), Step(0, Send), Step(0, ModelSays(Some(Reply("", [CALL])))),
    Step(1, Begin("prompt", "third")), Step(0, ToolSays(Said("nothing", false))), Step(0, Send)]

  /** The history is well formed, the only tool returns and no finalize is accepted, yet the list that
      the first execute sends next is ill formed. */
  lemma {:induction false} OverlapSpoilsTheList()
    ensures WellFormed(HISTORY)
    ensures exists ws: seq<World> ::
      IsRun(HISTORY, OVERLAP, ws) && Sends(ws[5], OVERLAP[5]) && !WellFormed(ws[5].lists[0])
  {
    var w0 := World([HISTORY], 0, [Idle, Idle]);
    var w1 := Append(w0, 0, 0, User("second"), Ready(0, 0, false));
    var w2 := Goes(w1, 0, Asked(0, 0, false));
    var w3 := Append(w2, 0, 0, Assistant("", [CALL]), Answering(0, 0, false, [CALL], 0));
    var w4 := Append(w3, 1, 0, User("third"), Ready(0, 0, false));
    var w5 := Append(w4, 0, 0, Tool("id", "nothing"), Ready(0, 1, false));
    var w6 := Goes(w5, 0, Asked(0, 1, false));
    var ws := [w0, w1, w2, w3, w4, w5, w6];
    assert Move(w0, 0, OVERLAP[0].kind) == Some(w1);
    assert Move(w1, 0, OVERLAP[1].kind) == Some(w2);
    assert Move(w2, 0, OVERLAP[2].kind) == Some(w3);
    assert Move(w3, 1, OVERLAP[3].kind) == Some(w4);
    assert Move(w4, 0, OVERLAP[4].kind) == Some(w5);
    assert Move(w5, 0, OVERLAP[5].kind) == Some(w6);
    hide Move;
    assert StepAt(OVERLAP, ws, 0) && StepAt(OVERLAP, ws, 1) && StepAt(OVERLAP, ws, 2);
    assert StepAt(OVERLAP, ws, 3) && StepAt(OVERLAP, ws, 4) && StepAt(OVERLAP, ws, 5);
    assert IsRun(HISTORY, OVERLAP, ws);
    HistoryIsWellFormed();
    assert Owes(w3.pcs[0], 0);
    assert AddsTo(w3, 1, OVERLAP[3].kind) == Some(0);
    assert Intrudes(ws[3], OVERLAP[3], 0);
    assert IntrudedBefore(OVERLAP, ws, 0, 5);
    SentIsWellFormedExactlyWhen(HISTORY, OVERLAP, ws, 5);
  }

  lemma {:induction false} HistoryIsWellFormed()
    ensures WellFormed(HISTORY)
  {
    var two := [System("prompt"), User("first")];
    AppendPlain([], System("prompt"));
    AppendPlain([System("prompt")], User("first"));
    assert [] + [System("prompt")] == [System("prompt")] && [System("prompt")] + [User("first")] == two;
    AppendBlock(two, "done", [], []);
    assert two + [Assistant("done", [])] + [] == HISTORY;
  }
}
