/**
 Turns run by an external orchestrator (src/orchestrator/external.py): the earlier conversation
 is put in front of the message, and the message is recovered from the result afterwards.
 */
module External {
  import opened Wrappers
  import opened Text
  import opened Selection
  import Poller

  /** A part of a message's content, by its type. */
  datatype Piece = Piece(kind: string, text: string)

  /** Plain text or a list of parts. */
  datatype Content = Text(text: string) | Pieces(pieces: seq<Piece>)

  datatype Message = Message(role: string, content: Content)

  const MAX_HISTORY_TURNS: nat := 10

  const HEADING: string := "## 本次请求"
  const MARKER: string := "## 本次请求\n"
  const RULE: string := "\n\n---\n\n"

  predicate IsTurn(m: Message) {
    (m.role == "user" || m.role == "assistant") && m.content != Text("") && m.content != Pieces([])
  }

  /** The texts of the text parts of the first `n`. */
  function PieceTexts(pieces: seq<Piece>, n: nat): seq<string>
    requires n <= |pieces|
  {
    if n == 0 then []
    else PieceTexts(pieces, n - 1) + (if pieces[n - 1].kind == "text" then [pieces[n - 1].text] else [])
  }

  function Flat(content: Content): string {
    match content
    case Text(text) => text
    case Pieces(pieces) => Poller.Joined(PieceTexts(pieces, |pieces|))
  }

  function TurnsOf(messages: seq<Message>, n: nat): seq<Message>
    requires n <= |messages|
  {
    if n == 0 then [] else TurnsOf(messages, n - 1) + (if IsTurn(messages[n - 1]) then [messages[n - 1]] else [])
  }

  lemma {:induction false} TurnsOfNone(messages: seq<Message>)
    ensures TurnsOf(messages, 0) == []
  {
  }

  lemma {:induction false} TurnsOfNext(messages: seq<Message>, n: nat)
    requires n < |messages|
    ensures TurnsOf(messages, n + 1) == TurnsOf(messages, n) + if IsTurn(messages[n]) then [messages[n]] else []
  {
  }

  /** The last few user and assistant messages that say something. */
  function History(messages: seq<Message>): seq<Message> {
    var turns := TurnsOf(messages, |messages|);
    if |turns| <= MAX_HISTORY_TURNS then turns else turns[|turns| - MAX_HISTORY_TURNS..]
  }

  function Line(m: Message): string {
    var flat := Flat(m.content);
    var content := if |flat| > 500 then flat[..500] + "..." else flat;
    "**" + (if m.role == "user" then "用户" else "助手") + "**: " + content + "\n"
  }

  /** The lines joined by newlines. */
  function Compressed(history: seq<Message>): string {
    if |history| == 0 then "## 之前的对话历史（供参考）\n"
    else Compressed(history[..|history| - 1]) + "\n" + Line(history[|history| - 1])
  }

  /** What is sent. */
  function Prefixed(messages: seq<Message>, userMessage: string): string {
    var history := History(messages);
    if history == [] then userMessage else Compressed(history) + RULE + MARKER + userMessage
  }

  /** What is stored as the user's turn once the run has succeeded. */
  function Recovered(sent: string): string {
    if Contains(sent, HEADING) then LastPiece(sent, MARKER) else sent
  }

  class Session {
    var messages: seq<Message>

    constructor ()
      ensures messages == []
    {
      messages := [];
    }

    /** `answer` is the last snapshot of the external orchestrator's task; None when it gave no task or failed
        with an exception.  The result is None where execute raises. */
    method Execute(userMessage: string, answer: Option<Poller.Snapshot>) returns (result: Option<string>)
      modifies this
      ensures result == if answer.Some? && answer.value.state != "failed" then Some(answer.value.message) else None
      ensures messages == if result.None? then old(messages) else
        old(messages) + [Message("user", Text(Recovered(Prefixed(old(messages), userMessage)))),
          Message("assistant", Text(result.value))]
    {
      hide Compressed, Line, LastPiece, Contains, TurnsOf;
      var turns: seq<Message> := [];
      TurnsOfNone(messages);
      for i := 0 to |messages|
        invariant messages == old(messages) && turns == TurnsOf(messages, i)
      {
        TurnsOfNext(messages, i);
        if IsTurn(messages[i]) {
          turns := turns + [messages[i]];
        }
      }
      var history := if |turns| <= MAX_HISTORY_TURNS then turns else turns[|turns| - MAX_HISTORY_TURNS..];
      var sent := userMessage;
      if history != [] {
        sent := Compressed(history) + RULE + MARKER + userMessage;
      }
      if answer.None? || answer.value.state == "failed" {
        return None;
      }
      var stored := if Contains(sent, HEADING) then LastPiece(sent, MARKER) else sent;
      messages := messages + [Message("user", Text(stored)), Message("assistant", Text(answer.value.message))];
      return Some(answer.value.message);
    }
  }

  lemma {:induction false} MarkerIsBorderless()
    ensures Borderless(MARKER)
  {
    forall d | 0 < d < |MARKER| ensures MARKER[d..] != MARKER[..|MARKER| - d] {
      var (a, b) := (MARKER[d..], MARKER[..|MARKER| - d]);
      if d < |MARKER| - 1 && d != 1 {
        assert a[0] == MARKER[d] && b[0] == '#';
      } else if d == 1 {
        assert a[1] == ' ' && b[1] == '#';
      } else {
        assert a[0] == '\n' && b[0] == '#';
      }
    }
  }

  /** For any conversation before it, the stored user turn is the message that was sent exactly when
      the message does not itself hold the marker line. */
  lemma {:induction false} StoredTurnIsOriginalExactlyWhen(messages: seq<Message>, userMessage: string)
    ensures Recovered(Prefixed(messages, userMessage)) == userMessage <==> !Contains(userMessage, MARKER)
  {
    var sent := Prefixed(messages, userMessage);
    LastPieceHasNone(sent, MARKER);
    HeadingInMarker(sent);
    if History(messages) == [] {
      assert sent == userMessage;
      if !Contains(userMessage, MARKER) { assert LastPiece(sent, MARKER) == sent; }
    } else {
      var before := Compressed(History(messages)) + RULE;
      assert sent == before + MARKER + userMessage;
      assert sent[|before|..|before| + |MARKER|] == MARKER;
      assert OccursAt(sent, MARKER, |before|);
      if !Contains(userMessage, MARKER) {
        MarkerIsBorderless();
        LastPieceAfter(before, MARKER, userMessage);
      }
    }
  }

  lemma {:induction false} HeadingInMarker(s: string)
    ensures Contains(s, MARKER) ==> Contains(s, HEADING)
  {
    if i: nat :| OccursAt(s, MARKER, i) {
      assert MARKER[..|HEADING|] == HEADING;
      assert s[i..i + |HEADING|] == s[i..i + |MARKER|][..|HEADING|];
      assert OccursAt(s, HEADING, i);
    }
  }

  // ---------------------------------------------------------------- what is sent

  /** The message is one that the external orchestrator is to see. */
  predicate IsSeen(m: Message) {
    && (m.role == "user" || m.role == "assistant")
    && match m.content
       case Text(text) => |text| > 0
       case Pieces(pieces) => |pieces| > 0
  }

  lemma {:induction false} SeenIsTurn(m: Message)
    ensures IsTurn(m) <==> IsSeen(m)
  {
  }

  /** The turns are exactly the messages to be seen, in their order. */
  lemma {:induction false} TurnsAre(messages: seq<Message>, n: nat) returns (at: seq<nat>)
    requires n <= |messages|
    ensures Picks(TurnsOf(messages, n), messages, at, n)
    ensures forall i: nat :: i < n ==> (i in at <==> IsSeen(messages[i]))
  {
    hide Picks, IsSeen, IsTurn, TurnsOf;
    at := [];
    if n == 0 {
      TurnsOfNone(messages);
      assert Picks([], messages, at, 0) by { PicksNone(messages); }
    } else {
      at := TurnsAre(messages, n - 1);
      SeenIsTurn(messages[n - 1]);
      TurnsOfNext(messages, n - 1);
      assert TurnsOf(messages, n - 1) + [] == TurnsOf(messages, n - 1);
      PicksNext(TurnsOf(messages, n - 1), messages, at, n - 1);
      if IsTurn(messages[n - 1]) { at := at + [n - 1]; }
    }
  }

  /** The last ten of them, or all when there are no more. */
  lemma {:induction false} HistoryIsTheLastTen(messages: seq<Message>, k: nat)
    ensures var (h, turns) := (History(messages), TurnsOf(messages, |messages|));
      && |h| == (if |turns| < 10 then |turns| else 10)
      && (k < |h| ==> h[k] == turns[|turns| - |h| + k])
  {
  }

  /** A line shows who spoke and what, cut after 500 characters. */
  lemma {:induction false} LineShows(m: Message)
    requires IsSeen(m)
    ensures var said := Flat(m.content);
      var shown := if |said| > 500 then said[..500] + "..." else said;
      Line(m) == if m.role == "assistant" then "**助手**: " + shown + "\n" else "**用户**: " + shown + "\n"
    ensures m.content.Text? ==> Flat(m.content) == m.content.text
  {
  }

  /** A parts list says what its text parts say. */
  lemma {:induction false} FlatSays(a: string, b: string, url: string)
    ensures Flat(Pieces([Piece("text", a), Piece("image", url), Piece("text", b)])) == a + " " + b
  {
    var pieces := [Piece("text", a), Piece("image", url), Piece("text", b)];
    assert PieceTexts(pieces, 0) == [];
    assert PieceTexts(pieces, 1) == [a];
    assert PieceTexts(pieces, 2) == [a];
    assert PieceTexts(pieces, 3) == [a, b];
    assert [a, b][..1] == [a];
    assert Poller.Joined([a]) == a;
    assert Poller.Joined([a, b]) == Poller.Joined([a]) + " " + b;
  }

  /** The heading, then a line for each turn, each on a line of its own. */
  lemma {:induction false} CompressedAre(history: seq<Message>, m: Message)
    ensures Compressed([]) == "## 之前的对话历史（供参考）\n"
    ensures Compressed(history + [m]) == Compressed(history) + "\n" + Line(m)
  {
    assert (history + [m])[..|history|] == history;
  }

  /** With turns to be seen they are sent first, then the rule, the marker line and the message; without, the
      message alone. */
  lemma {:induction false} SentIs(messages: seq<Message>, user: string)
    ensures Prefixed(messages, user) ==
      if TurnsOf(messages, |messages|) == [] then user
      else Compressed(History(messages)) + "\n\n---\n\n" + "## 本次请求\n" + user
  {
  }
}
