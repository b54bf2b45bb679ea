/** Message lists as a tool-calling model wants them, shared by both tool-calling loops. */
module Transcript {
  import opened Wrappers

  /** Parsed JSON arguments: their text, and their "summary" field if they have one. */
  datatype Arguments = Arguments(text: string, summary: Option<string>)

  /** `parsed` is None where `raw` is not JSON. */
  datatype Call = Call(id: string, name: string, raw: string, parsed: Option<Arguments>)

  datatype Message = System(text: string) | User(text: string) | Assistant(content: string, calls: seq<Call>)
                   | Tool(callId: string, text: string)

  /** What the model replies. */
  datatype Reply = Reply(content: string, calls: seq<Call>)

  /** The message at `i` has its call `k` answered in the place for it. */
  predicate HasAnswer(ms: seq<Message>, i: nat, k: nat)
    requires i < |ms| && ms[i].Assistant? && k < |ms[i].calls|
  {
    i + 1 + k < |ms| && ms[i + 1 + k].Tool? && ms[i + 1 + k].callId == ms[i].calls[k].id
  }

  /** The message at `i` is followed by one answer to each of its calls, in order. */
  predicate Answered(ms: seq<Message>, i: nat)
    requires i < |ms|
  {
    ms[i].Assistant? ==> forall k :: 0 <= k < |ms[i].calls| ==> HasAnswer(ms, i, k)
  }

  predicate Owns(ms: seq<Message>, i: nat, j: nat)
    requires i < |ms|
  {
    i < j && ms[i].Assistant? && j <= i + |ms[i].calls|
  }

  /** A tool message at `j` stands among the answers to an assistant message. */
  predicate Owned(ms: seq<Message>, j: nat)
    requires j < |ms|
  {
    ms[j].Tool? ==> exists i :: 0 <= i < j && Owns(ms, i, j)
  }

  predicate WellFormed(ms: seq<Message>) {
    forall i :: 0 <= i < |ms| ==> Answered(ms, i) && Owned(ms, i)
  }

  predicate Answer(calls: seq<Call>, answers: seq<Message>) {
    |answers| <= |calls| && forall k :: 0 <= k < |answers| ==> answers[k].Tool? && answers[k].callId == calls[k].id
  }

  lemma {:induction false} PrefixKeeps(ms: seq<Message>, r: seq<Message>, i: nat)
    requires i < |ms| <= |r| && r[..|ms|] == ms && Answered(ms, i) && Owned(ms, i)
    ensures Answered(r, i) && Owned(r, i)
  {
    assert forall j :: 0 <= j < |ms| ==> r[j] == ms[j];
    if ms[i].Tool? {
      var j :| 0 <= j < i && Owns(ms, j, i);
      assert Owns(r, j, i);
    }
    if ms[i].Assistant? {
      forall k | 0 <= k < |r[i].calls| ensures HasAnswer(r, i, k) {
        assert HasAnswer(ms, i, k);
      }
    }
  }

  lemma {:induction false} AppendPlain(ms: seq<Message>, m: Message)
    requires WellFormed(ms) && (m.User? || m.System?)
    ensures WellFormed(ms + [m])
  {
    var r := ms + [m];
    forall i | 0 <= i < |r| ensures Answered(r, i) && Owned(r, i) {
      if i < |ms| { PrefixKeeps(ms, r, i); }
    }
  }

  /** An assistant message and its answers: well formed exactly when every call has its answer. */
  lemma {:induction false} AppendBlock(ms: seq<Message>, content: string, calls: seq<Call>, answers: seq<Message>)
    requires WellFormed(ms) && Answer(calls, answers)
    ensures WellFormed(ms + [Assistant(content, calls)] + answers) <==> |answers| == |calls|
  {
    var r := ms + [Assistant(content, calls)] + answers;
    assert forall k :: 0 <= k < |answers| ==> r[|ms| + 1 + k] == answers[k];
    if |answers| == |calls| {
      forall i | 0 <= i < |r| ensures Answered(r, i) && Owned(r, i) {
        if i < |ms| { PrefixKeeps(ms, r, i); }
        else if i > |ms| { assert Owns(r, |ms|, i); }
        else { assert forall k :: 0 <= k < |calls| ==> HasAnswer(r, i, k); }
      }
    } else {
      assert r[|ms|] == Assistant(content, calls);
      assert !HasAnswer(r, |ms|, |answers|);
      assert !Answered(r, |ms|);
    }
  }

  /** What the user says next neither breaks a list nor repairs one. */
  lemma {:induction false} AppendUser(ms: seq<Message>, text: string)
    ensures WellFormed(ms + [User(text)]) <==> WellFormed(ms)
  {
    var r := ms + [User(text)];
    if WellFormed(ms) {
      AppendPlain(ms, User(text));
    } else {
      IllFormedStays(ms, User(text), []);
      assert r + [] == r;
    }
  }

  /** A list that was ill formed when something other than an answer was added stays so, whatever
      follows: the answer that was due can no longer come in its place. */
  lemma {:induction false} IllFormedStays(ms: seq<Message>, m: Message, more: seq<Message>)
    requires !WellFormed(ms) && !m.Tool?
    ensures !WellFormed(ms + [m] + more)
  {
    var r := ms + [m] + more;
    assert forall j :: 0 <= j < |ms| ==> r[j] == ms[j];
    assert r[|ms|] == m;
    var i :| 0 <= i < |ms| && !(Answered(ms, i) && Owned(ms, i));
    if !Answered(ms, i) {
      var k :| 0 <= k < |ms[i].calls| && !HasAnswer(ms, i, k);
      var due := if i + 1 + k < |ms| then k else |ms| - i - 1;
      assert !HasAnswer(r, i, due);
      assert !Answered(r, i);
    } else {
      forall j | 0 <= j < i ensures !Owns(r, j, i) {
        assert !Owns(ms, j, i);
      }
      assert !Owned(r, i);
    }
  }
}
