/**
 The client that polls a worker's task and forwards the snapshots that changed
 (src/common/a2a_client.py).
 */
module Poller {
  import opened Wrappers
  import opened Arithmetic
  import opened Selection
  import opened Worker

  datatype Snapshot = Snapshot(taskId: string, state: string, message: string, progress: seq<string>)

  // ---------------------------------------------------------------- reading a reply

  function Texts(parts: seq<Part>, n: nat): seq<string>
    requires n <= |parts|
  {
    if n == 0 then [] else Texts(parts, n - 1) + (if parts[n - 1].kind == "text" then [parts[n - 1].text] else [])
  }

  /** " ".join(texts) */
  function Joined(texts: seq<string>): string {
    if |texts| == 0 then ""
    else if |texts| == 1 then texts[0]
    else Joined(texts[..|texts| - 1]) + " " + texts[|texts| - 1]
  }

  /** Joining single texts and longer lists: these two facts leave no other way to join. */
  lemma {:induction false} JoinedAre(a: seq<string>, b: seq<string>, text: string)
    ensures Joined([]) == "" && Joined([text]) == text
    ensures a != [] && b != [] ==> Joined(a + b) == Joined(a) + " " + Joined(b)
  {
    if |b| <= 1 {
      assert b != [] ==> (a + b)[..|a + b| - 1] == a && (a + b)[|a + b| - 1] == b[0];
    } else {
      var c := b[..|b| - 1];
      assert (a + b)[..|a + b| - 1] == a + c;
      JoinedAre(a, c, text);
    }
  }

  /** The texts of exactly the text parts, in their order. */
  lemma {:induction false} TextsAre(parts: seq<Part>, part: Part)
    ensures Texts([], 0) == []
    ensures Texts(parts + [part], |parts| + 1)
         == Texts(parts, |parts|) + if part.kind == "text" then [part.text] else []
  {
    TextsOfPrefix(parts, [part], |parts|);
  }

  lemma {:induction false} TextsOfPrefix(a: seq<Part>, b: seq<Part>, n: nat)
    requires n <= |a|
    ensures Texts(a + b, n) == Texts(a, n)
  {
    if n == 0 {
    } else {
      TextsOfPrefix(a, b, n - 1);
    }
  }

  /** The agent's text is that of its last item; nothing when it wrote none. */
  lemma {:induction false} AgentTextIs(history: seq<Item>, n: nat, i: nat)
    requires n <= |history|
    ensures (forall j :: 0 <= j < n ==> history[j].role != "agent") ==> LastAgentText(history, n) == ""
    ensures i < n && history[i].role == "agent" && (forall j :: i < j < n ==> history[j].role != "agent") ==>
      LastAgentText(history, n) == Joined(Texts(history[i].parts, |history[i].parts|))
  {
    if n == 0 {
    } else {
      AgentTextIs(history, n - 1, i);
    }
  }

  /** The text of the last of the first `n` items that the agent wrote. */
  function LastAgentText(history: seq<Item>, n: nat): string
    requires n <= |history|
  {
    if n == 0 then ""
    else if history[n - 1].role == "agent" then Joined(Texts(history[n - 1].parts, |history[n - 1].parts|))
    else LastAgentText(history, n - 1)
  }

  method ExtractText(history: seq<Item>) returns (text: string)
    ensures text == LastAgentText(history, |history|)
  {
    var i := |history|;
    while i > 0
      invariant 0 <= i <= |history| && LastAgentText(history, |history|) == LastAgentText(history, i)
    {
      i := i - 1;
      if history[i].role == "agent" {
        var texts: seq<string> := [];
        var parts := history[i].parts;
        for p := 0 to |parts|
          invariant texts == Texts(parts, p)
        {
          if parts[p].kind == "text" {
            texts := texts + [parts[p].text];
          }
        }
        return Joined(texts);
      }
    }
    return "";
  }

  /** What get_task makes of a record. */
  function View(r: Record): Snapshot { Snapshot(r.id, r.state, LastAgentText(r.history, |r.history|), r.progress) }

  /** An error reply has no result: the snapshot is of an unknown state, which is not terminal. */
  function ViewOfError(taskId: string): Snapshot { Snapshot(taskId, "unknown", "", []) }

  /** What a request for the task finds in the worker's store. */
  function Looked(store: Store, taskId: string): Snapshot {
    if taskId in store then View(store[taskId]) else ViewOfError(taskId)
  }

  // ---------------------------------------------------------------- polling

  datatype Key = Key(state: string, message: string, progressLength: nat)

  function KeyOf(s: Snapshot): Key { Key(s.state, s.message, |s.progress|) }

  /** The snapshots got by the first `n` polls; a poll whose request fails gets none. */
  function Observed(replies: nat -> Option<Snapshot>, n: nat): seq<Snapshot> {
    if n == 0 then [] else Observed(replies, n - 1) + (if replies(n - 1).Some? then [replies(n - 1).value] else [])
  }

  /** The snapshots whose key differs from the one before. */
  function Changes(obs: seq<Snapshot>): seq<Snapshot> {
    if |obs| == 0 then []
    else
      var before := obs[..|obs| - 1];
      Changes(before)
      + (if |before| == 0 || KeyOf(before[|before| - 1]) != KeyOf(obs[|obs| - 1]) then [obs[|obs| - 1]] else [])
  }

  /** Adjacent repeats removed. */
  function Destutter(obs: seq<Snapshot>): seq<Snapshot> {
    if |obs| == 0 then []
    else
      var before := obs[..|obs| - 1];
      Destutter(before) + (if |before| == 0 || before[|before| - 1] != obs[|obs| - 1] then [obs[|obs| - 1]] else [])
  }

  /** The clock moves on by at least `interval` from the check before poll `j` to the next check. */
  predicate Ticks(clock: nat -> int, interval: int, j: nat) { clock(j + 1) >= clock(j) + interval }

  /** By poll `j` the deadline has passed or a terminal reply has come. */
  predicate OverBy(deadline: int, clock: nat -> int, replies: nat -> Option<Snapshot>, j: nat) {
    clock(j) >= deadline || (j > 0 && replies(j - 1).Some? && Terminal(replies(j - 1).value.state))
  }

  /** `clock(j)` is read before poll `j`, which gets `replies(j)`; the loop ends at some `stop`, as it
      always does when the interval is positive. */
  method PollTask(start: int, interval: int, timeout: int, clock: nat -> int, replies: nat -> Option<Snapshot>,
        ghost stop: nat)
    returns (yielded: seq<Snapshot>, polls: nat)
    requires clock(0) >= start && forall j: nat :: Ticks(clock, interval, j)
    requires OverBy(start + timeout, clock, replies, stop)
    ensures yielded == Changes(Observed(replies, polls))
    ensures interval > 0 && polls > 0 ==> (polls - 1) * interval < timeout
    ensures forall j: nat :: j < polls ==> clock(j) < start + timeout
    ensures forall j: nat :: j + 1 < polls ==> replies(j).Some? ==> !Terminal(replies(j).value.state)
    ensures OverBy(start + timeout, clock, replies, polls)
  {
    ObservedNone(replies);
    hide Observed, Changes, LastKey;
    var deadline := start + timeout;
    var last: Option<Key> := None;
    yielded, polls := [], 0;
    while clock(polls) < deadline
      invariant interval > 0 ==> clock(polls) >= start + polls * interval
      invariant interval > 0 && polls > 0 ==> (polls - 1) * interval < timeout
      invariant yielded == Changes(Observed(replies, polls))
      invariant last == LastKey(Observed(replies, polls))
      invariant forall j: nat :: j < polls ==> clock(j) < deadline
      invariant forall j: nat :: j < polls ==> replies(j).Some? ==> !Terminal(replies(j).value.state)
      invariant polls <= stop
      decreases stop - polls
    {
      var reply := replies(polls);
      assert Ticks(clock, interval, polls);
      ObservedNext(replies, polls);
      assert (polls + 1) * interval == polls * interval + interval;
      polls := polls + 1;
      if reply.Some? {
        var task := reply.value;
        var key := KeyOf(task);
        if Some(key) != last {
          last := Some(key);
          yielded := yielded + [task];
        }
        if Terminal(task.state) {
          return;
        }
      }
    }
  }

  lemma {:induction false} ClockRuns(start: int, interval: int, clock: nat -> int, n: nat)
    requires interval > 0 && clock(0) >= start && forall j: nat :: Ticks(clock, interval, j)
    ensures clock(n) >= start + n
  {
    if n == 0 {
    } else {
      ClockRuns(start, interval, clock, n - 1);
      assert Ticks(clock, interval, n - 1);
    }
  }

  /** With a positive interval the loop ends whatever the replies are. */
  lemma {:induction false} PositiveIntervalEnds(start: int, interval: int, timeout: int, clock: nat -> int,
        replies: nat -> Option<Snapshot>) returns (stop: nat)
    requires interval > 0 && clock(0) >= start && forall j: nat :: Ticks(clock, interval, j)
    ensures OverBy(start + timeout, clock, replies, stop)
  {
    stop := if timeout > 0 then timeout else 0;
    ClockRuns(start, interval, clock, stop);
  }

  function LastKey(obs: seq<Snapshot>): Option<Key> {
    if |obs| == 0 then None else Some(KeyOf(obs[|obs| - 1]))
  }

  /** A snapshot is new when it differs from the one before in state, message or number of progress events. */
  predicate IsNew(obs: seq<Snapshot>, i: nat)
    requires i < |obs|
  {
    i == 0 || obs[i].state != obs[i - 1].state || obs[i].message != obs[i - 1].message
    || |obs[i].progress| != |obs[i - 1].progress|
  }

  /** Whatever is polled: exactly the new snapshots are forwarded, in their order. */
  lemma {:induction false} ChangesAreTheNew(obs: seq<Snapshot>) returns (at: seq<nat>)
    ensures Picks(Changes(obs), obs, at, |obs|)
    ensures forall i: nat :: i < |obs| ==> (i in at <==> IsNew(obs, i))
  {
    at := [];
    if |obs| == 0 {
    } else {
      var n := |obs| - 1;
      at := ChangesAreTheNew(obs[..n]);
      assert forall i: nat :: i < n ==> IsNew(obs[..n], i) == IsNew(obs, i);
      assert Changes(obs) == Changes(obs[..n]) + if IsNew(obs, n) then [obs[n]] else [];
      PicksOfPrefix(Changes(obs[..n]), obs, at, n);
      PicksNext(Changes(obs[..n]), obs, at, n);
      hide Picks, IsNew, Changes;
      if IsNew(obs, n) { at := at + [n]; }
    }
  }

  /** The replies that came, in the order of their polls. */
  lemma {:induction false} ObservedAre(replies: nat -> Option<Snapshot>, n: nat) returns (at: seq<nat>)
    ensures |at| == |Observed(replies, n)|
    ensures forall j :: 0 <= j < |at| ==> at[j] < n && replies(at[j]) == Some(Observed(replies, n)[j])
    ensures forall i, j :: 0 <= i < j < |at| ==> at[i] < at[j]
    ensures forall i: nat :: i < n ==> (i in at <==> replies(i).Some?)
  {
    at := [];
    if n == 0 {
    } else {
      at := ObservedAre(replies, n - 1);
      if replies(n - 1).Some? { at := at + [n - 1]; }
    }
  }

  lemma {:induction false} ObservedNone(replies: nat -> Option<Snapshot>)
    ensures Changes(Observed(replies, 0)) == [] && LastKey(Observed(replies, 0)) == None
  {
  }

  lemma {:induction false} ObservedNext(replies: nat -> Option<Snapshot>, n: nat)
    ensures var (obs, next) := (Observed(replies, n), Observed(replies, n + 1));
      if replies(n).None? then next == obs
      else
        && LastKey(next) == Some(KeyOf(replies(n).value))
        && Changes(next) == Changes(obs) + (if LastKey(obs) == LastKey(next) then [] else [replies(n).value])
  {
    var obs, next := Observed(replies, n), Observed(replies, n + 1);
    if replies(n).Some? {
      assert next[..|next| - 1] == obs;
    }
  }

  /** With a positive timeout there are at most ceil(timeout / interval) polls. */
  lemma {:induction false} PollBound(polls: nat, interval: int, timeout: int)
    requires interval > 0 && timeout > 0 && (polls > 0 ==> (polls - 1) * interval < timeout)
    ensures polls <= (timeout + interval - 1) / interval
  {
    var bound := (timeout + interval - 1) / interval;
    assert timeout <= bound * interval;
    if polls > bound {
      assert (polls - 1) * interval >= bound * interval by { MulMono(bound, polls - 1, interval); }
      assert false;
    }
  }

  // ---------------------------------------------------------------- polling one run

  /** Each of the first `n` polls finds the record after `seen(j)` of the run's happenings, or its
      request fails. */
  ghost predicate Watches(replies: nat -> Option<Snapshot>, seen: nat -> nat, first: Record, hs: seq<Happening>,
        n: nat) {
    && (forall i: nat, j: nat :: i <= j < n ==> seen(i) <= seen(j))
    && (forall j: nat :: j < n ==> seen(j) <= |hs| && (replies(j) == None || ReplyIs(replies, seen, first, hs, j)))
  }

  ghost predicate ReplyIs(replies: nat -> Option<Snapshot>, seen: nat -> nat, first: Record, hs: seq<Happening>,
        j: nat) {
    seen(j) <= |hs| && replies(j) == Some(View(RecordAfter(first, hs, seen(j))))
  }

  /** How far the run was at each poll that got a reply. */
  function Points(replies: nat -> Option<Snapshot>, seen: nat -> nat, n: nat): seq<nat> {
    if n == 0 then [] else Points(replies, seen, n - 1) + (if replies(n - 1).Some? then [seen(n - 1)] else [])
  }

  lemma {:induction false} KeyDetermines(id: string, message: Item, hs: seq<Happening>, m: nat, n: nat)
    requires WellRun(hs) && m <= |hs| && n <= |hs|
    requires KeyOf(View(RecordAfter(NewRecord(id, message), hs, m)))
        == KeyOf(View(RecordAfter(NewRecord(id, message), hs, n)))
    ensures m == n
  {
    RunShape(id, message, hs, m);
    RunShape(id, message, hs, n);
  }

  /** The polls' replies are of these points of the run, none beyond `top` and none going back. */
  ghost predicate AtPoints(obs: seq<Snapshot>, at: seq<nat>, first: Record, hs: seq<Happening>, top: nat) {
    && |obs| == |at|
    && (forall i :: 0 <= i < |at| ==> at[i] <= top && at[i] <= |hs| && obs[i] == View(RecordAfter(first, hs, at[i])))
    && (forall i, j :: 0 <= i <= j < |at| ==> at[i] <= at[j])
  }

  lemma {:induction false} OneMorePoint(obs: seq<Snapshot>, at: seq<nat>, first: Record, hs: seq<Happening>, was: nat,
        top: nat)
    requires AtPoints(obs, at, first, hs, was) && was <= top <= |hs|
    ensures AtPoints(obs, at, first, hs, top)
    ensures AtPoints(obs + [View(RecordAfter(first, hs, top))], at + [top], first, hs, top)
  {
    hide View, RecordAfter;
  }

  lemma {:induction false} ObservedPoints(replies: nat -> Option<Snapshot>, seen: nat -> nat, first: Record,
        hs: seq<Happening>, n: nat)
    requires Watches(replies, seen, first, hs, n)
    ensures AtPoints(Observed(replies, n), Points(replies, seen, n), first, hs, if n > 0 then seen(n - 1) else 0)
  {
    if n == 0 {
    } else {
      ObservedPoints(replies, seen, first, hs, n - 1);
      hide WellRun, RecordAfter, View, AtPoints;
      var was := if n > 1 then seen(n - 2) else 0;
      assert seen(n - 1) <= |hs| && was <= seen(n - 1);
      assert replies(n - 1) == None || ReplyIs(replies, seen, first, hs, n - 1);
      OneMorePoint(Observed(replies, n - 1), Points(replies, seen, n - 1), first, hs, was, seen(n - 1));
    }
  }

  /** Repeats removed from points that never decrease. */
  function Distinct(at: seq<nat>): seq<nat> {
    if |at| == 0 then []
    else
      var before := at[..|at| - 1];
      Distinct(before) + (if |before| == 0 || before[|before| - 1] != at[|at| - 1] then [at[|at| - 1]] else [])
  }

  lemma {:induction false} DistinctIncreases(at: seq<nat>)
    requires forall i, j :: 0 <= i <= j < |at| ==> at[i] <= at[j]
    ensures var d := Distinct(at);
      && (forall i, j :: 0 <= i < j < |d| ==> d[i] < d[j])
      && (forall i :: 0 <= i < |d| ==> d[i] in at)
      && (|at| > 0 ==> |d| > 0 && d[|d| - 1] == at[|at| - 1])
  {
    if |at| == 0 {
    } else {
      var before := at[..|at| - 1];
      DistinctIncreases(before);
      assert forall x :: x in before ==> x <= at[|at| - 1];
      assert Distinct(at)
          == Distinct(before) + (if |before| == 0 || before[|before| - 1] != at[|at| - 1] then [at[|at| - 1]] else []);
      hide Distinct;
    }
  }

  /** Snapshots of one run: the changes are the adjacent repeats removed, one for each distinct
      point of the run. */
  lemma {:induction false} ChangesAreDistinctPoints(obs: seq<Snapshot>, at: seq<nat>, id: string, message: Item,
        hs: seq<Happening>)
    requires WellRun(hs) && |obs| == |at|
    requires forall i :: 0 <= i < |at| ==>
        at[i] <= |hs| && obs[i] == View(RecordAfter(NewRecord(id, message), hs, at[i]))
    ensures var (out, d) := (Changes(obs), Distinct(at));
      && out == Destutter(obs)
      && |out| == |d|
      && forall i :: 0 <= i < |d| ==> d[i] <= |hs| && out[i] == View(RecordAfter(NewRecord(id, message), hs, d[i]))
  {
    hide View, RecordAfter, WellRun;
    if |at| == 0 {
    } else {
      var n := |at| - 1;
      ChangesAreDistinctPoints(obs[..n], at[..n], id, message, hs);
      if n > 0 && KeyOf(obs[n - 1]) == KeyOf(obs[n]) {
        KeyDetermines(id, message, hs, at[n - 1], at[n]);
      }
      hide Terminal;
      assert n > 0 ==> obs[..n][n - 1] == obs[n - 1] && at[..n][n - 1] == at[n - 1];
      var same := n > 0 && at[n - 1] == at[n];
      assert Changes(obs) == Changes(obs[..n]) + if same then [] else [obs[n]];
      assert Destutter(obs) == Destutter(obs[..n]) + if same then [] else [obs[n]];
      assert Distinct(at) == Distinct(at[..n]) + if same then [] else [at[n]];
      hide Changes, Destutter, Distinct, KeyOf;
    }
  }

  /** `out` is `obs` with adjacent repeats removed: no snapshot twice, progress only growing, nothing
      after a terminal one, and each of them what the run's record was at some point. */
  ghost predicate ForwardsTheRun(obs: seq<Snapshot>, out: seq<Snapshot>, first: Record, hs: seq<Happening>) {
    && out == Destutter(obs)
    && (forall i, j :: 0 <= i < j < |out| ==> Follows(out[i], out[j]))
    && (forall i :: 0 <= i < |out| ==> IsOfRun(out[i], first, hs))
  }

  predicate Follows(a: Snapshot, b: Snapshot) { a != b && a.progress <= b.progress && !Terminal(a.state) }

  ghost predicate IsOfRun(v: Snapshot, first: Record, hs: seq<Happening>) {
    exists n: nat :: n <= |hs| && v == View(RecordAfter(first, hs, n))
  }

  /** Watching one run, the poll yields exactly the observed snapshots with adjacent repeats
      removed: no snapshot twice, progress only growing, and nothing after a terminal one. */
  lemma {:induction false} PollForwardsTheRun(replies: nat -> Option<Snapshot>, seen: nat -> nat, id: string,
        message: Item, hs: seq<Happening>, polls: nat)
    requires WellRun(hs) && Watches(replies, seen, NewRecord(id, message), hs, polls)
    ensures ForwardsTheRun(Observed(replies, polls), Changes(Observed(replies, polls)), NewRecord(id, message), hs)
  {
    var (obs, at) := (Observed(replies, polls), Points(replies, seen, polls));
    ObservedPoints(replies, seen, NewRecord(id, message), hs, polls);
    ChangesAreDistinctPoints(obs, at, id, message, hs);
    DistinctIncreases(at);
    var (out, d) := (Changes(obs), Distinct(at));
    hide Changes, Distinct, Observed, Points, Destutter, WellRun;
    forall i, j | 0 <= i < j < |out| ensures Follows(out[i], out[j]) {
      RecordsGrow(id, message, hs, d[i], d[j]);
      if KeyOf(out[i]) == KeyOf(out[j]) { KeyDetermines(id, message, hs, d[i], d[j]); }
    }
  }

  /** At any point of a run its snapshot shows the task's id, whether it works or how it ended, and the progress
      reported so far. */
  lemma {:induction false} ViewShows(id: string, message: Item, hs: seq<Happening>, n: nat)
    requires WellRun(hs) && n <= |hs|
    ensures var v := View(RecordAfter(NewRecord(id, message), hs, n));
      var over := n > 0 && !hs[n - 1].Progressed?;
      && v.taskId == id
      && v.state == (if !over then "working" else if hs[n - 1].Completed? then "completed" else "failed")
      && |v.progress| == (if over then n - 1 else n)
      && forall i :: 0 <= i < |v.progress| ==> hs[i] == Progressed(v.progress[i])
  {
    RunShape(id, message, hs, n);
  }

  /** A task that is not held reads as one of unknown state: polling goes on. */
  lemma {:induction false} GoneLooksUnknown(store: Store, id: string)
    requires id !in store
    ensures Looked(store, id) == Snapshot(id, "unknown", "", []) && !Terminal(Looked(store, id).state)
  {
  }

  /** A completed run reads as its result, a failed one as its error. */
  lemma {:induction false} FinalTextIsResult(id: string, message: Item, hs: seq<Happening>)
    requires WellRun(hs) && |hs| > 0 && !hs[|hs| - 1].Progressed?
    ensures var last := hs[|hs| - 1]; var v := View(RecordAfter(NewRecord(id, message), hs, |hs|));
      && v.message == (if last.Completed? then last.result else "Error: " + last.error)
      && v.state == (if last.Completed? then "completed" else "failed")
  {
    RunShape(id, message, hs, |hs|);
    var last := hs[|hs| - 1];
    var text := if last.Completed? then last.result else "Error: " + last.error;
    var r := RecordAfter(NewRecord(id, message), hs, |hs|);
    assert r == After(RecordAfter(NewRecord(id, message), hs, |hs| - 1), last);
    assert Texts([Part("text", text)], 1) == Texts([Part("text", text)], 0) + [text] == [text];
    assert r.history[1].parts == [Part("text", text)];
  }

  /** A poll of at most five minutes that begins no later than the run's end never gets the error
      reply: the clock before each of its requests is short of the record's expiry. */
  lemma {:induction false} PollNeverFindsItGone(es: seq<Event>, ss: seq<Shop>, id: string, n: nat, start: int,
        timeout: int, at: int)
    requires IsRun(es, ss, id) && 0 < n <= |es| && WellRun(Happenings(es, id, n))
    requires timeout <= TASK_TTL && Now(es, n) <= at < start + timeout
    requires var hs := Happenings(es, id, n);
      var r := RecordAfter(NewRecord(id, es[0].message), hs, |hs|);
      r.completedAt.Some? ==> start <= r.completedAt.value
    ensures var hs := Happenings(es, id, n);
      Looked(ss[n].store, id) == View(RecordAfter(NewRecord(id, es[0].message), hs, |hs|))
  {
    HeldUntilExpired(es, ss, id, n);
  }

  // ---------------------------------------------------------------- polling the worker

  /** Poll `j` is answered from the worker's store as it is after `at(j)` events, or its request fails. */
  ghost predicate AnsweredFrom(es: seq<Event>, ss: seq<Shop>, id: string,
                               at: nat -> nat, replies: nat -> Option<Snapshot>, j: nat)
    requires |ss| == |es| + 1
  {
    && 0 < at(j) <= |es| && InTime(es, id, Now(es, at(j)))
    && (replies(j) == None || replies(j) == Some(Looked(ss[at(j)].store, id)))
  }

  /** The clock says no more than five minutes past the run's end, if the run ends. */
  ghost predicate InTime(es: seq<Event>, id: string, when: int) {
    forall i :: 0 <= i < |Happenings(es, id, |es|)| ==>
      var h := Happenings(es, id, |es|)[i]; !h.Progressed? ==> when <= h.at + TASK_TTL
  }

  /** A reply before the deadline of a poll that lasts at most five minutes and starts no later than the
      run ends is such. */
  lemma {:induction false} BeforeDeadlineIsInTime(es: seq<Event>, id: string, start: int, timeout: int, when: int)
    requires timeout <= TASK_TTL && when < start + timeout
    requires forall i :: 0 <= i < |Happenings(es, id, |es|)| ==>
      var h := Happenings(es, id, |es|)[i]; !h.Progressed? ==> start <= h.at
    ensures InTime(es, id, when)
  {
  }

  /** Among any other requests and cleanups at the worker: a poll none of whose replies comes more than
      five minutes after the run's end, be it before or after the poll's own deadline, yields exactly the
      observed records of this run with adjacent repeats removed, none twice, progress only growing, and
      nothing after a terminal one. */
  lemma {:induction false} PollForwardsWhatTheWorkerHolds(es: seq<Event>, ss: seq<Shop>, id: string,
      at: nat -> nat, replies: nat -> Option<Snapshot>, polls: nat)
    requires IsRun(es, ss, id) && WellRun(Happenings(es, id, |es|))
    requires forall i: nat, j: nat :: i <= j < polls ==> at(i) <= at(j)
    requires forall j: nat :: j < polls ==> AnsweredFrom(es, ss, id, at, replies, j)
    ensures ForwardsTheRun(Observed(replies, polls), Changes(Observed(replies, polls)),
                           NewRecord(id, es[0].message), Happenings(es, id, |es|))
  {
    var hs := Happenings(es, id, |es|);
    var seen := (j: nat) => HappenedBy(es, id, at(j));
    hide WellRun, IsRun, View, RecordAfter, Happenings, HappenedBy, ForwardsTheRun, InTime;
    forall j: nat | j < polls
      ensures seen(j) <= |hs| && (replies(j) == None || ReplyIs(replies, seen, NewRecord(id, es[0].message), hs, j))
    {
      FoundAt(es, ss, id, at, replies, j);
      assert seen(j) == HappenedBy(es, id, at(j));
    }
    forall i: nat, j: nat | i <= j < polls ensures seen(i) <= seen(j) {
      assert seen(i) == HappenedBy(es, id, at(i)) && seen(j) == HappenedBy(es, id, at(j));
      HappenedMore(es, id, at(i), at(j));
    }
    PollForwardsTheRun(replies, seen, id, es[0].message, hs, polls);
  }

  /** How much has happened to the task after `n` events. */
  function HappenedBy(es: seq<Event>, id: string, n: nat): nat {
    if n <= |es| then |Happenings(es, id, n)| else |Happenings(es, id, |es|)|
  }

  lemma {:induction false} HappenedMore(es: seq<Event>, id: string, m: nat, n: nat)
    requires m <= n
    ensures HappenedBy(es, id, m) <= HappenedBy(es, id, n)
  {
    HappeningsPrefix(es, id, if m <= |es| then m else |es|, if n <= |es| then n else |es|);
  }

  lemma {:induction false} HappeningsPrefix(es: seq<Event>, id: string, m: nat, n: nat)
    requires m <= n <= |es|
    ensures Happenings(es, id, m) <= Happenings(es, id, n)
  {
    if m == n {
    } else {
      HappeningsPrefix(es, id, m, n - 1);
    }
  }

  /** What a poll gets is the run's record at that point. */
  lemma {:induction false} FoundAt(es: seq<Event>, ss: seq<Shop>, id: string, at: nat -> nat,
                                   replies: nat -> Option<Snapshot>, j: nat)
    requires IsRun(es, ss, id) && WellRun(Happenings(es, id, |es|)) && AnsweredFrom(es, ss, id, at, replies, j)
    ensures var (n, hs) := (HappenedBy(es, id, at(j)), Happenings(es, id, |es|));
      && n <= |hs|
      && (replies(j).Some? ==> replies(j).value == View(RecordAfter(NewRecord(id, es[0].message), hs, n)))
  {
    var n := at(j);
    var (part, hs) := (Happenings(es, id, n), Happenings(es, id, |es|));
    var first := NewRecord(id, es[0].message);
    HappeningsPrefix(es, id, n, |es|);
    assert forall i :: 0 <= i < |part| ==> part[i] == hs[i];
    SamePrefix(first, part, hs, |part|);
    RunShape(id, es[0].message, part, |part|);
    CompletedBy(first, part, |part|);
    HeldUntilExpired(es, ss, id, n);
  }

  /** A record says it was completed when its run ended. */
  lemma {:induction false} CompletedBy(first: Record, hs: seq<Happening>, n: nat)
    requires n <= |hs| && first.completedAt.None?
    ensures var r := RecordAfter(first, hs, n);
      r.completedAt.Some? ==> exists i :: 0 <= i < n && !hs[i].Progressed? && hs[i].at == r.completedAt.value
  {
    if n == 0 {
    } else {
      CompletedBy(first, hs, n - 1);
      if !hs[n - 1].Progressed? { assert hs[n - 1].at == RecordAfter(first, hs, n).completedAt.value; }
    }
  }
}
