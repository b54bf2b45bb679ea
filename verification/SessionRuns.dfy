/**
 append_event and update_state interleaved at every await (src/session/service.py:37-54, 166-214).

 A call looks for its session's lock, perhaps waits for the lock dict, takes the lock, reads the
 row, writes it back changed, and lets the lock go; between any two of these steps every other
 call may take its own.
 */
module SessionRuns {
  import opened Wrappers
  import opened Merging
  import opened Sessions

  /** A call, and what time.time() says when it changes the row. */
  datatype Call = Call(session: string, op: Op, now: int)

  datatype Pc = Start | WantsDict | HasLock(lock: nat) | Holds(lock: nat) | Read(lock: nat, row: Row)
              | Wrote(lock: nat, row: Row) | Finished(answer: Option<Row>)

  /** `order` lists the calls as they took their lock; `holder` says who holds a lock now. */
  datatype World = World(rows: map<string, Row>, locks: map<string, nat>, lockCount: nat,
                         holder: map<nat, nat>, pcs: seq<Pc>, order: seq<nat>)

  predicate Init(calls: seq<Call>, rows: map<string, Row>, w: World) {
    && w.rows == rows && w.locks == map[] && w.lockCount == 0 && w.holder == map[] && w.order == []
    && |w.pcs| == |calls| && forall c :: 0 <= c < |calls| ==> w.pcs[c] == Start
  }

  datatype Kind = LookUp | DictLock | Acquire | Load | Save | Release

  /** Call `c` takes its next step, which is of the given kind; None when it cannot. */
  function Step(calls: seq<Call>, w: World, c: nat, kind: Kind): Option<World>
    requires |w.pcs| == |calls| && c < |calls| && WellTyped(calls[c].op)
  {
    var s := calls[c].session;
    match (kind, w.pcs[c])
    case (LookUp, Start) =>
      Some(w.(pcs := w.pcs[c := if s in w.locks then HasLock(w.locks[s]) else WantsDict]))
    case (DictLock, WantsDict) =>
      if s in w.locks then Some(w.(pcs := w.pcs[c := HasLock(w.locks[s])]))
      else Some(w.(locks := w.locks[s := w.lockCount], lockCount := w.lockCount + 1,
                   pcs := w.pcs[c := HasLock(w.lockCount)]))
    case (Acquire, HasLock(l)) =>
      if l in w.holder then None
      else Some(w.(holder := w.holder[l := c], order := w.order + [c], pcs := w.pcs[c := Holds(l)]))
    case (Load, Holds(l)) =>
      if s in w.rows then Some(w.(pcs := w.pcs[c := Read(l, w.rows[s])]))
      else Some(w.(holder := w.holder - {l}, pcs := w.pcs[c := Finished(None)]))
    case (Save, Read(l, row)) =>
      var changed := Effect(row, calls[c].op, calls[c].now);
      Some(w.(rows := w.rows[s := changed], pcs := w.pcs[c := Wrote(l, changed)]))
    case (Release, Wrote(l, row)) =>
      Some(w.(holder := w.holder - {l}, pcs := w.pcs[c := Finished(Some(row))]))
    case _ => None
  }

  predicate AllTyped(calls: seq<Call>) { forall c :: 0 <= c < |calls| ==> WellTyped(calls[c].op) }

  /** Some call takes some step. */
  ghost predicate Next(calls: seq<Call>, w: World, v: World)
    requires AllTyped(calls)
  {
    |w.pcs| == |calls| && exists c: nat, kind :: c < |calls| && Step(calls, w, c, kind) == Some(v)
  }

  ghost predicate StepAt(calls: seq<Call>, ws: seq<World>, i: nat)
    requires AllTyped(calls)
  {
    i + 1 < |ws| ==> Next(calls, ws[i], ws[i + 1])
  }

  ghost predicate IsRun(calls: seq<Call>, rows: map<string, Row>, ws: seq<World>)
    requires AllTyped(calls)
  {
    |ws| > 0 && Init(calls, rows, ws[0]) && forall i: nat :: StepAt(calls, ws, i)
  }

  // ---------------------------------------------------------------- the serial order

  /** The call has stored its row. */
  predicate Stored(pc: Pc) { pc.Wrote? || (pc.Finished? && pc.answer.Some?) }

  predicate InOrder(pc: Pc) { pc.Holds? || pc.Read? || pc.Wrote? || pc.Finished? }

  predicate Holding(pc: Pc) { pc.Holds? || pc.Read? || pc.Wrote? }

  /** Of the first `n` calls in lock order, those of session `s` that have stored their row. */
  function Serial(calls: seq<Call>, order: seq<nat>, pcs: seq<Pc>, s: string, n: nat): (ids: seq<nat>)
    requires n <= |order| && |pcs| == |calls|
    requires forall i :: 0 <= i < |order| ==> order[i] < |calls|
    ensures forall i :: 0 <= i < |ids| ==> ids[i] < |calls|
  {
    if n == 0 then []
    else
      var c := order[n - 1];
      Serial(calls, order, pcs, s, n - 1) + (if calls[c].session == s && Stored(pcs[c]) then [c] else [])
  }

  /** Those calls made one after the other on the row. */
  function Replay(calls: seq<Call>, row: Row, ids: seq<nat>): Row
    requires AllTyped(calls) && forall i :: 0 <= i < |ids| ==> ids[i] < |calls|
  {
    if ids == [] then row
    else
      var c := calls[ids[|ids| - 1]];
      Effect(Replay(calls, row, ids[..|ids| - 1]), c.op, c.now)
  }

  predicate Shape(calls: seq<Call>, w: World) {
    && |w.pcs| == |calls|
    && (forall i :: 0 <= i < |w.order| ==> w.order[i] < |calls| && InOrder(w.pcs[w.order[i]]))
    && (forall i, j :: 0 <= i < j < |w.order| ==> w.order[i] != w.order[j])
    && (forall c :: 0 <= c < |calls| && InOrder(w.pcs[c]) ==> c in w.order)
  }

  /** Every call that knows a lock knows its session's one lock, and a lock has one session. */
  predicate OneLockEach(calls: seq<Call>, w: World)
    requires |w.pcs| == |calls|
  {
    && (forall s :: s in w.locks ==> w.locks[s] < w.lockCount)
    && (forall s, r :: s in w.locks && r in w.locks && s != r ==> w.locks[s] != w.locks[r])
    && (forall c :: 0 <= c < |calls| && (w.pcs[c].HasLock? || Holding(w.pcs[c])) ==>
          calls[c].session in w.locks && w.locks[calls[c].session] == w.pcs[c].lock)
  }

  predicate Exclusive(calls: seq<Call>, w: World)
    requires |w.pcs| == |calls|
  {
    && (forall l :: l in w.holder ==>
          w.holder[l] < |calls| && Holding(w.pcs[w.holder[l]]) && w.pcs[w.holder[l]].lock == l)
    && (forall c :: 0 <= c < |calls| && Holding(w.pcs[c]) ==>
          w.pcs[c].lock in w.holder && w.holder[w.pcs[c].lock] == c)
  }

  /** A call that has its lock but has not stored its row yet is the latest of its session. */
  predicate PendingIsLast(calls: seq<Call>, w: World)
    requires Shape(calls, w)
  {
    forall i, j :: 0 <= i < j < |w.order| && (w.pcs[w.order[i]].Holds? || w.pcs[w.order[i]].Read?) ==>
      calls[w.order[j]].session != calls[w.order[i]].session
  }

  predicate ReadsAreCurrent(calls: seq<Call>, w: World)
    requires |w.pcs| == |calls|
  {
    forall c :: 0 <= c < |calls| && w.pcs[c].Read? ==>
      calls[c].session in w.rows && w.pcs[c].row == w.rows[calls[c].session]
  }

  /** Each stored row is the initial one with the calls that stored theirs replayed on it in lock order. */
  predicate RowsAreReplayed(calls: seq<Call>, rows: map<string, Row>, w: World)
    requires AllTyped(calls) && Shape(calls, w)
  {
    && w.rows.Keys == rows.Keys
    && forall s :: s in rows ==> w.rows[s] == Replay(calls, rows[s], Serial(calls, w.order, w.pcs, s, |w.order|))
  }

  predicate Inv(calls: seq<Call>, rows: map<string, Row>, w: World)
    requires AllTyped(calls)
  {
    && Shape(calls, w) && OneLockEach(calls, w) && Exclusive(calls, w)
    && PendingIsLast(calls, w) && ReadsAreCurrent(calls, w) && RowsAreReplayed(calls, rows, w)
  }

  // ---------------------------------------------------------------- every step keeps the invariant

  lemma {:induction false} SerialAgree(calls: seq<Call>, order: seq<nat>, pcs: seq<Pc>, order': seq<nat>, pcs': seq<Pc>,
                                       s: string, n: nat)
    requires n <= |order| && n <= |order'| && |pcs| == |pcs'| == |calls|
    requires forall i :: 0 <= i < |order| ==> order[i] < |calls|
    requires forall i :: 0 <= i < |order'| ==> order'[i] < |calls|
    requires forall i :: 0 <= i < n ==> order[i] == order'[i]
    requires forall i :: 0 <= i < n && calls[order[i]].session == s ==>
        (Stored(pcs[order[i]]) <==> Stored(pcs'[order[i]]))
    ensures Serial(calls, order, pcs, s, n) == Serial(calls, order', pcs', s, n)
  {
    if n == 0 {
    } else {
      SerialAgree(calls, order, pcs, order', pcs', s, n - 1);
    }
  }

  /** A step that stores no row and moves no call into another place of the order. */
  lemma {:induction false} QuietStep(calls: seq<Call>, rows: map<string, Row>, w: World, v: World)
    requires AllTyped(calls) && Shape(calls, w) && RowsAreReplayed(calls, rows, w) && Shape(calls, v)
    requires v.rows == w.rows && |w.order| <= |v.order| && v.order[..|w.order|] == w.order
    requires forall i :: |w.order| <= i < |v.order| ==> !Stored(v.pcs[v.order[i]])
    requires forall c :: 0 <= c < |calls| ==> (Stored(w.pcs[c]) <==> Stored(v.pcs[c]))
    ensures RowsAreReplayed(calls, rows, v)
  {
    hide Serial, Replay, Shape, Stored;
    ShapeFacts(calls, w);
    ShapeFacts(calls, v);
    forall s | s in rows
      ensures Serial(calls, v.order, v.pcs, s, |v.order|) == Serial(calls, w.order, w.pcs, s, |w.order|)
    {
      assert forall i :: 0 <= i < |w.order| ==> v.order[..|w.order|][i] == v.order[i];
      SerialAgree(calls, w.order, w.pcs, v.order, v.pcs, s, |w.order|);
      SerialTail(calls, v.order, v.pcs, s, |w.order|, |v.order|);
    }
  }

  lemma {:induction false} SerialTail(calls: seq<Call>, order: seq<nat>, pcs: seq<Pc>, s: string, m: nat, n: nat)
    requires m <= n <= |order| && |pcs| == |calls|
    requires forall i :: 0 <= i < |order| ==> order[i] < |calls|
    requires forall i :: m <= i < n ==> calls[order[i]].session != s || !Stored(pcs[order[i]])
    ensures Serial(calls, order, pcs, s, n) == Serial(calls, order, pcs, s, m)
  {
    if n == m {
    } else {
      SerialTail(calls, order, pcs, s, m, n - 1);
    }
  }

  lemma {:induction false} StepShape(calls: seq<Call>, w: World, c: nat, kind: Kind, v: World)
    requires AllTyped(calls) && Shape(calls, w) && c < |calls| && Step(calls, w, c, kind) == Some(v)
    ensures Shape(calls, v)
    ensures v.order == if kind == Acquire then w.order + [c] else w.order
  {
    hide Effect;
    if kind == Acquire {
      assert v.order[|w.order|] == c;
      assert forall d :: d in w.order ==> d in v.order;
    } else {
      assert forall d :: 0 <= d < |calls| ==> (InOrder(v.pcs[d]) <==> InOrder(w.pcs[d]));
    }
  }

  lemma {:induction false} StepLocks(calls: seq<Call>, w: World, c: nat, kind: Kind, v: World)
    requires AllTyped(calls) && |w.pcs| == |calls| && c < |calls| && Step(calls, w, c, kind) == Some(v)
    requires OneLockEach(calls, w)
    ensures |v.pcs| == |calls| && OneLockEach(calls, v)
  {
    hide Effect;
  }

  lemma {:induction false} StepExclusive(calls: seq<Call>, w: World, c: nat, kind: Kind, v: World)
    requires AllTyped(calls) && |w.pcs| == |calls| && c < |calls| && Step(calls, w, c, kind) == Some(v)
    requires Exclusive(calls, w)
    ensures |v.pcs| == |calls| && Exclusive(calls, v)
  {
    hide Effect;
  }

  lemma {:induction false} StepPending(calls: seq<Call>, w: World, c: nat, kind: Kind, v: World)
    requires AllTyped(calls) && Shape(calls, w) && c < |calls| && Step(calls, w, c, kind) == Some(v)
    requires OneLockEach(calls, w) && Exclusive(calls, w) && PendingIsLast(calls, w)
    ensures Shape(calls, v) && PendingIsLast(calls, v)
  {
    hide Effect, Shape;
    StepShape(calls, w, c, kind, v);
    ShapeFacts(calls, w);
    ShapeFacts(calls, v);
  }

  lemma {:induction false} ShapeFacts(calls: seq<Call>, w: World)
    requires Shape(calls, w)
    ensures |w.pcs| == |calls| && forall i :: 0 <= i < |w.order| ==> w.order[i] < |calls| && InOrder(w.pcs[w.order[i]])
  {
  }

  lemma {:induction false} StepReads(calls: seq<Call>, w: World, c: nat, kind: Kind, v: World)
    requires AllTyped(calls) && |w.pcs| == |calls| && c < |calls| && Step(calls, w, c, kind) == Some(v)
    requires OneLockEach(calls, w) && Exclusive(calls, w) && ReadsAreCurrent(calls, w)
    ensures |v.pcs| == |calls| && ReadsAreCurrent(calls, v)
  {
    hide Effect;
  }

  lemma {:induction false} QuietFacts(calls: seq<Call>, w: World, c: nat, kind: Kind, v: World)
    requires AllTyped(calls) && |w.pcs| == |calls| && c < |calls| && kind != Save
    requires Step(calls, w, c, kind) == Some(v)
    ensures v.rows == w.rows && |v.pcs| == |calls|
    ensures forall d :: 0 <= d < |calls| ==> (Stored(w.pcs[d]) <==> Stored(v.pcs[d]))
    ensures kind == Acquire ==> !Stored(v.pcs[c])
  {
    hide Effect;
  }

  lemma {:induction false} QuietRows(calls: seq<Call>, rows: map<string, Row>, w: World, c: nat, kind: Kind, v: World)
    requires AllTyped(calls) && Inv(calls, rows, w) && c < |calls| && kind != Save
    requires Step(calls, w, c, kind) == Some(v)
    ensures Shape(calls, v) && RowsAreReplayed(calls, rows, v)
  {
    hide Step, Shape, OneLockEach, Exclusive, PendingIsLast, ReadsAreCurrent, RowsAreReplayed;
    ShapeFacts(calls, w);
    StepShape(calls, w, c, kind, v);
    QuietFacts(calls, w, c, kind, v);
    assert v.order[..|w.order|] == w.order;
    QuietStep(calls, rows, w, v);
  }

  lemma {:induction false} SaveFacts(calls: seq<Call>, w: World, c: nat, v: World)
    requires AllTyped(calls) && |w.pcs| == |calls| && c < |calls| && Step(calls, w, c, Save) == Some(v)
    ensures w.pcs[c].Read? && v.order == w.order && |v.pcs| == |calls| && v.pcs[c].Wrote?
    ensures forall d :: 0 <= d < |calls| && d != c ==> v.pcs[d] == w.pcs[d]
    ensures v.rows == w.rows[calls[c].session := Effect(w.pcs[c].row, calls[c].op, calls[c].now)]
  {
    hide Effect;
  }

  lemma {:induction false} SerialInsert(calls: seq<Call>, order: seq<nat>, pcs: seq<Pc>, pcs': seq<Pc>, s: string,
        p: nat)
    requires |pcs| == |pcs'| == |calls| && p < |order| && forall i :: 0 <= i < |order| ==> order[i] < |calls|
    requires calls[order[p]].session == s && !Stored(pcs[order[p]]) && Stored(pcs'[order[p]])
    requires forall i :: 0 <= i < |order| && i != p ==> pcs'[order[i]] == pcs[order[i]]
    requires forall i :: p < i < |order| ==> calls[order[i]].session != s
    ensures Serial(calls, order, pcs', s, |order|) == Serial(calls, order, pcs, s, |order|) + [order[p]]
  {
    SerialAgree(calls, order, pcs, order, pcs', s, p);
    SerialTail(calls, order, pcs, s, p, |order|);
    SerialTail(calls, order, pcs', s, p + 1, |order|);
    assert Serial(calls, order, pcs', s, p + 1) == Serial(calls, order, pcs', s, p) + [order[p]];
  }

  /** The row is stored: in the serial order its call comes after all others of the session. */
  lemma {:induction false} SaveSerial(calls: seq<Call>, w: World, c: nat, v: World, s: string)
    requires Shape(calls, w) && PendingIsLast(calls, w) && c < |calls| && Shape(calls, v)
    requires w.pcs[c].Read? && v.order == w.order && v.pcs[c].Wrote?
    requires forall d :: 0 <= d < |calls| && d != c ==> v.pcs[d] == w.pcs[d]
    ensures Serial(calls, v.order, v.pcs, s, |v.order|)
         == Serial(calls, w.order, w.pcs, s, |w.order|) + (if s == calls[c].session then [c] else [])
  {
    hide Serial;
    if s != calls[c].session {
      SerialAgree(calls, w.order, w.pcs, v.order, v.pcs, s, |w.order|);
    } else {
      var p :| 0 <= p < |w.order| && w.order[p] == c;
      SerialInsert(calls, w.order, w.pcs, v.pcs, s, p);
    }
  }

  lemma {:induction false} ReplayMore(calls: seq<Call>, row: Row, ids: seq<nat>, c: nat)
    requires AllTyped(calls) && c < |calls| && forall i :: 0 <= i < |ids| ==> ids[i] < |calls|
    ensures Replay(calls, row, ids + [c]) == Effect(Replay(calls, row, ids), calls[c].op, calls[c].now)
    ensures Replay(calls, row, ids + []) == Replay(calls, row, ids)
  {
    hide Effect;
    assert (ids + [c])[..|ids|] == ids && ids + [] == ids;
  }

  lemma {:induction false} SaveRows(calls: seq<Call>, rows: map<string, Row>, w: World, c: nat, v: World)
    requires AllTyped(calls) && Inv(calls, rows, w) && c < |calls| && Step(calls, w, c, Save) == Some(v)
    ensures Shape(calls, v) && RowsAreReplayed(calls, rows, v)
  {
    hide Step, OneLockEach, Exclusive, Shape, Effect, PendingIsLast, Replay, Serial;
    ShapeFacts(calls, w);
    StepShape(calls, w, c, Save, v);
    SaveFacts(calls, w, c, v);
    ShapeFacts(calls, v);
    forall s | s in rows
      ensures v.rows[s] == Replay(calls, rows[s], Serial(calls, v.order, v.pcs, s, |v.order|))
    {
      SaveSerial(calls, w, c, v, s);
      ReplayMore(calls, rows[s], Serial(calls, w.order, w.pcs, s, |w.order|), c);
    }
  }

  lemma {:induction false} StepKeeps(calls: seq<Call>, rows: map<string, Row>, w: World, c: nat, kind: Kind, v: World)
    requires AllTyped(calls) && Inv(calls, rows, w) && c < |calls| && Step(calls, w, c, kind) == Some(v)
    ensures Inv(calls, rows, v)
  {
    hide Step, Shape, OneLockEach, Exclusive, PendingIsLast, ReadsAreCurrent, RowsAreReplayed;
    ShapeFacts(calls, w);
    StepShape(calls, w, c, kind, v);
    StepLocks(calls, w, c, kind, v);
    StepExclusive(calls, w, c, kind, v);
    StepPending(calls, w, c, kind, v);
    StepReads(calls, w, c, kind, v);
    if kind == Save { SaveRows(calls, rows, w, c, v); } else { QuietRows(calls, rows, w, c, kind, v); }
  }

  lemma {:induction false} RunKeeps(calls: seq<Call>, rows: map<string, Row>, ws: seq<World>, n: nat)
    requires AllTyped(calls) && IsRun(calls, rows, ws) && n < |ws|
    ensures Inv(calls, rows, ws[n])
  {
    hide Step;
    if n == 0 {
    } else {
      RunKeeps(calls, rows, ws, n - 1);
      assert StepAt(calls, ws, n - 1);
      var c: nat, kind :| c < |calls| && Step(calls, ws[n - 1], c, kind) == Some(ws[n]);
      StepKeeps(calls, rows, ws[n - 1], c, kind, ws[n]);
    }
  }

  // ---------------------------------------------------------------- what that says about events and state

  /** The events the given calls append, stamped. */
  function EventsOf(calls: seq<Call>, ids: seq<nat>): seq<Json>
    requires AllTyped(calls) && forall i :: 0 <= i < |ids| ==> ids[i] < |calls|
  {
    if ids == [] then []
    else
      var c := calls[ids[|ids| - 1]];
      EventsOf(calls, ids[..|ids| - 1]) + (if c.op.Append? then [Stamp(c.op.event, c.now)] else [])
  }

  /** The state with the deltas of the given calls merged in one after the other. */
  function MergeAll(calls: seq<Call>, state: Json, ids: seq<nat>): Json
    requires forall i :: 0 <= i < |ids| ==> ids[i] < |calls|
  {
    if ids == [] then state
    else
      var c := calls[ids[|ids| - 1]];
      var before := MergeAll(calls, state, ids[..|ids| - 1]);
      if c.op.Update? then Merge(before, c.op.delta) else before
  }

  lemma {:induction false} ReplaySplits(calls: seq<Call>, row: Row, ids: seq<nat>)
    requires AllTyped(calls) && forall i :: 0 <= i < |ids| ==> ids[i] < |calls|
    ensures Replay(calls, row, ids)
         == row.(events := row.events + EventsOf(calls, ids), state := MergeAll(calls, row.state, ids))
  {
    hide Merge;
    if ids == [] {
    } else {
      ReplaySplits(calls, row, ids[..|ids| - 1]);
    }
  }

  /** The calls of session `s` that stored their row, in lock order. */
  function Completed(calls: seq<Call>, w: World, s: string): seq<nat>
    requires Shape(calls, w)
  {
    Serial(calls, w.order, w.pcs, s, |w.order|)
  }

  /**
   In every interleaving, a session's stored events are the initial log followed by the events of the calls
   that stored their row, in lock order, and its state is the fold of the merge over their deltas in that order.
   */
  lemma {:induction false} SessionsAreSerializable(calls: seq<Call>, rows: map<string, Row>, ws: seq<World>, n: nat,
        s: string)
    requires AllTyped(calls) && IsRun(calls, rows, ws) && n < |ws| && s in rows
    ensures Shape(calls, ws[n]) && s in ws[n].rows
    ensures var done := Completed(calls, ws[n], s);
            && ws[n].rows[s].events == rows[s].events + EventsOf(calls, done)
            && ws[n].rows[s].state == MergeAll(calls, rows[s].state, done)
            && ws[n].rows[s] == rows[s].(events := ws[n].rows[s].events, state := ws[n].rows[s].state)
  {
    hide Shape, Replay, EventsOf, MergeAll, Serial;
    RunKeeps(calls, rows, ws, n);
    ShapeFacts(calls, ws[n]);
    ReplaySplits(calls, rows[s], Completed(calls, ws[n], s));
  }

  /** No completed call is lost, repeated or put elsewhere than its place in lock order. */
  lemma {:induction false} NoneLostOrRepeated(calls: seq<Call>, rows: map<string, Row>, ws: seq<World>, n: nat, c: nat)
    requires AllTyped(calls) && IsRun(calls, rows, ws) && n < |ws| && c < |calls|
    ensures Shape(calls, ws[n])
    ensures var done := Completed(calls, ws[n], calls[c].session);
            && (c in done <==> Stored(ws[n].pcs[c]))
            && (forall i, j :: 0 <= i < j < |done| ==> done[i] != done[j])
  {
    RunKeeps(calls, rows, ws, n);
    SerialMembers(calls, ws[n].order, ws[n].pcs, calls[c].session, |ws[n].order|);
  }

  lemma {:induction false} SerialMembers(calls: seq<Call>, order: seq<nat>, pcs: seq<Pc>, s: string, n: nat)
    requires n <= |order| && |pcs| == |calls|
    requires forall i :: 0 <= i < |order| ==> order[i] < |calls|
    requires forall i, j :: 0 <= i < j < |order| ==> order[i] != order[j]
    ensures var ids := Serial(calls, order, pcs, s, n);
            && (forall i, j :: 0 <= i < j < |ids| ==> ids[i] != ids[j])
            && (forall c :: c in ids <==> c in order[..n] && calls[c].session == s && Stored(pcs[c]))
  {
    if n == 0 {
    } else {
      SerialMembers(calls, order, pcs, s, n - 1);
      assert order[..n] == order[..n - 1] + [order[n - 1]];
    }
  }
}
