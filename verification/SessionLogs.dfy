/**
 What the interleaved calls leave of the events they append, and what they answer
 (src/session/service.py:166-195).
 */
module SessionLogs {
  import opened Wrappers
  import opened Decimal
  import opened Merging
  import opened Sessions
  import opened SessionRuns

  /** Of the given calls, those that append an event. */
  function Appending(calls: seq<Call>, ids: seq<nat>): (apps: seq<nat>)
    requires forall i :: 0 <= i < |ids| ==> ids[i] < |calls|
    ensures forall i :: 0 <= i < |apps| ==> apps[i] in ids && apps[i] < |calls| && calls[apps[i]].op.Append?
    ensures forall c :: c in ids && calls[c].op.Append? ==> c in apps
  {
    if ids == [] then []
    else
      var c := ids[|ids| - 1];
      Appending(calls, ids[..|ids| - 1]) + (if calls[c].op.Append? then [c] else [])
  }

  /** What is stored of an event: all its fields as they are, and a timestamp, the clock's where it brought none. */
  predicate StoredAs(stored: Json, event: Json, now: int) {
    && stored.Dict? && event.Dict?
    && stored.fields.Keys == event.fields.Keys + {"timestamp"}
    && (forall f :: f in event.fields ==> stored.fields[f] == event.fields[f])
    && ("timestamp" !in event.fields ==> stored.fields["timestamp"] == Plain(PrintInt(now)))
  }

  /** The events of the calls, one for each that appends, in their order, with every field they had. */
  lemma {:induction false} EventsAreStored(calls: seq<Call>, ids: seq<nat>)
    requires AllTyped(calls) && forall i :: 0 <= i < |ids| ==> ids[i] < |calls|
    ensures var (events, apps) := (EventsOf(calls, ids), Appending(calls, ids));
            && |events| == |apps|
            && forall k :: 0 <= k < |apps| ==> StoredAs(events[k], calls[apps[k]].op.event, calls[apps[k]].now)
  {
    if ids == [] {
    } else {
      EventsAreStored(calls, ids[..|ids| - 1]);
    }
  }

  /** The row's log is the first one's, then what is stored of the events of `apps`; the rest of the row but
      the state is the first one's. */
  ghost predicate HoldsEvents(calls: seq<Call>, first: Row, row: Row, apps: seq<nat>)
    requires forall k :: 0 <= k < |apps| ==> apps[k] < |calls| && calls[apps[k]].op.Append?
  {
    && |row.events| == |first.events| + |apps| && first.events <= row.events
    && (forall k :: 0 <= k < |apps| ==>
          StoredAs(row.events[|first.events| + k], calls[apps[k]].op.event, calls[apps[k]].now))
    && row.tenantId == first.tenantId && row.workDir == first.workDir && row.createdAt == first.createdAt
  }

  lemma {:induction false} LogOf(calls: seq<Call>, first: Row, row: Row, ids: seq<nat>)
    requires AllTyped(calls) && forall i :: 0 <= i < |ids| ==> ids[i] < |calls|
    requires row == first.(events := first.events + EventsOf(calls, ids), state := row.state)
    ensures HoldsEvents(calls, first, row, Appending(calls, ids))
  {
    EventsAreStored(calls, ids);
    var (events, apps) := (EventsOf(calls, ids), Appending(calls, ids));
    hide EventsOf, Appending, StoredAs;
    forall k | 0 <= k < |apps|
      ensures StoredAs(row.events[|first.events| + k], calls[apps[k]].op.event, calls[apps[k]].now)
    {
      assert row.events[|first.events| + k] == events[k];
    }
  }

  /**
   In every interleaving the log of a session is its initial log, then one event for each completed append,
   in lock order, holding every field that the call's event had; the rest of the row but the state is as it was.
   */
  lemma {:induction false} LogHoldsTheEvents(calls: seq<Call>, rows: map<string, Row>, ws: seq<World>, n: nat,
        s: string)
    requires AllTyped(calls) && IsRun(calls, rows, ws) && n < |ws| && s in rows
    ensures Shape(calls, ws[n]) && s in ws[n].rows
    ensures HoldsEvents(calls, rows[s], ws[n].rows[s], Appending(calls, Completed(calls, ws[n], s)))
  {
    SessionsAreSerializable(calls, rows, ws, n, s);
    hide Shape, EventsOf, MergeAll, Completed, Appending, IsRun, HoldsEvents;
    LogOf(calls, rows[s], ws[n].rows[s], Completed(calls, ws[n], s));
  }

  ghost predicate AnswersOk(calls: seq<Call>, rows: map<string, Row>, w: World) {
    && |w.pcs| == |calls| && w.rows.Keys == rows.Keys
    && forall c :: 0 <= c < |calls| ==>
         && (w.pcs[c].Read? || w.pcs[c].Wrote? ==> calls[c].session in rows)
         && (w.pcs[c].Finished? ==> (w.pcs[c].answer.Some? <==> calls[c].session in rows))
  }

  lemma {:induction false} StartAnswers(calls: seq<Call>, rows: map<string, Row>, w: World)
    requires Init(calls, rows, w)
    ensures AnswersOk(calls, rows, w)
  {
  }

  lemma {:induction false} StepAnswers(calls: seq<Call>, rows: map<string, Row>, w: World, c: nat, kind: Kind, v: World)
    requires AllTyped(calls) && AnswersOk(calls, rows, w) && c < |calls| && Step(calls, w, c, kind) == Some(v)
    ensures AnswersOk(calls, rows, v)
  {
    hide Effect;
    assert forall d :: 0 <= d < |calls| && d != c ==> v.pcs[d] == w.pcs[d];
    if w.pcs[c].Read? { assert calls[c].session in rows; }
  }

  /** A call that is done answers with a row exactly when its session exists; no call makes or drops a row. */
  lemma {:induction false} AnswersNoneExactlyWhenAbsent(calls: seq<Call>, rows: map<string, Row>, ws: seq<World>,
        n: nat)
    requires AllTyped(calls) && IsRun(calls, rows, ws) && n < |ws|
    ensures AnswersOk(calls, rows, ws[n])
  {
    hide Step, AnswersOk;
    if n == 0 {
      assert AnswersOk(calls, rows, ws[0]) by { StartAnswers(calls, rows, ws[0]); }
    } else {
      AnswersNoneExactlyWhenAbsent(calls, rows, ws, n - 1);
      assert StepAt(calls, ws, n - 1);
      var c: nat, kind :| c < |calls| && Step(calls, ws[n - 1], c, kind) == Some(ws[n]);
      StepAnswers(calls, rows, ws[n - 1], c, kind, ws[n]);
    }
  }
}
