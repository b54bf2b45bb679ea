/**
 A worker's task records (src/agents/worker.py): a record grows while its run lasts, ends once,
 and is dropped some minutes later.
 */
module Worker {
  import opened Wrappers

  datatype Part = Part(kind: string, text: string)

  datatype Item = Item(role: string, parts: seq<Part>)

  /** Progress events are kept as JSON text. */
  datatype Record = Record(id: string, state: string, history: seq<Item>, progress: seq<string>,
    completedAt: Option<int>)

  const TASK_TTL: int := 300

  predicate Terminal(state: string) { state == "completed" || state == "failed" || state == "canceled" }

  function NewRecord(id: string, message: Item): Record { Record(id, "working", [message], [], None) }

  /** What a background run does to its record. */
  datatype Happening = Progressed(event: string) | Completed(result: string, at: int) | Failed(error: string, at: int)

  function AgentSays(text: string): Item { Item("agent", [Part("text", text)]) }

  function After(r: Record, h: Happening): Record {
    match h
    case Progressed(e) => r.(progress := r.progress + [e])
    case Completed(result, at) =>
      r.(state := "completed", completedAt := Some(at), history := r.history + [AgentSays(result)])
    case Failed(error, at) =>
      r.(state := "failed", completedAt := Some(at), history := r.history + [AgentSays("Error: " + error)])
  }

  type Store = map<string, Record>

  predicate Expired(r: Record, now: int) {
    Terminal(r.state) && now - (if r.completedAt.Some? then r.completedAt.value else now) > TASK_TTL
  }

  /** At most one cleanup a minute. */
  predicate Due(last: int, now: int) { now - last >= 60 }

  function Cleaned(store: Store, last: int, now: int): Store {
    map id | id in store && !(Due(last, now) && Expired(store[id], now)) :: store[id]
  }

  class Task {
    const id: string
    var state: string
    var history: seq<Item>
    var progress: seq<string>
    var completedAt: Option<int>

    ghost function Snap(): Record
      reads this
    {
      Record(id, state, history, progress, completedAt)
    }

    constructor (id: string, message: Item)
      ensures Snap() == NewRecord(id, message)
    {
      this.id, state, history, progress, completedAt := id, "working", [message], [], None;
    }

    method OnProgress(event: string)
      modifies this
      ensures Snap() == After(old(Snap()), Progressed(event))
    {
      progress := progress + [event];
    }

    /** How the run ends: with the model's answer, or with the exception it raised. */
    method Finish(outcome: Happening)
      requires !outcome.Progressed?
      modifies this
      ensures Snap() == After(old(Snap()), outcome)
    {
      completedAt := Some(outcome.at);
      match outcome
      case Completed(result, _) =>
        state := "completed";
        history := history + [AgentSays(result)];
      case Failed(error, _) =>
        state := "failed";
        history := history + [AgentSays("Error: " + error)];
    }
  }

  class WorkerServer {
    var tasks: map<string, Task>
    var lastCleanup: int

    ghost function Contents(): Store
      reads this, tasks.Values
    {
      map id | id in tasks :: tasks[id].Snap()
    }

    constructor ()
      ensures Contents() == map[] && lastCleanup == 0
    {
      tasks, lastCleanup := map[], 0;
    }

    method CleanupOldTasks(now: int)
      modifies this
      ensures Contents() == Cleaned(old(Contents()), old(lastCleanup), now)
      ensures lastCleanup == if Due(old(lastCleanup), now) then now else old(lastCleanup)
      ensures tasks.Values <= old(tasks.Values)
    {
      if now - lastCleanup < 60 {
        return;
      }
      lastCleanup := now;
      ghost var was := tasks;
      var expired: set<string> := {};
      var todo := tasks.Keys;
      while todo != {}
        invariant todo <= tasks.Keys && tasks == was && lastCleanup == now
        invariant expired == set id | id in tasks.Keys - todo && Expired(tasks[id].Snap(), now)
        decreases todo
      {
        var id :| id in todo;
        todo := todo - {id};
        var t := tasks[id];
        var at := if t.completedAt.Some? then t.completedAt.value else now;
        if Terminal(t.state) && now - at > TASK_TTL {
          expired := expired + {id};
        }
      }
      tasks := tasks - expired;
    }

    /** message/send up to the point where the run begins. */
    method Accept(message: Item, newId: string, now: int) returns (task: Task)
      modifies this
      ensures fresh(task)
      ensures Contents() == Cleaned(old(Contents()), old(lastCleanup), now)[newId := NewRecord(newId, message)]
      ensures lastCleanup == if Due(old(lastCleanup), now) then now else old(lastCleanup)
    {
      CleanupOldTasks(now);
      task := new Task(newId, message);
      tasks := tasks[newId := task];
    }

    method GetTask(id: string) returns (record: Option<Record>)
      ensures record == if id in Contents() then Some(Contents()[id]) else None
    {
      if id !in tasks {
        return None;
      }
      var t := tasks[id];
      return Some(Record(t.id, t.state, t.history, t.progress, t.completedAt));
    }
  }

  // ---------------------------------------------------------------- one run

  /** A run reports progress and then ends, at most once. */
  predicate WellRun(hs: seq<Happening>) {
    forall i :: 0 <= i < |hs| - 1 ==> hs[i].Progressed?
  }

  /** The record after the run's first `n` happenings. */
  function RecordAfter(first: Record, hs: seq<Happening>, n: nat): Record
    requires n <= |hs|
  {
    if n == 0 then first else After(RecordAfter(first, hs, n - 1), hs[n - 1])
  }

  function Verdict(h: Happening): string
    requires !h.Progressed?
  {
    if h.Completed? then h.result else "Error: " + h.error
  }

  /** While it works the record differs from the first only in its progress, one event for each
      happening; it is terminal exactly when the run's end has happened. */
  lemma {:induction false} RunShape(id: string, message: Item, hs: seq<Happening>, n: nat)
    requires WellRun(hs) && n <= |hs|
    ensures var (first, r) := (NewRecord(id, message), RecordAfter(NewRecord(id, message), hs, n));
      var over := n > 0 && !hs[n - 1].Progressed?;
      && (Terminal(r.state) <==> over)
      && r.id == id && r.state == (if !over then "working" else if hs[n - 1].Completed? then "completed" else "failed")
      && r.completedAt == (if over then Some(hs[n - 1].at) else None)
      && |r.progress| == (if over then n - 1 else n)
      && (forall i :: 0 <= i < |r.progress| ==> hs[i] == Progressed(r.progress[i]))
      && (if over then r.history == [message, AgentSays(Verdict(hs[n - 1]))]
          else r.history == [message])
  {
    if n == 0 {
    } else {
      RunShape(id, message, hs, n - 1);
    }
  }

  /** Progress never shrinks: a later record extends an earlier one, and nothing follows the end. */
  lemma {:induction false} RecordsGrow(id: string, message: Item, hs: seq<Happening>, m: nat, n: nat)
    requires WellRun(hs) && m <= n <= |hs|
    ensures var (a, b) := (RecordAfter(NewRecord(id, message), hs, m), RecordAfter(NewRecord(id, message), hs, n));
      && a.progress <= b.progress && a.history <= b.history
      && (Terminal(a.state) ==> m == n)
  {
    RunShape(id, message, hs, m);
    RunShape(id, message, hs, n);
    if m < n {
      var a, b := RecordAfter(NewRecord(id, message), hs, m), RecordAfter(NewRecord(id, message), hs, n);
      assert m > 0 ==> hs[m - 1].Progressed?;
      assert forall i :: 0 <= i < |a.progress| ==> a.progress[i] == b.progress[i];
    }
  }

  // ---------------------------------------------------------------- the store over time

  datatype Event = Sent(id: string, message: Item, at: int) | Happened(id: string, h: Happening, at: int)

  datatype Shop = Shop(store: Store, lastCleanup: int)

  function Apply(s: Shop, e: Event): Shop {
    match e
    case Sent(id, message, at) =>
      Shop(Cleaned(s.store, s.lastCleanup, at)[id := NewRecord(id, message)],
           if Due(s.lastCleanup, at) then at else s.lastCleanup)
    case Happened(id, h, at) =>
      if id in s.store then s.(store := s.store[id := After(s.store[id], h)]) else s
  }

  /** Clock readings do not go back, a run stamps its end with the clock, an ended run does nothing
      more, and task ids are not given twice. */
  ghost predicate StepAt(es: seq<Event>, ss: seq<Shop>, id: string, i: nat)
    requires |ss| == |es| + 1
  {
    i < |es| ==>
      && (i > 0 ==> es[i - 1].at <= es[i].at)
      && ss[i + 1] == Apply(ss[i], es[i])
      && (es[i].Happened? && !es[i].h.Progressed? ==> es[i].h.at == es[i].at)
      && (i > 0 ==> !(es[i].Sent? && es[i].id == id))
  }

  /** From the moment the task `id` is accepted. */
  ghost predicate IsRun(es: seq<Event>, ss: seq<Shop>, id: string) {
    && |ss| == |es| + 1 && |es| > 0 && es[0].Sent? && es[0].id == id
    && forall i: nat :: StepAt(es, ss, id, i)
  }

  /** What has happened to the task among the first `n` events. */
  function Happenings(es: seq<Event>, id: string, n: nat): seq<Happening>
    requires n <= |es|
  {
    if n == 0 then []
    else Happenings(es, id, n - 1) + (if es[n - 1].Happened? && es[n - 1].id == id then [es[n - 1].h] else [])
  }

  function Now(es: seq<Event>, n: nat): int
    requires 0 < n <= |es|
  {
    es[n - 1].at
  }

  /** The store holds this record under the id, or the record's run ended more than five minutes ago. */
  predicate HoldsOrExpired(store: Store, id: string, r: Record, now: int) {
    && (id in store ==> store[id] == r)
    && (id !in store ==> Terminal(r.state) && r.completedAt.Some? && now - r.completedAt.value > TASK_TTL)
    && (r.completedAt.Some? ==> r.completedAt.value <= now)
  }

  /** The record is held, with everything that has happened to it, until more than five minutes
      after its run ended: a poll that starts before the end and lasts at most five minutes never
      finds it gone. */
  lemma {:induction false} HeldUntilExpired(es: seq<Event>, ss: seq<Shop>, id: string, n: nat)
    requires IsRun(es, ss, id) && 0 < n <= |es| && WellRun(Happenings(es, id, n))
    ensures var hs := Happenings(es, id, n);
      HoldsOrExpired(ss[n].store, id, RecordAfter(NewRecord(id, es[0].message), hs, |hs|), Now(es, n))
  {
    var first := NewRecord(id, es[0].message);
    assert StepAt(es, ss, id, n - 1);
    if n == 1 {
      assert Happenings(es, id, 1) == Happenings(es, id, 0) == [];
    } else {
      var e := es[n - 1];
      var before, hs := Happenings(es, id, n - 1), Happenings(es, id, n);
      assert forall i :: 0 <= i < |before| ==> before[i] == hs[i];
      HeldUntilExpired(es, ss, id, n - 1);
      NotOverYet(id, es[0].message, before);
      SamePrefix(first, before, hs, |before|);
      assert IsOwn(e, id) ==> !Terminal(RecordAfter(first, before, |before|).state);
      hide HoldsOrExpired, Apply, Terminal, WellRun;
      StepHolds(ss[n - 1], e, id, RecordAfter(first, before, |before|), Now(es, n - 1));
    }
  }

  predicate IsOwn(e: Event, id: string) { e.Happened? && e.id == id }

  lemma {:induction false} StepHolds(s: Shop, e: Event, id: string, r: Record, was: int)
    requires HoldsOrExpired(s.store, id, r, was) && was <= e.at && !(e.Sent? && e.id == id)
    requires IsOwn(e, id) ==> !Terminal(r.state) && (!e.h.Progressed? ==> e.h.at == e.at)
    ensures HoldsOrExpired(Apply(s, e).store, id, if IsOwn(e, id) then After(r, e.h) else r, e.at)
  {
    CleanedHolds(s.store, s.lastCleanup, e.at, id);
    hide Cleaned;
  }

  /** A run that can still make progress has no terminal record. */
  lemma {:induction false} NotOverYet(id: string, message: Item, hs: seq<Happening>)
    requires WellRun(hs)
    ensures var r := RecordAfter(NewRecord(id, message), hs, |hs|);
      Terminal(r.state) ==> |hs| > 0 && !hs[|hs| - 1].Progressed?
  {
    RunShape(id, message, hs, |hs|);
  }

  /** A cleanup takes a record only when it is terminal and its time is up. */
  lemma {:induction false} CleanedHolds(store: Store, last: int, now: int, id: string)
    ensures id in Cleaned(store, last, now) ==> id in store && Cleaned(store, last, now)[id] == store[id]
    ensures id in store && id !in Cleaned(store, last, now) ==>
      var r := store[id]; Terminal(r.state) && r.completedAt.Some? && now - r.completedAt.value > TASK_TTL
  {
  }

  lemma {:induction false} SamePrefix(first: Record, a: seq<Happening>, b: seq<Happening>, n: nat)
    requires n <= |a| && n <= |b| && forall i :: 0 <= i < n ==> a[i] == b[i]
    ensures RecordAfter(first, a, n) == RecordAfter(first, b, n)
  {
    if n == 0 {
    } else {
      SamePrefix(first, a, b, n - 1);
    }
  }

  /** A cleanup takes exactly the records whose run ended more than 300 seconds ago, and takes none within 60
      seconds of the last one. */
  lemma {:induction false} CleanedExactlyWhen(store: Store, last: int, now: int, id: string, message: Item,
        hs: seq<Happening>)
    requires WellRun(hs) && id in store && store[id] == RecordAfter(NewRecord(id, message), hs, |hs|)
    ensures var over := |hs| > 0 && !hs[|hs| - 1].Progressed?;
      && (id !in Cleaned(store, last, now) <==> over && now - hs[|hs| - 1].at > 300 && now - last >= 60)
      && (id in Cleaned(store, last, now) ==> Cleaned(store, last, now)[id] == store[id])
  {
    RunShape(id, message, hs, |hs|);
  }

  /** Whatever else happens at the worker: a request that comes when a cleanup is due finds the record gone when
      its run ended more than 300 seconds before. */
  lemma {:induction false} ExpiredGoes(es: seq<Event>, ss: seq<Shop>, id: string, n: nat)
    requires IsRun(es, ss, id) && 1 < n <= |es| && es[n - 1].Sent? && WellRun(Happenings(es, id, n - 1))
    requires es[n - 1].at - ss[n - 1].lastCleanup >= 60
    ensures var hs := Happenings(es, id, n - 1);
      |hs| > 0 && !hs[|hs| - 1].Progressed? && es[n - 1].at - hs[|hs| - 1].at > 300 ==>
        id !in ss[n].store && ss[n].lastCleanup == es[n - 1].at
  {
    assert StepAt(es, ss, id, n - 1);
    HeldUntilExpired(es, ss, id, n - 1);
    var hs := Happenings(es, id, n - 1);
    if id in ss[n - 1].store {
      CleanedExactlyWhen(ss[n - 1].store, ss[n - 1].lastCleanup, es[n - 1].at, id, es[0].message, hs);
    } else {
      CleanedHolds(ss[n - 1].store, ss[n - 1].lastCleanup, es[n - 1].at, id);
    }
    hide Cleaned, WellRun;
  }
}
