/**
 The session store of src/session/service.py: one row per session, read whole, changed and
 written back whole under the session's lock.
 */
module Sessions {
  import opened Wrappers
  import opened Decimal
  import opened Merging

  datatype Row = Row(tenantId: string, workDir: string, state: Json, events: seq<Json>, createdAt: int)

  /** append_event(event) or update_state(delta) */
  datatype Op = Append(event: Json) | Update(delta: Json)

  /** event.setdefault("timestamp", now) */
  function Stamp(event: Json, now: int): Json
    requires event.Dict?
  {
    if "timestamp" in event.fields then event
    else Dict(event.fields["timestamp" := Plain(PrintInt(now))])
  }

  predicate WellTyped(op: Op) {
    match op
    case Append(e) => e.Dict?
    case Update(d) => d.Dict?
  }

  /** What an operation makes of the row it has read. */
  function Effect(row: Row, op: Op, now: int): Row
    requires WellTyped(op)
  {
    match op
    case Append(e) => row.(events := row.events + [Stamp(e, now)])
    case Update(d) => row.(state := Merge(row.state, d))
  }

  class SessionService {
    /** The table sessions_v2. */
    var rows: map<string, Row>
    /** The lazily filled dict of locks; a lock is known by its number. */
    var locks: map<string, nat>
    var lockCount: nat

    ghost predicate Valid()
      reads this
    {
      && (forall s :: s in rows ==> rows[s].state.Dict?)
      && (forall s :: s in locks ==> locks[s] < lockCount)
      && (forall s, r :: s in locks && r in locks && s != r ==> locks[s] != locks[r])
    }

    constructor ()
      ensures Valid() && rows == map[] && locks == map[]
    {
      rows, locks, lockCount := map[], map[], 0;
    }

    /** The session's one lock, made on first use. */
    method GetLock(session: string) returns (lock: nat)
      requires Valid()
      modifies this`locks, this`lockCount
      ensures Valid() && session in locks && lock == locks[session]
      ensures forall s :: s in old(locks) ==> s in locks && locks[s] == old(locks)[s]
    {
      if session in locks {
        return locks[session];
      }
      // double check under the dict's own lock
      if session !in locks {
        locks := locks[session := lockCount];
        lockCount := lockCount + 1;
      }
      lock := locks[session];
    }

    /** A call that is not interleaved with others: the row it returns is the row it stored. */
    method AppendEvent(session: string, event: Json, now: int) returns (updated: Option<Row>)
      requires Valid() && event.Dict?
      modifies this
      ensures Valid()
      ensures updated == if session in old(rows) then Some(Effect(old(rows)[session], Append(event), now)) else None
      ensures rows == if updated.Some? then old(rows)[session := updated.value] else old(rows)
    {
      var lock := GetLock(session);
      if session !in rows {
        return None;
      }
      var sess := rows[session];
      sess := sess.(events := sess.events + [Stamp(event, now)]);
      rows := rows[session := sess];
      return Some(sess);
    }

    method UpdateState(session: string, delta: Json, now: int) returns (updated: Option<Row>)
      requires Valid() && delta.Dict?
      modifies this
      ensures Valid()
      ensures updated == if session in old(rows) then Some(Effect(old(rows)[session], Update(delta), now)) else None
      ensures rows == if updated.Some? then old(rows)[session := updated.value] else old(rows)
    {
      var lock := GetLock(session);
      if session !in rows {
        return None;
      }
      var sess := rows[session];
      var merged := DeepMerge(sess.state, delta);
      sess := sess.(state := merged);
      rows := rows[session := sess];
      return Some(sess);
    }
  }
}
