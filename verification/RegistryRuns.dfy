/**
 Whole runs of the registry: the skill index against a plain filter over the live records.
 */
module RegistryRuns {
  import opened Registering

  datatype Op = Register(a: Registration, newId: string) | Heartbeat(id: string) | Deregister(id: string) | Sweep

  datatype Event = Event(op: Op, at: nat)

  function Apply(db: Db, ttl: int, e: Event): Db {
    var d := Purge(db, e.at);
    match e.op
    case Register(a, newId) => RegisterIn(d, ttl, a, newId, e.at).db
    case Heartbeat(id) => HeartbeatIn(d, ttl, id, e.at)
    case Deregister(id) => DeregisterIn(d, id)
    case Sweep => SweepIn(d, ttl, e.at)
  }

  ghost predicate Has(m: SkillSets, skill: string, id: string) { skill in m && id in m[skill].value }

  /** A uuid not in use. */
  ghost predicate Unused(d: Db, id: string) {
    && id !in d.records
    && (forall e :: e in d.endpoints ==> d.endpoints[e].value != id)
    && (forall s :: !Has(d.skills, s, id))
  }

  /** What the callers keep to: `declared` are the endpoints of internal agents, `lent` the skills
      that external agents may register. */
  datatype Setting = Setting(ttl: int, declared: set<string>, lent: set<string>)

  /** An endpoint is always internal or always external, a new id is new, and only external
      agents send heartbeats. */
  ghost predicate Allowed(c: Setting, db: Db, e: Event) {
    var d := Purge(db, e.at);
    match e.op
    case Register(a, newId) =>
      && (a.internal <==> a.endpoint in c.declared)
      && (!a.internal ==> forall i :: 0 <= i < |a.skills| ==> a.skills[i] in c.lent)
      && Unused(d, newId)
    case Heartbeat(id) => id in d.records ==> !d.records[id].value.internal
    case _ => true
  }

  ghost predicate StepAt(c: Setting, es: seq<Event>, dbs: seq<Db>, i: nat)
    requires |dbs| == |es| + 1
  {
    i < |es| ==>
      && (i == 0 || es[i - 1].at <= es[i].at)
      && Allowed(c, dbs[i], es[i])
      && dbs[i + 1] == Apply(dbs[i], c.ttl, es[i])
  }

  /** The registry from empty, and the clock never goes back. */
  ghost predicate IsRun(c: Setting, es: seq<Event>, dbs: seq<Db>) {
    && c.ttl > 0
    && |dbs| == |es| + 1 && dbs[0] == Db(map[], map[], map[])
    && forall i: nat :: StepAt(c, es, dbs, i)
  }

  // ---------------------------------------------------------------- what every operation keeps

  ghost predicate RecordOk(c: Setting, id: string, r: Keyed<Record>, now: int) {
    && r.value.id == id
    && (r.value.internal <==> r.value.endpoint in c.declared)
    && 0 <= r.value.registeredAt <= r.value.lastHeartbeat <= now
    && r.expiry == (if r.value.internal then Never else Until(r.value.lastHeartbeat + c.ttl))
    && Live(r.expiry, now)
    && (!r.value.internal ==> forall i :: 0 <= i < |r.value.skills| ==> r.value.skills[i] in c.lent)
  }

  predicate Outlasts(e: Expiry, at: int) { e.Never? || at <= e.at }

  /** An external agent's skill set outlives it by a whole ttl. */
  ghost predicate Indexed(c: Setting, m: SkillSets, r: Record, skill: string) {
    if r.internal then skill !in c.lent ==> Has(m, skill, r.id)
    else Has(m, skill, r.id) && Outlasts(m[skill].expiry, r.lastHeartbeat + 2 * c.ttl)
  }

  ghost predicate RecordsOk(c: Setting, d: Db, now: int) {
    forall id :: id in d.records ==> RecordOk(c, id, d.records[id], now)
  }

  ghost predicate AllIndexed(c: Setting, d: Db) {
    forall id, s :: id in d.records && s in d.records[id].value.skills ==> Indexed(c, d.skills, d.records[id].value, s)
  }

  /** No membership is left from an older record with the same id. */
  ghost predicate NoneLeftOver(d: Db) {
    forall id, s :: id in d.records && Has(d.skills, s, id) ==> s in d.records[id].value.skills
  }

  ghost predicate OwnSetsLast(c: Setting, d: Db) {
    forall s :: s in d.skills && s !in c.lent ==> d.skills[s].expiry.Never?
  }

  /** The index entry of an endpoint does not outlive the record it names; when that record was
      removed, so were its memberships. */
  ghost predicate EntryOk(c: Setting, d: Db, endpoint: string) {
    endpoint in d.endpoints ==>
      var entry := d.endpoints[endpoint];
      && (endpoint in c.declared ==> entry.expiry.Never?)
      && (entry.value in d.records ==>
            var r := d.records[entry.value].value;
            r.endpoint == endpoint && (entry.expiry.Until? ==> entry.expiry.at <= r.lastHeartbeat + c.ttl)
                && (entry.expiry.Never? ==> r.internal))
      && (entry.value !in d.records ==> forall s :: !Has(d.skills, s, entry.value))
  }

  ghost predicate EntriesOk(c: Setting, d: Db) {
    && (forall e :: EntryOk(c, d, e))
    && (forall e, f :: e in d.endpoints && f in d.endpoints && e != f ==> d.endpoints[e].value != d.endpoints[f].value)
  }

  /** The index names an internal agent's record as long as there is one. */
  ghost predicate InternalEntered(d: Db) {
    forall id :: id in d.records && d.records[id].value.internal ==> Enters(d, d.records[id].value.endpoint, id)
  }

  ghost predicate Enters(d: Db, endpoint: string, id: string) {
    endpoint in d.endpoints && d.endpoints[endpoint].value == id
  }

  ghost predicate Inv(c: Setting, d: Db, now: int) {
    RecordsOk(c, d, now) && AllIndexed(c, d) && NoneLeftOver(d) && OwnSetsLast(c, d) && EntriesOk(c, d) &&
      InternalEntered(d)
  }

  lemma {:induction false} PurgeKeeps(c: Setting, d: Db, then': int, now: int)
    requires c.ttl > 0 && then' <= now && Inv(c, d, then')
    ensures Inv(c, Purge(d, now), now)
  {
    var p := Purge(d, now);
    forall id | id in p.records ensures RecordOk(c, id, p.records[id], now) {
      assert RecordOk(c, id, d.records[id], then');
    }
    forall id, s | id in p.records && s in p.records[id].value.skills
        ensures Indexed(c, p.skills, p.records[id].value, s) {
      assert RecordOk(c, id, d.records[id], then') && Indexed(c, d.skills, d.records[id].value, s);
    }
    forall id | id in p.records && p.records[id].value.internal ensures Enters(p, p.records[id].value.endpoint, id) {
      var endpoint := d.records[id].value.endpoint;
      assert RecordOk(c, id, d.records[id], then') && Enters(d, endpoint, id) && EntryOk(c, d, endpoint);
    }
    forall e ensures EntryOk(c, p, e) {
      assert EntryOk(c, d, e);
      if e in p.endpoints {
        var id := d.endpoints[e].value;
        if id in d.records {
          assert RecordOk(c, id, d.records[id], then');
          assert id in p.records;
        } else {
          assert forall s :: Has(p.skills, s, id) ==> Has(d.skills, s, id);
        }
      }
    }
  }

  // ---------------------------------------------------------------- what the loops over skills do

  ghost predicate Among(skills: seq<string>, skill: string, n: nat)
    requires n <= |skills|
  {
    exists i :: 0 <= i < n && skills[i] == skill
  }

  lemma {:induction false} AmongAll(skills: seq<string>, skill: string)
    ensures Among(skills, skill, |skills|) <==> skill in skills
  {
  }

  lemma {:induction false} RemovedFrom(m: SkillSets, skills: seq<string>, id: string, n: nat, s: string, j: string)
    requires n <= |skills|
    ensures var r := RemoveAll(m, skills, id, n);
      && (Has(r, s, j) <==> Has(m, s, j) && !(j == id && Among(skills, s, n)))
      && (s in r ==> s in m && r[s].expiry == m[s].expiry)
  {
    if n == 0 {
    } else {
      RemovedFrom(m, skills, id, n - 1, s, j);
      var before := RemoveAll(m, skills, id, n - 1);
      RemovedOne(before, skills[n - 1], id, s, j);
      assert Among(skills, s, n) <==> Among(skills, s, n - 1) || s == skills[n - 1];
    }
  }

  lemma {:induction false} RemovedOne(m: SkillSets, skill: string, id: string, s: string, j: string)
    ensures var r := SRem(m, skill, id);
      && (Has(r, s, j) <==> Has(m, s, j) && !(j == id && s == skill))
      && (s in r ==> s in m && r[s].expiry == m[s].expiry)
  {
    if skill in m && s == skill {
      assert j in m[skill].value - {id} <==> j in m[skill].value && j != id;
    }
  }

  lemma {:induction false} AddedTo(m: SkillSets, skills: seq<string>, id: string, expiry: Expiry, n: nat, s: string,
        j: string)
    requires n <= |skills|
    ensures var r := AddAll(m, skills, id, expiry, n);
      && (Has(r, s, j) <==> Has(m, s, j) || (j == id && Among(skills, s, n)))
      && (s in r <==> s in m || Among(skills, s, n))
      && (s in r ==> r[s].expiry == if Among(skills, s, n) && expiry.Until? then expiry else if s in m then m[s].expiry
          else Never)
  {
    if n == 0 {
    } else {
      AddedTo(m, skills, id, expiry, n - 1, s, j);
    }
  }

  lemma {:induction false} RefreshedIn(m: SkillSets, skills: seq<string>, at: int, n: nat, s: string)
    requires n <= |skills|
    ensures var r := RefreshAll(m, skills, at, n);
      && (s in r <==> s in m)
      && (s in m ==> r[s] == if Among(skills, s, n) then m[s].(expiry := Until(at)) else m[s])
  {
    if n == 0 {
    } else {
      RefreshedIn(m, skills, at, n - 1, s);
    }
  }

  // ---------------------------------------------------------------- each operation keeps it

  /** After a registration the agent is in exactly the sets of its own skills; the others are
      where they were, and a set with another member keeps or renews its time to live. */
  lemma {:induction false} RegisteredSkills(c: Setting, d: Db, a: Registration, newId: string, now: int, s: string,
        j: string)
    requires Inv(c, d, now) && (a.endpoint !in d.endpoints ==> Unused(d, newId))
    ensures var (r, id) := (RegisterIn(d, c.ttl, a, newId, now).db.skills, RegisterIn(d, c.ttl, a, newId, now).id);
      var renewed := !a.internal && s in a.skills;
      && (Has(r, s, j) <==> if j == id then s in a.skills else Has(d.skills, s, j))
      && (renewed ==> s in r && r[s].expiry == Until(now + 2 * c.ttl))
      && (s in r && !renewed ==> r[s].expiry.Never? || (s in d.skills && r[s].expiry == d.skills[s].expiry))
      && (Has(d.skills, s, j) && j != id && !renewed ==> s in d.skills && r[s].expiry == d.skills[s].expiry)
  {
    hide RecordsOk, AllIndexed, OwnSetsLast, RemoveAll, AddAll, Has;
    var id := RegisterIn(d, c.ttl, a, newId, now).id;
    var old' := if a.endpoint in d.endpoints && id in d.records then d.records[id].value.skills else [];
    var cleared := RemoveAll(d.skills, old', id, |old'|);
    RemovedFrom(d.skills, old', id, |old'|, s, j);
    RemovedFrom(d.skills, old', id, |old'|, s, id);
    AddedTo(cleared, a.skills, id, if a.internal then Never else Until(now + 2 * c.ttl), |a.skills|, s, j);
    AmongAll(a.skills, s);
    AmongAll(old', s);
    assert EntryOk(c, d, a.endpoint);
    assert !Has(cleared, s, id);
    HasIn(d.skills, s, j);
    HasIn(cleared, s, j);
    HasIn(AddAll(cleared, a.skills, id, if a.internal then Never else Until(now + 2 * c.ttl), |a.skills|), s, j);
  }

  lemma {:induction false} HasIn(m: SkillSets, s: string, id: string)
    ensures Has(m, s, id) ==> s in m
  {
  }

  lemma {:induction false} RegisterKeeps(c: Setting, d: Db, a: Registration, newId: string, now: nat)
    requires c.ttl > 0 && Inv(c, d, now) && Unused(d, newId)
    requires a.internal <==> a.endpoint in c.declared
    requires !a.internal ==> forall i :: 0 <= i < |a.skills| ==> a.skills[i] in c.lent
    ensures Inv(c, RegisterIn(d, c.ttl, a, newId, now).db, now)
  {
    var (r, id) := (RegisterIn(d, c.ttl, a, newId, now).db, RegisterIn(d, c.ttl, a, newId, now).id);
    assert EntryOk(c, d, a.endpoint);
    forall k | k in r.records ensures RecordOk(c, k, r.records[k], now) {
      if k in d.records { assert RecordOk(c, k, d.records[k], now); }
    }
    forall k, s | k in r.records && s in r.records[k].value.skills ensures Indexed(c, r.skills, r.records[k].value, s) {
      RegisteredSkills(c, d, a, newId, now, s, k);
      if k != id {
        assert RecordOk(c, k, d.records[k], now);
        assert Indexed(c, d.skills, d.records[k].value, s);
      }
    }
    forall k, s | k in r.records && Has(r.skills, s, k) ensures s in r.records[k].value.skills {
      RegisteredSkills(c, d, a, newId, now, s, k);
    }
    forall s | s in r.skills && s !in c.lent ensures r.skills[s].expiry.Never? {
      RegisteredSkills(c, d, a, newId, now, s, id);
    }
    RegisterKeepsEntries(c, d, a, newId, now);
  }

  lemma {:induction false} RegisterKeepsEntries(c: Setting, d: Db, a: Registration, newId: string, now: nat)
    requires c.ttl > 0 && Inv(c, d, now) && Unused(d, newId)
    requires a.internal <==> a.endpoint in c.declared
    ensures EntriesOk(c, RegisterIn(d, c.ttl, a, newId, now).db)
  {
    var (r, id) := (RegisterIn(d, c.ttl, a, newId, now).db, RegisterIn(d, c.ttl, a, newId, now).id);
    hide RegisterIn, RecordsOk, AllIndexed, OwnSetsLast, NoneLeftOver;
    RegisteredEntries(d, c.ttl, a, newId, now);
    forall e ensures EntryOk(c, r, e) {
      assert EntryOk(c, d, e);
      if e in d.endpoints && e != a.endpoint {
        var other := d.endpoints[e].value;
        assert other != id;
        forall s | Has(r.skills, s, other) ensures Has(d.skills, s, other) {
          RegisteredSkills(c, d, a, newId, now, s, other);
        }
      }
    }
  }

  lemma {:induction false} RegisteredEntries(d: Db, ttl: int, a: Registration, newId: string, now: nat)
    ensures var (r, id) := (RegisterIn(d, ttl, a, newId, now).db, RegisterIn(d, ttl, a, newId, now).id);
      && id == (if a.endpoint in d.endpoints then d.endpoints[a.endpoint].value else newId)
      && r.endpoints == d.endpoints[a.endpoint := Keyed(id, if a.internal then Never else Until(now + ttl))]
      && r.records.Keys == d.records.Keys + {id}
      && (forall k :: k in d.records && k != id ==> r.records[k] == d.records[k])
      && r.records[id].value == Record(id, a.name, a.endpoint, a.skills, now, now, a.internal)
  {
  }

  lemma {:induction false} HeartbeatKeeps(c: Setting, d: Db, id: string, now: nat)
    requires c.ttl > 0 && Inv(c, d, now) && (id in d.records ==> !d.records[id].value.internal)
    ensures Inv(c, HeartbeatIn(d, c.ttl, id, now), now)
  {
    if id in d.records {
      var r := HeartbeatIn(d, c.ttl, id, now);
      var skills := d.records[id].value.skills;
      assert RecordOk(c, id, d.records[id], now);
      forall k | k in r.records ensures RecordOk(c, k, r.records[k], now) {
        assert RecordOk(c, k, d.records[k], now);
      }
      forall s ensures (s in r.skills <==> s in d.skills)
          && (s in d.skills ==> r.skills[s] == if s in skills then d.skills[s].(expiry := Until(now + 2 * c.ttl))
              else d.skills[s])
      {
        RefreshedIn(d.skills, skills, now + 2 * c.ttl, |skills|, s);
        AmongAll(skills, s);
      }
      forall k, s | k in r.records && s in r.records[k].value.skills
          ensures Indexed(c, r.skills, r.records[k].value, s) {
        assert RecordOk(c, k, d.records[k], now);
        assert Indexed(c, d.skills, d.records[k].value, s);
      }
      forall k, s | k in r.records && Has(r.skills, s, k) ensures s in r.records[k].value.skills {
        assert Has(d.skills, s, k);
      }
      forall s | s in r.skills && s !in c.lent ensures r.skills[s].expiry.Never? {
        assert s !in skills;
      }
      forall e ensures EntryOk(c, r, e) {
        assert EntryOk(c, d, e);
        assert forall s, j :: Has(r.skills, s, j) ==> Has(d.skills, s, j);
      }
    }
  }

  lemma {:induction false} DeregisterKeeps(c: Setting, d: Db, id: string, now: nat)
    requires c.ttl > 0 && Inv(c, d, now)
    ensures Inv(c, DeregisterIn(d, id), now)
  {
    var r := DeregisterIn(d, id);
    var skills := if id in d.records then d.records[id].value.skills else [];
    forall s, j ensures (Has(r.skills, s, j) <==> Has(d.skills, s, j) && !(j == id && s in skills))
        && (s in r.skills ==> s in d.skills && r.skills[s].expiry == d.skills[s].expiry)
    {
      RemovedFrom(d.skills, skills, id, |skills|, s, j);
      AmongAll(skills, s);
    }
    forall k | k in r.records ensures RecordOk(c, k, r.records[k], now) {
      assert RecordOk(c, k, d.records[k], now);
    }
    forall k, s | k in r.records && s in r.records[k].value.skills ensures Indexed(c, r.skills, r.records[k].value, s) {
      assert RecordOk(c, k, d.records[k], now) && Indexed(c, d.skills, d.records[k].value, s);
    }
    forall s | s in r.skills && s !in c.lent ensures r.skills[s].expiry.Never? {
      RemovedFrom(d.skills, skills, id, |skills|, s, id);
    }
    forall e ensures EntryOk(c, r, e) {
      assert EntryOk(c, d, e);
      if id in d.records {
        assert forall s :: !Has(r.skills, s, id);
      }
    }
  }

  lemma {:induction false} SweepKeeps(c: Setting, d: Db, now: nat)
    requires c.ttl > 0 && Inv(c, d, now)
    ensures Inv(c, SweepIn(d, c.ttl, now), now)
  {
    var r := SweepIn(d, c.ttl, now);
    NoneStale(c, d, now);
    assert r.records == d.records;
    forall s, j ensures (Has(r.skills, s, j) <==> Has(d.skills, s, j) && j in d.records)
        && (s in r.skills ==> s in d.skills && r.skills[s].expiry == d.skills[s].expiry)
    {
      SweptFrom(d.records, d.skills, s, j);
    }
    forall k, s | k in r.records && s in r.records[k].value.skills ensures Indexed(c, r.skills, r.records[k].value, s) {
      assert RecordOk(c, k, d.records[k], now) && Indexed(c, d.skills, d.records[k].value, s);
    }
    forall e ensures EntryOk(c, r, e) {
      assert EntryOk(c, d, e);
    }
  }

  lemma {:induction false} SweptFrom(records: Records, m: SkillSets, s: string, j: string)
    ensures var r := Pruned(records, m, {});
      && (Has(r, s, j) <==> Has(m, s, j) && j in records)
      && (s in r ==> s in m && r[s].expiry == m[s].expiry)
  {
    if s in m {
      var kept := m[s].value - Orphans(records, m, s);
      assert j in kept <==> j in m[s].value && j in records;
    }
  }

  lemma {:induction false} NoneStale(c: Setting, d: Db, now: int)
    requires c.ttl > 0 && RecordsOk(c, d, now)
    ensures Stale(d, c.ttl, now) == {}
  {
    forall id | id in d.records ensures IsOnline(d.records[id].value, c.ttl, now) {
      assert RecordOk(c, id, d.records[id], now);
    }
  }

  function Clock(es: seq<Event>, i: nat): nat
    requires i <= |es|
  {
    if i == 0 then 0 else es[i - 1].at
  }

  lemma {:induction false} RunKeeps(c: Setting, es: seq<Event>, dbs: seq<Db>, i: nat)
    requires IsRun(c, es, dbs) && i <= |es|
    ensures Inv(c, dbs[i], Clock(es, i))
  {
    if i == 0 {
    } else {
      RunKeeps(c, es, dbs, i - 1);
      assert StepAt(c, es, dbs, i - 1);
      hide Inv, RegisterIn, HeartbeatIn, DeregisterIn, SweepIn, Unused;
      var e := es[i - 1];
      PurgeKeeps(c, dbs[i - 1], Clock(es, i - 1), e.at);
      var d := Purge(dbs[i - 1], e.at);
      match e.op
      case Register(a, newId) => RegisterKeeps(c, d, a, newId, e.at);
      case Heartbeat(id) => HeartbeatKeeps(c, d, id, e.at);
      case Deregister(id) => DeregisterKeeps(c, d, id, e.at);
      case Sweep => SweepKeeps(c, d, e.at);
    }
  }

  // ---------------------------------------------------------------- the index is a plain filter

  /** The listed agents whose record declares the skill. */
  function Declaring(d: Db, ttl: int, skill: string, now: int): map<string, Record> {
    map id | id in ListIn(d, ttl, now) && skill in ListIn(d, ttl, now)[id].skills :: ListIn(d, ttl, now)[id]
  }

  /** In reachable states Redis has dropped every record that is not online, so online_only makes no
      difference to either answer. */
  lemma {:induction false} OnlineOnlyIsIdle(c: Setting, d: Db, now: int, skill: string)
    requires c.ttl > 0 && Inv(c, d, now)
    ensures ListIn(d, c.ttl, now) == HeldIn(d) && FindIn(d, c.ttl, skill, now) == HeldWith(d, skill)
  {
    NoneStale(c, d, now);
    assert forall id :: id in d.records ==> id !in Stale(d, c.ttl, now);
  }

  /** Whatever else is shared, external agents are found by exactly the skills they declare; an
      internal one is never found by another skill, and is missed only when it is in no live set. */
  lemma {:induction false} FoundIfMember(c: Setting, d: Db, now: int, skill: string)
    requires c.ttl > 0 && Inv(c, d, now)
    ensures ListIn(d, c.ttl, now).Keys == d.records.Keys
    ensures forall id :: id in FindIn(d, c.ttl, skill, now) <==>
      id in Declaring(d, c.ttl, skill, now) && (d.records[id].value.internal ==> Has(d.skills, skill, id))
  {
    NoneStale(c, d, now);
    assert forall id :: id in d.records ==> id !in Stale(d, c.ttl, now);
    forall id | id in Declaring(d, c.ttl, skill, now) && !d.records[id].value.internal
        ensures Has(d.skills, skill, id) {
      assert RecordOk(c, id, d.records[id], now) && Indexed(c, d.skills, d.records[id].value, skill);
    }
  }

  /** At every clock reading after any run, find_by_skill is list_agents filtered by the skill,
      for every skill that external agents do not share with internal ones. */
  lemma {:induction false} FindIsFilter(c: Setting, es: seq<Event>, dbs: seq<Db>, i: nat, now: int, skill: string)
    requires IsRun(c, es, dbs) && i <= |es| && Clock(es, i) <= now
    requires skill in c.lent ==> forall id :: id in dbs[i].records && skill in dbs[i].records[id].value.skills ==>
        !dbs[i].records[id].value.internal
    ensures var d := Purge(dbs[i], now); FindIn(d, c.ttl, skill, now) == Declaring(d, c.ttl, skill, now)
  {
    var d := Purge(dbs[i], now);
    RunKeeps(c, es, dbs, i);
    PurgeKeeps(c, dbs[i], Clock(es, i), now);
    FoundIfMember(c, d, now, skill);
    forall id | id in Declaring(d, c.ttl, skill, now) && d.records[id].value.internal ensures Has(d.skills, skill, id) {
      assert RecordOk(c, id, d.records[id], now) && Indexed(c, d.skills, d.records[id].value, skill);
    }
  }

  /** The agent is in a set for the skill that has no time to live. */
  ghost predicate FirmlyIn(d: Db, skill: string, id: string) {
    Has(d.skills, skill, id) && d.skills[skill].expiry.Never?
  }

  /** From a reachable state the two answers agree for good, if no operation follows, exactly
      when no internal agent's membership carries a time to live that an external agent put on it. */
  lemma {:induction false} AgreeForGoodExactlyWhen(c: Setting, d: Db, now: nat, skill: string)
    requires c.ttl > 0 && Inv(c, d, now)
    ensures (forall later: int :: now <= later ==> AgreeAt(c, d, skill, later))
       <==> (forall id :: id in d.records && d.records[id].value.internal && skill in d.records[id].value.skills ==>
         FirmlyIn(d, skill, id))
  {
    if forall id :: id in d.records && d.records[id].value.internal && skill in d.records[id].value.skills ==>
        FirmlyIn(d, skill, id) {
      forall later: int | now <= later ensures AgreeAt(c, d, skill, later) {
        PurgeKeeps(c, d, now, later);
        FoundIfMember(c, Purge(d, later), later, skill);
      }
    } else {
      var id :| id in d.records && d.records[id].value.internal && skill in d.records[id].value.skills &&
          !FirmlyIn(d, skill, id);
      assert RecordOk(c, id, d.records[id], now);
      var later := if Has(d.skills, skill, id) && d.skills[skill].expiry.at > now then d.skills[skill].expiry.at
          else now;
      PurgeKeeps(c, d, now, later);
      FoundIfMember(c, Purge(d, later), later, skill);
      assert !AgreeAt(c, d, skill, later) by {
        assert id in Declaring(Purge(d, later), c.ttl, skill, later);
        assert id !in FindIn(Purge(d, later), c.ttl, skill, later);
      }
    }
  }

  ghost predicate AgreeAt(c: Setting, d: Db, skill: string, now: int) {
    FindIn(Purge(d, now), c.ttl, skill, now) == Declaring(Purge(d, now), c.ttl, skill, now)
  }

  // ---------------------------------------------------------------- the sweep, on any contents

  lemma {:induction false} SweepChangesNoAnswer(d: Db, ttl: int, now: int, skill: string)
    ensures var r := SweepIn(d, ttl, now);
      && ListIn(r, ttl, now) == ListIn(d, ttl, now)
      && FindIn(r, ttl, skill, now) == FindIn(d, ttl, skill, now)
  {
    var r := SweepIn(d, ttl, now);
    forall id ensures id in Members(r, skill) <==> id in Members(d, skill) && id in r.records {
      SweptFrom(r.records, d.skills, skill, id);
    }
  }

  /** With online_only=False a sweep does change an answer, exactly when it holds a stale record. */
  lemma {:induction false} SweepKeepsHeldExactlyWhen(d: Db, ttl: int, now: int, skill: string)
    ensures var r := SweepIn(d, ttl, now);
      && (HeldIn(r) == HeldIn(d) <==> Stale(d, ttl, now) == {})
      && (HeldWith(r, skill) == HeldWith(d, skill) <==> Stale(d, ttl, now) !! Members(d, skill))
  {
    hide Pruned, Members;
    var (r, stale) := (SweepIn(d, ttl, now), Stale(d, ttl, now));
    forall id ensures id in Members(r, skill) <==> id in Members(d, skill) && id in r.records {
      SweptMember(d, ttl, now, skill, id);
    }
    assert forall id :: id in HeldIn(d) && id !in HeldIn(r) <==> id in stale;
    var (before, after) := (HeldWith(d, skill), HeldWith(r, skill));
    assert forall id :: id in before && id !in after <==> id in stale && id in Members(d, skill);
  }

  lemma {:induction false} SweptMember(d: Db, ttl: int, now: int, skill: string, id: string)
    ensures var r := SweepIn(d, ttl, now); id in Members(r, skill) <==> id in Members(d, skill) && id in r.records
  {
    var r := SweepIn(d, ttl, now);
    SweptFrom(r.records, d.skills, skill, id);
  }

  function Memberships(m: SkillSets): set<(string, string)> {
    set s, id | s in m && id in m[s].value :: (s, id)
  }

  /** The sweep takes exactly the memberships without a record. */
  lemma {:induction false} SweptMemberships(records: Records, m: SkillSets)
    ensures var r := Pruned(records, m, {});
      && (forall s, id :: Has(r, s, id) ==> id in records)
      && Memberships(m) == Memberships(r) + OrphanPairs(records, m, {})
      && Memberships(r) !! OrphanPairs(records, m, {})
  {
    var r := Pruned(records, m, {});
    forall s, id ensures Has(r, s, id) <==> Has(m, s, id) && id in records {
      SweptFrom(records, m, s, id);
    }
    hide Pruned;
    var all, left, orphans := Memberships(m), Memberships(r), OrphanPairs(records, m, {});
    forall p | p in all ensures p in left + orphans {
      var (s, id) := p;
      assert Has(m, s, id);
      if id in records { assert Has(r, s, id) && p in left; }
    }
    forall p | p in left ensures p in all && p !in orphans {
      var (s, id) := p;
      assert Has(r, s, id);
      assert Has(m, s, id);
    }
    assert orphans <= all;
  }

  /** No member is left without a record, and the returned count is what went. */
  lemma {:induction false} SweepCountsWhatGoes(d: Db, ttl: int, now: int)
    ensures var r := SweepIn(d, ttl, now);
      && (forall s, id :: Has(r.skills, s, id) ==> id in r.records)
      && SweptCount(d, ttl, now) == |d.records| - |r.records| + |Memberships(d.skills)| - |Memberships(r.skills)|
  {
    hide Pruned, OrphanPairs, Memberships;
    var r := SweepIn(d, ttl, now);
    var stale := Stale(d, ttl, now);
    assert d.records.Keys == r.records.Keys + stale && r.records.Keys !! stale;
    assert |d.records.Keys| == |d.records| && |r.records.Keys| == |r.records|;
    SweptMemberships(d.records - stale, d.skills);
  }

  lemma {:induction false} SecondSweepRemovesNothing(d: Db, ttl: int, now: int)
    ensures var r := SweepIn(d, ttl, now); SweptCount(r, ttl, now) == 0 && SweepIn(r, ttl, now) == r
  {
    var r := SweepIn(d, ttl, now);
    SweptMemberships(d.records - Stale(d, ttl, now), d.skills);
    hide Has, Pruned, OrphanPairs, Orphans;
    assert Stale(r, ttl, now) == {};
    assert r.records - {} == r.records;
    NothingToPrune(r.records, r.skills);
  }

  lemma {:induction false} NothingToPrune(records: Records, m: SkillSets)
    requires forall s, id :: Has(m, s, id) ==> id in records
    ensures Pruned(records, m, {}) == m && OrphanPairs(records, m, {}) == {}
  {
    forall s | s in m ensures Orphans(records, m, s) == {} {
      forall id | id in m[s].value ensures id in records { assert Has(m, s, id); }
    }
    forall s | s in m ensures m[s].value - Orphans(records, m, s) == m[s].value {
    }
  }

  // ---------------------------------------------------------------- what the conditions are for

  const EMPTY: Db := Db(map[], map[], map[])

  /** Registering an agent with one skill that has no earlier record under its endpoint. */
  lemma {:induction false} RegisteredFirst(d: Db, ttl: int, a: Registration, skill: string, newId: string, now: int)
    requires a.skills == [skill] && (a.endpoint !in d.endpoints || d.endpoints[a.endpoint].value !in d.records)
    ensures var id := if a.endpoint in d.endpoints then d.endpoints[a.endpoint].value else newId;
      var set' := if skill in d.skills then d.skills[skill] else Keyed({}, Never);
      var r := Record(id, a.name, a.endpoint, a.skills, now, now, a.internal);
      a.endpoint in d.endpoints || newId !in d.records ==>
      RegisterIn(d, ttl, a, newId, now).db ==
        Db(d.records[id := Keyed(r, if a.internal then Never else Until(now + ttl))],
           d.endpoints[a.endpoint := Keyed(id, if a.internal then Never else Until(now + ttl))],
           d.skills[skill := Keyed(set'.value + {id}, if a.internal then set'.expiry else Until(now + 2 * ttl))])
  {
    var id := if a.endpoint in d.endpoints then d.endpoints[a.endpoint].value else newId;
    var lasting := if a.internal then Never else Until(now + 2 * ttl);
    assert |a.skills| == 1 && a.skills[0] == skill;
    assert AddAll(d.skills, a.skills, id, lasting, 0) == d.skills;
    assert AddAll(d.skills, a.skills, id, lasting, 1)
        == (if lasting.Never? then SAdd(d.skills, skill, id) else Expire(SAdd(d.skills, skill, id), skill, lasting.at));
    assert forall e: set<string> :: e == {} ==> e + {id} == {id};
    assert RemoveAll(d.skills, [], id, 0) == d.skills;
  }

  /** An internal agent and an external one share a skill: once the external one is silent the
      set expires, and the internal agent is listed but not found. */
  lemma {:induction false} SharedSkillIsLost()
    ensures var d1 := Apply(EMPTY, 30, Event(Register(Registration("a", "one", ["s"], true), "x"), 0));
      var d2 := Apply(d1, 30, Event(Register(Registration("b", "two", ["s"], false), "y"), 1));
      var d := Purge(d2, 61);
      "x" in Declaring(d, 30, "s", 61) && "x" !in FindIn(d, 30, "s", 61)
  {
    hide RegisterIn;
    var a, b := Registration("a", "one", ["s"], true), Registration("b", "two", ["s"], false);
    assert Purge(EMPTY, 0) == EMPTY;
    RegisteredFirst(EMPTY, 30, a, "s", "x", 0);
    var d1 := Apply(EMPTY, 30, Event(Register(a, "x"), 0));
    var r1 := Record("x", "a", "one", ["s"], 0, 0, true);
    assert d1.records == map["x" := Keyed(r1, Never)] && "s" in d1.skills && d1.skills["s"].expiry.Never?;
    assert Purge(d1, 1) == d1;
    RegisteredFirst(d1, 30, b, "s", "y", 1);
    var d2 := Apply(d1, 30, Event(Register(b, "y"), 1));
    assert "x" in d2.records && d2.records["x"] == Keyed(r1, Never);
    assert d2.skills["s"].expiry == Until(61);
    hide Apply;
    var d := Purge(d2, 61);
    assert "s" !in d.skills && "x" in d.records;
  }

  /** A heartbeat for an internal agent: its record now expires but its endpoint entry does not,
      so the id comes back with another skill and is still found by the old one. */
  lemma {:induction false} HeartbeatOfInternalLeavesMembership()
    ensures var d1 := Apply(EMPTY, 30, Event(Register(Registration("a", "one", ["s"], true), "x"), 0));
      var d2 := Apply(d1, 30, Event(Heartbeat("x"), 1));
      var d := Apply(d2, 30, Event(Register(Registration("a", "one", ["t"], true), "y"), 31));
      "x" in FindIn(d, 30, "s", 31) && "x" !in Declaring(d, 30, "s", 31)
  {
    hide RegisterIn;
    var a, b := Registration("a", "one", ["s"], true), Registration("a", "one", ["t"], true);
    assert Purge(EMPTY, 0) == EMPTY;
    RegisteredFirst(EMPTY, 30, a, "s", "x", 0);
    var d1 := Apply(EMPTY, 30, Event(Register(a, "x"), 0));
    assert Purge(d1, 1) == d1;
    var d2 := Apply(d1, 30, Event(Heartbeat("x"), 1));
    RefreshedIn(d1.skills, ["s"], 61, 1, "s");
    var p := Purge(d2, 31);
    assert p.records == map[];
    RegisteredFirst(p, 30, b, "t", "y", 31);
    assert Has(d2.skills, "s", "x");
    assert Has(p.skills, "s", "x");
  }

  /** An endpoint that changes from external to internal keeps the record's time to live: the
      agent that should never expire is gone one ttl later. */
  lemma {:induction false} InternalOverExternalExpires()
    ensures var d1 := Apply(EMPTY, 30, Event(Register(Registration("a", "one", [], false), "x"), 0));
      var d2 := Apply(d1, 30, Event(Register(Registration("a", "one", [], true), "y"), 1));
      "x" in d2.records && d2.records["x"].value.internal && ListIn(Purge(d2, 30), 30, 30) == map[]
  {
    assert Purge(EMPTY, 0) == EMPTY;
    var d1 := Apply(EMPTY, 30, Event(Register(Registration("a", "one", [], false), "x"), 0));
    assert Purge(d1, 1) == d1;
  }

  // ---------------------------------------------------------------- one record for each endpoint

  ghost predicate OnePerEndpoint(d: Db) {
    forall i, j :: i in d.records && j in d.records && d.records[i].value.endpoint == d.records[j].value.endpoint ==>
        i == j
  }

  /** Every live record of the endpoint is the one that the index names. */
  ghost predicate OnlyIndexed(d: Db, endpoint: string) {
    forall id :: id in d.records && d.records[id].value.endpoint == endpoint ==> Enters(d, endpoint, id)
  }

  /** Registering keeps one record for each endpoint exactly when the index has not expired under a
      live record of this endpoint. */
  lemma {:induction false} RegisterDuplicatesExactlyWhenNot(c: Setting, d: Db, a: Registration, newId: string, now: nat)
    requires Inv(c, d, now) && Unused(d, newId) && OnePerEndpoint(d)
    ensures OnePerEndpoint(RegisterIn(d, c.ttl, a, newId, now).db) <==> OnlyIndexed(d, a.endpoint)
  {
    hide RegisterIn, RecordsOk, AllIndexed, OwnSetsLast, NoneLeftOver;
    var (r, id) := (RegisterIn(d, c.ttl, a, newId, now).db, RegisterIn(d, c.ttl, a, newId, now).id);
    RegisteredEntries(d, c.ttl, a, newId, now);
    assert EntryOk(c, d, a.endpoint);
    if OnlyIndexed(d, a.endpoint) {
      forall k | k in d.records && k != id ensures r.records[k].value.endpoint != a.endpoint {
        assert d.records[k].value.endpoint == a.endpoint ==> Enters(d, a.endpoint, k);
      }
    } else {
      var k :| k in d.records && d.records[k].value.endpoint == a.endpoint && !Enters(d, a.endpoint, k);
      assert k != id && k in r.records && id in r.records;
    }
  }

  /** The registration at step `i`, if it is one, finds the endpoint's records indexed. */
  ghost predicate IndexedAt(es: seq<Event>, dbs: seq<Db>, i: nat)
    requires i < |es| && |dbs| == |es| + 1
  {
    es[i].op.Register? ==> OnlyIndexed(Purge(dbs[i], es[i].at), es[i].op.a.endpoint)
  }

  ghost predicate OneSoFar(dbs: seq<Db>, n: nat)
    requires n < |dbs|
  {
    forall i: nat :: i <= n ==> OnePerEndpoint(dbs[i])
  }

  ghost predicate IndexedSoFar(es: seq<Event>, dbs: seq<Db>, n: nat)
    requires n <= |es| && |dbs| == |es| + 1
  {
    forall i: nat :: i < n ==> IndexedAt(es, dbs, i)
  }

  /** Over a whole run: no endpoint ever has two records exactly when no registration came after the
      index entry of its endpoint had expired under a record kept alive by heartbeats. */
  lemma {:induction false} OneAgentPerEndpointExactlyWhen(c: Setting, es: seq<Event>, dbs: seq<Db>, n: nat)
    requires IsRun(c, es, dbs) && n <= |es|
    ensures OneSoFar(dbs, n) <==> IndexedSoFar(es, dbs, n)
  {
    if n == 0 {
    } else {
      OneAgentPerEndpointExactlyWhen(c, es, dbs, n - 1);
      assert StepAt(c, es, dbs, n - 1);
      if OnePerEndpoint(dbs[n - 1]) { OneStep(c, es, dbs, n); }
      hide OnePerEndpoint, IndexedAt, IsRun;
      assert OneSoFar(dbs, n) <==> OneSoFar(dbs, n - 1) && OnePerEndpoint(dbs[n]);
      assert IndexedSoFar(es, dbs, n) <==> IndexedSoFar(es, dbs, n - 1) && IndexedAt(es, dbs, n - 1);
    }
  }

  lemma {:induction false} OneStep(c: Setting, es: seq<Event>, dbs: seq<Db>, n: nat)
    requires IsRun(c, es, dbs) && 0 < n <= |es| && OnePerEndpoint(dbs[n - 1])
    ensures OnePerEndpoint(dbs[n]) <==> IndexedAt(es, dbs, n - 1)
  {
    assert StepAt(c, es, dbs, n - 1);
    var e := es[n - 1];
    var d := Purge(dbs[n - 1], e.at);
    match e.op
    case Register(a, newId) =>
      RunKeeps(c, es, dbs, n - 1);
      PurgeKeeps(c, dbs[n - 1], Clock(es, n - 1), e.at);
      RegisterDuplicatesExactlyWhenNot(c, d, a, newId, e.at);
    case _ =>
  }

  /** An external agent that registers, sends a heartbeat and registers again after the index entry
      has expired is listed twice. */
  lemma {:induction false} HeartbeatingAgentIsListedTwice()
    ensures var a := Registration("a", "one", [], false);
      var d1 := Apply(EMPTY, 30, Event(Register(a, "x"), 0));
      var d2 := Apply(d1, 30, Event(Heartbeat("x"), 20));
      var d := Apply(d2, 30, Event(Register(a, "y"), 31));
      !OnlyIndexed(Purge(d2, 31), "one") && ListIn(d, 30, 31).Keys == {"x", "y"}
  {
    var a := Registration("a", "one", [], false);
    assert Purge(EMPTY, 0) == EMPTY;
    var d1 := Apply(EMPTY, 30, Event(Register(a, "x"), 0));
    assert d1.records == map["x" := Keyed(Record("x", "a", "one", [], 0, 0, false), Until(30))];
    assert Purge(d1, 20) == d1;
    var d2 := Apply(d1, 30, Event(Heartbeat("x"), 20));
    var p := Purge(d2, 31);
    assert p.records == d2.records && p.endpoints == map[];
    assert !Enters(p, "one", "x");
  }

  // ---------------------------------------------------------------- an internal agent never expires

  /** Registering over a live record that has a time to live keeps that time, for hset does not
      clear it: exactly then the internal agent just registered is not listed for good. */
  lemma {:induction false} InternalStaysExactlyWhen(d: Db, ttl: int, a: Registration, newId: string, now: int)
    requires a.internal && (a.endpoint !in d.endpoints ==> newId !in d.records)
    ensures var r := RegisterIn(d, ttl, a, newId, now);
      (forall later: int :: now <= later ==> ListedAt(r.db, ttl, r.id, later))
      <==> !(a.endpoint in d.endpoints && r.id in d.records && d.records[r.id].expiry.Until?)
  {
    var r := RegisterIn(d, ttl, a, newId, now);
    var expiry := r.db.records[r.id].expiry;
    if expiry.Until? {
      var later := if expiry.at < now then now else expiry.at;
      assert !ListedAt(r.db, ttl, r.id, later);
    }
  }

  ghost predicate ListedAt(d: Db, ttl: int, id: string, now: int) { id in ListIn(Purge(d, now), ttl, now) }

  /** In a reachable state that is when the endpoint's live record is an external agent's. */
  lemma {:induction false} InternalStaysUnlessExternalLives(c: Setting, d: Db, a: Registration, newId: string, now: nat)
    requires Inv(c, d, now) && a.internal && Unused(d, newId)
    ensures var r := RegisterIn(d, c.ttl, a, newId, now);
      (forall later: int :: now <= later ==> ListedAt(r.db, c.ttl, r.id, later))
      <==> !(a.endpoint in d.endpoints && r.id in d.records && !d.records[r.id].value.internal)
  {
    var r := RegisterIn(d, c.ttl, a, newId, now);
    InternalStaysExactlyWhen(d, c.ttl, a, newId, now);
    if r.id in d.records { assert RecordOk(c, r.id, d.records[r.id], now); }
  }

  // ---------------------------------------------------------------- heartbeats of internal agents

  /** After a heartbeat of `id` at `now` its endpoint is registered again at `at`, internal or external
      as before, and then `id` is found by a skill that its record does not declare. */
  ghost predicate FoundByOldSkill(c: Setting, d: Db, id: string, skill: string, now: nat, newId: string, at: nat,
        a: Registration)
    requires id in d.records
  {
    && now <= at && a.endpoint == d.records[id].value.endpoint && a.internal == d.records[id].value.internal
    && (!a.internal ==> forall i :: 0 <= i < |a.skills| ==> a.skills[i] in c.lent)
    && var r := RegisterIn(Purge(HeartbeatIn(d, c.ttl, id, now), at), c.ttl, a, newId, at).db;
       id in FindIn(r, c.ttl, skill, at) && id !in Declaring(r, c.ttl, skill, at)
  }

  /** In any reachable state: a heartbeat can leave behind a membership of a skill that the agent
      later gives up exactly when the agent is internal and is in the skill's set. */
  lemma {:induction false} HeartbeatLeavesMembershipExactlyWhen(c: Setting, d: Db, id: string, skill: string, now: nat,
        newId: string)
    requires c.ttl > 0 && Inv(c, d, now) && Unused(d, newId)
    requires id in d.records
    ensures (exists at: nat, a :: FoundByOldSkill(c, d, id, skill, now, newId, at, a))
       <==> d.records[id].value.internal && Has(d.skills, skill, id)
  {
    hide Inv, Unused, RegisterIn, HeartbeatIn, FindIn, Has;
    if d.records[id].value.internal {
      if Has(d.skills, skill, id) {
        LeftBehind(c, d, id, skill, now, newId);
      } else {
        forall at: nat, a ensures !FoundByOldSkill(c, d, id, skill, now, newId, at, a) {
          NeverMember(c, d, id, skill, now, newId, at, a);
        }
      }
    } else {
      forall at: nat, a ensures !FoundByOldSkill(c, d, id, skill, now, newId, at, a) {
        ExternalLeavesNone(c, d, id, skill, now, newId, at, a);
      }
    }
  }

  lemma {:induction false} HeartbeatSkills(d: Db, ttl: int, id: string, now: nat, s: string)
    requires id in d.records
    ensures var (r, skills) := (HeartbeatIn(d, ttl, id, now), d.records[id].value.skills);
      && (s in r.skills <==> s in d.skills)
      && (s in d.skills ==> r.skills[s] == if s in skills then d.skills[s].(expiry := Until(now + 2 * ttl))
          else d.skills[s])
      && r.endpoints == d.endpoints
      && r.records == d.records[id := Keyed(d.records[id].value.(lastHeartbeat := now), Until(now + ttl))]
  {
    var skills := d.records[id].value.skills;
    RefreshedIn(d.skills, skills, now + 2 * ttl, |skills|, s);
    AmongAll(skills, s);
  }

  /** The witness: the record expires, the endpoint's entry does not, and the membership lives on. */
  lemma {:induction false} LeftBehind(c: Setting, d: Db, id: string, skill: string, now: nat, newId: string)
    requires c.ttl > 0 && Inv(c, d, now)
    requires id in d.records && Has(d.skills, skill, id)
    requires d.records[id].value.internal
    ensures exists at: nat, a :: FoundByOldSkill(c, d, id, skill, now, newId, at, a)
  {
    var endpoint := d.records[id].value.endpoint;
    var a := Registration("", endpoint, [], true);
    var at := now + c.ttl;
    HeartbeatSkills(d, c.ttl, id, now, skill);
    assert RecordOk(c, id, d.records[id], now) && Enters(d, endpoint, id) && EntryOk(c, d, endpoint);
    var p := Purge(HeartbeatIn(d, c.ttl, id, now), at);
    assert id !in p.records && endpoint in p.endpoints && Has(p.skills, skill, id);
    var r := RegisterIn(p, c.ttl, a, newId, at).db;
    RegisteredEntries(p, c.ttl, a, newId, at);
    assert r.skills == p.skills;
    assert FoundByOldSkill(c, d, id, skill, now, newId, at, a);
  }

  lemma {:induction false} NeverMember(c: Setting, d: Db, id: string, skill: string, now: nat, newId: string, at: nat,
        a: Registration)
    requires id in d.records && !Has(d.skills, skill, id)
    ensures !FoundByOldSkill(c, d, id, skill, now, newId, at, a)
  {
    HeartbeatSkills(d, c.ttl, id, now, skill);
    var p := Purge(HeartbeatIn(d, c.ttl, id, now), at);
    assert !Has(p.skills, skill, id);
    var r := RegisterIn(p, c.ttl, a, newId, at);
    var old' := if a.endpoint in p.endpoints && r.id in p.records then p.records[r.id].value.skills else [];
    RemovedFrom(p.skills, old', r.id, |old'|, skill, id);
    var lasting := if a.internal then Never else Until(at + 2 * c.ttl);
    AddedTo(RemoveAll(p.skills, old', r.id, |old'|), a.skills, r.id, lasting, |a.skills|, skill, id);
    AmongAll(a.skills, skill);
    assert Has(r.db.skills, skill, id) ==> id == r.id && skill in a.skills;
    RegisteredEntries(p, c.ttl, a, newId, at);
  }

  lemma {:induction false} ExternalLeavesNone(c: Setting, d: Db, id: string, skill: string, now: nat, newId: string,
        at: nat, a: Registration)
    requires c.ttl > 0 && Inv(c, d, now) && Unused(d, newId) && id in d.records && !d.records[id].value.internal
    ensures !FoundByOldSkill(c, d, id, skill, now, newId, at, a)
  {
    var endpoint := d.records[id].value.endpoint;
    assert RecordOk(c, id, d.records[id], now);
    if now <= at && a.endpoint == endpoint && !a.internal &&
        (forall i :: 0 <= i < |a.skills| ==> a.skills[i] in c.lent) {
      var h := HeartbeatIn(d, c.ttl, id, now);
      var p := Purge(h, at);
      HeartbeatKeeps(c, d, id, now);
      PurgeKeeps(c, h, now, at);
      StillUnused(d, c.ttl, id, now, newId, at);
      RegisterKeeps(c, p, a, newId, at);
      FoundIfMember(c, RegisterIn(p, c.ttl, a, newId, at).db, at, skill);
    }
  }

  lemma {:induction false} StillUnused(d: Db, ttl: int, id: string, now: nat, newId: string, at: nat)
    requires id in d.records && Unused(d, newId)
    ensures Unused(Purge(HeartbeatIn(d, ttl, id, now), at), newId)
  {
    forall s ensures !Has(Purge(HeartbeatIn(d, ttl, id, now), at).skills, s, newId) {
      HeartbeatSkills(d, ttl, id, now, s);
      assert !Has(d.skills, s, newId);
    }
    HeartbeatSkills(d, ttl, id, now, "");
  }
}
