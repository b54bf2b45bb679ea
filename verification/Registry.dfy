/**
 The Redis-backed agent registry of src/registry/registry.py.

 Three kinds of keys, each with its own time to live: an agent's record, the index from
 endpoint to agent id, and one set of agent ids per skill.  Each operation is atomic.
 */
module Registering {

  datatype Record = Record(id: string, name: string, endpoint: string, skills: seq<string>,
                           registeredAt: int, lastHeartbeat: int, internal: bool)

  datatype Expiry = Never | Until(at: int)

  datatype Keyed<V> = Keyed(value: V, expiry: Expiry)

  type Records = map<string, Keyed<Record>>
  type Index = map<string, Keyed<string>>
  type SkillSets = map<string, Keyed<set<string>>>

  datatype Db = Db(records: Records, endpoints: Index, skills: SkillSets)

  // ---------------------------------------------------------------- Redis

  predicate Live(e: Expiry, now: int) { e.Never? || now < e.at }

  /** What Redis still holds: a key is gone from the moment its expiry is reached. */
  function Purge(db: Db, now: int): Db {
    Db(map k | k in db.records && Live(db.records[k].expiry, now) :: db.records[k],
       map k | k in db.endpoints && Live(db.endpoints[k].expiry, now) :: db.endpoints[k],
       map k | k in db.skills && Live(db.skills[k].expiry, now) :: db.skills[k])
  }

  /** SREM: a set that becomes empty is deleted with its time to live. */
  function SRem(m: SkillSets, skill: string, id: string): SkillSets {
    if skill !in m then m
    else if m[skill].value - {id} == {} then m - {skill}
    else m[skill := m[skill].(value := m[skill].value - {id})]
  }

  /** SADD: an existing set keeps its time to live. */
  function SAdd(m: SkillSets, skill: string, id: string): SkillSets {
    if skill in m then m[skill := m[skill].(value := m[skill].value + {id})]
    else m[skill := Keyed({id}, Never)]
  }

  /** EXPIRE of a set, which does nothing to a missing key. */
  function Expire(m: SkillSets, skill: string, at: int): SkillSets {
    if skill in m then m[skill := m[skill].(expiry := Until(at))] else m
  }

  /** SREM for each of the first `n` skills. */
  function RemoveAll(m: SkillSets, skills: seq<string>, id: string, n: nat): SkillSets
    requires n <= |skills|
  {
    if n == 0 then m else SRem(RemoveAll(m, skills, id, n - 1), skills[n - 1], id)
  }

  /** SADD for each of the first `n` skills, each followed by EXPIRE unless the agent is internal. */
  function AddAll(m: SkillSets, skills: seq<string>, id: string, expiry: Expiry, n: nat): SkillSets
    requires n <= |skills|
  {
    if n == 0 then m
    else
      var added := SAdd(AddAll(m, skills, id, expiry, n - 1), skills[n - 1], id);
      if expiry.Never? then added else Expire(added, skills[n - 1], expiry.at)
  }

  function RefreshAll(m: SkillSets, skills: seq<string>, at: int, n: nat): SkillSets
    requires n <= |skills|
  {
    if n == 0 then m else Expire(RefreshAll(m, skills, at, n - 1), skills[n - 1], at)
  }

  // ---------------------------------------------------------------- operations on what Redis holds

  datatype Registration = Registration(name: string, endpoint: string, skills: seq<string>, internal: bool)

  datatype Registered = Registered(db: Db, id: string)

  function RegisterIn(d: Db, ttl: int, a: Registration, newId: string, now: int): Registered {
    var known := a.endpoint in d.endpoints;
    var id := if known then d.endpoints[a.endpoint].value else newId;
    var record := Record(id, a.name, a.endpoint, a.skills, now, now, a.internal);
    var recordExpiry := if !a.internal then Until(now + ttl) else if id in d.records then d.records[id].expiry
        else Never;
    var old' := if known && id in d.records then d.records[id].value.skills else [];
    var cleared := RemoveAll(d.skills, old', id, |old'|);
    Registered(Db(d.records[id := Keyed(record, recordExpiry)],
                  d.endpoints[a.endpoint := Keyed(id, if a.internal then Never else Until(now + ttl))],
                  AddAll(cleared, a.skills, id, if a.internal then Never else Until(now + 2 * ttl), |a.skills|)),
               id)
  }

  function HeartbeatIn(d: Db, ttl: int, id: string, now: int): Db {
    if id !in d.records then d
    else
      var r := d.records[id].value.(lastHeartbeat := now);
      d.(records := d.records[id := Keyed(r, Until(now + ttl))],
         skills := RefreshAll(d.skills, r.skills, now + 2 * ttl, |r.skills|))
  }

  function DeregisterIn(d: Db, id: string): Db {
    var skills := if id in d.records then d.records[id].value.skills else [];
    d.(records := d.records - {id}, skills := RemoveAll(d.skills, skills, id, |skills|))
  }

  function IsOnline(r: Record, ttl: int, now: int): bool {
    r.internal || now - (if r.lastHeartbeat != 0 then r.lastHeartbeat else r.registeredAt) < 2 * ttl
  }

  /** list_agents() with online_only: the online records by id. */
  function ListIn(d: Db, ttl: int, now: int): map<string, Record> {
    map id | id in d.records && IsOnline(d.records[id].value, ttl, now) :: d.records[id].value
  }

  function Members(d: Db, skill: string): set<string> {
    if skill in d.skills then d.skills[skill].value else {}
  }

  /** find_by_skill(skill) with online_only */
  function FindIn(d: Db, ttl: int, skill: string, now: int): map<string, Record> {
    map id | id in Members(d, skill) && id in d.records && IsOnline(d.records[id].value, ttl, now) ::
      d.records[id].value
  }

  /** list_agents(online_only=False) and find_by_skill(skill, online_only=False) */
  function HeldIn(d: Db): map<string, Record> { map id | id in d.records :: d.records[id].value }

  function HeldWith(d: Db, skill: string): map<string, Record> {
    map id | id in Members(d, skill) && id in d.records :: d.records[id].value
  }

  function Stale(d: Db, ttl: int, now: int): set<string> {
    set id | id in d.records && !IsOnline(d.records[id].value, ttl, now)
  }

  /** Members of the skill's set that have no record. */
  function Orphans(records: Records, m: SkillSets, skill: string): set<string>
    requires skill in m
  {
    m[skill].value - records.Keys
  }

  /** A set that loses its last member is deleted. */
  predicate Survives(records: Records, m: SkillSets, skill: string)
    requires skill in m
  {
    Orphans(records, m, skill) == {} || m[skill].value - Orphans(records, m, skill) != {}
  }

  /** The sets without their orphans, but for those in `todo`. */
  function Pruned(records: Records, m: SkillSets, todo: set<string>): SkillSets {
    map s | s in m && (s in todo || Survives(records, m, s)) ::
      if s in todo then m[s] else m[s].(value := m[s].value - Orphans(records, m, s))
  }

  function SweepIn(d: Db, ttl: int, now: int): Db {
    var records := d.records - Stale(d, ttl, now);
    d.(records := records, skills := Pruned(records, d.skills, {}))
  }

  /** All (skill, member) pairs whose member has no record, but for the skills in `todo`. */
  function OrphanPairs(records: Records, m: SkillSets, todo: set<string>): set<(string, string)> {
    set s, id | s in m.Keys - todo && id in Orphans(records, m, s) :: (s, id)
  }

  /** How many entries a sweep removes: stale records, then memberships without a record. */
  function SweptCount(d: Db, ttl: int, now: int): nat {
    |Stale(d, ttl, now)| + |OrphanPairs(d.records - Stale(d, ttl, now), d.skills, {})|
  }

  // ---------------------------------------------------------------- the registry itself

  class AgentRegistry {
    const ttl: int
    /** What was stored and not yet found expired. */
    var db: Db

    constructor (ttl: int)
      ensures this.ttl == ttl && db == Db(map[], map[], map[])
    {
      this.ttl := ttl;
      db := Db(map[], map[], map[]);
    }

    method Register(a: Registration, newId: string, now: int) returns (id: string)
      modifies this
      ensures Registered(db, id) == RegisterIn(Purge(old(db), now), ttl, a, newId, now)
    {
      db := Purge(db, now);
      ghost var was := db;
      var known := a.endpoint in db.endpoints;
      id := if known then db.endpoints[a.endpoint].value else newId;
      var old' := if known && id in db.records then db.records[id].value.skills else [];
      var expiry := if !a.internal then Until(now + ttl) else if id in db.records then db.records[id].expiry else Never;
      var record := Record(id, a.name, a.endpoint, a.skills, now, now, a.internal);
      db := db.(records := db.records[id := Keyed(record, expiry)],
                endpoints := db.endpoints[a.endpoint := Keyed(id, if a.internal then Never else Until(now + ttl))]);
      for i := 0 to |old'|
        invariant db == Db(db.records, db.endpoints, RemoveAll(was.skills, old', id, i))
        invariant db.records == RegisterIn(was, ttl, a, newId, now).db.records
        invariant db.endpoints == RegisterIn(was, ttl, a, newId, now).db.endpoints
      {
        db := db.(skills := SRem(db.skills, old'[i], id));
      }
      ghost var cleared := db.skills;
      ghost var lasting := if a.internal then Never else Until(now + 2 * ttl);
      for i := 0 to |a.skills|
        invariant db == Db(db.records, db.endpoints, AddAll(cleared, a.skills, id, lasting, i))
        invariant db.records == RegisterIn(was, ttl, a, newId, now).db.records
        invariant db.endpoints == RegisterIn(was, ttl, a, newId, now).db.endpoints
      {
        db := db.(skills := SAdd(db.skills, a.skills[i], id));
        if !a.internal {
          db := db.(skills := Expire(db.skills, a.skills[i], now + 2 * ttl));
        }
      }
    }

    method Heartbeat(id: string, now: int) returns (renewed: bool)
      modifies this
      ensures renewed == (id in Purge(old(db), now).records)
      ensures db == HeartbeatIn(Purge(old(db), now), ttl, id, now)
    {
      db := Purge(db, now);
      ghost var was := db;
      if id !in db.records {
        return false;
      }
      var r := db.records[id].value.(lastHeartbeat := now);
      db := db.(records := db.records[id := Keyed(r, Until(now + ttl))]);
      for i := 0 to |r.skills|
        invariant db == HeartbeatIn(was, ttl, id, now).(skills := RefreshAll(was.skills, r.skills, now + 2 * ttl, i))
      {
        db := db.(skills := Expire(db.skills, r.skills[i], now + 2 * ttl));
      }
      return true;
    }

    method Deregister(id: string, now: int)
      modifies this
      ensures db == DeregisterIn(Purge(old(db), now), id)
    {
      db := Purge(db, now);
      ghost var was := db;
      var skills := if id in db.records then db.records[id].value.skills else [];
      db := db.(records := db.records - {id});
      for i := 0 to |skills|
        invariant db == Db(was.records - {id}, was.endpoints, RemoveAll(was.skills, skills, id, i))
      {
        db := db.(skills := SRem(db.skills, skills[i], id));
      }
    }

    /** The records whose key Redis lists, less those not online if only online ones are asked for. */
    method ListAgents(onlineOnly: bool, now: int) returns (agents: map<string, Record>)
      modifies this
      ensures db == Purge(old(db), now)
      ensures agents == if onlineOnly then ListIn(db, ttl, now) else HeldIn(db)
    {
      db := Purge(db, now);
      agents := map[];
      var todo := db.records.Keys;
      while todo != {}
        invariant todo <= db.records.Keys
        invariant agents == map id | id in db.records.Keys - todo &&
            (onlineOnly ==> IsOnline(db.records[id].value, ttl, now)) :: db.records[id].value
      {
        var id :| id in todo;
        todo := todo - {id};
        if onlineOnly && !IsOnline(db.records[id].value, ttl, now) {
          continue;
        }
        agents := agents[id := db.records[id].value];
      }
    }

    method FindBySkill(skill: string, onlineOnly: bool, now: int) returns (agents: map<string, Record>)
      modifies this
      ensures db == Purge(old(db), now)
      ensures agents == if onlineOnly then FindIn(db, ttl, skill, now) else HeldWith(db, skill)
    {
      db := Purge(db, now);
      agents := map[];
      var todo := Members(db, skill);
      while todo != {}
        invariant todo <= Members(db, skill)
        invariant agents == map id | id in Members(db, skill) - todo && id in db.records &&
                                     (onlineOnly ==> IsOnline(db.records[id].value, ttl, now)) :: db.records[id].value
      {
        var id :| id in todo;
        todo := todo - {id};
        if id !in db.records || (onlineOnly && !IsOnline(db.records[id].value, ttl, now)) {
          continue;
        }
        agents := agents[id := db.records[id].value];
      }
    }

    method HealthSweep(now: int) returns (swept: nat)
      modifies this
      ensures db == SweepIn(Purge(old(db), now), ttl, now)
      ensures swept == SweptCount(Purge(old(db), now), ttl, now)
    {
      hide Survives, Pruned, Orphans, OrphanPairs;
      db := Purge(db, now);
      var stale: set<string> := {};
      var keys := db.records.Keys;
      while keys != {}
        invariant keys <= db.records.Keys && stale == Stale(db, ttl, now) - keys
      {
        var id :| id in keys;
        keys := keys - {id};
        if !IsOnline(db.records[id].value, ttl, now) {
          stale := stale + {id};
        }
      }
      db := db.(records := db.records - stale);
      var orphans := PruneOrphans();
      swept := |stale| + orphans;
    }

    /** The sweep's second half: the members that have no record go. */
    method PruneOrphans() returns (swept: nat)
      modifies this
      ensures db == old(db).(skills := Pruned(old(db).records, old(db).skills, {}))
      ensures swept == |OrphanPairs(old(db).records, old(db).skills, {})|
    {
      hide Survives, Pruned, OrphanPairs;
      ghost var was := db;
      PruneNone(was.records, was.skills);
      swept := 0;
      var todo := db.skills.Keys;
      while todo != {}
        invariant todo <= was.skills.Keys
        invariant db == was.(skills := Pruned(was.records, was.skills, todo))
        invariant swept == |OrphanPairs(was.records, was.skills, todo)|
      {
        var skill :| skill in todo;
        CountOrphans(was.records, was.skills, todo, skill);
        PruneOne(was.records, was.skills, todo, skill);
        todo := todo - {skill};
        var gone := db.skills[skill].value - db.records.Keys;
        swept := swept + |gone|;
        if gone != {} {
          var kept := db.skills[skill].value - gone;
          db := db.(skills := if kept == {} then db.skills - {skill}
            else db.skills[skill := db.skills[skill].(value := kept)]);
        }
      }
    }
  }

  lemma {:induction false} PruneNone(records: Records, m: SkillSets)
    ensures Pruned(records, m, m.Keys) == m && OrphanPairs(records, m, m.Keys) == {}
  {
  }

  lemma {:induction false} PruneOne(records: Records, m: SkillSets, todo: set<string>, skill: string)
    requires skill in todo && skill in m
    ensures var p := Pruned(records, m, todo); var gone := Orphans(records, m, skill);
      skill in p && p[skill] == m[skill] &&
      Pruned(records, m, todo - {skill}) ==
        if gone == {} then p
        else if m[skill].value - gone == {} then p - {skill}
        else p[skill := m[skill].(value := m[skill].value - gone)]
  {
    var p, q, gone := Pruned(records, m, todo), Pruned(records, m, todo - {skill}), Orphans(records, m, skill);
    if gone == {} {
      assert m[skill].value - gone == m[skill].value;
    }
    forall s | s != skill ensures (s in p <==> s in q) && (s in p ==> p[s] == q[s]) {
    }
  }

  lemma PairsWith(skill: string, ids: set<string>)
    ensures |set id | id in ids :: (skill, id)| == |ids|
    decreases ids
  {
    if ids == {} {
    } else {
      var one :| one in ids;
      PairsWith(skill, ids - {one});
      assert (set id | id in ids :: (skill, id)) == (set id | id in ids - {one} :: (skill, id)) + {(skill, one)};
    }
  }

  /** Doing one more skill adds as many pairs as its set has orphans. */
  lemma {:induction false} CountOrphans(records: Records, m: SkillSets, todo: set<string>, skill: string)
    requires skill in todo && skill in m
    ensures |OrphanPairs(records, m, todo - {skill})|
         == |OrphanPairs(records, m, todo)| + |Orphans(records, m, skill)|
  {
    var gone := Orphans(records, m, skill);
    var more := set id | id in gone :: (skill, id);
    PairsWith(skill, gone);
    var before, after := OrphanPairs(records, m, todo), OrphanPairs(records, m, todo - {skill});
    assert before !! more;
    assert more <= after;
    assert before <= after;
    forall p | p in after ensures p in before + more {
      var (s, id) := p;
      if s == skill { assert p in more; } else { assert p in before; }
    }
    assert after == before + more;
  }
}
