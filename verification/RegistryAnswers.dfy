/**
 What each registry operation does to the answers of list_agents and find_by_skill, then and at every
 later clock reading (src/registry/registry.py).
 */
module RegistryAnswers {
  import opened Registering
  import opened RegistryRuns

  // ---------------------------------------------------------------- deregister

  /** On any contents, at any later time: the agent is out of both answers, for every skill, and everything
      else in them is as it would have been. */
  lemma {:induction false} DeregisterAnswers(d: Db, ttl: int, id: string, later: int, skill: string)
    ensures var (r, p) := (Purge(DeregisterIn(d, id), later), Purge(d, later));
      && ListIn(r, ttl, later) == ListIn(p, ttl, later) - {id}
      && FindIn(r, ttl, skill, later) == FindIn(p, ttl, skill, later) - {id}
  {
    hide RemoveAll;
    var skills := if id in d.records then d.records[id].value.skills else [];
    var (r, p) := (Purge(DeregisterIn(d, id), later), Purge(d, later));
    forall j | j != id ensures Has(r.skills, skill, j) <==> Has(p.skills, skill, j) {
      RemovedFrom(d.skills, skills, id, |skills|, skill, j);
    }
    forall j ensures j in Members(r, skill) <==> Has(r.skills, skill, j) {
    }
    forall j ensures j in Members(p, skill) <==> Has(p.skills, skill, j) {
    }
  }

  /** Step `i` of the run does not give the id to an agent. */
  ghost predicate NotGiven(ttl: int, es: seq<Event>, dbs: seq<Db>, id: string, i: nat)
    requires i < |es| && |dbs| == |es| + 1
  {
    es[i].op.Register? ==>
      RegisterIn(Purge(dbs[i], es[i].at), ttl, es[i].op.a, es[i].op.newId, es[i].at).id != id
  }

  /** Over whole runs: once deregistered, an agent is in neither answer at any time, for any skill, until it is
      registered again. */
  lemma {:induction false} DeregisteredStaysOut(c: Setting, es: seq<Event>, dbs: seq<Db>, id: string, i: nat, n: nat,
                                                later: int, skill: string)
    requires IsRun(c, es, dbs) && i < n <= |es| && es[i].op == Deregister(id)
    requires forall j: nat :: i < j < n ==> NotGiven(c.ttl, es, dbs, id, j)
    ensures var d := Purge(dbs[n], later);
      id !in HeldIn(d) && id !in ListIn(d, c.ttl, later)
      && id !in HeldWith(d, skill) && id !in FindIn(d, c.ttl, skill, later)
    decreases n
  {
    assert StepAt(c, es, dbs, n - 1);
    NoRecord(c, es, dbs, id, i, n);
  }

  lemma {:induction false} NoRecord(c: Setting, es: seq<Event>, dbs: seq<Db>, id: string, i: nat, n: nat)
    requires IsRun(c, es, dbs) && i < n <= |es| && es[i].op == Deregister(id)
    requires forall j: nat :: i < j < n ==> NotGiven(c.ttl, es, dbs, id, j)
    ensures id !in dbs[n].records
    decreases n
  {
    assert StepAt(c, es, dbs, n - 1);
    if n == i + 1 {
    } else {
      NoRecord(c, es, dbs, id, i, n - 1);
      assert NotGiven(c.ttl, es, dbs, id, n - 1);
      var e := es[n - 1];
      if e.op.Register? { RegisteredEntries(Purge(dbs[n - 1], e.at), c.ttl, e.op.a, e.op.newId, e.at); }
    }
  }

  // ---------------------------------------------------------------- register

  /** An external agent just registered, in a reachable state: it is listed with what it registered for one
      ttl and no longer, is found by exactly its skills all that time, and every other agent is listed as it
      would have been. */
  lemma {:induction false} RegisterAnswers(c: Setting, d: Db, a: Registration, newId: string, now: nat, later: int,
                                           skill: string, other: string)
    requires c.ttl > 0 && Inv(c, d, now) && Unused(d, newId) && now <= later
    requires !a.internal && a.endpoint !in c.declared && forall i :: 0 <= i < |a.skills| ==> a.skills[i] in c.lent
    ensures var (r, id) := (RegisterIn(d, c.ttl, a, newId, now).db, RegisterIn(d, c.ttl, a, newId, now).id);
      var (q, p) := (Purge(r, later), Purge(d, later));
      && (id in ListIn(q, c.ttl, later) <==> later < now + c.ttl)
      && (later < now + c.ttl ==>
            && ListIn(q, c.ttl, later)[id] == Record(id, a.name, a.endpoint, a.skills, now, now, false)
            && (id in FindIn(q, c.ttl, skill, later) <==> skill in a.skills))
      && (other != id ==> (other in ListIn(q, c.ttl, later) <==> other in ListIn(p, c.ttl, later)))
      && (other != id && other in ListIn(p, c.ttl, later) ==>
            ListIn(q, c.ttl, later)[other] == ListIn(p, c.ttl, later)[other])
  {
    var (r, id) := (RegisterIn(d, c.ttl, a, newId, now).db, RegisterIn(d, c.ttl, a, newId, now).id);
    RegisteredEntries(d, c.ttl, a, newId, now);
    assert r.records[id].expiry == Until(now + c.ttl);
    RegisterKeeps(c, d, a, newId, now);
    hide RegisterIn;
    PurgeKeeps(c, r, now, later);
    PurgeKeeps(c, d, now, later);
    FoundIfMember(c, Purge(r, later), later, skill);
    FoundIfMember(c, Purge(d, later), later, skill);
    hide Inv;
  }

  /** Internal or external, right after registering an agent is found by exactly its skills. */
  lemma {:induction false} FoundAtOnce(c: Setting, d: Db, a: Registration, newId: string, now: nat, skill: string)
    requires c.ttl > 0 && Inv(c, d, now) && Unused(d, newId)
    ensures var (r, id) := (RegisterIn(d, c.ttl, a, newId, now).db, RegisterIn(d, c.ttl, a, newId, now).id);
      id in FindIn(r, c.ttl, skill, now) <==> skill in a.skills
  {
    var (r, id) := (RegisterIn(d, c.ttl, a, newId, now).db, RegisterIn(d, c.ttl, a, newId, now).id);
    RegisteredEntries(d, c.ttl, a, newId, now);
    RegisteredSkills(c, d, a, newId, now, skill, id);
  }

  // ---------------------------------------------------------------- heartbeat

  /** A heartbeat of an external agent, in a reachable state: it is listed for another ttl and no longer, its
      record otherwise as it was, and found by exactly the skills it declares; every other external agent is
      in both answers exactly as before. */
  lemma {:induction false} HeartbeatAnswers(c: Setting, d: Db, id: string, now: nat, later: int, skill: string,
                                            other: string)
    requires c.ttl > 0 && Inv(c, d, now) && now <= later && id in d.records && !d.records[id].value.internal
    ensures var r := HeartbeatIn(d, c.ttl, id, now);
      var (q, p) := (Purge(r, later), Purge(d, later));
      && (id in ListIn(q, c.ttl, later) <==> later < now + c.ttl)
      && (later < now + c.ttl ==>
            && ListIn(q, c.ttl, later)[id] == d.records[id].value.(lastHeartbeat := now)
            && (id in FindIn(q, c.ttl, skill, later) <==> skill in d.records[id].value.skills))
      && (other != id ==> (other in ListIn(q, c.ttl, later) <==> other in ListIn(p, c.ttl, later)))
      && (other != id && other in d.records && !d.records[other].value.internal ==>
            (other in FindIn(q, c.ttl, skill, later) <==> other in FindIn(p, c.ttl, skill, later)))
  {
    var r := HeartbeatIn(d, c.ttl, id, now);
    HeartbeatSkills(d, c.ttl, id, now, skill);
    HeartbeatKeeps(c, d, id, now);
    hide HeartbeatIn;
    PurgeKeeps(c, r, now, later);
    PurgeKeeps(c, d, now, later);
    FoundIfMember(c, Purge(r, later), later, skill);
    FoundIfMember(c, Purge(d, later), later, skill);
    hide Inv;
  }

  /** A heartbeat of an unknown id changes nothing. */
  lemma {:induction false} UnknownHeartbeat(d: Db, ttl: int, id: string, now: int)
    requires id !in d.records
    ensures HeartbeatIn(d, ttl, id, now) == d
  {
  }

  // ---------------------------------------------------------------- sweep

  /** On any contents a sweep takes exactly the external agents whose last sign of life is two ttl old. */
  lemma {:induction false} SweepTakesExactly(d: Db, ttl: int, now: int, id: string)
    requires id in d.records
    ensures var rec := d.records[id].value;
      var sign := if rec.lastHeartbeat == 0 then rec.registeredAt else rec.lastHeartbeat;
      && (id in SweepIn(d, ttl, now).records <==> rec.internal || now < sign + 2 * ttl)
      && (id in SweepIn(d, ttl, now).records ==> SweepIn(d, ttl, now).records[id] == d.records[id])
  {
  }
}
