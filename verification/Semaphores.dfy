/**
 Concurrency caps: a tenant's orchestrations under its lazily made semaphore (src/api/routes.py)
 and, with one semaphore made beforehand, backend invocations under the dispatcher's
 (src/dispatcher/dispatcher.py).
 */
module Semaphores {
  import opened Wrappers

  class Semaphore {
    const limit: nat
    var value: nat

    constructor (limit: nat)
      ensures this.limit == limit && value == limit
    {
      this.limit, value := limit, limit;
    }
  }

  class TenantLimits {
    var semaphores: map<string, Semaphore>

    /** Tenants never share a semaphore. */
    ghost predicate Valid()
      reads this
    {
      forall t, u :: t in semaphores && u in semaphores && t != u ==> semaphores[t] != semaphores[u]
    }

    constructor ()
      ensures Valid() && semaphores == map[]
    {
      semaphores := map[];
    }

    /** Not interleaved with other callers: the tenant's semaphore, made on first use. */
    method GetTenantSemaphore(tenant: string, limit: nat) returns (sem: Semaphore)
      requires Valid()
      modifies this
      ensures Valid() && semaphores == old(semaphores)[tenant := sem]
      ensures if tenant in old(semaphores) then sem == old(semaphores)[tenant]
              else fresh(sem) && sem.limit == limit && sem.value == limit
    {
      if tenant in semaphores {
        return semaphores[tenant];
      }
      // double check under the lock
      if tenant !in semaphores {
        sem := new Semaphore(limit);
        semaphores := semaphores[tenant := sem];
      }
      return semaphores[tenant];
    }
  }

  // ---------------------------------------------------------------- interleaved callers

  /** A caller: looks for its semaphore, waits for the dict lock, has its semaphore, waits for a
      permit, was handed one, runs, is over. */
  datatype Pc = Start | WantsLock | Has(sem: nat) | Waiting(sem: nat) | Granted(sem: nat) | Running(sem: nat) | Over

  /** A semaphore by its number: its permits left and its limit. */
  datatype Permits = Permits(value: nat, limit: nat)

  datatype World = World(semaphores: map<string, nat>, permits: seq<Permits>, pcs: seq<Pc>)

  datatype Kind =
    | LookUp | UnderLock | Acquire | Grant | Resume
    | Finish  // returns, fails or times out
    | Cancel

  function Give(w: World, sem: nat): World
    requires sem < |w.permits|
  {
    w.(permits := w.permits[sem := w.permits[sem].(value := w.permits[sem].value + 1)])
  }

  function Take(w: World, sem: nat): World
    requires sem < |w.permits| && w.permits[sem].value > 0
  {
    w.(permits := w.permits[sem := w.permits[sem].(value := w.permits[sem].value - 1)])
  }

  function Goes(w: World, c: nat, pc: Pc): World
    requires c < |w.pcs|
  {
    w.(pcs := w.pcs[c := pc])
  }

  predicate Free(w: World, sem: nat) { sem < |w.permits| && w.permits[sem].value > 0 }

  /** A caller that was handed a permit stands in the queue until it resumes. */
  predicate SomeoneWaits(w: World, sem: nat) {
    exists c :: 0 <= c < |w.pcs| && (w.pcs[c] == Waiting(sem) || w.pcs[c] == Granted(sem))
  }

  /** Caller `c`, of the given tenant, takes its next step; None when it cannot. */
  function Move(tenants: seq<string>, limit: nat, w: World, c: nat, kind: Kind): Option<World>
    requires |w.pcs| == |tenants| && c < |tenants|
  {
    var t := tenants[c];
    match (kind, w.pcs[c])
    case (LookUp, Start) => Some(Goes(w, c, if t in w.semaphores then Has(w.semaphores[t]) else WantsLock))
    case (UnderLock, WantsLock) =>
      if t in w.semaphores then Some(Goes(w, c, Has(w.semaphores[t])))
      else
        var made := w.(semaphores := w.semaphores[t := |w.permits|], permits := w.permits + [Permits(limit, limit)]);
        Some(Goes(made, c, Has(|w.permits|)))
    case (Acquire, Has(sem)) =>
      if Free(w, sem) && !SomeoneWaits(w, sem) then Some(Goes(Take(w, sem), c, Running(sem)))
      else Some(Goes(w, c, Waiting(sem)))
    case (Grant, Waiting(sem)) => if Free(w, sem) then Some(Goes(Take(w, sem), c, Granted(sem))) else None
    case (Resume, Granted(sem)) => Some(Goes(w, c, Running(sem)))
    case (Finish, Running(sem)) => if sem < |w.permits| then Some(Goes(Give(w, sem), c, Over)) else None
    case (Cancel, Over) => None
    case (Cancel, Granted(sem)) => if sem < |w.permits| then Some(Goes(Give(w, sem), c, Over)) else None
    case (Cancel, Running(sem)) => if sem < |w.permits| then Some(Goes(Give(w, sem), c, Over)) else None
    case (Cancel, _) => Some(Goes(w, c, Over))
    case _ => None
  }

  ghost predicate Next(tenants: seq<string>, limit: nat, w: World, v: World) {
    |w.pcs| == |tenants| && exists c: nat, kind :: c < |tenants| && Move(tenants, limit, w, c, kind) == Some(v)
  }

  /** Some semaphores may exist already, with all their permits. */
  ghost predicate Init(tenants: seq<string>, w: World) {
    && |w.pcs| == |tenants| && (forall c :: 0 <= c < |tenants| ==> w.pcs[c] == Start)
    && (forall t :: t in w.semaphores ==> w.semaphores[t] < |w.permits|)
    && (forall t, u :: t in w.semaphores && u in w.semaphores && t != u ==> w.semaphores[t] != w.semaphores[u])
    && (forall s :: 0 <= s < |w.permits| ==> w.permits[s].value == w.permits[s].limit)
  }

  ghost predicate StepAt(tenants: seq<string>, limit: nat, ws: seq<World>, i: nat) {
    i + 1 < |ws| ==> Next(tenants, limit, ws[i], ws[i + 1])
  }

  ghost predicate IsRun(tenants: seq<string>, limit: nat, ws: seq<World>) {
    |ws| > 0 && Init(tenants, ws[0]) && forall i: nat :: StepAt(tenants, limit, ws, i)
  }

  // ---------------------------------------------------------------- permits and holders

  predicate Holds(pc: Pc, sem: nat) { pc == Granted(sem) || pc == Running(sem) }

  /** How many of the first `n` callers hold a permit of the semaphore. */
  function Holders(pcs: seq<Pc>, sem: nat, n: nat): nat
    requires n <= |pcs|
  {
    if n == 0 then 0 else Holders(pcs, sem, n - 1) + (if Holds(pcs[n - 1], sem) then 1 else 0)
  }

  lemma {:induction false} HoldersMoved(pcs: seq<Pc>, c: nat, pc: Pc, sem: nat, n: nat)
    requires c < |pcs| && n <= |pcs|
    ensures Holders(pcs[c := pc], sem, n) + (if c < n && Holds(pcs[c], sem) then 1 else 0)
         == Holders(pcs, sem, n) + (if c < n && Holds(pc, sem) then 1 else 0)
  {
    if n == 0 {
    } else {
      HoldersMoved(pcs, c, pc, sem, n - 1);
    }
  }

  lemma {:induction false} NoHolders(pcs: seq<Pc>, sem: nat, n: nat)
    requires n <= |pcs| && forall c :: 0 <= c < n ==> !Holds(pcs[c], sem)
    ensures Holders(pcs, sem, n) == 0
  {
    if n == 0 {
    } else {
      NoHolders(pcs, sem, n - 1);
    }
  }

  predicate Knows(pc: Pc) { pc.Has? || pc.Waiting? || pc.Granted? || pc.Running? }

  predicate KnowsOwn(w: World, tenant: string, pc: Pc) {
    Knows(pc) ==> tenant in w.semaphores && w.semaphores[tenant] == pc.sem
  }

  ghost predicate Balanced(w: World, sem: nat)
    requires sem < |w.permits|
  {
    w.permits[sem].value + Holders(w.pcs, sem, |w.pcs|) == w.permits[sem].limit
  }

  ghost predicate Inv(tenants: seq<string>, w: World) {
    && |w.pcs| == |tenants|
    && (forall t :: t in w.semaphores ==> w.semaphores[t] < |w.permits|)
    && (forall t, u :: t in w.semaphores && u in w.semaphores && t != u ==> w.semaphores[t] != w.semaphores[u])
    && (forall c :: 0 <= c < |tenants| ==> KnowsOwn(w, tenants[c], w.pcs[c]))
    && (forall s: nat :: s < |w.permits| ==> Balanced(w, s))
  }

  function Units(pc: Pc, sem: nat): nat { if Holds(pc, sem) then 1 else 0 }

  /** What a step does to the semaphores and to the caller's hold of them. */
  lemma {:induction false} MoveEffect(tenants: seq<string>, limit: nat, w: World, c: nat, kind: Kind, s: nat)
    requires Inv(tenants, w) && c < |tenants| && Move(tenants, limit, w, c, kind).Some?
    ensures var v := Move(tenants, limit, w, c, kind).value;
      && |v.pcs| == |w.pcs| && v.pcs == w.pcs[c := v.pcs[c]] && |w.permits| <= |v.permits|
      && (s < |w.permits| ==> v.permits[s].limit == w.permits[s].limit)
      && (s < |w.permits| ==> v.permits[s].value + Units(v.pcs[c], s) == w.permits[s].value + Units(w.pcs[c], s))
      && (|w.permits| <= s < |v.permits| ==> v.permits[s] == Permits(limit, limit) && !Holds(v.pcs[c], s))
  {
    hide Holders, SomeoneWaits;
  }

  lemma {:induction false} MoveKeepsOwn(tenants: seq<string>, limit: nat, w: World, c: nat, kind: Kind)
    requires Inv(tenants, w) && c < |tenants| && Move(tenants, limit, w, c, kind).Some?
    ensures var v := Move(tenants, limit, w, c, kind).value;
      && |v.pcs| == |tenants|
      && (forall t :: t in v.semaphores ==> v.semaphores[t] < |v.permits|)
      && (forall t, u :: t in v.semaphores && u in v.semaphores && t != u ==> v.semaphores[t] != v.semaphores[u])
      && (forall d :: 0 <= d < |tenants| ==> KnowsOwn(v, tenants[d], v.pcs[d]))
  {
    hide Holders, SomeoneWaits, Balanced;
    var v := Move(tenants, limit, w, c, kind).value;
    forall d | 0 <= d < |tenants| ensures KnowsOwn(v, tenants[d], v.pcs[d]) {
      assert KnowsOwn(w, tenants[d], w.pcs[d]);
      assert KnowsOwn(w, tenants[c], w.pcs[c]);
    }
  }

  lemma {:induction false} MoveKeeps(tenants: seq<string>, limit: nat, w: World, c: nat, kind: Kind)
    requires Inv(tenants, w) && c < |tenants| && Move(tenants, limit, w, c, kind).Some?
    ensures Inv(tenants, Move(tenants, limit, w, c, kind).value)
  {
    var v := Move(tenants, limit, w, c, kind).value;
    MoveKeepsOwn(tenants, limit, w, c, kind);
    hide Move;
    forall s: nat | s < |v.permits| ensures Balanced(v, s) {
      MoveEffect(tenants, limit, w, c, kind, s);
      HoldersMoved(w.pcs, c, v.pcs[c], s, |w.pcs|);
      if s < |w.permits| {
        assert Balanced(w, s);
      } else {
        NewHasNoHolders(tenants, w, s);
      }
    }
  }

  lemma {:induction false} NewHasNoHolders(tenants: seq<string>, w: World, s: nat)
    requires Inv(tenants, w) && |w.permits| <= s
    ensures Holders(w.pcs, s, |w.pcs|) == 0 && forall c :: 0 <= c < |w.pcs| ==> !Holds(w.pcs[c], s)
  {
    forall c | 0 <= c < |w.pcs| ensures !Holds(w.pcs[c], s) {
      assert KnowsOwn(w, tenants[c], w.pcs[c]);
    }
    NoHolders(w.pcs, s, |w.pcs|);
  }

  lemma {:induction false} RunKeeps(tenants: seq<string>, limit: nat, ws: seq<World>, i: nat)
    requires IsRun(tenants, limit, ws) && i < |ws|
    ensures Inv(tenants, ws[i])
  {
    if i == 0 {
      forall s: nat | s < |ws[0].permits| ensures Balanced(ws[0], s) {
        NoHolders(ws[0].pcs, s, |ws[0].pcs|);
      }
    } else {
      RunKeeps(tenants, limit, ws, i - 1);
      assert StepAt(tenants, limit, ws, i - 1);
      var c: nat, kind :| c < |tenants| && Move(tenants, limit, ws[i - 1], c, kind) == Some(ws[i]);
      MoveKeeps(tenants, limit, ws[i - 1], c, kind);
    }
  }

  /** In every interleaving, racing first uses included, two callers of one tenant have the same
      semaphore and callers of different tenants never do. */
  lemma {:induction false} OneSemaphorePerTenant(tenants: seq<string>, limit: nat, ws: seq<World>, i: nat, c: nat,
        d: nat)
    requires IsRun(tenants, limit, ws) && i < |ws| && c < |tenants| && d < |tenants|
    requires c < |ws[i].pcs| && d < |ws[i].pcs| && Knows(ws[i].pcs[c]) && Knows(ws[i].pcs[d])
    ensures ws[i].pcs[c].sem == ws[i].pcs[d].sem <==> tenants[c] == tenants[d]
  {
    RunKeeps(tenants, limit, ws, i);
    assert KnowsOwn(ws[i], tenants[c], ws[i].pcs[c]) && KnowsOwn(ws[i], tenants[d], ws[i].pcs[d]);
  }

  /** How many of the first `n` callers are the tenant's and run. */
  function InFlight(tenants: seq<string>, pcs: seq<Pc>, tenant: string, n: nat): nat
    requires n <= |pcs| && |pcs| == |tenants|
  {
    if n == 0 then 0
    else InFlight(tenants, pcs, tenant, n - 1) + (if tenants[n - 1] == tenant && pcs[n - 1].Running? then 1 else 0)
  }

  lemma {:induction false} InFlightHold(tenants: seq<string>, w: World, tenant: string, n: nat)
    requires Inv(tenants, w) && tenant in w.semaphores && n <= |tenants|
    ensures InFlight(tenants, w.pcs, tenant, n) <= Holders(w.pcs, w.semaphores[tenant], n)
  {
    if n == 0 {
    } else {
      InFlightHold(tenants, w, tenant, n - 1);
      assert KnowsOwn(w, tenants[n - 1], w.pcs[n - 1]);
    }
  }

  /** A tenant with a semaphore: its permits left and its holders always add up to the limit, and
      no more of its callers run than that. */
  lemma {:induction false} PermitsAreConserved(tenants: seq<string>, limit: nat, ws: seq<World>, i: nat, tenant: string)
    requires IsRun(tenants, limit, ws) && i < |ws| && tenant in ws[i].semaphores
    ensures var (w, s) := (ws[i], ws[i].semaphores[tenant]);
      && |w.pcs| == |tenants| && s < |w.permits|
      && w.permits[s].value + Holders(w.pcs, s, |w.pcs|) == w.permits[s].limit
      && InFlight(tenants, w.pcs, tenant, |tenants|) <= w.permits[s].limit
  {
    RunKeeps(tenants, limit, ws, i);
    InFlightHold(tenants, ws[i], tenant, |tenants|);
    assert Balanced(ws[i], ws[i].semaphores[tenant]);
  }

  /** Every semaphore made during the run has the configured limit, those made before keep theirs. */
  lemma {:induction false} LimitsStay(tenants: seq<string>, limit: nat, ws: seq<World>, i: nat, s: nat)
    requires IsRun(tenants, limit, ws) && i < |ws| && s < |ws[i].permits|
    ensures ws[i].permits[s].limit == if s < |ws[0].permits| then ws[0].permits[s].limit else limit
    ensures |ws[0].permits| <= |ws[i].permits|
  {
    if i == 0 {
    } else {
      assert StepAt(tenants, limit, ws, i - 1);
      var c: nat, kind :| c < |tenants| && Move(tenants, limit, ws[i - 1], c, kind) == Some(ws[i]);
      LimitsGrow(tenants, limit, ws, i - 1);
      if s < |ws[i - 1].permits| { LimitsStay(tenants, limit, ws, i - 1, s); }
    }
  }

  lemma {:induction false} LimitsGrow(tenants: seq<string>, limit: nat, ws: seq<World>, i: nat)
    requires IsRun(tenants, limit, ws) && i < |ws|
    ensures |ws[0].permits| <= |ws[i].permits|
  {
    if i == 0 {
    } else {
      LimitsGrow(tenants, limit, ws, i - 1);
      assert StepAt(tenants, limit, ws, i - 1);
    }
  }

  /** Once all callers are over, every semaphore has all its permits back. */
  lemma {:induction false} AllPermitsComeBack(tenants: seq<string>, limit: nat, ws: seq<World>, i: nat, s: nat)
    requires IsRun(tenants, limit, ws) && i < |ws| && s < |ws[i].permits|
    requires forall c :: 0 <= c < |ws[i].pcs| ==> ws[i].pcs[c].Over?
    ensures ws[i].permits[s].value == ws[i].permits[s].limit
  {
    RunKeeps(tenants, limit, ws, i);
    NoHolders(ws[i].pcs, s, |ws[i].pcs|);
    assert Balanced(ws[i], s);
  }

  lemma {:induction false} SemaphoresStay(tenants: seq<string>, limit: nat, ws: seq<World>, i: nat, t: string)
    requires IsRun(tenants, limit, ws) && i < |ws|
    ensures if t in ws[0].semaphores then t in ws[i].semaphores && ws[i].semaphores[t] == ws[0].semaphores[t]
            else t in ws[i].semaphores ==> ws[i].semaphores[t] >= |ws[0].permits|
  {
    if i == 0 {
    } else {
      SemaphoresStay(tenants, limit, ws, i - 1, t);
      LimitsGrow(tenants, limit, ws, i - 1);
      assert StepAt(tenants, limit, ws, i - 1);
    }
  }

  lemma {:induction false} NoneInFlight(tenants: seq<string>, w: World, tenant: string, n: nat)
    requires Inv(tenants, w) && tenant !in w.semaphores && n <= |tenants|
    ensures InFlight(tenants, w.pcs, tenant, n) == 0
  {
    if n == 0 {
    } else {
      NoneInFlight(tenants, w, tenant, n - 1);
      assert KnowsOwn(w, tenants[n - 1], w.pcs[n - 1]);
    }
  }

  /** At every moment at most the limit of a tenant's callers run: the configured one, or that of the
      semaphore it had from the start, as all callers of the dispatcher have. */
  lemma {:induction false} CapHolds(tenants: seq<string>, limit: nat, ws: seq<World>, i: nat, tenant: string)
    requires IsRun(tenants, limit, ws) && i < |ws|
    ensures |ws[i].pcs| == |tenants|
    ensures InFlight(tenants, ws[i].pcs, tenant, |tenants|) <=
      if tenant in ws[0].semaphores then ws[0].permits[ws[0].semaphores[tenant]].limit else limit
  {
    RunKeeps(tenants, limit, ws, i);
    SemaphoresStay(tenants, limit, ws, i, tenant);
    if tenant in ws[i].semaphores {
      PermitsAreConserved(tenants, limit, ws, i, tenant);
      LimitsStay(tenants, limit, ws, i, ws[i].semaphores[tenant]);
    } else {
      NoneInFlight(tenants, ws[i], tenant, |tenants|);
    }
  }

  /** A free permit is not withheld: a caller that finds no one waiting runs at once, one that waits can be
      handed it, and one that was handed it can run. */
  lemma {:induction false} PermitsAreUsed(tenants: seq<string>, limit: nat, w: World, c: nat, sem: nat)
    requires |w.pcs| == |tenants| && c < |tenants| && Free(w, sem)
    ensures w.pcs[c] == Has(sem) && !SomeoneWaits(w, sem) ==>
      var v := Move(tenants, limit, w, c, Acquire); v.Some? && v.value.pcs[c] == Running(sem)
    ensures w.pcs[c] == Waiting(sem) ==>
      var v := Move(tenants, limit, w, c, Grant);
      && v.Some? && v.value.pcs[c] == Granted(sem)
      && (var u := Move(tenants, limit, v.value, c, Resume); u.Some? && u.value.pcs[c] == Running(sem))
  {
  }
}
