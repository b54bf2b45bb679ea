/**
 The warm container pool of src/container_pool/pool.py and the backend that leases from it
 (src/dispatcher/backends.py).

 Docker is an oracle: it says which containers run, and which id a new container gets.
 */
module ContainerPool {
  import opened Wrappers
  import opened Decimal
  import Poller

  datatype State = Idle | Busy | Dead

  datatype Slot = Slot(id: string, name: string, port: int, configFile: string,
                       state: State, task: Option<string>, role: Option<string>, uses: nat)

  // ---------------------------------------------------------------- names, ports, config files

  function NameOf(index: nat): string { "swarm-worker-" + PrintNat(index) }

  function ConfigOf(dir: string, index: nat): string { dir + "/container-" + PrintNat(index) + "-config.json" }

  /** name.split("-")[-1] */
  function LastPart(name: string): string {
    if |name| > 0 && name[|name| - 1] != '-' then LastPart(name[..|name| - 1]) + [name[|name| - 1]] else ""
  }

  /** int() of the last part; None where Python raises. */
  function IndexOf(name: string): Option<nat> { ParseNat(LastPart(name)) }

  lemma {:induction false} LastPartOf(x: string, t: string)
    requires forall i :: 0 <= i < |t| ==> t[i] != '-'
    ensures LastPart(x + "-" + t) == t
  {
    var s := x + "-" + t;
    if t == [] {
    } else {
      var u := t[..|t| - 1];
      LastPartOf(x, u);
      assert s[..|s| - 1] == x + "-" + u;
    }
  }

  /** The index parsed back from a container's name is the one printed into it. */
  lemma {:induction false} IndexRoundTrip(index: nat)
    ensures IndexOf(NameOf(index)) == Some(index)
  {
    assert NameOf(index) == "swarm-worker" + "-" + PrintNat(index);
    LastPartOf("swarm-worker", PrintNat(index));
    ParsePrint(index);
  }

  lemma {:induction false} ConfigFilesDiffer(dir: string, i: nat, j: nat)
    requires ConfigOf(dir, i) == ConfigOf(dir, j)
    ensures i == j
  {
    var tail := "-config.json";
    var head := dir + "/container-";
    var p, q := PrintNat(i), PrintNat(j);
    assert head + p + tail == head + q + tail;
    assert |p| == |q|;
    assert p == (head + p + tail)[|head|..|head| + |p|];
    assert q == (head + q + tail)[|head|..|head| + |q|];
    ParsePrint(i);
    ParsePrint(j);
  }

  // ---------------------------------------------------------------- what the operations do

  datatype Setup = Setup(maxUses: int, basePort: int, configDir: string)

  /** A new container with the given index, once Docker has named its id. */
  function Spawned(c: Setup, index: nat, id: string): Slot {
    Slot(id, NameOf(index), c.basePort + index, ConfigOf(c.configDir, index), Idle, None, None, 0)
  }

  /** The startup loop's first `n` rounds; Docker may fail to start some of them. */
  function Started(c: Setup, docker: nat -> Option<string>, n: nat): seq<Slot> {
    if n == 0 then []
    else Started(c, docker, n - 1) + (if docker(n - 1).Some? then [Spawned(c, n - 1, docker(n - 1).value)] else [])
  }

  function Taken(slot: Slot, role: string, task: string): Slot {
    slot.(state := Busy, task := Some(task), role := Some(role), uses := slot.uses + 1)
  }

  lemma {:induction false} StartedSteps(c: Setup, docker: nat -> Option<string>)
    ensures Started(c, docker, 0) == []
  {
  }

  lemma {:induction false} StartedNext(c: Setup, docker: nat -> Option<string>, n: nat)
    ensures Started(c, docker, n + 1)
         == Started(c, docker, n) + if docker(n).Some? then [Spawned(c, n, docker(n).value)] else []
  {
  }

  lemma {:induction false} SpawnedId(c: Setup, index: nat, id: string)
    ensures Spawned(c, index, id).id == id
  {
  }

  datatype Lease = Lease(slots: seq<Slot>, index: Option<nat>)

  /** The checkout loop from position `i`: idle containers that do not run are marked dead, the
      first that does run is taken. */
  function CheckoutFrom(slots: seq<Slot>, running: set<string>, role: string, task: string, i: nat): Lease
    requires i <= |slots|
    decreases |slots| - i
  {
    if i == |slots| then Lease(slots, None)
    else if !slots[i].state.Idle? then CheckoutFrom(slots, running, role, task, i + 1)
    else if slots[i].id !in running then
      CheckoutFrom(slots[i := slots[i].(state := Dead)], running, role, task, i + 1)
    else Lease(slots[i := Taken(slots[i], role, task)], Some(i))
  }

  /** Where the id is from position `i` on. */
  function Position(slots: seq<Slot>, id: string, i: nat): (k: Option<nat>)
    requires i <= |slots|
    ensures k.Some? ==> i <= k.value < |slots| && slots[k.value].id == id
    ensures k.None? ==> forall j :: i <= j < |slots| ==> slots[j].id != id
    decreases |slots| - i
  {
    if i == |slots| then None else if slots[i].id == id then Some(i) else Position(slots, id, i + 1)
  }

  /** The container at `k` is replaced by a new one with its index; if Docker cannot start one,
      the old entry stays. */
  function Recycled(slots: seq<Slot>, c: Setup, k: nat, spawned: Option<string>): seq<Slot>
    requires k < |slots|
  {
    var index := IndexOf(slots[k].name);
    if index.None? || spawned.None? then slots
    else slots[..k] + slots[k + 1..] + [Spawned(c, index.value, spawned.value)]
  }

  predicate WornOut(c: Setup, slot: Slot) { slot.uses >= c.maxUses }

  function Freed(slot: Slot): Slot { slot.(state := Idle, task := None, role := None) }

  function Returned(slots: seq<Slot>, c: Setup, id: string, spawned: Option<string>): seq<Slot> {
    var k := Position(slots, id, 0);
    if k.None? then slots
    else
      var free := slots[k.value := Freed(slots[k.value])];
      if WornOut(c, slots[k.value]) then Recycled(free, c, k.value, spawned) else free
  }

  function CountOf(slots: seq<Slot>, state: State, n: nat): nat
    requires n <= |slots|
  {
    if n == 0 then 0 else CountOf(slots, state, n - 1) + (if slots[n - 1].state == state then 1 else 0)
  }

  function InState(slots: seq<Slot>, state: State, n: nat): set<nat>
    requires n <= |slots|
  {
    set k: nat | k < n && slots[k].state == state
  }

  lemma {:induction false} CountIs(slots: seq<Slot>, state: State, n: nat)
    requires n <= |slots|
    ensures CountOf(slots, state, n) == |InState(slots, state, n)|
  {
    InStateNext(slots, state, n);
    hide InState;
    if n == 0 {
    } else {
      CountIs(slots, state, n - 1);
    }
  }

  lemma {:induction false} InStateNext(slots: seq<Slot>, state: State, n: nat)
    requires n <= |slots|
    ensures n == 0 ==> InState(slots, state, n) == {}
    ensures n > 0 ==> n - 1 !in InState(slots, state, n - 1)
    ensures n > 0 ==>
      InState(slots, state, n) == InState(slots, state, n - 1) + if slots[n - 1].state == state then {n - 1} else {}
  {
  }

  predicate Free(slot: Slot, running: set<string>) { slot.state.Idle? && slot.id in running }

  lemma {:induction false} CheckoutStep(slots: seq<Slot>, running: set<string>, role: string, task: string, i: nat)
    requires i < |slots|
    ensures CheckoutFrom(slots, running, role, task, i) ==
      if !slots[i].state.Idle? then CheckoutFrom(slots, running, role, task, i + 1)
      else if slots[i].id !in running
      then CheckoutFrom(slots[i := slots[i].(state := Dead)], running, role, task, i + 1)
      else Lease(slots[i := Taken(slots[i], role, task)], Some(i))
  {
  }

  lemma {:induction false} CheckoutEnds(slots: seq<Slot>, running: set<string>, role: string, task: string)
    ensures CheckoutFrom(slots, running, role, task, |slots|) == Lease(slots, None)
  {
  }

  /** Slot `j` after a checkout from position `i` that took `k`. */
  predicate Untaken(slots: seq<Slot>, r: seq<Slot>, i: nat, k: Option<nat>, j: nat)
    requires |r| == |slots| && j < |slots|
  {
    var passed := i <= j && slots[j].state.Idle? && (k.Some? ==> j < k.value);
    r[j] == if passed then slots[j].(state := Dead) else slots[j]
  }

  /** checkout takes the first idle container that runs, marks the idle ones before it dead and
      touches nothing else; it comes back empty-handed exactly when there is none. */
  lemma {:induction false} CheckoutTakesFirst(slots: seq<Slot>, running: set<string>, role: string, task: string,
        i: nat)
    requires i <= |slots|
    ensures var (r, k) := (CheckoutFrom(slots, running, role, task, i).slots,
        CheckoutFrom(slots, running, role, task, i).index);
      && |r| == |slots|
      && (k.None? <==> forall j :: i <= j < |slots| ==> !Free(slots[j], running))
      && (k.Some? ==> i <= k.value < |slots|)
      && (k.Some? ==> Free(slots[k.value], running) && forall j :: i <= j < k.value ==> !Free(slots[j], running))
      && (k.Some? ==> r[k.value] == Taken(slots[k.value], role, task))
      && (forall j :: 0 <= j < |slots| && k != Some(j) ==> Untaken(slots, r, i, k, j))
    decreases |slots| - i
  {
    if i < |slots| && !Free(slots[i], running) {
      var next := if slots[i].state.Idle? then slots[i := slots[i].(state := Dead)] else slots;
      var lease := CheckoutFrom(slots, running, role, task, i);
      CheckoutTakesFirst(next, running, role, task, i + 1);
      assert forall j :: i < j < |slots| ==> next[j] == slots[j];
      forall j | 0 <= j < |slots| && lease.index != Some(j) ensures Untaken(slots, lease.slots, i, lease.index, j) {
        assert Untaken(next, lease.slots, i + 1, lease.index, j);
      }
    }
  }

  // ---------------------------------------------------------------- the pool itself

  class PooledContainer {
    const id: string
    const name: string
    const port: int
    const configFile: string
    var state: State
    var task: Option<string>
    var role: Option<string>
    var uses: nat

    ghost function Snap(): Slot
      reads this
    {
      Slot(id, name, port, configFile, state, task, role, uses)
    }

    constructor (c: Setup, index: nat, id: string)
      ensures Snap() == Spawned(c, index, id)
    {
      this.id, name, port, configFile := id, NameOf(index), c.basePort + index, ConfigOf(c.configDir, index);
      state, task, role, uses := Idle, None, None, 0;
    }
  }

  class ContainerPoolManager {
    const setup: Setup
    /** The dict of containers by id, in insertion order. */
    var pool: seq<PooledContainer>

    ghost predicate Valid()
      reads this, pool
    {
      forall i, j :: 0 <= i < j < |pool| ==> pool[i].id != pool[j].id
    }

    ghost function Contents(): (slots: seq<Slot>)
      reads this, pool
      ensures |slots| == |pool| && forall i :: 0 <= i < |pool| ==> slots[i] == pool[i].Snap()
    {
      seq(|pool|, i requires 0 <= i < |pool| reads this, pool => pool[i].Snap())
    }

    constructor (setup: Setup)
      ensures Valid() && this.setup == setup && Contents() == []
    {
      this.setup := setup;
      pool := [];
    }

    /** Docker never gives an id twice. */
    method Startup(poolSize: nat, docker: nat -> Option<string>)
      requires Valid()
      requires forall i, j :: 0 <= i < j < poolSize && docker(i).Some? && docker(j).Some? ==> docker(i) != docker(j)
      requires forall i, k :: 0 <= i < poolSize && 0 <= k < |pool| ==> docker(i) != Some(pool[k].id)
      modifies this
      ensures Valid() && Contents() == old(Contents()) + Started(setup, docker, poolSize)
    {
      hide Spawned, Started;
      ghost var was := pool;
      StartedSteps(setup, docker);
      for i := 0 to poolSize
        invariant |pool| >= |was| && pool[..|was|] == was
        invariant forall k :: |was| <= k < |pool| ==> fresh(pool[k])
        invariant forall k :: |was| <= k < |pool| ==> exists j :: 0 <= j < i && docker(j) == Some(pool[k].id)
        invariant Valid() && Contents() == old(Contents()) + Started(setup, docker, i)
      {
        var id := docker(i);
        StartedNext(setup, docker, i);
        if id.Some? {
          var container := new PooledContainer(setup, i, id.value);
          ghost var before := Contents();
          SpawnedId(setup, i, id.value);
          pool := pool + [container];
          assert Contents() == before + [Spawned(setup, i, id.value)];
        }
      }
    }

    method Checkout(running: set<string>, role: string, task: string) returns (leased: PooledContainer?)
      requires Valid()
      modifies pool
      ensures Valid()
      ensures var r := CheckoutFrom(old(Contents()), running, role, task, 0);
        Contents() == r.slots && (leased == null <==> r.index.None?) &&
        (leased != null ==> r.index.value < |pool| && leased == pool[r.index.value])
    {
      hide CheckoutFrom;
      var i := 0;
      while i < |pool|
        invariant 0 <= i <= |pool| && Valid()
        invariant CheckoutFrom(Contents(), running, role, task, i)
            == CheckoutFrom(old(Contents()), running, role, task, 0)
      {
        var c := pool[i];
        ghost var before := Contents();
        CheckoutStep(before, running, role, task, i);
        assert forall j :: 0 <= j < |pool| && j != i ==> pool[j] != c;
        if c.state.Idle? {
          if c.id !in running {
            c.state := Dead;
            assert Contents() == before[i := before[i].(state := Dead)];
          } else {
            c.state, c.task, c.role, c.uses := Busy, Some(task), Some(role), c.uses + 1;
            assert Contents() == before[i := Taken(before[i], role, task)];
            return c;
          }
        }
        i := i + 1;
      }
      CheckoutEnds(Contents(), running, role, task);
      return null;
    }

    method ReturnContainer(id: string, spawned: Option<string>)
      requires Valid()
      requires spawned.Some? ==> forall k :: 0 <= k < |pool| ==> pool[k].id != spawned.value
      modifies this, pool
      ensures Valid() && Contents() == Returned(old(Contents()), setup, id, spawned)
    {
      var k := 0;
      while k < |pool| && pool[k].id != id
        invariant 0 <= k <= |pool| && Position(Contents(), id, k) == Position(Contents(), id, 0)
      {
        k := k + 1;
      }
      if k == |pool| {
        return;
      }
      var container := pool[k];
      container.state, container.task, container.role := Idle, None, None;
      assert Contents() == old(Contents())[k := Freed(old(Contents())[k])];
      if container.uses >= setup.maxUses {
        Recycle(k, spawned);
      }
    }

    method Recycle(k: nat, spawned: Option<string>)
      requires Valid() && k < |pool|
      requires spawned.Some? ==> forall j :: 0 <= j < |pool| ==> pool[j].id != spawned.value
      modifies this
      ensures Valid() && Contents() == Recycled(old(Contents()), setup, k, spawned)
    {
      hide IndexOf, NameOf, ConfigOf;
      var index := IndexOf(pool[k].name);
      if index.Some? && spawned.Some? {
        var container := new PooledContainer(setup, index.value, spawned.value);
        pool := pool[..k] + pool[k + 1..] + [container];
      }
    }

    method GetStatus() returns (total: nat, idle: nat, busy: nat)
      ensures total == |Contents()|
      ensures idle == CountOf(Contents(), Idle, |pool|) && busy == CountOf(Contents(), Busy, |pool|)
    {
      total, idle, busy := |pool|, 0, 0;
      for i := 0 to |pool|
        invariant idle == CountOf(Contents(), Idle, i) && busy == CountOf(Contents(), Busy, i)
      {
        if pool[i].state.Idle? { idle := idle + 1; }
        if pool[i].state.Busy? { busy := busy + 1; }
      }
    }
  }

  // ---------------------------------------------------------------- the backend

  /** The last snapshot seen of the worker's task, and how the exchange ended: by itself, by an error
      or by cancellation. */
  datatype Exchange = Exchange(last: Option<Poller.Snapshot>, error: Option<string>, cancelled: bool)

  datatype Attempt = Attempt(success: bool, output: string, error: Option<string>)

  class DockerBackend {
    const pool: ContainerPoolManager

    constructor (pool: ContainerPoolManager)
      ensures this.pool == pool
    {
      this.pool := pool;
    }

    /** One invocation with nothing in between: the container is back however the exchange ends.  The
        result is None where the cancellation goes on. */
    method Invoke(role: string, task: string, running: set<string>, exchange: Exchange, spawned: Option<string>)
          returns (attempt: Option<Attempt>)
      requires pool.Valid()
      requires spawned.Some? ==> forall k :: 0 <= k < |pool.pool| ==> pool.pool[k].id != spawned.value
      modifies pool, pool.pool
      ensures pool.Valid()
      ensures var leased := CheckoutFrom(old(pool.Contents()), running, role, task, 0);
        if leased.index.None? then pool.Contents() == leased.slots && attempt.Some? && !attempt.value.success
        else
          && leased.index.value < |leased.slots|
          && pool.Contents() == Returned(leased.slots, pool.setup, leased.slots[leased.index.value].id, spawned)
          && (attempt.None? <==> exchange.cancelled)
          && (attempt.Some? ==> Tells(attempt.value, exchange))
    {
      hide Returned, CheckoutFrom;
      var container := pool.Checkout(running, role, task);
      CheckoutTakesFirst(old(pool.Contents()), running, role, task, 0);
      if container == null {
        return Some(Attempt(false, "", Some("No idle worker container available")));
      }
      pool.ReturnContainer(container.id, spawned);
      if exchange.cancelled {
        return None;
      }
      if exchange.last.None? {
        return Some(Attempt(false, "", Some(if exchange.error.Some? then "A2A send error: " + exchange.error.value
            else "Worker returned no task")));
      }
      var success := exchange.last.value.state == "completed";
      return Some(Attempt(success, exchange.last.value.message,
                          if success then None else Some("Worker task state: " + exchange.last.value.state)));
    }
  }

  /** Success exactly when the last snapshot is completed, even if an error came after it. */
  predicate Tells(a: Attempt, x: Exchange) {
    && (a.success <==> x.last.Some? && x.last.value.state == "completed")
    && (x.last.Some? ==> a.output == x.last.value.message)
    && (a.success <==> a.error.None?)
  }
}
