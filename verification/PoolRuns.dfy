/**
 Concurrent invocations of the container backend, interleaved at every await
 (src/dispatcher/backends.py:47-107 over src/container_pool/pool.py).

 The pool's critical sections do not await anything, so each is one step.  An invocation can be
 cancelled at any await; containers can stop or start running at any time.
 */
module PoolRuns {
  import opened Wrappers
  import opened ContainerPool
  import Poller

  datatype Request = Request(role: string, task: string)

  datatype Outcome = NoContainer | Answered(last: Poller.Snapshot) | SendFailed | Cancelled

  /** Leased: waiting for the worker to be ready; Sending: sending or polling; Closing: in the
      finally block.  Abandoned: cancelled where the container is not given back. */
  datatype Pc = Start | Leased(id: string) | Sending(id: string) | Closing(id: string, outcome: Outcome)
              | Finished(outcome: Outcome) | Abandoned(id: string)

  /** `seen`: ids Docker has given; `removed`: containers it has removed; `stubborn`: worn-out
      ones given back that it neither removed nor replaced. */
  datatype World = World(slots: seq<Slot>, running: set<string>, seen: set<string>, removed: set<string>,
                         stubborn: set<string>, pcs: seq<Pc>)

  datatype Kind =
    | Checkout | CancelEarly | Ready | CancelWaiting | Reply(outcome: Outcome) | CancelClosing
    | GiveBack(spawned: Option<string>, obeys: bool)

  datatype Step = By(call: nat, kind: Kind) | Docker(running: set<string>)

  function Move(c: Setup, requests: seq<Request>, w: World, call: nat, kind: Kind): Option<World>
    requires |w.pcs| == |requests| && call < |requests|
  {
    var r := requests[call];
    match (kind, w.pcs[call])
    case (CancelEarly, Start) => Some(w.(pcs := w.pcs[call := Finished(Cancelled)]))
    case (Checkout, Start) =>
      var lease := CheckoutFrom(w.slots, w.running, r.role, r.task, 0);
      var taken := lease.index.Some? && lease.index.value < |w.slots|;
      Some(w.(slots := lease.slots,
              pcs := w.pcs[call := if taken then Leased(w.slots[lease.index.value].id) else Finished(NoContainer)]))
    case (CancelWaiting, Leased(id)) => Some(w.(pcs := w.pcs[call := Abandoned(id)]))
    case (Ready, Leased(id)) => Some(w.(pcs := w.pcs[call := Sending(id)]))
    case (Reply(outcome), Sending(id)) =>
      if outcome.NoContainer? then None else Some(w.(pcs := w.pcs[call := Closing(id, outcome)]))
    case (CancelClosing, Closing(id, _)) => Some(w.(pcs := w.pcs[call := Abandoned(id)]))
    case (GiveBack(spawned, obeys), Closing(id, outcome)) =>
      if spawned.Some? && spawned.value in w.seen then None
      else
        var k := Position(w.slots, id, 0);
        var recycles := k.Some? && WornOut(c, w.slots[k.value]);
        Some(World(Returned(w.slots, c, id, spawned),
                   if recycles && obeys then w.running - {id} else w.running,
                   if spawned.Some? then w.seen + {spawned.value} else w.seen,
                   if recycles && obeys then w.removed + {id} else w.removed,
                   if recycles && !obeys && spawned.None? then w.stubborn + {id} else w.stubborn,
                   w.pcs[call := Finished(outcome)]))
    case _ => None
  }

  ghost predicate Next(c: Setup, requests: seq<Request>, w: World, s: Step, v: World) {
    && |w.pcs| == |requests|
    && match s
       case Docker(running) => running !! w.removed && v == w.(running := running)
       case By(call, kind) => call < |requests| && Move(c, requests, w, call, kind) == Some(v)
  }

  /** A pool as startup leaves it. */
  ghost predicate Init(c: Setup, requests: seq<Request>, w: World) {
    && AllDistinct(w.slots)
    && (forall k :: 0 <= k < |w.slots| ==> w.slots[k].id in w.seen && IsFresh(c, w.slots[k]))
    && |w.pcs| == |requests| && (forall i :: 0 <= i < |requests| ==> w.pcs[i] == Start)
    && w.running !! w.removed && w.stubborn == {}
  }

  ghost predicate IsFresh(c: Setup, slot: Slot) { exists index: nat :: slot == Spawned(c, index, slot.id) }

  ghost predicate StepAt(c: Setup, requests: seq<Request>, ss: seq<Step>, ws: seq<World>, i: nat)
    requires |ws| == |ss| + 1
  {
    i < |ss| ==> Next(c, requests, ws[i], ss[i], ws[i + 1])
  }

  ghost predicate IsRun(c: Setup, requests: seq<Request>, ss: seq<Step>, ws: seq<World>) {
    |ws| == |ss| + 1 && Init(c, requests, ws[0]) && forall i: nat :: StepAt(c, requests, ss, ws, i)
  }

  // ---------------------------------------------------------------- names, ports and config files

  /** Printed from one index: name, port and config file. */
  ghost predicate WellNamed(c: Setup, slot: Slot) {
    exists index: nat :: slot.name == NameOf(index) && slot.port == c.basePort + index &&
      slot.configFile == ConfigOf(c.configDir, index)
  }

  ghost predicate AllDistinct(slots: seq<Slot>) {
    forall i, j :: 0 <= i < j < |slots| ==> slots[i].id != slots[j].id && slots[i].name != slots[j].name
  }

  ghost predicate PoolOk(c: Setup, w: World) {
    && AllDistinct(w.slots)
    && forall k :: 0 <= k < |w.slots| ==> WellNamed(c, w.slots[k]) && w.slots[k].id in w.seen
  }

  function Names(slots: seq<Slot>): set<string> { set k | 0 <= k < |slots| :: slots[k].name }

  function Swap(slots: seq<Slot>, k: nat, slot: Slot): (r: seq<Slot>)
    requires k < |slots|
    ensures |r| == |slots| && r[|slots| - 1] == slot
    ensures forall j :: 0 <= j < |slots| - 1 ==> r[j] == slots[if j < k then j else j + 1]
  {
    slots[..k] + slots[k + 1..] + [slot]
  }

  lemma {:induction false} SwapKeepsNames(slots: seq<Slot>, k: nat, slot: Slot)
    requires k < |slots| && slots[k].name == slot.name
    ensures Names(Swap(slots, k, slot)) == Names(slots)
  {
    var r := Swap(slots, k, slot);
    hide Swap;
    forall j | 0 <= j < |slots| ensures slots[j].name in Names(r) {
      assert r[if j < k then j else if j > k then j - 1 else |slots| - 1].name == slots[j].name;
    }
    forall j | 0 <= j < |r| ensures r[j].name in Names(slots) {
      assert slots[if j == |slots| - 1 then k else if j < k then j else j + 1].name == r[j].name;
    }
  }

  lemma {:induction false} SwapKeepsDistinct(slots: seq<Slot>, k: nat, slot: Slot)
    requires k < |slots| && slots[k].name == slot.name && AllDistinct(slots)
    requires forall j :: 0 <= j < |slots| ==> slots[j].id != slot.id
    ensures AllDistinct(Swap(slots, k, slot))
  {
    var r := Swap(slots, k, slot);
    hide Swap;
    forall i, j | 0 <= i < j < |r| ensures r[i].id != r[j].id && r[i].name != r[j].name {
      var p, q := if i < k then i else i + 1, if j == |slots| - 1 then k else if j < k then j else j + 1;
      assert r[i] == slots[p] && r[j].name == slots[q].name && p != q;
    }
  }

  /** A recycled container has the same name, port and config file as the one it replaces. */
  lemma {:induction false} RecycledIsSwap(c: Setup, slots: seq<Slot>, k: nat, id: string)
    requires k < |slots| && WellNamed(c, slots[k])
    ensures IndexOf(slots[k].name).Some?
    ensures var slot := Spawned(c, IndexOf(slots[k].name).value, id);
      && Recycled(slots, c, k, Some(id)) == Swap(slots, k, slot)
      && slot.name == slots[k].name && slot.port == slots[k].port && slot.configFile == slots[k].configFile
  {
    var index: nat :| slots[k].name == NameOf(index) && slots[k].port == c.basePort + index &&
        slots[k].configFile == ConfigOf(c.configDir, index);
    IndexRoundTrip(index);
  }

  // ---------------------------------------------------------------- who holds what

  /** The container an invocation has taken and not given back. */
  function Held(pc: Pc): Option<string> {
    match pc
    case Leased(id) => Some(id)
    case Sending(id) => Some(id)
    case Closing(id, _) => Some(id)
    case Abandoned(id) => Some(id)
    case _ => None
  }

  /** A busy container and what the pool says it is busy with. */
  datatype Lent = Lent(id: string, role: Option<string>, task: Option<string>)

  function LentOf(slot: Slot): Lent { Lent(slot.id, slot.role, slot.task) }

  function AllLent(slots: seq<Slot>): set<Lent> {
    set k | 0 <= k < |slots| && slots[k].state.Busy? :: LentOf(slots[k])
  }

  ghost predicate HasHolder(pcs: seq<Pc>, l: Lent) { exists i :: 0 <= i < |pcs| && Held(pcs[i]) == Some(l.id) }

  predicate HasContainer(lent: set<Lent>, r: Request, pc: Pc) {
    Held(pc).Some? ==> Lent(Held(pc).value, Some(r.role), Some(r.task)) in lent
  }

  /** Every busy container has a holder, and every holder a container of its own that is busy with
      its task. */
  ghost predicate HoldersOk(requests: seq<Request>, pcs: seq<Pc>, lent: set<Lent>)
    requires |pcs| == |requests|
  {
    && (forall i :: 0 <= i < |pcs| ==> HasContainer(lent, requests[i], pcs[i]))
    && NoneShared(pcs)
    && (forall l :: l in lent ==> HasHolder(pcs, l))
  }

  ghost predicate NoneShared(pcs: seq<Pc>) {
    forall i, j :: 0 <= i < j < |pcs| && Held(pcs[i]).Some? ==> Held(pcs[i]) != Held(pcs[j])
  }

  predicate UsesOk(c: Setup, w: World, slot: Slot) {
    if slot.state.Busy? then slot.id !in w.removed && 0 < slot.uses &&
        (slot.uses == 1 || slot.uses <= c.maxUses || slot.id in w.stubborn)
    else
      && slot.task.None? && slot.role.None?
      && (slot.uses == 0 || slot.uses < c.maxUses || slot.id in w.removed || slot.id in w.stubborn)
  }

  ghost predicate Inv(c: Setup, requests: seq<Request>, w: World) {
    && |w.pcs| == |requests|
    && PoolOk(c, w)
    && HoldersOk(requests, w.pcs, AllLent(w.slots))
    && (forall k :: 0 <= k < |w.slots| ==> UsesOk(c, w, w.slots[k]))
    && w.running !! w.removed
  }

  /** A step that moves one invocation and leaves it holding what it held. */
  lemma {:induction false} HoldingKept(requests: seq<Request>, pcs: seq<Pc>, lent: set<Lent>, call: nat, pc: Pc)
    requires |pcs| == |requests| && call < |requests| && HoldersOk(requests, pcs, lent) && Held(pc) == Held(pcs[call])
    ensures HoldersOk(requests, pcs[call := pc], lent)
  {
    var after := pcs[call := pc];
    assert forall i :: 0 <= i < |pcs| ==> Held(after[i]) == Held(pcs[i]);
    hide Held;
    forall i | 0 <= i < |pcs| ensures HasContainer(lent, requests[i], after[i]) {
      assert HasContainer(lent, requests[i], pcs[i]);
    }
    forall l | l in lent ensures HasHolder(after, l) {
      var i :| 0 <= i < |pcs| && Held(pcs[i]) == Some(l.id);
      assert Held(after[i]) == Some(l.id);
    }
  }

  lemma {:induction false} TakingIsNotShared(pcs: seq<Pc>, call: nat, pc: Pc)
    requires call < |pcs| && NoneShared(pcs)
    requires Held(pc).Some? ==> forall i :: 0 <= i < |pcs| && i != call ==> Held(pcs[i]) != Held(pc)
    ensures NoneShared(pcs[call := pc])
  {
    hide Held;
  }

  lemma {:induction false} OthersHold(pcs: seq<Pc>, call: nat, pc: Pc, l: Lent)
    requires call < |pcs| && HasHolder(pcs, l) && Held(pcs[call]) != Some(l.id)
    ensures HasHolder(pcs[call := pc], l)
  {
    hide Held;
    var i :| 0 <= i < |pcs| && Held(pcs[i]) == Some(l.id);
    assert Held(pcs[call := pc][i]) == Some(l.id);
  }

  lemma {:induction false} TakingKeepsHolders(requests: seq<Request>, pcs: seq<Pc>, lent: set<Lent>, call: nat,
        id: string)
    requires |pcs| == |requests| && call < |requests| && HoldersOk(requests, pcs, lent) && Held(pcs[call]).None?
    requires forall l :: l in lent ==> l.id != id
    ensures HoldersOk(requests, pcs[call := Leased(id)],
                      lent + {Lent(id, Some(requests[call].role), Some(requests[call].task))})
  {
    var after := pcs[call := Leased(id)];
    assert Held(after[call]) == Some(id);
    hide Held, NoneShared;
    forall i | 0 <= i < |pcs| && i != call ensures HasContainer(lent, requests[i], after[i]) &&
        Held(after[i]) != Some(id) {
      assert HasContainer(lent, requests[i], pcs[i]);
    }
    TakingIsNotShared(pcs, call, Leased(id));
    forall l | l in lent ensures HasHolder(after, l) {
      OthersHold(pcs, call, Leased(id), l);
    }
  }

  lemma {:induction false} GivingBackKeepsHolders(requests: seq<Request>, pcs: seq<Pc>, lent: set<Lent>, call: nat,
        l: Lent, pc: Pc)
    requires |pcs| == |requests| && call < |requests| && HoldersOk(requests, pcs, lent)
    requires Held(pcs[call]) == Some(l.id) && Held(pc).None?
    requires forall m :: m in lent && m != l ==> m.id != l.id
    ensures HoldersOk(requests, pcs[call := pc], lent - {l})
  {
    var after := pcs[call := pc];
    hide Held;
    assert forall i :: 0 <= i < |pcs| && i != call ==> Held(pcs[i]) != Held(pcs[call]) || Held(pcs[i]).None?;
    TakingIsNotShared(pcs, call, pc);
    hide NoneShared;
    forall i | 0 <= i < |pcs| && i != call ensures HasContainer(lent - {l}, requests[i], after[i]) {
      assert HasContainer(lent, requests[i], pcs[i]);
    }
    forall m | m in lent && m != l ensures HasHolder(after, m) {
      OthersHold(pcs, call, pc, m);
    }
  }

  /** `r` is `slots` with `taken`, if any, newly leased and nothing else changing hands. */
  ghost predicate OneTaken(slots: seq<Slot>, r: seq<Slot>, taken: Option<nat>, request: Request) {
    && |r| == |slots| && (taken.Some? ==> taken.value < |slots|)
    && forall k :: 0 <= k < |slots| ==> TakenAt(slots[k], r[k], taken == Some(k), request)
  }

  predicate TakenAt(slot: Slot, after: Slot, taken: bool, request: Request) {
    && after.id == slot.id && after.name == slot.name && after.port == slot.port && after.configFile == slot.configFile
    && if taken then slot.state.Idle? && after == Taken(slot, request.role, request.task)
       else after == slot || (slot.state.Idle? && after == slot.(state := Dead))
  }

  lemma {:induction false} CheckoutSlots(slots: seq<Slot>, running: set<string>, request: Request)
    ensures var lease := CheckoutFrom(slots, running, request.role, request.task, 0);
      OneTaken(slots, lease.slots, lease.index, request) && (lease.index.Some? ==>
        slots[lease.index.value].id in running)
  {
    CheckoutTakesFirst(slots, running, request.role, request.task, 0);
    var lease := CheckoutFrom(slots, running, request.role, request.task, 0);
    hide CheckoutFrom;
    forall k | 0 <= k < |slots| ensures TakenAt(slots[k], lease.slots[k], lease.index == Some(k), request) {
      if lease.index != Some(k) { assert Untaken(slots, lease.slots, 0, lease.index, k); }
    }
  }

  lemma {:induction false} TakenIsLent(slots: seq<Slot>, r: seq<Slot>, taken: Option<nat>, request: Request)
    requires OneTaken(slots, r, taken, request)
    ensures AllLent(r) ==
      if taken.Some? then AllLent(slots) + {Lent(slots[taken.value].id, Some(request.role), Some(request.task))}
      else AllLent(slots)
    ensures Names(r) == Names(slots)
  {
    forall l | l in AllLent(slots) ensures l in AllLent(r) {
      var k :| 0 <= k < |slots| && slots[k].state.Busy? && LentOf(slots[k]) == l;
      assert r[k] == slots[k];
    }
    forall l | l in AllLent(r) && l !in AllLent(slots)
      ensures taken.Some? && l == Lent(slots[taken.value].id, Some(request.role), Some(request.task))
    {
      var k :| 0 <= k < |r| && r[k].state.Busy? && LentOf(r[k]) == l;
      assert taken == Some(k);
    }
    if taken.Some? { assert r[taken.value].state.Busy?; }
  }

  lemma {:induction false} CheckoutKeeps(c: Setup, requests: seq<Request>, w: World, call: nat)
    requires Inv(c, requests, w) && call < |requests| && w.pcs[call] == Start
    ensures Inv(c, requests, Move(c, requests, w, call, Checkout).value)
    ensures Names(Move(c, requests, w, call, Checkout).value.slots) == Names(w.slots)
  {
    hide CheckoutFrom, HoldersOk, AllLent, Names;
    var r := requests[call];
    CheckoutSlots(w.slots, w.running, r);
    var lease := CheckoutFrom(w.slots, w.running, r.role, r.task, 0);
    var v := Move(c, requests, w, call, Checkout).value;
    TakenIsLent(w.slots, v.slots, lease.index, r);
    if lease.index.Some? {
      IdleIsNotLent(w.slots, lease.index.value);
      TakingKeepsHolders(requests, w.pcs, AllLent(w.slots), call, w.slots[lease.index.value].id);
    } else {
      HoldingKept(requests, w.pcs, AllLent(w.slots), call, Finished(NoContainer));
    }
    forall k | 0 <= k < |v.slots| ensures WellNamed(c, v.slots[k]) && UsesOk(c, v, v.slots[k]) {
      assert WellNamed(c, w.slots[k]) && UsesOk(c, w, w.slots[k]);
    }
  }

  lemma {:induction false} IdleIsNotLent(slots: seq<Slot>, k: nat)
    requires k < |slots| && AllDistinct(slots) && !slots[k].state.Busy?
    ensures forall l :: l in AllLent(slots) ==> l.id != slots[k].id
  {
    forall l | l in AllLent(slots) ensures l.id != slots[k].id {
      var j :| 0 <= j < |slots| && slots[j].state.Busy? && LentOf(slots[j]) == l;
    }
  }

  lemma {:induction false} PositionOf(slots: seq<Slot>, k: nat, id: string, i: nat)
    requires i <= k < |slots| && slots[k].id == id && AllDistinct(slots)
    ensures Position(slots, id, i) == Some(k)
    decreases k - i
  {
    if i == k {
    } else {
      PositionOf(slots, k, id, i + 1);
    }
  }

  /** What an invocation that holds the container at `k` leaves when it gives it back. */
  lemma {:induction false} ReturnedEffect(c: Setup, slots: seq<Slot>, k: nat, spawned: Option<string>)
    requires k < |slots| && AllDistinct(slots) && WellNamed(c, slots[k])
    ensures IndexOf(slots[k].name).Some?
    ensures var free := slots[k := Freed(slots[k])];
      Returned(slots, c, slots[k].id, spawned) ==
        if WornOut(c, slots[k]) && spawned.Some?
        then Swap(free, k, Spawned(c, IndexOf(slots[k].name).value, spawned.value)) else free
    ensures spawned.Some? ==>
      var slot := Spawned(c, IndexOf(slots[k].name).value, spawned.value);
      slot.name == slots[k].name && slot.port == slots[k].port && slot.configFile == slots[k].configFile
  {
    PositionOf(slots, k, slots[k].id, 0);
    var free := slots[k := Freed(slots[k])];
    assert WellNamed(c, free[k]);
    RecycledIsSwap(c, free, k, if spawned.Some? then spawned.value else "");
  }

  lemma {:induction false} ReturnedIsNotLent(slots: seq<Slot>, r: seq<Slot>, k: nat, slot: Slot)
    requires k < |slots| && AllDistinct(slots) && slots[k].state.Busy? && !slot.state.Busy?
    requires r == slots[k := slot] || r == Swap(slots, k, slot)
    ensures AllLent(r) == AllLent(slots) - {LentOf(slots[k])}
    ensures forall m :: m in AllLent(slots) && m != LentOf(slots[k]) ==> m.id != slots[k].id
  {
    forall m | m in AllLent(r) ensures m in AllLent(slots) && m != LentOf(slots[k]) {
      var j :| 0 <= j < |r| && r[j].state.Busy? && LentOf(r[j]) == m;
      var p := if r == slots[k := slot] || j < k then j else j + 1;
      assert slots[p] == r[j] && p != k;
    }
    forall m | m in AllLent(slots) && m != LentOf(slots[k]) ensures m in AllLent(r) && m.id != slots[k].id {
      var p :| 0 <= p < |slots| && slots[p].state.Busy? && LentOf(slots[p]) == m;
      var j := if r == slots[k := slot] || p < k then p else p - 1;
      assert r[j] == slots[p];
    }
  }

  /** What stands in the place of a container that was given back. */
  lemma {:induction false} Replacement(c: Setup, w: World, k: nat, spawned: Option<string>) returns (slot: Slot)
    requires PoolOk(c, w) && k < |w.slots| && (spawned.Some? ==> spawned.value !in w.seen)
    ensures var r := Returned(w.slots, c, w.slots[k].id, spawned);
      && (r == w.slots[k := slot] || r == Swap(w.slots, k, slot))
      && AllDistinct(r) && Names(r) == Names(w.slots)
    ensures slot.name == w.slots[k].name && WellNamed(c, slot)
    ensures if WornOut(c, w.slots[k]) && spawned.Some? then slot.id == spawned.value && slot.uses == 0
        else slot == Freed(w.slots[k])
    ensures slot.state.Idle? && slot.task.None? && slot.role.None?
  {
    hide Names, Swap, AllDistinct;
    ReturnedEffect(c, w.slots, k, spawned);
    var freed := Freed(w.slots[k]);
    var free := w.slots[k := freed];
    assert WellNamed(c, w.slots[k]);
    NamesKept(w.slots, k, freed);
    slot := freed;
    if WornOut(c, w.slots[k]) && spawned.Some? {
      slot := Spawned(c, IndexOf(w.slots[k].name).value, spawned.value);
      SwapKeepsNames(free, k, slot);
      SwapKeepsDistinct(free, k, slot);
      SwapSame(w.slots, k, freed, slot);
    }
    assert WellNamed(c, slot);
  }

  lemma {:induction false} GiveBackKeeps(c: Setup, requests: seq<Request>, w: World, call: nat, spawned: Option<string>,
        obeys: bool)
    requires Inv(c, requests, w) && call < |requests| && w.pcs[call].Closing?
    requires spawned.Some? ==> spawned.value !in w.seen
    ensures Inv(c, requests, Move(c, requests, w, call, GiveBack(spawned, obeys)).value)
    ensures Names(Move(c, requests, w, call, GiveBack(spawned, obeys)).value.slots) == Names(w.slots)
  {
    hide HoldersOk, AllLent, Names, Swap, Returned;
    var v := Move(c, requests, w, call, GiveBack(spawned, obeys)).value;
    var k := HolderAt(requests, w, call);
    PositionOf(w.slots, k, w.slots[k].id, 0);
    var slot := Replacement(c, w, k, spawned);
    assert UsesOk(c, w, w.slots[k]) && WellNamed(c, w.slots[k]);
    ReturnedIsNotLent(w.slots, v.slots, k, slot);
    GivingBackKeepsHolders(requests, w.pcs, AllLent(w.slots), call, LentOf(w.slots[k]), v.pcs[call]);
    GiveBackKeepsSlots(c, w, v, k, slot);
  }

  ghost predicate SlotOk(c: Setup, w: World, slot: Slot) {
    UsesOk(c, w, slot) && WellNamed(c, slot) && slot.id in w.seen
  }

  lemma {:induction false} GiveBackKeepsSlots(c: Setup, w: World, v: World, k: nat, slot: Slot)
    requires k < |w.slots| && (v.slots == w.slots[k := slot] || v.slots == Swap(w.slots, k, slot))
    requires w.seen <= v.seen && w.removed <= v.removed <= w.removed + {w.slots[k].id} && w.stubborn <= v.stubborn
    requires AllDistinct(w.slots)
    requires forall j :: 0 <= j < |w.slots| ==> SlotOk(c, w, w.slots[j])
    requires UsesOk(c, v, slot) && WellNamed(c, slot) && slot.id in v.seen
    ensures forall j :: 0 <= j < |v.slots| ==> SlotOk(c, v, v.slots[j])
  {
    hide WellNamed;
    forall j | 0 <= j < |v.slots| ensures SlotOk(c, v, v.slots[j]) {
      FromBefore(w.slots, v.slots, k, slot, j);
      if v.slots[j] != slot {
        var p :| 0 <= p < |w.slots| && p != k && v.slots[j] == w.slots[p];
        assert UsesOk(c, w, w.slots[p]);
      }
    }
  }

  lemma {:induction false} FromBefore(slots: seq<Slot>, r: seq<Slot>, k: nat, slot: Slot, j: nat)
    requires k < |slots| && j < |r| && (r == slots[k := slot] || r == Swap(slots, k, slot))
    ensures r[j] == slot || exists p :: 0 <= p < |slots| && p != k && r[j] == slots[p]
  {
  }

  lemma {:induction false} SwapSame(slots: seq<Slot>, k: nat, freed: Slot, slot: Slot)
    requires k < |slots|
    ensures Swap(slots[k := freed], k, slot) == Swap(slots, k, slot)
  {
  }

  lemma {:induction false} NamesKept(slots: seq<Slot>, k: nat, freed: Slot)
    requires k < |slots| && freed.id == slots[k].id && freed.name == slots[k].name && AllDistinct(slots)
    ensures Names(slots[k := freed]) == Names(slots) && AllDistinct(slots[k := freed])
  {
    var r := slots[k := freed];
    forall j | 0 <= j < |slots| ensures r[j].name == slots[j].name && r[j].id == slots[j].id {
    }
  }

  lemma {:induction false} HolderAt(requests: seq<Request>, w: World, call: nat) returns (k: nat)
    requires |w.pcs| == |requests| && HoldersOk(requests, w.pcs, AllLent(w.slots)) && call < |requests| &&
        Held(w.pcs[call]).Some?
    ensures k < |w.slots| && w.slots[k].state.Busy?
    ensures LentOf(w.slots[k]) == Lent(Held(w.pcs[call]).value, Some(requests[call].role), Some(requests[call].task))
  {
    var l := Lent(Held(w.pcs[call]).value, Some(requests[call].role), Some(requests[call].task));
    assert HasContainer(AllLent(w.slots), requests[call], w.pcs[call]);
    k :| 0 <= k < |w.slots| && w.slots[k].state.Busy? && LentOf(w.slots[k]) == l;
  }

  // ---------------------------------------------------------------- whole runs

  lemma {:induction false} StepKeeps(c: Setup, requests: seq<Request>, w: World, s: Step, v: World)
    requires Inv(c, requests, w) && Next(c, requests, w, s, v)
    ensures Inv(c, requests, v) && Names(v.slots) == Names(w.slots)
  {
    hide HoldersOk, AllLent, Names, Returned, CheckoutFrom, WellNamed;
    if s.By? {
      var (call, kind) := (s.call, s.kind);
      match kind
      case Checkout => CheckoutKeeps(c, requests, w, call);
      case GiveBack(spawned, obeys) => GiveBackKeeps(c, requests, w, call, spawned, obeys);
      case _ =>
        HoldingKept(requests, w.pcs, AllLent(w.slots), call, v.pcs[call]);
    }
    forall k | 0 <= k < |v.slots| ensures UsesOk(c, v, v.slots[k]) {
      if v.slots == w.slots { assert UsesOk(c, w, w.slots[k]); }
    }
  }

  lemma {:induction false} RunKeeps(c: Setup, requests: seq<Request>, ss: seq<Step>, ws: seq<World>, i: nat)
    requires IsRun(c, requests, ss, ws) && i <= |ss|
    ensures Inv(c, requests, ws[i]) && Names(ws[i].slots) == Names(ws[0].slots) && |ws[i].slots| == |ws[0].slots|
  {
    if i == 0 {
      assert AllLent(ws[0].slots) == {};
    } else {
      RunKeeps(c, requests, ss, ws, i - 1);
      assert StepAt(c, requests, ss, ws, i - 1);
      StepKeeps(c, requests, ws[i - 1], ss[i - 1], ws[i]);
      SizeKept(c, requests, ws[i - 1], ss[i - 1], ws[i]);
    }
  }

  lemma {:induction false} SizeKept(c: Setup, requests: seq<Request>, w: World, s: Step, v: World)
    requires Next(c, requests, w, s, v)
    ensures |v.slots| == |w.slots|
  {
    forall r: Request ensures |CheckoutFrom(w.slots, w.running, r.role, r.task, 0).slots| == |w.slots| {
      CheckoutTakesFirst(w.slots, w.running, r.role, r.task, 0);
    }
  }

  /** In every reachable state: a busy container is held by exactly one invocation; an invocation
      past its checkout holds exactly one container, which is busy with its own task. */
  lemma {:induction false} EachLeaseHasOneHolder(c: Setup, requests: seq<Request>, ss: seq<Step>, ws: seq<World>,
        i: nat)
    requires IsRun(c, requests, ss, ws) && i <= |ss|
    ensures |ws[i].pcs| == |requests|
    ensures var w := ws[i];
      && (forall k :: 0 <= k < |w.slots| && w.slots[k].state.Busy? ==>
            exists j :: 0 <= j < |w.pcs| && Held(w.pcs[j]) == Some(w.slots[k].id)
              && forall m :: 0 <= m < |w.pcs| && Held(w.pcs[m]) == Some(w.slots[k].id) ==> m == j)
      && (forall j :: 0 <= j < |w.pcs| && Held(w.pcs[j]).Some? ==>
            exists k :: 0 <= k < |w.slots| && w.slots[k].id == Held(w.pcs[j]).value && w.slots[k].state.Busy?
              && w.slots[k].task == Some(requests[j].task) && w.slots[k].role == Some(requests[j].role)
              && forall m :: 0 <= m < |w.slots| && w.slots[m].id == Held(w.pcs[j]).value ==> m == k)
  {
    RunKeeps(c, requests, ss, ws, i);
    var w := ws[i];
    hide WellNamed, UsesOk;
    forall k | 0 <= k < |w.slots| && w.slots[k].state.Busy?
      ensures exists j :: 0 <= j < |w.pcs| && Held(w.pcs[j]) == Some(w.slots[k].id)
                && forall m :: 0 <= m < |w.pcs| && Held(w.pcs[m]) == Some(w.slots[k].id) ==> m == j
    {
      assert LentOf(w.slots[k]) in AllLent(w.slots);
      assert HasHolder(w.pcs, LentOf(w.slots[k]));
    }
    forall j | 0 <= j < |w.pcs| && Held(w.pcs[j]).Some?
      ensures exists k :: 0 <= k < |w.slots| && w.slots[k].id == Held(w.pcs[j]).value && w.slots[k].state.Busy?
                && w.slots[k].task == Some(requests[j].task) && w.slots[k].role == Some(requests[j].role)
                && forall m :: 0 <= m < |w.slots| && w.slots[m].id == Held(w.pcs[j]).value ==> m == k
    {
      var k := HolderAt(requests, w, j);
    }
  }

  predicate Over(pc: Pc) { pc.Finished? || pc.Abandoned? }

  /** Once every invocation is over, a container is still leased exactly when an invocation was
      cancelled while waiting for its worker or while closing its client.  Success, a failed send
      and a cancellation during the exchange all give the container back. */
  lemma {:induction false} AllGivenBackExactlyWhen(c: Setup, requests: seq<Request>, ss: seq<Step>, ws: seq<World>,
        i: nat)
    requires IsRun(c, requests, ss, ws) && i <= |ss| && forall j :: 0 <= j < |ws[i].pcs| ==> Over(ws[i].pcs[j])
    ensures (exists k :: 0 <= k < |ws[i].slots| && ws[i].slots[k].state.Busy?)
       <==> (exists j :: 0 <= j < i && ss[j].By? && (ss[j].kind.CancelWaiting? || ss[j].kind.CancelClosing?))
  {
    EachLeaseHasOneHolder(c, requests, ss, ws, i);
    AbandonedByCancel(c, requests, ss, ws, i);
    var w := ws[i];
    if k :| 0 <= k < |w.slots| && w.slots[k].state.Busy? {
      var j :| 0 <= j < |w.pcs| && Held(w.pcs[j]) == Some(w.slots[k].id);
      assert w.pcs[j].Abandoned?;
    }
    if j :| 0 <= j < i && ss[j].By? && (ss[j].kind.CancelWaiting? || ss[j].kind.CancelClosing?) {
      var a :| 0 <= a < |w.pcs| && w.pcs[a].Abandoned?;
      assert Held(w.pcs[a]).Some?;
    }
  }

  lemma {:induction false} AbandonedByCancel(c: Setup, requests: seq<Request>, ss: seq<Step>, ws: seq<World>, i: nat)
    requires IsRun(c, requests, ss, ws) && i <= |ss|
    ensures |ws[i].pcs| == |requests|
    ensures (exists a :: 0 <= a < |ws[i].pcs| && ws[i].pcs[a].Abandoned?)
       <==> (exists j :: 0 <= j < i && ss[j].By? && (ss[j].kind.CancelWaiting? || ss[j].kind.CancelClosing?))
  {
    if i == 0 {
    } else {
      AbandonedByCancel(c, requests, ss, ws, i - 1);
      assert StepAt(c, requests, ss, ws, i - 1);
      var (w, s, v) := (ws[i - 1], ss[i - 1], ws[i]);
      hide CheckoutFrom, Returned, Init;
      assert forall a :: 0 <= a < |w.pcs| && w.pcs[a].Abandoned? ==> v.pcs[a].Abandoned?;
      if s.By? {
        assert forall a :: 0 <= a < |w.pcs| && a != s.call ==> v.pcs[a] == w.pcs[a];
        if s.kind.CancelWaiting? || s.kind.CancelClosing? { assert v.pcs[s.call].Abandoned?; }
      }
    }
  }

  /** The step gives `id` back worn out, and Docker neither removes nor replaces it. */
  predicate KeepsWornOut(c: Setup, w: World, s: Step, id: string) {
    && s.By? && s.kind.GiveBack? && !s.kind.obeys && s.kind.spawned.None?
    && s.call < |w.pcs| && w.pcs[s.call].Closing? && w.pcs[s.call].id == id
    && var k := Position(w.slots, id, 0);
       k.Some? && WornOut(c, w.slots[k.value])
  }

  /** No lease is beyond the maximum number of uses, but for the first, unless that very container was
      once given back worn out and neither removed nor replaced. */
  lemma {:induction false} LeasesAreLimited(c: Setup, requests: seq<Request>, ss: seq<Step>, ws: seq<World>, i: nat,
        k: nat)
    requires IsRun(c, requests, ss, ws) && i <= |ss| && k < |ws[i].slots| && ws[i].slots[k].state.Busy?
    requires forall j: nat :: j < i ==> !KeepsWornOut(c, ws[j], ss[j], ws[i].slots[k].id)
    ensures 0 < ws[i].slots[k].uses && (ws[i].slots[k].uses == 1 || ws[i].slots[k].uses <= c.maxUses)
  {
    RunKeeps(c, requests, ss, ws, i);
    NeverStubborn(c, requests, ss, ws, i, ws[i].slots[k].id);
    assert UsesOk(c, ws[i], ws[i].slots[k]);
  }

  lemma {:induction false} NeverStubborn(c: Setup, requests: seq<Request>, ss: seq<Step>, ws: seq<World>, i: nat,
        id: string)
    requires IsRun(c, requests, ss, ws) && i <= |ss|
    requires forall j: nat :: j < i ==> !KeepsWornOut(c, ws[j], ss[j], id)
    ensures id !in ws[i].stubborn
  {
    if i == 0 {
    } else {
      NeverStubborn(c, requests, ss, ws, i - 1, id);
      assert StepAt(c, requests, ss, ws, i - 1);
      assert !KeepsWornOut(c, ws[i - 1], ss[i - 1], id);
      hide CheckoutFrom, Returned, Init;
    }
  }

  /** Through every run the pool keeps its size and its names, and its containers keep distinct
      indices, each with the port and the config file of its index. */
  lemma {:induction false} WorkersStayDistinct(c: Setup, requests: seq<Request>, ss: seq<Step>, ws: seq<World>, i: nat,
        k: nat, m: nat)
    requires IsRun(c, requests, ss, ws) && i <= |ss| && k < m < |ws[i].slots|
    ensures |ws[i].slots| == |ws[0].slots| && Names(ws[i].slots) == Names(ws[0].slots)
    ensures var (a, b) := (ws[i].slots[k], ws[i].slots[m]);
      && IndexOf(a.name).Some? && IndexOf(b.name).Some? && IndexOf(a.name) != IndexOf(b.name)
      && a.port == c.basePort + IndexOf(a.name).value && a.port != b.port && a.configFile != b.configFile &&
          a.id != b.id
  {
    RunKeeps(c, requests, ss, ws, i);
    var (a, b) := (ws[i].slots[k], ws[i].slots[m]);
    var p: nat :| a.name == NameOf(p) && a.port == c.basePort + p && a.configFile == ConfigOf(c.configDir, p);
    var q: nat :| b.name == NameOf(q) && b.port == c.basePort + q && b.configFile == ConfigOf(c.configDir, q);
    IndexRoundTrip(p);
    IndexRoundTrip(q);
    if a.configFile == b.configFile { ConfigFilesDiffer(c.configDir, p, q); }
  }

  /** A container that is given back is replaced exactly when it has been leased max_uses times and Docker starts
      a new one, under the same name; otherwise it is in the pool, idle, assigned to nothing, its uses as
      they were.  Every other container is as it was. */
  lemma {:induction false} ReplacedExactlyWhen(c: Setup, slots: seq<Slot>, k: nat, spawned: Option<string>, other: Slot)
    requires k < |slots| && AllDistinct(slots) && WellNamed(c, slots[k]) && other.id != slots[k].id
    requires spawned.Some? ==> other.id != spawned.value && forall j :: 0 <= j < |slots| ==>
        slots[j].id != spawned.value
    ensures var (r, old') := (Returned(slots, c, slots[k].id, spawned), slots[k]);
      var replaced := old'.uses >= c.maxUses && spawned.Some?;
      && (other in r <==> other in slots)
      && (replaced ==>
            && (forall j :: 0 <= j < |r| ==> r[j].id != old'.id)
            && Slot(spawned.value, old'.name, old'.port, old'.configFile, Idle, None, None, 0) in r)
      && (!replaced ==> old'.(state := Idle, task := None, role := None) in r)
  {
    ReturnedEffect(c, slots, k, spawned);
    var free := slots[k := Freed(slots[k])];
    NamesKept(slots, k, Freed(slots[k]));
    if WornOut(c, slots[k]) && spawned.Some? {
      var slot := Spawned(c, IndexOf(slots[k].name).value, spawned.value);
      SwapDrops(free, k, slot);
      assert Swap(free, k, slot)[|slots| - 1] == slot;
      OthersIn(free, Swap(free, k, slot), k, slot, other);
      OthersIn(slots, free, k, Freed(slots[k]), other);
    } else {
      assert free[k] == Freed(slots[k]);
      OthersIn(slots, free, k, Freed(slots[k]), other);
    }
  }

  lemma {:induction false} OthersIn(slots: seq<Slot>, r: seq<Slot>, k: nat, slot: Slot, other: Slot)
    requires k < |slots| && (r == slots[k := slot] || r == Swap(slots, k, slot))
    requires other.id != slots[k].id && other.id != slot.id
    ensures other in r <==> other in slots
  {
    if p :| 0 <= p < |slots| && slots[p] == other {
      assert r[if r == slots[k := slot] || p < k then p else p - 1] == other;
    }
    if p :| 0 <= p < |r| && r[p] == other {
      FromBefore(slots, r, k, slot, p);
    }
  }

  /** The next checkout, with these containers running, leases `id` beyond the maximum. */
  ghost predicate LeasedBeyond(c: Setup, v: World, running: set<string>, r: Request, id: string) {
    && running !! v.removed
    && var lease := CheckoutFrom(v.slots, running, r.role, r.task, 0);
       lease.index.Some? && lease.index.value < |v.slots| == |lease.slots| && v.slots[lease.index.value].id == id
       && lease.slots[lease.index.value].uses > c.maxUses
  }

  /** In every reachable state, giving a container back allows the next checkout to lease it beyond the
      maximum exactly when it was worn out and Docker neither removed nor replaced it. */
  lemma {:induction false} LeasedBeyondExactlyWhen(c: Setup, requests: seq<Request>, w: World, call: nat,
        spawned: Option<string>, obeys: bool, v: World, r: Request)
    requires Inv(c, requests, w) && call < |requests| && w.pcs[call].Closing?
    requires Move(c, requests, w, call, GiveBack(spawned, obeys)) == Some(v)
    ensures (exists running :: LeasedBeyond(c, v, running, r, w.pcs[call].id))
       <==> KeepsWornOut(c, w, By(call, GiveBack(spawned, obeys)), w.pcs[call].id)
  {
    var id := w.pcs[call].id;
    hide HoldersOk, PoolOk, UsesOk, Move, CheckoutFrom;
    var k := GivenBack(c, requests, w, call, spawned, obeys, v);
    var worn := WornOut(c, w.slots[k]);
    if worn && spawned.Some? {
      forall running ensures !LeasedBeyond(c, v, running, r, id) {
        CheckoutSlots(v.slots, running, r);
      }
    } else {
      forall running ensures LeasedBeyond(c, v, running, r, id) ==> worn && !obeys {
        TakenIs(v.slots, running, r, k);
      }
      if worn && !obeys {
        TakenIs(v.slots, {id}, r, k);
        assert LeasedBeyond(c, v, {id}, r, id);
      }
    }
  }

  /** A container that was given back is no longer in the pool, or is idle in its place. */
  lemma {:induction false} GivenBack(c: Setup, requests: seq<Request>, w: World, call: nat, spawned: Option<string>,
        obeys: bool, v: World) returns (k: nat)
    requires Inv(c, requests, w) && call < |requests| && w.pcs[call].Closing?
    requires Move(c, requests, w, call, GiveBack(spawned, obeys)) == Some(v)
    ensures k < |w.slots| && w.slots[k].id == w.pcs[call].id && Position(w.slots, w.pcs[call].id, 0) == Some(k)
    ensures if WornOut(c, w.slots[k]) && spawned.Some?
            then forall j :: 0 <= j < |v.slots| ==> v.slots[j].id != w.pcs[call].id
            else v.slots == w.slots[k := Freed(w.slots[k])] && AllDistinct(v.slots)
    ensures w.pcs[call].id in v.removed <==> WornOut(c, w.slots[k]) && obeys
  {
    k := HolderAt(requests, w, call);
    PositionOf(w.slots, k, w.slots[k].id, 0);
    GiveBackMove(c, requests, w, call, spawned, obeys, k);
    ReturnedEffect(c, w.slots, k, spawned);
    assert UsesOk(c, w, w.slots[k]) && w.slots[k].id in w.seen;
    hide Returned, HoldersOk, AllLent, Move, WellNamed, AllDistinct, Swap;
    NamesKept(w.slots, k, Freed(w.slots[k]));
    if WornOut(c, w.slots[k]) && spawned.Some? {
      SwapDrops(w.slots[k := Freed(w.slots[k])], k, Spawned(c, IndexOf(w.slots[k].name).value, spawned.value));
    }
  }

  lemma {:induction false} SwapDrops(slots: seq<Slot>, k: nat, slot: Slot)
    requires k < |slots| && AllDistinct(slots) && slot.id != slots[k].id
    ensures forall j :: 0 <= j < |slots| ==> Swap(slots, k, slot)[j].id != slots[k].id
  {
  }

  lemma {:induction false} GiveBackMove(c: Setup, requests: seq<Request>, w: World, call: nat, spawned: Option<string>,
        obeys: bool, k: nat)
    requires |w.pcs| == |requests| && call < |requests| && w.pcs[call].Closing? &&
        (spawned.Some? ==> spawned.value !in w.seen)
    requires k < |w.slots| && Position(w.slots, w.pcs[call].id, 0) == Some(k)
    ensures var id := w.pcs[call].id;
      var worn := WornOut(c, w.slots[k]);
      Move(c, requests, w, call, GiveBack(spawned, obeys)) ==
        Some(World(Returned(w.slots, c, id, spawned),
                   if worn && obeys then w.running - {id} else w.running,
                   if spawned.Some? then w.seen + {spawned.value} else w.seen,
                   if worn && obeys then w.removed + {id} else w.removed,
                   if worn && !obeys && spawned.None? then w.stubborn + {id} else w.stubborn,
                   w.pcs[call := Finished(w.pcs[call].outcome)]))
  {
  }

  /** A checkout that takes the container at `k`: it is idle and runs; when nothing else runs it is
      the one taken. */
  lemma {:induction false} TakenIs(slots: seq<Slot>, running: set<string>, r: Request, k: nat)
    requires AllDistinct(slots) && k < |slots| && slots[k].state.Idle?
    ensures var lease := CheckoutFrom(slots, running, r.role, r.task, 0);
      && |lease.slots| == |slots| && (lease.index.Some? ==> lease.index.value < |slots|)
      && (lease.index.Some? && slots[lease.index.value].id == slots[k].id ==>
            lease.index == Some(k) && slots[k].id in running && lease.slots[k].uses == slots[k].uses + 1)
      && (running == {slots[k].id} ==> lease.index == Some(k))
  {
    CheckoutTakesFirst(slots, running, r.role, r.task, 0);
    hide CheckoutFrom;
    if running == {slots[k].id} { assert Free(slots[k], running); }
  }

  /** Startup leaves a pool that a run may begin with. */
  lemma {:induction false} StartupIsInit(c: Setup, docker: nat -> Option<string>, n: nat, requests: seq<Request>,
        running: set<string>, seen: set<string>)
    requires forall i, j :: 0 <= i < j < n && docker(i).Some? && docker(j).Some? ==> docker(i) != docker(j)
    requires forall i :: 0 <= i < n && docker(i).Some? ==> docker(i).value in seen
    ensures Init(c, requests, World(Started(c, docker, n), running, seen, {}, {}, seq(|requests|, i => Start)))
  {
    var (slots, rounds) := (Started(c, docker, n), Rounds(docker, n));
    StartedAt(c, docker, n);
    hide Started, Rounds;
    forall i, j | 0 <= i < j < |slots| ensures slots[i].id != slots[j].id && slots[i].name != slots[j].name {
      assert rounds[i] < rounds[j] < n;
      IndexRoundTrip(rounds[i]);
      IndexRoundTrip(rounds[j]);
    }
    forall k | 0 <= k < |slots| ensures slots[k].id in seen && IsFresh(c, slots[k]) {
      assert rounds[k] < n && slots[k] == Spawned(c, rounds[k], slots[k].id);
    }
  }

  /** The first `n` rounds in which Docker started a container. */
  function Rounds(docker: nat -> Option<string>, n: nat): seq<nat> {
    if n == 0 then [] else Rounds(docker, n - 1) + (if docker(n - 1).Some? then [n - 1] else [])
  }

  lemma {:induction false} StartedAt(c: Setup, docker: nat -> Option<string>, n: nat)
    ensures var (slots, rounds) := (Started(c, docker, n), Rounds(docker, n));
      && |slots| == |rounds|
      && (forall k :: 0 <= k < |rounds| ==> rounds[k] < n && docker(rounds[k]).Some?)
      && (forall k :: 0 <= k < |rounds| ==> slots[k] == Spawned(c, rounds[k], docker(rounds[k]).value))
      && (forall k, m :: 0 <= k < m < |rounds| ==> rounds[k] < rounds[m])
      && (forall i: nat :: i < n && docker(i).Some? ==> i in rounds)
  {
    if n == 0 {
    } else {
      StartedAt(c, docker, n - 1);
    }
  }

  // ---------------------------------------------------------------- the failing sides

  /** A pool of one container, which runs. */
  function One(c: Setup, n: nat): World {
    World([Spawned(c, 0, "x")], {"x"}, {"x"}, {}, {}, seq(n, i => Start))
  }

  lemma {:induction false} OneIsInit(c: Setup, requests: seq<Request>)
    ensures Init(c, requests, One(c, |requests|))
  {
    var w := One(c, |requests|);
    assert w.slots[0] == Spawned(c, 0, w.slots[0].id);
    assert IsFresh(c, w.slots[0]);
  }

  /** The only container is leased to a new invocation. */
  lemma {:induction false} TakesTheOne(c: Setup, rs: seq<Request>, w: World, call: nat) returns (v: World)
    requires |w.pcs| == |rs| && call < |rs| && w.pcs[call] == Start && |w.slots| == 1 && Free(w.slots[0], w.running)
    ensures Move(c, rs, w, call, Checkout) == Some(v)
    ensures v == w.(slots := [Taken(w.slots[0], rs[call].role, rs[call].task)],
        pcs := w.pcs[call := Leased(w.slots[0].id)])
  {
    CheckoutTakesFirst(w.slots, w.running, rs[call].role, rs[call].task, 0);
    hide CheckoutFrom;
    v := Move(c, rs, w, call, Checkout).value;
    assert v.slots == [Taken(w.slots[0], rs[call].role, rs[call].task)];
  }

  /** An invocation is cancelled while its worker gets ready: it is over, and its container stays
      leased. */
  lemma {:induction false} CancelledWaitingLeaks(c: Setup, r: Request)
    ensures var ss := [By(0, Checkout), By(0, CancelWaiting)];
      exists ws: seq<World> :: IsRun(c, [r], ss, ws) && Ends(ws[2], 1)
  {
    var ss := [By(0, Checkout), By(0, CancelWaiting)];
    var w0 := One(c, 1);
    OneIsInit(c, [r]);
    var w1 := TakesTheOne(c, [r], w0, 0);
    var w2 := Move(c, [r], w1, 0, CancelWaiting).value;
    var ws := [w0, w1, w2];
    hide Move, Init;
    assert StepAt(c, [r], ss, ws, 0) && StepAt(c, [r], ss, ws, 1);
    assert IsRun(c, [r], ss, ws);
    assert Ends(ws[2], 1);
  }

  /** All invocations are over, and the one container is leased for the given time. */
  predicate Ends(w: World, uses: nat) {
    && (forall j :: 0 <= j < |w.pcs| ==> Over(w.pcs[j]))
    && |w.slots| == 1 && w.slots[0].state.Busy? && w.slots[0].uses == uses
  }

  /** With one use allowed: the container is given back, Docker neither removes nor replaces it, and the
      next invocation leases it a second time. */
  lemma {:induction false} KeptContainerIsLeasedTwice(c: Setup, r: Request)
    requires c.maxUses == 1
    ensures var ss := [By(0, Checkout), By(0, Ready), By(0, Reply(SendFailed)), By(0, GiveBack(None, false)),
        By(1, Checkout)];
      exists ws: seq<World> :: IsRun(c, [r, r], ss, ws) && |ws[5].slots| == 1 && ws[5].slots[0].state.Busy? &&
        ws[5].slots[0].uses == 2
  {
    var ss := [By(0, Checkout), By(0, Ready), By(0, Reply(SendFailed)), By(0, GiveBack(None, false)), By(1, Checkout)];
    var rs := [r, r];
    var w0 := One(c, 2);
    OneIsInit(c, rs);
    var w1 := TakesTheOne(c, rs, w0, 0);
    var w2 := Goes(w1, 0, Sending("x"));
    var w3 := Goes(w2, 0, Closing("x", SendFailed));
    assert Move(c, rs, w1, 0, Ready) == Some(w2) && Move(c, rs, w2, 0, Reply(SendFailed)) == Some(w3);
    assert Position(w3.slots, "x", 0) == Some(0);
    GiveBackMove(c, rs, w3, 0, None, false, 0);
    var w4 := Move(c, rs, w3, 0, GiveBack(None, false)).value;
    hide Move, Init;
    assert Returned(w3.slots, c, "x", None) == w3.slots[0 := Freed(w3.slots[0])];
    var w5 := TakesTheOne(c, rs, w4, 1);
    var ws := [w0, w1, w2, w3, w4, w5];
    assert StepAt(c, rs, ss, ws, 0) && StepAt(c, rs, ss, ws, 1) && StepAt(c, rs, ss, ws, 2);
    assert StepAt(c, rs, ss, ws, 3) && StepAt(c, rs, ss, ws, 4);
    assert IsRun(c, rs, ss, ws);
  }

  function Goes(w: World, call: nat, pc: Pc): World
    requires call < |w.pcs|
  {
    w.(pcs := w.pcs[call := pc])
  }
}
