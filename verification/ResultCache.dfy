/**
 The bounded TTL cache of src/dispatcher/result_cache.py.

 A Python dict keeps insertion order, and `min` returns the first minimum, so the store
 is a sequence of entries with distinct keys.
 */
module Cache {
  import opened Wrappers
  import opened Decimal

  datatype Entry<R> = Entry(key: string, result: R, expiresAt: int)

  datatype Config = Config(ttl: int, maxSize: int)

  datatype Lookup<R> = Lookup(store: seq<Entry<R>>, hit: Option<R>)

  /** `min` of an empty store raises ValueError. */
  datatype Stored<R> = Stored(store: seq<Entry<R>>) | Raised

  /** f"{agent_type}:{hash(task)}:{task_id}" */
  function Key(agentType: string, hash: int, taskId: string): string {
    agentType + ":" + PrintInt(hash) + ":" + taskId
  }

  /** The task id `t` ends in a printed integer, a colon and `u`, at its start or after a colon. */
  predicate HidesAt(t: string, u: string, n: int) {
    var tail := PrintInt(n) + ":" + u;
    && |t| >= |tail| && t[|t| - |tail|..] == tail
    && (|t| == |tail| || t[|t| - |tail| - 1] == ':')
  }

  ghost predicate Hides(t: string, u: string) { exists n :: HidesAt(t, u, n) }

  predicate Collide(a: string, h: int, t: string, b: string, g: int, u: string) {
    Key(a, h, t) == Key(b, g, u) && !(a == b && h == g && t == u)
  }

  /** Two task ids can be confused, under whatever agent types and hashes, exactly when one of them
      hides the other. */
  lemma {:induction false} KeysCollideExactlyWhen(t: string, u: string)
    ensures (exists a, h, b, g :: Collide(a, h, t, b, g, u)) <==> Hides(t, u) || Hides(u, t)
  {
    if n :| HidesAt(t, u, n) { var b := HidingCollides(t, u, n); }
    if n :| HidesAt(u, t, n) {
      var b := HidingCollides(u, t, n);
      assert Collide(b, n, t, "", 0, u);
    }
    forall a, h, b, g | Collide(a, h, t, b, g, u) ensures Hides(t, u) || Hides(u, t) {
      if !Hides(t, u) && !Hides(u, t) { KeyInjective(a, h, t, b, g, u); }
    }
  }

  /** Keys tell agent type, hash and task id, even where agent types hold colons, as long as neither
      task id hides the other; no task id hides itself. */
  lemma {:induction false} KeyInjective(a: string, h: int, t: string, b: string, g: int, u: string)
    requires Key(a, h, t) == Key(b, g, u)
    requires t == u || (!Hides(t, u) && !Hides(u, t))
    ensures a == b && h == g && t == u
  {
    if |t| > |u| {
      LongerHides(a, h, t, b, g, u);
    } else if |t| < |u| {
      LongerHides(b, g, u, a, h, t);
    } else {
      var (x, y) := (a + ":" + PrintInt(h), b + ":" + PrintInt(g));
      assert Key(a, h, t) == x + ":" + t && Key(b, g, u) == y + ":" + u;
      assert x == (x + ":" + t)[..|x|] && y == (y + ":" + u)[..|y|];
      assert t == (x + ":" + t)[|x| + 1..] && u == (y + ":" + u)[|y| + 1..];
      NoColon(h);
      NoColon(g);
      LastSeparator(a, PrintInt(h), b, PrintInt(g), ':');
      PrintIntInjective(h, g);
    }
  }

  lemma {:induction false} NoColon(n: int)
    ensures ':' !in PrintInt(n)
  {
    assert AllDigits(PrintNat(if n < 0 then -n else n));
  }

  /** In one key read in two ways, the longer task id hides the shorter. */
  lemma {:induction false} LongerHides(a: string, h: int, t: string, b: string, g: int, u: string)
    requires Key(a, h, t) == Key(b, g, u) && |t| > |u|
    ensures HidesAt(t, u, g)
  {
    var s, tail := Key(a, h, t), PrintInt(g) + ":" + u;
    NoColon(g);
    assert s == a + ":" + PrintInt(h) + ":" + t && s == b + ":" + tail;
    assert s[|s| - |t|..] == t && s[|s| - |t| - 1] == ':';
    assert s[|s| - |tail|..] == tail && s[|s| - |tail| - 1] == ':';
    assert forall j :: |s| - |tail| <= j < |s| - |u| - 1 ==> s[j] == PrintInt(g)[j - (|s| - |tail|)];
    assert |t| >= |tail|;
    assert t[|t| - |tail|..] == s[|s| - |tail|..];
    assert |t| > |tail| ==> t[|t| - |tail| - 1] == s[|s| - |tail| - 1];
  }

  lemma {:induction false} HidingCollides(t: string, u: string, n: int) returns (b: string)
    requires HidesAt(t, u, n)
    ensures Collide("", 0, t, b, n, u)
  {
    hide PrintInt;
    var tail := PrintInt(n) + ":" + u;
    var start := t[..|t| - |tail|];
    var before := ":" + PrintInt(0) + ":" + start;
    b := before[..|before| - 1];
    assert before[|before| - 1] == ':' by {
      if start != [] { assert before[|before| - 1] == start[|start| - 1]; }
    }
    assert b + ":" == before;
    KeyCut("", 0, start, tail);
    assert t == start + tail && |t| > |u|;
    KeyTail(b, n, u);
  }

  /** A key cut within its task id. */
  lemma {:induction false} KeyCut(a: string, h: int, x: string, y: string)
    ensures Key(a, h, x + y) == a + ":" + PrintInt(h) + ":" + x + y
  {
  }

  lemma {:induction false} KeyTail(b: string, n: int, u: string)
    ensures Key(b, n, u) == (b + ":") + (PrintInt(n) + ":" + u)
  {
  }

  // ---------------------------------------------------------------- one operation

  predicate DistinctKeys<R>(s: seq<Entry<R>>) {
    forall i, j :: 0 <= i < j < |s| ==> s[i].key != s[j].key
  }

  /** The position of the key at or after `from`, or |s|. */
  function FindFrom<R>(s: seq<Entry<R>>, key: string, from: nat): (i: nat)
    requires from <= |s|
    ensures from <= i <= |s|
    ensures i < |s| ==> s[i].key == key
    ensures forall j :: from <= j < i ==> s[j].key != key
    decreases |s| - from
  {
    if from == |s| || s[from].key == key then from else FindFrom(s, key, from + 1)
  }

  /** The position of the key, or |s|. */
  function Find<R>(s: seq<Entry<R>>, key: string): (i: nat)
    ensures i <= |s|
    ensures i < |s| ==> s[i].key == key
    ensures forall j :: 0 <= j < i ==> s[j].key != key
  {
    FindFrom(s, key, 0)
  }

  function Remove<R>(s: seq<Entry<R>>, i: nat): seq<Entry<R>>
    requires i < |s|
  {
    s[..i] + s[i + 1..]
  }

  /** store[key] = value keeps the place of an existing key */
  function Assign<R>(s: seq<Entry<R>>, e: Entry<R>): seq<Entry<R>> {
    var i := Find(s, e.key);
    if i < |s| then s[i := e] else s + [e]
  }

  /** The first entry with the nearest expiry among the first `n`. */
  function MinUpTo<R>(s: seq<Entry<R>>, n: nat): (i: nat)
    requires 0 < n <= |s|
    ensures i < n
    ensures forall j :: 0 <= j < n ==> s[i].expiresAt <= s[j].expiresAt
    ensures forall j :: 0 <= j < i ==> s[i].expiresAt < s[j].expiresAt
  {
    if n == 1 then 0
    else
      var i := MinUpTo(s, n - 1);
      if s[n - 1].expiresAt < s[i].expiresAt then n - 1 else i
  }

  function MinIndex<R>(s: seq<Entry<R>>): (i: nat)
    requires |s| > 0
    ensures i < |s|
    ensures forall j :: 0 <= j < |s| ==> s[i].expiresAt <= s[j].expiresAt
    ensures forall j :: 0 <= j < i ==> s[i].expiresAt < s[j].expiresAt
  {
    MinUpTo(s, |s|)
  }

  function Get<R>(s: seq<Entry<R>>, key: string, now: int): Lookup<R> {
    var i := Find(s, key);
    if i == |s| then Lookup(s, None)
    else if now > s[i].expiresAt then Lookup(Remove(s, i), None)
    else Lookup(s, Some(s[i].result))
  }

  /** What is kept to make room: a full store loses its nearest expiry. */
  function MakeRoom<R>(c: Config, s: seq<Entry<R>>): seq<Entry<R>> {
    if |s| >= c.maxSize && |s| > 0 then Remove(s, MinIndex(s)) else s
  }

  function Put<R>(c: Config, s: seq<Entry<R>>, key: string, result: R, now: int): Stored<R> {
    if |s| >= c.maxSize && |s| == 0 then Raised
    else Stored(Assign(MakeRoom(c, s), Entry(key, result, now + c.ttl)))
  }

  class ResultCache<R> {
    const config: Config
    var store: seq<Entry<R>>

    constructor (c: Config)
      ensures config == c && store == []
    {
      config := c;
      store := [];
    }

    method Fetch(key: string, now: int) returns (hit: Option<R>)
      modifies this
      ensures Lookup(store, hit) == Get(old(store), key, now)
    {
      var i := Find(store, key);
      if i == |store| {
        return None;
      }
      var entry := store[i];
      if now > entry.expiresAt {
        store := Remove(store, i);
        return None;
      }
      return Some(entry.result);
    }

    /** `raised` is the ValueError of an empty store that may hold nothing; failures are never stored. */
    method Save(key: string, success: bool, result: R, now: int) returns (raised: bool)
      modifies this
      ensures if success then
                (if raised then Put(config, old(store), key, result, now) == Raised && store == old(store)
                 else Put(config, old(store), key, result, now) == Stored(store))
              else !raised && store == old(store)
    {
      if !success {
        return false;
      }
      if |store| >= config.maxSize {
        if |store| == 0 {
          return true;
        }
        // evict the entry with the nearest expiry
        var oldest := 0;
        for i := 1 to |store|
          invariant oldest < i
          invariant forall j :: 0 <= j < i ==> store[oldest].expiresAt <= store[j].expiresAt
          invariant forall j :: 0 <= j < oldest ==> store[oldest].expiresAt < store[j].expiresAt
        {
          if store[i].expiresAt < store[oldest].expiresAt {
            oldest := i;
          }
        }
        store := Remove(store, oldest);
      }
      store := Assign(store, Entry(key, result, now + config.ttl));
      return false;
    }
  }

  // ---------------------------------------------------------------- histories

  /** A lookup, a put of a successful result that did not raise, or a caller that left the cache alone. */
  datatype Event<R> = Got(key: string, at: int) | Kept(key: string, at: int, result: R) | Skipped(at: int)

  ghost predicate StepOk<R>(c: Config, s: seq<Entry<R>>, e: Event<R>, t: seq<Entry<R>>) {
    match e
    case Got(key, at) => t == Get(s, key, at).store
    case Kept(key, at, result) => Put(c, s, key, result, at) == Stored(t)
    case Skipped(_) => t == s
  }

  /** Any interleaving of lookups and puts, by whichever dispatches, in the order of the cache's lock. */
  ghost predicate IsRun<R>(c: Config, es: seq<Event<R>>, ss: seq<seq<Entry<R>>>) {
    && |ss| == |es| + 1
    && ss[0] == []
    && forall i: nat :: StepAt(c, es, ss, i)
  }

  ghost predicate StepAt<R>(c: Config, es: seq<Event<R>>, ss: seq<seq<Entry<R>>>, i: nat)
    requires |ss| == |es| + 1
  {
    i < |es| ==> StepOk(c, ss[i], es[i], ss[i + 1])
  }

  /** Event `i` is the latest put of the key among the first `n`: what an unbounded cache without expiry holds. */
  ghost predicate LastPut<R>(es: seq<Event<R>>, n: nat, key: string, i: nat)
    requires n <= |es|
  {
    && i < n && es[i].Kept? && es[i].key == key
    && forall j :: i < j < n && es[j].Kept? ==> es[j].key != key
  }

  ghost predicate FromLastPut<R>(c: Config, es: seq<Event<R>>, n: nat, e: Entry<R>)
    requires n <= |es|
  {
    exists i: nat :: LastPut(es, n, e.key, i) && e.result == es[i].result && e.expiresAt == es[i].at + c.ttl
  }

  ghost predicate SubMap<R>(c: Config, es: seq<Event<R>>, n: nat, s: seq<Entry<R>>)
    requires n <= |es|
  {
    && DistinctKeys(s)
    && forall k :: 0 <= k < |s| ==> FromLastPut(c, es, n, s[k])
  }

  lemma {:induction false} RemoveKeeps<R>(s: seq<Entry<R>>, i: nat)
    requires i < |s| && DistinctKeys(s)
    ensures DistinctKeys(Remove(s, i))
    ensures forall k :: 0 <= k < |s| - 1 ==> Remove(s, i)[k] == s[if k < i then k else k + 1]
  {
  }

  lemma {:induction false} AssignKeeps<R>(s: seq<Entry<R>>, e: Entry<R>)
    requires DistinctKeys(s)
    ensures var t := Assign(s, e);
            DistinctKeys(t) && |t| <= |s| + 1
            && forall k :: 0 <= k < |t| ==> t[k] == e || (k < |s| && t[k] == s[k] && t[k].key != e.key)
  {
  }

  lemma {:induction false} SubMapRemove<R>(c: Config, es: seq<Event<R>>, n: nat, s: seq<Entry<R>>, v: nat)
    requires n <= |es| && SubMap(c, es, n, s) && v < |s|
    ensures SubMap(c, es, n, Remove(s, v))
  {
    RemoveKeeps(s, v);
  }

  lemma {:induction false} StillLast<R>(c: Config, es: seq<Event<R>>, n: nat, e: Entry<R>)
    requires n < |es| && FromLastPut(c, es, n, e)
    requires es[n].Kept? ==> es[n].key != e.key
    ensures FromLastPut(c, es, n + 1, e)
  {
    var i: nat :| LastPut(es, n, e.key, i) && e.result == es[i].result && e.expiresAt == es[i].at + c.ttl;
    assert LastPut(es, n + 1, e.key, i);
  }

  lemma {:induction false} SubMapAssign<R>(c: Config, es: seq<Event<R>>, n: nat, s: seq<Entry<R>>)
    requires n < |es| && es[n].Kept? && SubMap(c, es, n, s)
    ensures var t := Assign(s, Entry(es[n].key, es[n].result, es[n].at + c.ttl));
            SubMap(c, es, n + 1, t) && |t| <= |s| + 1
  {
    var added := Entry(es[n].key, es[n].result, es[n].at + c.ttl);
    var t := Assign(s, added);
    AssignKeeps(s, added);
    assert LastPut(es, n + 1, added.key, n);
    forall k | 0 <= k < |t| ensures FromLastPut(c, es, n + 1, t[k]) {
      if t[k] != added { StillLast(c, es, n, s[k]); }
    }
  }

  lemma {:induction false} SubMapLookup<R>(c: Config, es: seq<Event<R>>, n: nat, s: seq<Entry<R>>, t: seq<Entry<R>>)
    requires n < |es| && !es[n].Kept? && SubMap(c, es, n, s) && StepOk(c, s, es[n], t)
    ensures SubMap(c, es, n + 1, t) && |t| <= |s|
  {
    if t != s { SubMapRemove(c, es, n, s, Find(s, es[n].key)); }
    forall k | 0 <= k < |t| ensures FromLastPut(c, es, n + 1, t[k]) {
      StillLast(c, es, n, t[k]);
    }
  }

  /** No larger than max_size, and empty when nothing may be held. */
  predicate Bounded<R>(c: Config, s: seq<Entry<R>>) { |s| <= c.maxSize || |s| == 0 }

  lemma {:induction false} SubMapRoom<R>(c: Config, es: seq<Event<R>>, n: nat, s: seq<Entry<R>>)
    requires n <= |es| && SubMap(c, es, n, s) && 1 <= c.maxSize && Bounded(c, s)
    ensures SubMap(c, es, n, MakeRoom(c, s)) && |MakeRoom(c, s)| < c.maxSize
  {
    if |s| >= c.maxSize { SubMapRemove(c, es, n, s, MinIndex(s)); }
  }

  lemma {:induction false} SubMapPut<R>(c: Config, es: seq<Event<R>>, n: nat, s: seq<Entry<R>>, t: seq<Entry<R>>)
    requires n < |es| && es[n].Kept? && SubMap(c, es, n, s) && Bounded(c, s)
    requires StepOk(c, s, es[n], t)
    ensures SubMap(c, es, n + 1, t) && Bounded(c, t)
  {
    SubMapRoom(c, es, n, s);
    SubMapAssign(c, es, n, MakeRoom(c, s));
  }

  /** The store is always a sub-map, no larger than max_size, of the ideal map of last puts. */
  lemma {:induction false} StoreIsSubMap<R>(c: Config, es: seq<Event<R>>, ss: seq<seq<Entry<R>>>, n: nat)
    requires IsRun(c, es, ss) && n <= |es|
    ensures SubMap(c, es, n, ss[n]) && Bounded(c, ss[n])
  {
    hide StepOk;
    if n == 0 {
    } else {
      StoreIsSubMap(c, es, ss, n - 1);
      assert StepAt(c, es, ss, n - 1);
      if es[n - 1].Kept? {
        SubMapPut(c, es, n - 1, ss[n - 1], ss[n]);
      } else {
        SubMapLookup(c, es, n - 1, ss[n - 1], ss[n]);
      }
    }
  }

  /** A hit is the result of the latest put of that very key, at most ttl old. */
  lemma {:induction false} HitIsLastPut<R>(c: Config, es: seq<Event<R>>, ss: seq<seq<Entry<R>>>, n: nat, key: string,
        now: int)
    returns (i: nat)
    requires IsRun(c, es, ss) && n <= |es|
    requires Get(ss[n], key, now).hit.Some?
    ensures LastPut(es, n, key, i) && Get(ss[n], key, now).hit == Some(es[i].result) && now <= es[i].at + c.ttl
  {
    StoreIsSubMap(c, es, ss, n);
    var e := ss[n][Find(ss[n], key)];
    assert FromLastPut(c, es, n, e);
    i :| LastPut(es, n, e.key, i) && e.result == es[i].result && e.expiresAt == es[i].at + c.ttl;
  }

  // ---------------------------------------------------------------- survival

  /** How many of the first `n` entries expire after `x`. */
  function LaterUpTo<R>(s: seq<Entry<R>>, n: nat, x: int): nat
    requires n <= |s|
  {
    if n == 0 then 0 else LaterUpTo(s, n - 1, x) + (if s[n - 1].expiresAt > x then 1 else 0)
  }

  function Later<R>(s: seq<Entry<R>>, x: int): nat { LaterUpTo(s, |s|, x) }

  lemma {:induction false} LaterAgree<R>(s: seq<Entry<R>>, t: seq<Entry<R>>, n: nat, x: int)
    requires n <= |s| && n <= |t| && forall k :: 0 <= k < n ==> s[k] == t[k]
    ensures LaterUpTo(s, n, x) == LaterUpTo(t, n, x)
  {
    if n == 0 {
    } else {
      LaterAgree(s, t, n - 1, x);
    }
  }

  lemma {:induction false} LaterRemoveUpTo<R>(s: seq<Entry<R>>, i: nat, n: nat, x: int)
    requires i < n <= |s|
    ensures LaterUpTo(s, n, x)
         == LaterUpTo(Remove(s, i), n - 1, x) + (if s[i].expiresAt > x then 1 else 0)
    decreases n
  {
    if n == i + 1 {
      LaterAgree(s, Remove(s, i), i, x);
    } else {
      LaterRemoveUpTo(s, i, n - 1, x);
    }
  }

  lemma {:induction false} LaterRemove<R>(s: seq<Entry<R>>, i: nat, x: int)
    requires i < |s|
    ensures Later(s, x) == Later(Remove(s, i), x) + (if s[i].expiresAt > x then 1 else 0)
  {
    LaterRemoveUpTo(s, i, |s|, x);
  }

  lemma {:induction false} LaterAssign<R>(s: seq<Entry<R>>, e: Entry<R>, x: int)
    ensures Later(Assign(s, e), x) <= Later(s, x) + (if e.expiresAt > x then 1 else 0)
  {
    var i, t := Find(s, e.key), Assign(s, e);
    if i < |s| {
      assert Remove(t, i) == Remove(s, i);
      LaterRemove(s, i, x);
      LaterRemove(t, i, x);
    } else {
      LaterAgree(s, t, |s|, x);
    }
  }

  /** How many puts there are among events lo .. hi. */
  function Puts<R>(es: seq<Event<R>>, lo: nat, hi: nat): nat
    requires hi <= |es|
  {
    if hi <= lo then 0 else Puts(es, lo, hi - 1) + (if es[hi - 1].Kept? then 1 else 0)
  }

  /** The clock never goes back, and no two puts read the same time. */
  ghost predicate Timely<R>(es: seq<Event<R>>) {
    && (forall i, j :: 0 <= i < j < |es| ==> es[i].at <= es[j].at)
    && (forall i, j :: 0 <= i < j < |es| && es[i].Kept? && es[j].Kept? ==> es[i].at < es[j].at)
  }

  /** What put `i` stores. */
  function PutEntry<R>(c: Config, es: seq<Event<R>>, i: nat): Entry<R>
    requires i < |es| && es[i].Kept?
  {
    Entry(es[i].key, es[i].result, es[i].at + c.ttl)
  }

  lemma {:induction false} InRemove<R>(s: seq<Entry<R>>, v: nat, e: Entry<R>)
    requires v < |s| && e in s && s[v] != e
    ensures e in Remove(s, v)
  {
    var k :| 0 <= k < |s| && s[k] == e;
    assert Remove(s, v)[if k < v then k else k - 1] == e;
  }

  lemma {:induction false} InAssign<R>(s: seq<Entry<R>>, a: Entry<R>, e: Entry<R>)
    requires e == a || (e in s && a.key != e.key)
    ensures e in Assign(s, a)
  {
    var f := Find(s, a.key);
    if e == a {
      assert Assign(s, a)[f] == e;
    } else {
      var k :| 0 <= k < |s| && s[k] == e;
      assert Assign(s, a)[k] == e;
    }
  }

  lemma {:induction false} FindIn<R>(s: seq<Entry<R>>, e: Entry<R>)
    requires DistinctKeys(s) && e in s
    ensures Find(s, e.key) < |s| && s[Find(s, e.key)] == e
  {
  }

  lemma {:induction false} LaterNone<R>(s: seq<Entry<R>>, n: nat, x: int)
    requires n <= |s| && forall k :: 0 <= k < n ==> s[k].expiresAt <= x
    ensures LaterUpTo(s, n, x) == 0
  {
    if n == 0 {
    } else {
      LaterNone(s, n - 1, x);
    }
  }

  /** Nothing stored before a put expires later than what it stores. */
  lemma {:induction false} NoneLater<R>(c: Config, es: seq<Event<R>>, i: nat, s: seq<Entry<R>>)
    requires Timely(es) && i < |es| && es[i].Kept? && SubMap(c, es, i, s)
    ensures Later(MakeRoom(c, s), PutEntry(c, es, i).expiresAt) == 0
  {
    var x := PutEntry(c, es, i).expiresAt;
    forall k | 0 <= k < |s| ensures s[k].expiresAt <= x {
      assert FromLastPut(c, es, i, s[k]);
    }
    LaterNone(s, |s|, x);
    if MakeRoom(c, s) != s { LaterRemove(s, MinIndex(s), x); }
  }

  /** Every other entry came from another put, so it expires at another time. */
  lemma {:induction false} OthersExpireApart<R>(c: Config, es: seq<Event<R>>, i: nat, n: nat, s: seq<Entry<R>>)
    requires i < n <= |es| && es[i].Kept? && Timely(es) && SubMap(c, es, n, s)
    requires LastPut(es, n, es[i].key, i)
    ensures forall k :: 0 <= k < |s| && s[k] != PutEntry(c, es, i) ==> s[k].expiresAt != es[i].at + c.ttl
  {
    forall k | 0 <= k < |s| && s[k] != PutEntry(c, es, i)
      ensures s[k].expiresAt != es[i].at + c.ttl
    {
      assert FromLastPut(c, es, n, s[k]);
      var j: nat :| LastPut(es, n, s[k].key, j) && s[k].result == es[j].result && s[k].expiresAt == es[j].at + c.ttl;
      assert j != i;
    }
  }

  lemma {:induction false} SomeEarlier<R>(s: seq<Entry<R>>, n: nat, k: nat, x: int) returns (j: nat)
    requires n <= |s| && LaterUpTo(s, n, x) < n - (if k < n then 1 else 0)
    ensures j < n && j != k && s[j].expiresAt <= x
  {
    if s[n - 1].expiresAt <= x && n - 1 != k {
      j := n - 1;
    } else {
      j := SomeEarlier(s, n - 1, k, x);
    }
  }

  /** The eviction of a put spares an entry that fewer than max_size - 1 others outlive. */
  lemma {:induction false} EvictionSpares<R>(c: Config, es: seq<Event<R>>, i: nat, n: nat, s: seq<Entry<R>>)
    requires i < n <= |es| && es[i].Kept? && Timely(es) && SubMap(c, es, n, s)
    requires LastPut(es, n, es[i].key, i) && PutEntry(c, es, i) in s
    requires Later(s, PutEntry(c, es, i).expiresAt) < c.maxSize - 1 && |s| >= c.maxSize
    ensures s[MinIndex(s)] != PutEntry(c, es, i)
  {
    var e := PutEntry(c, es, i);
    FindIn(s, e);
    var j := SomeEarlier(s, |s|, Find(s, e.key), e.expiresAt);
    OthersExpireApart(c, es, i, n, s);
    assert s[MinIndex(s)].expiresAt <= s[j].expiresAt < e.expiresAt;
  }

  lemma {:induction false} RoomSpares<R>(c: Config, es: seq<Event<R>>, i: nat, n: nat, s: seq<Entry<R>>)
    requires i < n <= |es| && es[i].Kept? && Timely(es) && SubMap(c, es, n, s)
    requires LastPut(es, n, es[i].key, i) && PutEntry(c, es, i) in s
    requires Later(s, PutEntry(c, es, i).expiresAt) < c.maxSize - 1
    ensures PutEntry(c, es, i) in MakeRoom(c, s)
    ensures Later(MakeRoom(c, s), PutEntry(c, es, i).expiresAt) <= Later(s, PutEntry(c, es, i).expiresAt)
  {
    if |s| >= c.maxSize {
      EvictionSpares(c, es, i, n, s);
      InRemove(s, MinIndex(s), PutEntry(c, es, i));
      LaterRemove(s, MinIndex(s), PutEntry(c, es, i).expiresAt);
    }
  }

  lemma {:induction false} LookupSpares<R>(s: seq<Entry<R>>, e: Entry<R>, key: string, at: int)
    requires e in s && at <= e.expiresAt
    ensures e in Get(s, key, at).store && Later(Get(s, key, at).store, e.expiresAt) <= Later(s, e.expiresAt)
  {
    var v := Find(s, key);
    if Get(s, key, at).store != s {
      LaterRemove(s, v, e.expiresAt);
      InRemove(s, v, e);
    }
  }

  /** Entry `i` is stored, and at most `later` others outlive it. */
  ghost predicate Alive<R>(c: Config, es: seq<Event<R>>, i: nat, s: seq<Entry<R>>, later: nat)
    requires i < |es| && es[i].Kept?
  {
    PutEntry(c, es, i) in s && Later(s, PutEntry(c, es, i).expiresAt) <= later
  }

  lemma {:induction false} AliveAtFirst<R>(c: Config, es: seq<Event<R>>, i: nat, s: seq<Entry<R>>, t: seq<Entry<R>>)
    requires Timely(es) && i < |es| && es[i].Kept? && SubMap(c, es, i, s) && StepOk(c, s, es[i], t)
    ensures Alive(c, es, i, t, 0)
  {
    var e := PutEntry(c, es, i);
    NoneLater(c, es, i, s);
    InAssign(MakeRoom(c, s), e, e);
    LaterAssign(MakeRoom(c, s), e, e.expiresAt);
  }

  lemma {:induction false} AliveStep<R>(c: Config, es: seq<Event<R>>, i: nat, n: nat, s: seq<Entry<R>>,
        t: seq<Entry<R>>,
                                        later: nat)
    requires Timely(es) && i < n < |es| && es[i].Kept? && SubMap(c, es, n, s)
    requires Alive(c, es, i, s, later) && StepOk(c, s, es[n], t)
    requires LastPut(es, n + 1, es[i].key, i) && es[n].at <= es[i].at + c.ttl
    requires es[n].Kept? ==> later < c.maxSize - 1
    ensures Alive(c, es, i, t, later + (if es[n].Kept? then 1 else 0))
  {
    hide Assign, MakeRoom, Get, LaterUpTo, SubMap;
    var e := PutEntry(c, es, i);
    if es[n].Got? {
      LookupSpares(s, e, es[n].key, es[n].at);
    } else if es[n].Kept? {
      assert LastPut(es, n, es[i].key, i);
      RoomSpares(c, es, i, n, s);
      InAssign(MakeRoom(c, s), PutEntry(c, es, n), e);
      LaterAssign(MakeRoom(c, s), PutEntry(c, es, n), e.expiresAt);
    }
  }

  lemma {:induction false} AliveKept<R>(c: Config, es: seq<Event<R>>, ss: seq<seq<Entry<R>>>, i: nat, n: nat)
    requires c.maxSize >= 1 && IsRun(c, es, ss) && Timely(es)
    requires i < n <= |es| && es[i].Kept? && LastPut(es, n, es[i].key, i)
    requires Puts(es, i + 1, n) <= c.maxSize - 1
    requires es[n - 1].at <= es[i].at + c.ttl
    ensures Alive(c, es, i, ss[n], Puts(es, i + 1, n))
    decreases n
  {
    hide StepOk, SubMap, Alive;
    StoreIsSubMap(c, es, ss, n - 1);
    assert StepAt(c, es, ss, n - 1);
    if n == i + 1 {
      AliveAtFirst(c, es, i, ss[i], ss[n]);
    } else {
      assert es[n - 2].at <= es[n - 1].at;
      assert LastPut(es, n - 1, es[i].key, i);
      AliveKept(c, es, ss, i, n - 1);
      AliveStep(c, es, i, n - 1, ss[n - 1], ss[n], Puts(es, i + 1, n - 1));
    }
  }

  /** An unexpired entry survives the next max_size - 1 puts, whatever their keys and the lookups between. */
  lemma {:induction false} SurvivesNextPuts<R>(c: Config, es: seq<Event<R>>, ss: seq<seq<Entry<R>>>, i: nat, now: int)
    requires c.maxSize >= 1 && IsRun(c, es, ss) && Timely(es)
    requires i < |es| && es[i].Kept? && LastPut(es, |es|, es[i].key, i)
    requires Puts(es, i + 1, |es|) <= c.maxSize - 1
    requires es[|es| - 1].at <= now <= es[i].at + c.ttl
    ensures Get(ss[|es|], es[i].key, now).hit == Some(es[i].result)
  {
    AliveKept(c, es, ss, i, |es|);
    StoreIsSubMap(c, es, ss, |es|);
    FindIn(ss[|es|], PutEntry(c, es, i));
  }
}
