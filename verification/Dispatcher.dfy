/**
 The unified dispatcher of src/dispatcher/dispatcher.py, one dispatch after the other.

 A dispatch resolves candidates over all backends, skips the unhealthy, tries the first
 few in order through a circuit breaker per target, and falls back to the result cache.
 Backends and clocks are oracles, gathered in a `Script`.
 */
module Dispatching {
  import opened Wrappers
  import Breaker
  import Cache

  datatype Kind = Docker | External

  datatype Target = Target(kind: Kind, agentType: string, agentId: Option<string>, endpoint: Option<string>)

  datatype Request = Request(agentType: string, task: string, timeout: Option<int>)

  /** The texts the dispatcher itself writes, and those it passes on. */
  datatype Error = Text(message: string) | CircuitOpen | TimedOutAfter(seconds: int) | NoCandidates(agentType: string)
                 | AllFailed

  datatype Attempt = Attempt(target: Target, success: bool, output: string, error: Option<Error>)

  datatype Result = Result(success: bool, output: string, artifacts: seq<string>, error: Option<Error>,
                           target: Option<Target>, attempts: seq<Attempt>, degraded: bool)

  /** Escaped: an exception leaves dispatch(). */
  datatype Outcome = Returned(result: Result) | Escaped

  datatype Config = Config(maxRetries: int, dispatchTimeout: int, healthPrecheck: bool)

  /** `hash` is Python's hash of the task text. */
  datatype Setup = Setup(config: Config, cache: Option<Cache.Config>, hash: string -> int)

  /**
   What invoking a backend does.  Both backends answer about the target they were given;
   Raised covers every exception of invoke, which `_try_one` re-raises while awaiting the task again.
   */
  datatype Reply = Replied(success: bool, output: string, error: Option<string>) | TimedOut | Raised

  /**
   The world during one dispatch: what each backend's candidates() returned (None when it raised),
   for each resolved pair when its breaker was checked and the health verdict (false when the check raised),
   the turn of each attempt, and the wall clock the cache reads.
   */
  datatype Script = Script(candidates: seq<Option<seq<Target>>>, check: nat -> Check, turn: nat -> Turn, cacheAt: int)

  datatype Check = Check(at: int, healthy: bool)

  /** One attempt: when the breaker is asked, what the backend does, when the outcome is recorded. */
  datatype Turn = Turn(askedAt: int, reply: Reply, doneAt: int)

  type Key = (Kind, string)
  type Books = map<Key, Breaker.Book>
  type Store = seq<Cache.Entry<Result>>

  /** Per target, everything called on its breaker; and the cache. */
  datatype State = State(books: Books, store: Store)

  // ---------------------------------------------------------------- breakers

  function BreakerKey(t: Target): Key {
    (t.kind, if t.agentId.Some? && t.agentId.value != "" then t.agentId.value else t.agentType)
  }

  function BookOf(b: Books, k: Key): Breaker.Book {
    if k in b then b[k] else Breaker.BLANK
  }

  /** A call on the target's breaker, built when it is first needed. */
  function Post(b: Books, t: Target, e: Breaker.Event): Books {
    b[BreakerKey(t) := Breaker.Post(BookOf(b, BreakerKey(t)), e)]
  }

  predicate IsOpen(b: Books, t: Target) { BookOf(b, BreakerKey(t)).state.mode == Breaker.Open }

  // ---------------------------------------------------------------- candidates

  /** The candidates of the first `n` backends, in backend order; a raising backend contributes none. */
  function Resolved(cands: seq<Option<seq<Target>>>, n: nat): seq<Target>
    requires n <= |cands|
  {
    if n == 0 then []
    else Resolved(cands, n - 1) + (if cands[n - 1].Some? then cands[n - 1].value else [])
  }

  datatype Filtered = Filtered(books: Books, kept: seq<Target>)

  /** The health check over the first `n` pairs. */
  function FilterHealthy(b: Books, ts: seq<Target>, s: Script, n: nat): Filtered
    requires n <= |ts|
  {
    if n == 0 then Filtered(b, [])
    else
      var f, t := FilterHealthy(b, ts, s, n - 1), ts[n - 1];
      var asked := Post(f.books, t, Breaker.Query(s.check(n - 1).at));
      Filtered(asked, if IsOpen(asked, t) || !s.check(n - 1).healthy then f.kept else f.kept + [t])
  }

  /** pairs[:n] for any n */
  function Take<T>(s: seq<T>, n: int): seq<T> {
    if n >= |s| then s else if n >= 0 then s[..n] else if -n <= |s| then s[..|s| + n] else []
  }

  function Chosen(c: Config, kept: seq<Target>): seq<Target> {
    Take(kept, if |kept| <= c.maxRetries + 1 then |kept| else c.maxRetries + 1)
  }

  // ---------------------------------------------------------------- attempts

  /** None when invoke raised. */
  datatype Tried = Tried(books: Books, attempt: Option<Attempt>)

  function Limit(c: Config, r: Request): int {
    if r.timeout.Some? then r.timeout.value else c.dispatchTimeout
  }

  function TryOne(b: Books, t: Target, limit: int, turn: Turn): Tried {
    var asked := Post(b, t, Breaker.Query(turn.askedAt));
    if IsOpen(asked, t) then Tried(asked, Some(Attempt(t, false, "", Some(CircuitOpen))))
    else
      match turn.reply
      case Raised => Tried(asked, None)
      case TimedOut =>
        Tried(Post(asked, t, Breaker.Failure(turn.doneAt)), Some(Attempt(t, false, "", Some(TimedOutAfter(limit)))))
      case Replied(success, output, error) =>
        Tried(Post(asked, t, if success then Breaker.Success(turn.doneAt) else Breaker.Failure(turn.doneAt)),
              Some(Attempt(t, success, output, if error.Some? then Some(Text(error.value)) else None)))
  }

  datatype Stop = Going | Won | Threw
  datatype Progress = Progress(books: Books, attempts: seq<Attempt>, stop: Stop)

  /** One turn of the failover loop; nothing more happens once it has stopped. */
  function Advance(p: Progress, t: Target, limit: int, turn: Turn): Progress {
    if p.stop != Going then p
    else
      var r := TryOne(p.books, t, limit, turn);
      match r.attempt
      case None => Progress(r.books, p.attempts, Threw)
      case Some(a) => Progress(r.books, p.attempts + [a], if a.success then Won else Going)
  }

  /** The failover loop after the first `n` candidates. */
  function Failover(b: Books, ts: seq<Target>, limit: int, turn: nat -> Turn, n: nat): (p: Progress)
    requires n <= |ts|
    ensures p.stop == Won ==> |p.attempts| > 0
  {
    if n == 0 then Progress(b, [], Going)
    else Advance(Failover(b, ts, limit, turn, n - 1), ts[n - 1], limit, turn(n - 1))
  }

  // ---------------------------------------------------------------- one dispatch

  /** The dispatcher never passes a task id. */
  function CacheKey(u: Setup, r: Request): string {
    Cache.Key(r.agentType, u.hash(r.task), "")
  }

  function Cached(u: Setup, store: Store, r: Request, at: int): Cache.Lookup<Result> {
    if u.cache.None? then Cache.Lookup(store, None) else Cache.Get(store, CacheKey(u, r), at)
  }

  function Degraded(hit: Result, attempts: seq<Attempt>): Result {
    Result(true, hit.output, hit.artifacts, None, hit.target, attempts, true)
  }

  function Fresh(a: Attempt, attempts: seq<Attempt>): Result {
    Result(true, a.output, [], None, Some(a.target), attempts, false)
  }

  function Failed(last: Attempt, attempts: seq<Attempt>): Result {
    Result(false, last.output, [],
           Some(if last.error.None? || last.error == Some(Text("")) then AllFailed else last.error.value),
           None, attempts, false)
  }

  datatype Dispatched = Dispatched(state: State, outcome: Outcome)

  /** What the failover loop works on: the books after the health check, and the candidates it may try. */
  function Prepared(u: Setup, d: State, s: Script): Filtered {
    var ts := Resolved(s.candidates, |s.candidates|);
    if u.config.healthPrecheck then FilterHealthy(d.books, ts, s, |ts|) else Filtered(d.books, ts)
  }

  function Attempts(u: Setup, d: State, r: Request, s: Script): Progress {
    var f := Prepared(u, d, s);
    var ts := Chosen(u.config, f.kept);
    Failover(f.books, ts, Limit(u.config, r), s.turn, |ts|)
  }

  /** The answer when no candidate is left to try. */
  function NoneLeft(u: Setup, b: Books, store: Store, r: Request, at: int): Dispatched {
    var look := Cached(u, store, r, at);
    Dispatched(State(b, look.store),
               Returned(if look.hit.Some? then Degraded(look.hit.value, [])
                        else Result(false, "", [], Some(NoCandidates(r.agentType)), None, [], false)))
  }

  /** A fresh success is cached before it is returned. */
  function Succeeded(u: Setup, b: Books, store: Store, r: Request, at: int, attempts: seq<Attempt>): Dispatched
    requires |attempts| > 0
  {
    var result := Fresh(attempts[|attempts| - 1], attempts);
    if u.cache.None? then Dispatched(State(b, store), Returned(result))
    else
      var put := Cache.Put(u.cache.value, store, CacheKey(u, r), result, at);
      if put.Raised? then Dispatched(State(b, store), Escaped) else Dispatched(State(b, put.store), Returned(result))
  }

  /** When all attempts failed the cache may still answer. */
  function AllLost(u: Setup, b: Books, store: Store, r: Request, at: int, attempts: seq<Attempt>): Dispatched {
    var look := Cached(u, store, r, at);
    Dispatched(State(b, look.store),
               if look.hit.Some? then Returned(Degraded(look.hit.value, attempts))
               else if attempts == [] then Escaped  // attempts[-1]
               else Returned(Failed(attempts[|attempts| - 1], attempts)))
  }

  function Dispatch(u: Setup, d: State, r: Request, s: Script): Dispatched {
    var f := Prepared(u, d, s);
    if f.kept == [] then NoneLeft(u, f.books, d.store, r, s.cacheAt)
    else
      var p := Attempts(u, d, r, s);
      match p.stop
      case Threw => Dispatched(State(p.books, d.store), Escaped)
      case Won => Succeeded(u, p.books, d.store, r, s.cacheAt, p.attempts)
      case Going => AllLost(u, p.books, d.store, r, s.cacheAt, p.attempts)
  }

  // ---------------------------------------------------------------- the class

  class Dispatcher {
    const setup: Setup
    const cache: Cache.ResultCache?<Result>
    var breakers: map<Key, Breaker.CircuitBreaker>
    /** Everything called on each breaker, and the state it is in. */
    ghost var books: Books

    ghost predicate Valid()
      reads this, breakers.Values
    {
      && books.Keys == breakers.Keys
      && (forall k :: k in breakers ==> breakers[k].config == Breaker.DEFAULTS && books[k].state == breakers[k].Abs())
      && (forall k, l :: k in breakers && l in breakers && k != l ==> breakers[k] != breakers[l])
      && (cache != null <==> setup.cache.Some?)
      && (cache != null ==> cache.config == setup.cache.value)
    }

    function Stored(): Store
      reads this, cache
    {
      if cache == null then [] else cache.store
    }

    constructor (u: Setup)
      ensures Valid() && setup == u && books == map[] && Stored() == []
      ensures breakers == map[] && (cache != null ==> fresh(cache))
    {
      setup := u;
      breakers, books := map[], map[];
      if u.cache.Some? {
        cache := new Cache.ResultCache(u.cache.value);
      } else {
        cache := null;
      }
    }

    method GetBreaker(t: Target) returns (breaker: Breaker.CircuitBreaker)
      requires Valid()
      modifies this
      ensures Valid() && fresh(breakers.Values - old(breakers.Values))
      ensures BreakerKey(t) in breakers && breaker == breakers[BreakerKey(t)]
      ensures books == old(books)[BreakerKey(t) := BookOf(old(books), BreakerKey(t))]
    {
      var key := BreakerKey(t);
      if key in breakers {
        breaker := breakers[key];
      } else {
        breaker := new Breaker.CircuitBreaker(Breaker.DEFAULTS);
        breakers := breakers[key := breaker];
        books := books[key := Breaker.BLANK];
      }
    }

    method Ask(t: Target, now: int) returns (open: bool)
      requires Valid()
      modifies this, breakers.Values
      ensures Valid() && fresh(breakers.Values - old(breakers.Values)) && BreakerKey(t) in breakers
      ensures books == Post(old(books), t, Breaker.Query(now)) && open == IsOpen(books, t)
    {
      hide Breaker.Step;
      var breaker := GetBreaker(t);
      var m := breaker.CurrentState(now);
      books := Post(books, t, Breaker.Query(now));
      open := m == Breaker.Open;
    }

    method Record(t: Target, success: bool, now: int)
      requires Valid() && BreakerKey(t) in breakers
      modifies this`books, breakers.Values
      ensures Valid()
      ensures books == Post(old(books), t, if success then Breaker.Success(now) else Breaker.Failure(now))
    {
      hide Breaker.Step;
      var breaker := breakers[BreakerKey(t)];
      if success {
        breaker.RecordSuccess(now);
      } else {
        breaker.RecordFailure(now);
      }
      books := Post(books, t, if success then Breaker.Success(now) else Breaker.Failure(now));
    }

    static method Resolve(cands: seq<Option<seq<Target>>>) returns (pairs: seq<Target>)
      ensures pairs == Resolved(cands, |cands|)
    {
      pairs := [];
      for i := 0 to |cands|
        invariant pairs == Resolved(cands, i)
      {
        if cands[i].None? {
          continue;  // candidates() failed for a backend
        }
        var found := cands[i].value;
        for j := 0 to |found|
          invariant pairs == Resolved(cands, i) + found[..j]
        {
          pairs := pairs + [found[j]];
        }
        assert found[..|found|] == found;
      }
    }

    method Filter(pairs: seq<Target>, s: Script) returns (healthy: seq<Target>)
      requires Valid()
      modifies this, breakers.Values
      ensures Valid() && fresh(breakers.Values - old(breakers.Values))
      ensures Filtered(books, healthy) == FilterHealthy(old(books), pairs, s, |pairs|)
    {
      healthy := [];
      for i := 0 to |pairs|
        invariant Valid() && fresh(breakers.Values - old(breakers.Values))
        invariant Filtered(books, healthy) == FilterHealthy(old(books), pairs, s, i)
      {
        var open := Ask(pairs[i], s.check(i).at);
        if open {
          continue;  // circuit open
        }
        if s.check(i).healthy {
          healthy := healthy + [pairs[i]];
        }
      }
    }

    method Try(t: Target, limit: int, turn: Turn) returns (attempt: Option<Attempt>)
      requires Valid()
      modifies this, breakers.Values
      ensures Valid() && fresh(breakers.Values - old(breakers.Values))
      ensures Tried(books, attempt) == TryOne(old(books), t, limit, turn)
    {
      var open := Ask(t, turn.askedAt);
      if open {
        return Some(Attempt(t, false, "", Some(CircuitOpen)));
      }
      match turn.reply {
        case TimedOut =>
          Record(t, false, turn.doneAt);
          return Some(Attempt(t, false, "", Some(TimedOutAfter(limit))));
        case Raised =>
          return None;  // awaiting the finished task again re-raises
        case Replied(success, output, error) =>
          Record(t, success, turn.doneAt);
          return Some(Attempt(t, success, output, if error.Some? then Some(Text(error.value)) else None));
      }
    }

    method Lookup(r: Request, at: int) returns (hit: Option<Result>)
      requires Valid()
      modifies cache
      ensures Valid() && Cache.Lookup(Stored(), hit) == Cached(setup, old(Stored()), r, at)
    {
      if cache == null {
        return None;
      }
      hit := cache.Fetch(CacheKey(setup, r), at);
    }

    /** One turn of the loop over the candidates: nothing, once it has stopped. */
    method TryNext(so: seq<Attempt>, halt: Stop, t: Target, limit: int, turn: Turn)
      returns (attempts: seq<Attempt>, stop: Stop)
      requires Valid()
      modifies this, breakers.Values
      ensures Valid() && fresh(breakers.Values - old(breakers.Values))
      ensures Progress(books, attempts, stop) == Advance(Progress(old(books), so, halt), t, limit, turn)
    {
      if halt != Going {
        return so, halt;
      }
      var attempt := Try(t, limit, turn);
      if attempt.None? {
        return so, Threw;
      }
      attempts := so + [attempt.value];
      stop := if attempt.value.success then Won else Going;
    }

    method FailOver(ts: seq<Target>, limit: int, turn: nat -> Turn) returns (attempts: seq<Attempt>, stop: Stop)
      requires Valid()
      modifies this, breakers.Values
      ensures Valid() && fresh(breakers.Values - old(breakers.Values))
      ensures Progress(books, attempts, stop) == Failover(old(books), ts, limit, turn, |ts|)
    {
      attempts, stop := [], Going;
      for i := 0 to |ts|
        invariant Valid() && fresh(breakers.Values - old(breakers.Values))
        invariant Progress(books, attempts, stop) == Failover(old(books), ts, limit, turn, i)
      {
        attempts, stop := TryNext(attempts, stop, ts[i], limit, turn(i));
      }
    }

    method Conclude(attempts: seq<Attempt>, r: Request, at: int) returns (outcome: Outcome)
      requires Valid() && |attempts| > 0
      modifies cache
      ensures Valid()
      ensures Dispatched(State(books, Stored()), outcome) == Succeeded(setup, books, old(Stored()), r, at, attempts)
    {
      var result := Fresh(attempts[|attempts| - 1], attempts);
      if cache != null {
        var raised := cache.Save(CacheKey(setup, r), true, result, at);
        if raised {
          return Escaped;
        }
      }
      return Returned(result);
    }

    method Degrade(attempts: seq<Attempt>, r: Request, at: int) returns (outcome: Outcome)
      requires Valid()
      modifies cache
      ensures Valid()
      ensures Dispatched(State(books, Stored()), outcome) == AllLost(setup, books, old(Stored()), r, at, attempts)
    {
      var hit := Lookup(r, at);
      if hit.Some? {
        return Returned(Degraded(hit.value, attempts));
      }
      if attempts == [] {
        return Escaped;
      }
      return Returned(Failed(attempts[|attempts| - 1], attempts));
    }

    method DoDispatch(r: Request, s: Script) returns (outcome: Outcome)
      requires Valid()
      modifies this, breakers.Values, cache
      ensures Valid() && fresh(breakers.Values - old(breakers.Values))
      ensures Dispatched(State(books, Stored()), outcome) == Dispatch(setup, State(old(books), old(Stored())), r, s)
    {
      hide Post, Advance, Cached, Succeeded, AllLost;
      var all := Resolve(s.candidates);
      var pairs := all;
      if setup.config.healthPrecheck {
        pairs := Filter(all, s);
      }
      if pairs == [] {
        var hit := Lookup(r, s.cacheAt);
        if hit.Some? {
          return Returned(Degraded(hit.value, []));
        }
        return Returned(Result(false, "", [], Some(NoCandidates(r.agentType)), None, [], false));
      }
      var attempts, stop := FailOver(Chosen(setup.config, pairs), Limit(setup.config, r), s.turn);
      match stop {
        case Threw =>
          outcome := Escaped;
        case Won =>
          outcome := Conclude(attempts, r, s.cacheAt);
        case Going =>
          outcome := Degrade(attempts, r, s.cacheAt);
      }
    }
  }
}
