/**
 What dispatching guarantees, for one dispatch on any state and for whole runs of dispatches
 (src/dispatcher/dispatcher.py with its circuit breakers and result cache).
 */
module DispatchRuns {
  import opened Wrappers
  import opened Dispatching
  import Breaker
  import Cache

  // ---------------------------------------------------------------- candidates and breakers

  /** How many candidates the first `n` backends gave. */
  function Before(cands: seq<Option<seq<Target>>>, n: nat): nat
    requires n <= |cands|
  {
    if n == 0 then 0 else Before(cands, n - 1) + (if cands[n - 1].Some? then |cands[n - 1].value| else 0)
  }

  /** Candidate `j` of backend `i` stands after all those of the backends before it. */
  lemma {:induction false} ResolvedAt(cands: seq<Option<seq<Target>>>, n: nat, i: nat, j: nat)
    requires n <= |cands|
    ensures |Resolved(cands, n)| == Before(cands, n)
    ensures i < n && cands[i].Some? && j < |cands[i].value| ==>
              Before(cands, i) + j < |Resolved(cands, n)| &&
                Resolved(cands, n)[Before(cands, i) + j] == cands[i].value[j]
  {
    if n == 0 {
    } else {
      ResolvedAt(cands, n - 1, i, j);
    }
  }

  /** Two targets share a breaker exactly when they are of one kind and have the same agent id, or the same
      agent type where there is none. */
  lemma {:induction false} ShareBreakerExactlyWhen(t: Target, v: Target)
    requires t.agentId != Some("") && v.agentId != Some("")
    ensures t.agentId.Some? && v.agentId.Some? ==>
              (BreakerKey(t) == BreakerKey(v) <==> t.kind == v.kind && t.agentId == v.agentId)
    ensures t.agentId.None? && v.agentId.None? ==>
              (BreakerKey(t) == BreakerKey(v) <==> t.kind == v.kind && t.agentType == v.agentType)
    ensures t.agentId.Some? && v.agentId.None? ==>
              (BreakerKey(t) == BreakerKey(v) <==> t.kind == v.kind && t.agentId.value == v.agentType)
  {
  }

  /** The target's breaker lets a call through at `at`: it is not open, or has been for its 30 seconds. */
  predicate LetsThrough(b: Books, t: Target, at: int) {
    var state := BookOf(b, BreakerKey(t)).state;
    state.mode != Breaker.Open || at - state.openedAt >= 30
  }

  /** One attempt: refused exactly when the breaker does not let it through; otherwise it is the backend's
      reply, a timeout of the request's limit, or the exception. */
  lemma {:induction false} TryGives(b: Books, t: Target, limit: int, turn: Turn)
    ensures IsOpen(Post(b, t, Breaker.Query(turn.askedAt)), t) <==> !LetsThrough(b, t, turn.askedAt)
    ensures var a := TryOne(b, t, limit, turn).attempt;
            && (!LetsThrough(b, t, turn.askedAt) ==> a == Some(Attempt(t, false, "", Some(CircuitOpen))))
            && (LetsThrough(b, t, turn.askedAt) ==>
                  && (turn.reply.Raised? ==> a == None)
                  && (turn.reply.TimedOut? ==> a == Some(Attempt(t, false, "", Some(TimedOutAfter(limit)))))
                  && (turn.reply.Replied? ==>
                        && a.Some? && a.value.target == t
                        && a.value.success == turn.reply.success && a.value.output == turn.reply.output
                        && (a.value.error.None? <==> turn.reply.error.None?)
                        && (turn.reply.error.Some? ==> a.value.error == Some(Text(turn.reply.error.value)))))
  {
  }

  lemma {:induction false} LimitIs(c: Config, r: Request, limit: int)
    ensures Limit(c, r.(timeout := Some(limit))) == limit && Limit(c, r.(timeout := None)) == c.dispatchTimeout
  {
  }

  // ---------------------------------------------------------------- which candidates are kept

  /** The books once the breakers of the first `n` candidates have been asked, each at its check. */
  function AskedFirst(b: Books, ts: seq<Target>, s: Script, n: nat): Books
    requires n <= |ts|
  {
    if n == 0 then b else Post(AskedFirst(b, ts, s, n - 1), ts[n - 1], Breaker.Query(s.check(n - 1).at))
  }

  /** The breaker of candidate `i` is not open when it is asked, and its health check succeeds. */
  predicate Passes(b: Books, ts: seq<Target>, s: Script, i: nat)
    requires i < |ts|
  {
    !IsOpen(AskedFirst(b, ts, s, i + 1), ts[i]) && s.check(i).healthy
  }

  /** The filter keeps exactly the candidates that pass, in their order. */
  lemma {:induction false} FilterKeepsWhatPasses(b: Books, ts: seq<Target>, s: Script, n: nat) returns (at: seq<nat>)
    requires n <= |ts|
    ensures var f := FilterHealthy(b, ts, s, n);
      && f.books == AskedFirst(b, ts, s, n)
      && |at| == |f.kept|
      && (forall j :: 0 <= j < |at| ==> at[j] < n && f.kept[j] == ts[at[j]])
      && (forall i, j :: 0 <= i < j < |at| ==> at[i] < at[j])
      && (forall i: nat :: i < n ==> (i in at <==> Passes(b, ts, s, i)))
  {
    hide Post, IsOpen;
    at := [];
    if n == 0 {
    } else {
      at := FilterKeepsWhatPasses(b, ts, s, n - 1);
      if Passes(b, ts, s, n - 1) { at := at + [n - 1]; }
    }
  }

  /** Without the precheck every candidate is kept and no breaker is asked; with it, those that pass. */
  lemma {:induction false} KeptAre(u: Setup, d: State, s: Script, t: Target) returns (at: seq<nat>)
    ensures var f, all := Prepared(u, d, s), Resolved(s.candidates, |s.candidates|);
            && |at| == |f.kept|
            && (forall j :: 0 <= j < |at| ==> at[j] < |all| && f.kept[j] == all[at[j]])
            && (forall i, j :: 0 <= i < j < |at| ==> at[i] < at[j])
            && (!u.config.healthPrecheck ==> f.kept == all && f.books == d.books)
            && (u.config.healthPrecheck ==> forall i: nat :: i < |all| ==> (i in at <==> Passes(d.books, all, s, i)))
  {
    var all := Resolved(s.candidates, |s.candidates|);
    if u.config.healthPrecheck {
      at := FilterKeepsWhatPasses(d.books, all, s, |all|);
    } else {
      at := seq(|all|, i => i);
    }
  }

  // ---------------------------------------------------------------- which candidate answers

  /** After `n` candidates: they were tried in order, each failed except a winner in last place. */
  predicate Shaped(p: Progress, ts: seq<Target>, n: nat)
    requires n <= |ts|
  {
    && |p.attempts| <= n && (p.stop == Going ==> |p.attempts| == n)
    && (forall j :: 0 <= j < |p.attempts| ==> p.attempts[j].target == ts[j])
    && (forall j :: 0 <= j < |p.attempts| && p.attempts[j].success ==> p.stop == Won && j == |p.attempts| - 1)
    && (p.stop == Won ==> |p.attempts| > 0 && p.attempts[|p.attempts| - 1].success)
  }

  lemma {:induction false} AdvanceShape(p: Progress, ts: seq<Target>, limit: int, turn: Turn, n: nat)
    requires n < |ts| && Shaped(p, ts, n)
    ensures Shaped(Advance(p, ts[n], limit, turn), ts, n + 1)
  {
    hide Post;
  }

  lemma {:induction false} FailoverShape(b: Books, ts: seq<Target>, limit: int, turn: nat -> Turn, n: nat)
    requires n <= |ts|
    ensures Shaped(Failover(b, ts, limit, turn, n), ts, n)
  {
    hide Advance;
    if n == 0 {
    } else {
      FailoverShape(b, ts, limit, turn, n - 1);
      AdvanceShape(Failover(b, ts, limit, turn, n - 1), ts, limit, turn(n - 1), n - 1);
    }
  }

  /** It is candidate `i`'s turn, its breaker admits it and its backend reports success. */
  predicate Succeeds(b: Books, ts: seq<Target>, limit: int, turn: nat -> Turn, i: nat)
    requires i < |ts|
  {
    var p := Failover(b, ts, limit, turn, i);
    && p.stop == Going
    && !IsOpen(Post(p.books, ts[i], Breaker.Query(turn(i).askedAt)), ts[i])
    && turn(i).reply.Replied? && turn(i).reply.success
  }

  lemma {:induction false} WonAtSuccess(b: Books, ts: seq<Target>, limit: int, turn: nat -> Turn, n: nat, i: nat)
    requires i < n <= |ts| && Succeeds(b, ts, limit, turn, i)
    ensures var p := Failover(b, ts, limit, turn, n);
            p.stop == Won && |p.attempts| == i + 1
            && p.attempts[i].target == ts[i] && p.attempts[i].output == turn(i).reply.output
    decreases n
  {
    hide Post;
    FailoverShape(b, ts, limit, turn, i);
    if n == i + 1 {
    } else {
      WonAtSuccess(b, ts, limit, turn, n - 1, i);
    }
  }

  lemma {:induction false} WonOnlyBySuccess(b: Books, ts: seq<Target>, limit: int, turn: nat -> Turn, n: nat)
        returns (i: nat)
    requires n <= |ts| && Failover(b, ts, limit, turn, n).stop == Won
    ensures i < n && Succeeds(b, ts, limit, turn, i)
  {
    hide Post;
    if Failover(b, ts, limit, turn, n - 1).stop == Going {
      i := n - 1;
    } else {
      i := WonOnlyBySuccess(b, ts, limit, turn, n - 1);
    }
  }

  /** It is candidate `i`'s turn, its breaker admits it and its backend raises. */
  predicate Raises(b: Books, ts: seq<Target>, limit: int, turn: nat -> Turn, i: nat)
    requires i < |ts|
  {
    var p := Failover(b, ts, limit, turn, i);
    && p.stop == Going
    && !IsOpen(Post(p.books, ts[i], Breaker.Query(turn(i).askedAt)), ts[i])
    && turn(i).reply.Raised?
  }

  lemma {:induction false} ThrewAtRaise(b: Books, ts: seq<Target>, limit: int, turn: nat -> Turn, n: nat, i: nat)
    requires i < n <= |ts| && Raises(b, ts, limit, turn, i)
    ensures var p := Failover(b, ts, limit, turn, n); p.stop == Threw && |p.attempts| == i
    decreases n
  {
    hide Post;
    FailoverShape(b, ts, limit, turn, i);
    if n == i + 1 {
    } else {
      ThrewAtRaise(b, ts, limit, turn, n - 1, i);
    }
  }

  lemma {:induction false} ThrewOnlyByRaise(b: Books, ts: seq<Target>, limit: int, turn: nat -> Turn, n: nat)
        returns (i: nat)
    requires n <= |ts| && Failover(b, ts, limit, turn, n).stop == Threw
    ensures i < n && Raises(b, ts, limit, turn, i)
  {
    hide Post;
    if Failover(b, ts, limit, turn, n - 1).stop == Going {
      i := n - 1;
    } else {
      i := ThrewOnlyByRaise(b, ts, limit, turn, n - 1);
    }
  }

  predicate IsFresh(o: Outcome) { o.Returned? && o.result.success && !o.result.degraded }

  /** Only an empty cache that may hold nothing refuses a result, by raising. */
  predicate CanStore(u: Setup, d: State) { u.cache.Some? ==> u.cache.value.maxSize >= 1 || d.store != [] }

  /** Some candidate that may be tried succeeds when its turn comes. */
  predicate SomeSucceeds(u: Setup, d: State, r: Request, s: Script) {
    var f := Prepared(u, d, s);
    var ts := Chosen(u.config, f.kept);
    exists i :: 0 <= i < |ts| && Succeeds(f.books, ts, Limit(u.config, r), s.turn, i)
  }

  /**
   A fresh success is returned exactly when one of the candidates that may be tried succeeds and
   its result can be stored, and then the first that does answers: everything before it was tried,
   in order, and failed.
   */
  lemma {:induction false} FreshExactlyWhenOneSucceeds(u: Setup, d: State, r: Request, s: Script)
    ensures IsFresh(Dispatch(u, d, r, s).outcome) <==> SomeSucceeds(u, d, r, s) && CanStore(u, d)
    ensures var f, o := Prepared(u, d, s), Dispatch(u, d, r, s).outcome;
            var ts := Chosen(u.config, f.kept);
            forall i :: 0 <= i < |ts| && Succeeds(f.books, ts, Limit(u.config, r), s.turn, i) && CanStore(u, d) ==>
              && o.Returned? && o.result.target == Some(ts[i]) && o.result.output == s.turn(i).reply.output
              && o.result.error.None? && o.result.artifacts == [] && |o.result.attempts| == i + 1
              && (forall j :: 0 <= j <= i ==> o.result.attempts[j].target == ts[j])
              && (forall j :: 0 <= j < i ==> !o.result.attempts[j].success)
  {
    hide Failover, FilterHealthy, Post, Resolved;
    var f := Prepared(u, d, s);
    var ts, limit := Chosen(u.config, f.kept), Limit(u.config, r);
    FailoverShape(f.books, ts, limit, s.turn, |ts|);
    forall i | 0 <= i < |ts| && Succeeds(f.books, ts, limit, s.turn, i)
      ensures Failover(f.books, ts, limit, s.turn, |ts|).stop == Won
      ensures var p := Failover(f.books, ts, limit, s.turn, |ts|);
              |p.attempts| == i + 1 && p.attempts[i].output == s.turn(i).reply.output
    {
      WonAtSuccess(f.books, ts, limit, s.turn, |ts|, i);
    }
    if Failover(f.books, ts, limit, s.turn, |ts|).stop == Won {
      var i := WonOnlyBySuccess(f.books, ts, limit, s.turn, |ts|);
    }
  }

  /** Some candidate's backend raises when its turn comes. */
  predicate SomeRaises(u: Setup, d: State, r: Request, s: Script) {
    var f := Prepared(u, d, s);
    var ts := Chosen(u.config, f.kept);
    exists i :: 0 <= i < |ts| && Raises(f.books, ts, Limit(u.config, r), s.turn, i)
  }

  /** A backend that raises ends the dispatch there, with the cache as it was. */
  lemma {:induction false} RaisingEscapes(u: Setup, d: State, r: Request, s: Script)
    requires SomeRaises(u, d, r, s)
    ensures Dispatch(u, d, r, s).outcome == Escaped && Dispatch(u, d, r, s).state.store == d.store
    ensures !SomeSucceeds(u, d, r, s)
  {
    hide Failover, FilterHealthy, Post;
    var f := Prepared(u, d, s);
    var ts, limit := Chosen(u.config, f.kept), Limit(u.config, r);
    var i :| 0 <= i < |ts| && Raises(f.books, ts, limit, s.turn, i);
    ThrewAtRaise(f.books, ts, limit, s.turn, |ts|, i);
    forall j | 0 <= j < |ts| ensures !Succeeds(f.books, ts, limit, s.turn, j) {
      if Succeeds(f.books, ts, limit, s.turn, j) { WonAtSuccess(f.books, ts, limit, s.turn, |ts|, j); }
    }
  }

  /** A failed dispatch carries the last attempt's output, and its error unless that is empty. */
  predicate SaysWhy(result: Result, attempts: seq<Attempt>) {
    |attempts| > 0 &&
    var last := attempts[|attempts| - 1];
    && result.output == last.output && result.target == None
    && (last.error.Some? && last.error.value != Text("") ==> result.error == last.error)
    && (last.error.None? || last.error.value == Text("") ==> result.error == Some(AllFailed))
  }

  /** When none succeeds and none raises, every candidate that may be tried was tried and failed, and
      the cache decides. */
  lemma {:induction false} OtherwiseCacheDecides(u: Setup, d: State, r: Request, s: Script)
    requires !SomeSucceeds(u, d, r, s) && !SomeRaises(u, d, r, s)
    ensures var f, o := Prepared(u, d, s), Dispatch(u, d, r, s).outcome;
            var ts, hit := Chosen(u.config, f.kept), Cached(u, d.store, r, s.cacheAt).hit;
            && (o.Escaped? <==> hit.None? && ts == [] && f.kept != [])
            && (o.Returned? ==>
                 && (o.result.success <==> hit.Some?) && (o.result.degraded <==> hit.Some?)
                 && (hit.Some? ==> o.result.output == hit.value.output && o.result.target == hit.value.target)
                 && (hit.Some? ==> o.result.artifacts == hit.value.artifacts && o.result.error.None?)
                 && (hit.None? && f.kept == [] ==> o.result.error == Some(NoCandidates(r.agentType)))
                 && (hit.None? && f.kept != [] ==> SaysWhy(o.result, o.result.attempts))
                 && |o.result.attempts| == |ts|
                 && forall j :: 0 <= j < |ts| ==>
                      o.result.attempts[j].target == ts[j] && !o.result.attempts[j].success)
  {
    hide Failover, FilterHealthy, Post;
    var f := Prepared(u, d, s);
    var ts, limit := Chosen(u.config, f.kept), Limit(u.config, r);
    FailoverShape(f.books, ts, limit, s.turn, |ts|);
    if Failover(f.books, ts, limit, s.turn, |ts|).stop == Won {
      var i := WonOnlyBySuccess(f.books, ts, limit, s.turn, |ts|);
    } else if Failover(f.books, ts, limit, s.turn, |ts|).stop == Threw {
      var i := ThrewOnlyByRaise(f.books, ts, limit, s.turn, |ts|);
    }
  }

  /** An exception leaves the dispatch exactly when a backend raises at its turn, or a success cannot be
      stored, or nothing was tried although candidates were left and the cache has no answer. */
  lemma {:induction false} EscapesExactlyWhen(u: Setup, d: State, r: Request, s: Script)
    ensures var kept := Prepared(u, d, s).kept;
      var stuck := kept != [] && Chosen(u.config, kept) == [] && Cached(u, d.store, r, s.cacheAt).hit.None?;
      Dispatch(u, d, r, s).outcome.Escaped? <==>
        SomeRaises(u, d, r, s) || (SomeSucceeds(u, d, r, s) && !CanStore(u, d)) || stuck
  {
    hide Dispatch, Prepared, Chosen, Cached, Succeeds, Raises;
    if SomeRaises(u, d, r, s) {
      RaisingEscapes(u, d, r, s);
    } else if SomeSucceeds(u, d, r, s) {
      StoringDecides(u, d, r, s);
    } else {
      OtherwiseCacheDecides(u, d, r, s);
    }
  }

  /** After a success the dispatch returns, unless the result cannot be stored. */
  lemma {:induction false} StoringDecides(u: Setup, d: State, r: Request, s: Script)
    requires SomeSucceeds(u, d, r, s)
    ensures Dispatch(u, d, r, s).outcome.Escaped? <==> !CanStore(u, d)
    ensures Chosen(u.config, Prepared(u, d, s).kept) != []
  {
    hide Failover, FilterHealthy, Post, Resolved;
    var f := Prepared(u, d, s);
    var ts, limit := Chosen(u.config, f.kept), Limit(u.config, r);
    var i :| 0 <= i < |ts| && Succeeds(f.books, ts, limit, s.turn, i);
    WonAtSuccess(f.books, ts, limit, s.turn, |ts|, i);
  }

  /** A new dispatcher and one healthy candidate whose backend raises: the dispatch ends with the
      exception. */
  lemma {:induction false} RaisingExample(u: Setup)
    requires u.config == Config(2, 300, true)
    ensures var t := Target(Docker, "worker", None, None);
      var s := Script([Some([t])], i => Check(0, true), i => Turn(1, Raised, 2), 3);
      Dispatch(u, State(map[], []), Request("worker", "task", None), s).outcome == Escaped
  {
    var t := Target(Docker, "worker", None, None);
    var s := Script([Some([t])], i => Check(0, true), i => Turn(1, Raised, 2), 3);
    var d, r := State(map[], []), Request("worker", "task", None);
    assert Resolved(s.candidates, 1) == Resolved(s.candidates, 0) + [t] == [t];
    assert FilterHealthy(d.books, [t], s, 0).kept == [];
    assert FilterHealthy(d.books, [t], s, 1).kept == [t];
    assert Prepared(u, d, s).kept == [t];
    var f := Prepared(u, d, s);
    assert Failover(f.books, [t], 300, s.turn, 0) == Progress(f.books, [], Going);
    assert Chosen(u.config, f.kept) == [t] && Limit(u.config, r) == 300;
    assert Raises(f.books, [t], 300, s.turn, 0);
    assert SomeRaises(u, d, r, s) by {
      hide Raises, Prepared, Chosen, Limit;
      assert 0 < |Chosen(u.config, f.kept)| && Raises(f.books, Chosen(u.config, f.kept), Limit(u.config, r), s.turn, 0);
    }
    RaisingEscapes(u, d, r, s);
  }

  // ---------------------------------------------------------------- how many candidates are tried

  lemma {:induction false} FailoverPrefix(b: Books, ts: seq<Target>, all: seq<Target>, limit: int, turn: nat -> Turn,
                                          n: nat)
    requires n <= |ts| <= |all| && ts == all[..|ts|]
    ensures Failover(b, ts, limit, turn, n) == Failover(b, all, limit, turn, n)
  {
    hide Advance;
    if n == 0 {
    } else {
      FailoverPrefix(b, ts, all, limit, turn, n - 1);
    }
  }

  /** How many of `kept` candidates pairs[:min(kept, max_retries + 1)] holds, as Python slices: with retries
      that are not negative, max_retries + 1 or all of them. */
  function Allowed(kept: nat, maxRetries: int): (n: nat)
    ensures n <= kept
    ensures maxRetries >= 0 ==> n == if kept < maxRetries + 1 then kept else maxRetries + 1
    ensures maxRetries == -1 ==> n == 0
    ensures maxRetries < -1 && kept + maxRetries + 1 >= 0 ==> n == kept + maxRetries + 1
  {
    if maxRetries >= 0 then (if kept <= maxRetries then kept else maxRetries + 1)
    else if maxRetries == -1 || kept + maxRetries + 1 < 0 then 0 else kept + maxRetries + 1
  }

  lemma {:induction false} ChosenAreFirst(c: Config, kept: seq<Target>)
    ensures Chosen(c, kept) == kept[..Allowed(|kept|, c.maxRetries)]
  {
  }

  /**
   The kept candidates are tried in order, the first min(n, max_retries + 1) of them and no more: a fresh
   success exactly when one of those succeeds at its turn and can be stored, an attempt on each when none
   succeeds or raises.
   */
  lemma {:induction false} TriesTheFirst(u: Setup, d: State, r: Request, s: Script)
    ensures var f, limit := Prepared(u, d, s), Limit(u.config, r);
            var n, tried := Allowed(|f.kept|, u.config.maxRetries), Attempts(u, d, r, s).attempts;
            && (IsFresh(Dispatch(u, d, r, s).outcome) <==>
                  CanStore(u, d) && exists i :: 0 <= i < n && Succeeds(f.books, f.kept, limit, s.turn, i))
            && ((forall i :: 0 <= i < n ==>
                   !Succeeds(f.books, f.kept, limit, s.turn, i) && !Raises(f.books, f.kept, limit, s.turn, i)) ==>
                  |tried| == n)
            && |tried| <= n && (forall j :: 0 <= j < |tried| ==> tried[j].target == f.kept[j])
  {
    var f, limit := Prepared(u, d, s), Limit(u.config, r);
    var ts := Chosen(u.config, f.kept);
    ChosenAreFirst(u.config, f.kept);
    hide Dispatch, Prepared, Chosen, Failover, Post, IsOpen;
    forall i | 0 <= i < |ts|
      ensures Succeeds(f.books, ts, limit, s.turn, i) <==> Succeeds(f.books, f.kept, limit, s.turn, i)
      ensures Raises(f.books, ts, limit, s.turn, i) <==> Raises(f.books, f.kept, limit, s.turn, i)
    {
      FailoverPrefix(f.books, ts, f.kept, limit, s.turn, i);
    }
    FreshExactlyWhenOneSucceeds(u, d, r, s);
    FailoverShape(f.books, ts, limit, s.turn, |ts|);
    var p := Failover(f.books, ts, limit, s.turn, |ts|);
    hide Succeeds, Raises;
    if p.stop == Won {
      var i := WonOnlyBySuccess(f.books, ts, limit, s.turn, |ts|);
    } else if p.stop == Threw {
      var i := ThrewOnlyByRaise(f.books, ts, limit, s.turn, |ts|);
    }
  }

  // ---------------------------------------------------------------- who is charged with an outcome

  function OutcomesOf(b: Books, k: Key): seq<bool> {
    Breaker.Outcomes(BookOf(b, k).calls, |BookOf(b, k).calls|)
  }

  /** The results of the first `n` attempts on the breaker `k`, leaving out those it refused. */
  function Admitted(attempts: seq<Attempt>, k: Key, n: nat): seq<bool>
    requires n <= |attempts|
  {
    if n == 0 then []
    else
      var a := attempts[n - 1];
      Admitted(attempts, k, n - 1)
      + (if BreakerKey(a.target) == k && a.error != Some(CircuitOpen) then [a.success] else [])
  }

  lemma {:induction false} AdmittedPrefix(attempts: seq<Attempt>, more: seq<Attempt>, k: Key, n: nat)
    requires n <= |attempts|
    ensures Admitted(attempts + more, k, n) == Admitted(attempts, k, n)
  {
    if n == 0 {
    } else {
      AdmittedPrefix(attempts, more, k, n - 1);
    }
  }

  lemma {:induction false} PostCharges(b: Books, t: Target, e: Breaker.Event, k: Key)
    ensures OutcomesOf(Post(b, t, e), k)
         == OutcomesOf(b, k) + (if BreakerKey(t) == k && e.Records() then [e.Success?] else [])
  {
    Breaker.PostOutcomes(BookOf(b, BreakerKey(t)), e);
  }

  lemma {:induction false} TryCharges(b: Books, t: Target, limit: int, turn: Turn, k: Key)
    ensures var r := TryOne(b, t, limit, turn);
            var mine := r.attempt.Some? && BreakerKey(t) == k && r.attempt.value.error != Some(CircuitOpen);
            OutcomesOf(r.books, k) == OutcomesOf(b, k) + (if mine then [r.attempt.value.success] else [])
  {
    hide Post, OutcomesOf;
    var asked := Post(b, t, Breaker.Query(turn.askedAt));
    PostCharges(b, t, Breaker.Query(turn.askedAt), k);
    PostCharges(asked, t, Breaker.Success(turn.doneAt), k);
    PostCharges(asked, t, Breaker.Failure(turn.doneAt), k);
  }

  lemma {:induction false} FilterCharges(b: Books, ts: seq<Target>, s: Script, n: nat, k: Key)
    requires n <= |ts|
    ensures OutcomesOf(FilterHealthy(b, ts, s, n).books, k) == OutcomesOf(b, k)
  {
    hide Post, OutcomesOf;
    if n == 0 {
    } else {
      FilterCharges(b, ts, s, n - 1, k);
      PostCharges(FilterHealthy(b, ts, s, n - 1).books, ts[n - 1], Breaker.Query(s.check(n - 1).at), k);
    }
  }

  lemma {:induction false} AdvanceCharges(start: seq<bool>, p: Progress, t: Target, limit: int, turn: Turn, k: Key)
    requires OutcomesOf(p.books, k) == start + Admitted(p.attempts, k, |p.attempts|)
    ensures var q := Advance(p, t, limit, turn);
            OutcomesOf(q.books, k) == start + Admitted(q.attempts, k, |q.attempts|)
  {
    hide Post, OutcomesOf;
    var r := TryOne(p.books, t, limit, turn);
    TryCharges(p.books, t, limit, turn, k);
    if r.attempt.Some? {
      assert r.attempt.value.target == t;
      AdmittedPrefix(p.attempts, [r.attempt.value], k, |p.attempts|);
    }
  }

  lemma {:induction false} FailoverCharges(b: Books, ts: seq<Target>, limit: int, turn: nat -> Turn, n: nat, k: Key)
    requires n <= |ts|
    ensures var p := Failover(b, ts, limit, turn, n);
            OutcomesOf(p.books, k) == OutcomesOf(b, k) + Admitted(p.attempts, k, |p.attempts|)
  {
    hide Advance, OutcomesOf;
    if n == 0 {
    } else {
      FailoverCharges(b, ts, limit, turn, n - 1, k);
      AdvanceCharges(OutcomesOf(b, k), Failover(b, ts, limit, turn, n - 1), ts[n - 1], limit, turn(n - 1), k);
    }
  }

  /**
   Whatever the backends do and however the dispatch ends, each breaker is charged with exactly the
   outcomes of the attempts made on its own target that it did not refuse, in order.
   */
  lemma {:induction false} EachBreakerChargedItsOwn(u: Setup, d: State, r: Request, s: Script, k: Key)
    ensures var t, tried := Dispatch(u, d, r, s), Attempts(u, d, r, s).attempts;
            && OutcomesOf(t.state.books, k) == OutcomesOf(d.books, k) + Admitted(tried, k, |tried|)
            && (t.outcome.Returned? ==> t.outcome.result.attempts == tried)
  {
    hide Failover, FilterHealthy, OutcomesOf, Cached, Post;
    var f := Prepared(u, d, s);
    var all := Resolved(s.candidates, |s.candidates|);
    FilterCharges(d.books, all, s, |all|, k);
    var ts := Chosen(u.config, f.kept);
    FailoverCharges(f.books, ts, Limit(u.config, r), s.turn, |ts|, k);
    FailoverShape(f.books, ts, Limit(u.config, r), s.turn, |ts|);
    NoneTried(f.books, Limit(u.config, r), s.turn);
  }

  lemma {:induction false} NoneTried(b: Books, limit: int, turn: nat -> Turn)
    ensures Failover(b, [], limit, turn, 0) == Progress(b, [], Going)
  {
  }

  // ---------------------------------------------------------------- what raising leaves undone

  /** The raising turn itself adds no outcome to its target's breaker. */
  lemma {:induction false} RaisingIsNotCharged(u: Setup, d: State, r: Request, s: Script, i: nat)
    requires var f := Prepared(u, d, s);
      var ts := Chosen(u.config, f.kept);
      i < |ts| && Raises(f.books, ts, Limit(u.config, r), s.turn, i)
    ensures var tried := Attempts(u, d, r, s).attempts;
      var ts := Chosen(u.config, Prepared(u, d, s).kept);
      && |tried| == i && (forall j :: 0 <= j < i ==> tried[j].target == ts[j] && !tried[j].success)
      && forall k :: OutcomesOf(Dispatch(u, d, r, s).state.books, k) == OutcomesOf(d.books, k) + Admitted(tried, k, i)
  {
    hide Failover, FilterHealthy, OutcomesOf, Cached, Post, Admitted, Dispatch;
    var f := Prepared(u, d, s);
    var ts := Chosen(u.config, f.kept);
    FailoverShape(f.books, ts, Limit(u.config, r), s.turn, |ts|);
    ThrewAtRaise(f.books, ts, Limit(u.config, r), s.turn, |ts|, i);
    forall k ensures OutcomesOf(Dispatch(u, d, r, s).state.books, k)
                  == OutcomesOf(d.books, k) + Admitted(Attempts(u, d, r, s).attempts, k, i) {
      EachBreakerChargedItsOwn(u, d, r, s, k);
    }
  }

  /** The breaker is closed and nothing has been recorded on it in between. */
  ghost predicate Untouched(b: Books, q: Books, k: Key) {
    && BookOf(b, k).state.mode == Breaker.Closed
    && BookOf(q, k).state == BookOf(b, k).state
    && OutcomesOf(q, k) == OutcomesOf(b, k)
  }

  lemma {:induction false} PostLeaves(b: Books, q: Books, t: Target, e: Breaker.Event, k: Key)
    requires Untouched(b, q, k) && (e.Query? || BreakerKey(t) != k)
    ensures Untouched(b, Post(q, t, e), k)
  {
    PostCharges(q, t, e, k);
  }

  lemma {:induction false} FilterLeaves(b: Books, ts: seq<Target>, s: Script, n: nat, k: Key)
    requires n <= |ts| && BookOf(b, k).state.mode == Breaker.Closed
    ensures Untouched(b, FilterHealthy(b, ts, s, n).books, k)
  {
    hide OutcomesOf, Post;
    if n == 0 {
    } else {
      FilterLeaves(b, ts, s, n - 1, k);
      PostLeaves(b, FilterHealthy(b, ts, s, n - 1).books, ts[n - 1], Breaker.Query(s.check(n - 1).at), k);
    }
  }

  /** Every turn of a target of `k` raises. */
  predicate OnlyRaises(ts: seq<Target>, turn: nat -> Turn, k: Key, n: nat)
    requires n <= |ts|
  {
    forall j: nat :: j < n ==> BreakerKey(ts[j]) == k ==> turn(j).reply.Raised?
  }

  lemma {:induction false} FailoverLeaves(b: Books, q: Books, ts: seq<Target>, limit: int, turn: nat -> Turn, n: nat,
        k: Key)
    requires n <= |ts| && Untouched(b, q, k) && OnlyRaises(ts, turn, k, n)
    ensures Untouched(b, Failover(q, ts, limit, turn, n).books, k)
  {
    hide OutcomesOf, Post, Untouched;
    if n == 0 {
    } else {
      FailoverLeaves(b, q, ts, limit, turn, n - 1, k);
      var (p, t, now) := (Failover(q, ts, limit, turn, n - 1).books, ts[n - 1], turn(n - 1));
      PostLeaves(b, p, t, Breaker.Query(now.askedAt), k);
      if BreakerKey(t) != k {
        PostLeaves(b, Post(p, t, Breaker.Query(now.askedAt)), t, Breaker.Success(now.doneAt), k);
        PostLeaves(b, Post(p, t, Breaker.Query(now.askedAt)), t, Breaker.Failure(now.doneAt), k);
      }
    }
  }

  /** In this dispatch every candidate of `k` that may be tried raises when invoked. */
  predicate RaisesHere(u: Setup, d: State, s: Script, k: Key) {
    var ts := Chosen(u.config, Prepared(u, d, s).kept);
    OnlyRaises(ts, s.turn, k, |ts|)
  }

  // ---------------------------------------------------------------- every breaker's history is genuine

  ghost predicate AllGenuine(b: Books, now: int) {
    forall k :: k in b ==> Breaker.Genuine(b[k], now)
  }

  /** One book only grew, and what was added starts with a query no earlier than `lo`. */
  predicate BookGrew(x: Breaker.Book, y: Breaker.Book, lo: int) {
    && |x.calls| <= |y.calls| && y.calls[..|x.calls|] == x.calls
    && (|x.calls| < |y.calls| ==> y.calls[|x.calls|].Query? && y.calls[|x.calls|].at >= lo)
  }

  ghost predicate Grew(a: Books, b: Books, lo: int) {
    forall k :: BookGrew(BookOf(a, k), BookOf(b, k), lo)
  }

  lemma {:induction false} BookGrewTrans(x: Breaker.Book, y: Breaker.Book, z: Breaker.Book, lo: int, mid: int)
    requires BookGrew(x, y, lo) && BookGrew(y, z, mid) && lo <= mid
    ensures BookGrew(x, z, lo)
  {
    assert z.calls[..|x.calls|] == z.calls[..|y.calls|][..|x.calls|];
    if |x.calls| < |y.calls| {
      assert z.calls[|x.calls|] == z.calls[..|y.calls|][|x.calls|];
    }
  }

  lemma {:induction false} GrewTrans(a: Books, b: Books, c: Books, lo: int, mid: int)
    requires Grew(a, b, lo) && Grew(b, c, mid) && lo <= mid
    ensures Grew(a, c, lo)
  {
    forall k ensures BookGrew(BookOf(a, k), BookOf(c, k), lo) {
      BookGrewTrans(BookOf(a, k), BookOf(b, k), BookOf(c, k), lo, mid);
    }
  }

  lemma {:induction false} LaterGenuine(b: Books, was: int, now: int)
    requires AllGenuine(b, was) && was <= now
    ensures AllGenuine(b, now)
  {
  }

  lemma {:induction false} QueryGenuine(b: Books, t: Target, at: int, was: int)
    requires AllGenuine(b, was) && was <= at
    ensures var q := Post(b, t, Breaker.Query(at));
            AllGenuine(q, at) && Grew(b, q, was)
  {
    hide Breaker.Genuine, Breaker.Step;
    var k := BreakerKey(t);
    LaterGenuine(b, was, at);
    Breaker.BlankGenuine(was);
    Breaker.PostGenuine(BookOf(b, k), Breaker.Query(at), was);
    var q := Post(b, t, Breaker.Query(at));
    forall l ensures BookGrew(BookOf(b, l), BookOf(q, l), was) {
      if l == k {
        assert BookOf(q, l).calls[..|BookOf(b, l).calls|] == BookOf(b, l).calls;
      }
    }
  }

  lemma {:induction false} RecordGenuine(b: Books, t: Target, e: Breaker.Event, askedAt: int, was: int)
    requires AllGenuine(b, was) && was <= askedAt <= e.at && e.Records()
    requires !IsOpen(Post(b, t, Breaker.Query(askedAt)), t)
    ensures var q := Post(Post(b, t, Breaker.Query(askedAt)), t, e);
            AllGenuine(q, e.at) && Grew(b, q, was)
  {
    hide Breaker.Genuine, Breaker.Step;
    var k := BreakerKey(t);
    var a := Post(b, t, Breaker.Query(askedAt));
    QueryGenuine(b, t, askedAt, was);
    LaterGenuine(a, askedAt, e.at);
    Breaker.PostGenuine(BookOf(a, k), e, askedAt);
    var q := Post(a, t, e);
    forall l ensures BookGrew(BookOf(b, l), BookOf(q, l), was) {
      if l == k {
        assert BookOf(q, l).calls == BookOf(b, l).calls + [Breaker.Query(askedAt), e];
        assert BookOf(q, l).calls[..|BookOf(b, l).calls|] == BookOf(b, l).calls;
      }
    }
  }

  lemma {:induction false} AdvanceGenuine(p: Progress, t: Target, limit: int, turn: Turn, was: int)
    requires AllGenuine(p.books, was) && was <= turn.askedAt <= turn.doneAt
    ensures var q := Advance(p, t, limit, turn);
            AllGenuine(q.books, turn.doneAt) && Grew(p.books, q.books, was)
  {
    hide Post, Breaker.Genuine;
    QueryGenuine(p.books, t, turn.askedAt, was);
    LaterGenuine(Post(p.books, t, Breaker.Query(turn.askedAt)), turn.askedAt, turn.doneAt);
    LaterBooks(p.books, was, turn.doneAt);
    if !IsOpen(Post(p.books, t, Breaker.Query(turn.askedAt)), t) {
      RecordGenuine(p.books, t, Breaker.Success(turn.doneAt), turn.askedAt, was);
      RecordGenuine(p.books, t, Breaker.Failure(turn.doneAt), turn.askedAt, was);
    }
  }

  lemma {:induction false} LaterBooks(b: Books, was: int, now: int)
    requires AllGenuine(b, was) && was <= now
    ensures AllGenuine(b, now) && Grew(b, b, was)
  {
    LaterGenuine(b, was, now);
    forall k ensures BookGrew(BookOf(b, k), BookOf(b, k), was) {
      assert BookOf(b, k).calls[..|BookOf(b, k).calls|] == BookOf(b, k).calls;
    }
  }

  /** The clock never goes back during a dispatch that lasts from `lo` to `hi`. */
  ghost predicate Timely(s: Script, lo: int, hi: int) {
    && lo <= hi
    && (forall i: nat :: lo <= s.check(i).at)
    && (forall i: nat, j: nat :: i <= j ==> s.check(i).at <= s.check(j).at)
    && (forall i: nat, j: nat :: s.check(i).at <= s.turn(j).askedAt)
    && (forall i: nat :: s.turn(i).askedAt <= s.turn(i).doneAt <= hi)
    && (forall i: nat, j: nat :: i < j ==> s.turn(i).doneAt <= s.turn(j).askedAt)
  }

  lemma {:induction false} FilterGenuine(b: Books, ts: seq<Target>, s: Script, lo: int, hi: int, n: nat)
    requires n <= |ts| && Timely(s, lo, hi) && AllGenuine(b, lo)
    ensures var f := FilterHealthy(b, ts, s, n);
            AllGenuine(f.books, if n == 0 then lo else s.check(n - 1).at) && Grew(b, f.books, lo)
  {
    hide Post, Breaker.Genuine, Grew;
    if n == 0 {
      LaterBooks(b, lo, lo);
    } else {
      FilterGenuine(b, ts, s, lo, hi, n - 1);
      var was := if n == 1 then lo else s.check(n - 2).at;
      var f := FilterHealthy(b, ts, s, n - 1);
      QueryGenuine(f.books, ts[n - 1], s.check(n - 1).at, was);
      GrewTrans(b, f.books, Post(f.books, ts[n - 1], Breaker.Query(s.check(n - 1).at)), lo, was);
    }
  }

  lemma {:induction false} FailoverGenuine(b: Books, ts: seq<Target>, limit: int, s: Script, lo: int, hi: int, was: int,
        n: nat)
    requires n <= |ts| && Timely(s, lo, hi) && AllGenuine(b, was) && was <= s.turn(0).askedAt
    ensures var p := Failover(b, ts, limit, s.turn, n);
            AllGenuine(p.books, if n == 0 then was else s.turn(n - 1).doneAt) && Grew(b, p.books, was)
  {
    hide Advance, AllGenuine, Grew;
    if n == 0 {
      LaterBooks(b, was, was);
    } else {
      FailoverGenuine(b, ts, limit, s, lo, hi, was, n - 1);
      var p := Failover(b, ts, limit, s.turn, n - 1);
      var mid := if n == 1 then was else s.turn(n - 2).doneAt;
      assert s.turn(0).askedAt <= s.turn(0).doneAt;
      assert n > 2 ==> s.turn(0).doneAt <= s.turn(n - 2).askedAt <= s.turn(n - 2).doneAt;
      AdvanceGenuine(p, ts[n - 1], limit, s.turn(n - 1), mid);
      GrewTrans(b, p.books, Advance(p, ts[n - 1], limit, s.turn(n - 1)).books, was, mid);
    }
  }

  lemma {:induction false} DispatchGenuine(u: Setup, d: State, r: Request, s: Script, lo: int, hi: int)
    requires Timely(s, lo, hi) && AllGenuine(d.books, lo)
    ensures var t := Dispatch(u, d, r, s).state;
            AllGenuine(t.books, hi) && Grew(d.books, t.books, lo)
  {
    hide AllGenuine, Grew, FilterHealthy, Failover;
    var all := Resolved(s.candidates, |s.candidates|);
    var n := if u.config.healthPrecheck then |all| else 0;
    var f := Prepared(u, d, s);
    var mid := if n == 0 then lo else s.check(n - 1).at;
    FilterGenuine(d.books, all, s, lo, hi, n);
    LaterBooks(d.books, lo, lo);
    assert lo <= s.check(0).at <= s.turn(0).askedAt <= s.turn(0).doneAt;
    FilterOrNot(u, d, s, n);
    var ts := Chosen(u.config, f.kept);
    FailoverGenuine(f.books, ts, Limit(u.config, r), s, lo, hi, mid, |ts|);
    var p := Attempts(u, d, r, s);
    GrewTrans(d.books, f.books, p.books, lo, mid);
    LaterBooks(p.books, if |ts| == 0 then mid else s.turn(|ts| - 1).doneAt, hi);
    LaterBooks(f.books, mid, hi);
  }

  lemma {:induction false} FilterOrNot(u: Setup, d: State, s: Script, n: nat)
    requires var all := Resolved(s.candidates, |s.candidates|); n == if u.config.healthPrecheck then |all| else 0
    ensures Prepared(u, d, s).books == FilterHealthy(d.books, Resolved(s.candidates, |s.candidates|), s, n).books
  {
  }

  // ---------------------------------------------------------------- runs

  /** Dispatch `i` of the run. */
  ghost predicate DispatchAt(u: Setup, rs: seq<Request>, ss: seq<Script>, ds: seq<State>, outs: seq<Outcome>, i: nat)
    requires |rs| == |ss| == |outs| && |ds| == |rs| + 1
  {
    i < |rs| ==> Dispatch(u, ds[i], rs[i], ss[i]) == Dispatched(ds[i + 1], outs[i])
  }

  /** A new dispatcher serves the requests one after the other. */
  ghost predicate IsRun(u: Setup, rs: seq<Request>, ss: seq<Script>, ds: seq<State>, outs: seq<Outcome>) {
    && |rs| == |ss| == |outs| && |ds| == |rs| + 1
    && ds[0] == State(map[], [])
    && forall i: nat :: DispatchAt(u, rs, ss, ds, outs, i)
  }

  /** Dispatch `i` takes place between marks i and i + 1 of the clock. */
  ghost predicate InTime(ss: seq<Script>, marks: seq<int>) {
    && |marks| == |ss| + 1
    && forall i :: 0 <= i < |ss| ==> Timely(ss[i], marks[i], marks[i + 1])
  }

  lemma {:induction false} RunGenuine(u: Setup, rs: seq<Request>, ss: seq<Script>, ds: seq<State>, outs: seq<Outcome>,
                                      marks: seq<int>, n: nat)
    requires IsRun(u, rs, ss, ds, outs) && InTime(ss, marks) && n <= |rs|
    ensures AllGenuine(ds[n].books, marks[n])
  {
    hide Dispatch, Timely, Breaker.Genuine;
    if n == 0 {
    } else {
      RunGenuine(u, rs, ss, ds, outs, marks, n - 1);
      assert DispatchAt(u, rs, ss, ds, outs, n - 1);
      DispatchGenuine(u, ds[n - 1], rs[n - 1], ss[n - 1], marks[n - 1], marks[n]);
    }
  }

  lemma {:induction false} RunGrew(u: Setup, rs: seq<Request>, ss: seq<Script>, ds: seq<State>, outs: seq<Outcome>,
                                   marks: seq<int>, from: nat, n: nat)
    requires IsRun(u, rs, ss, ds, outs) && InTime(ss, marks) && from <= n <= |rs|
    ensures Grew(ds[from].books, ds[n].books, marks[from]) && marks[from] <= marks[n]
    decreases n
  {
    hide Dispatch, AllGenuine, Grew;
    RunGenuine(u, rs, ss, ds, outs, marks, n);
    if n == from {
      LaterBooks(ds[n].books, marks[n], marks[n]);
    } else {
      RunGrew(u, rs, ss, ds, outs, marks, from, n - 1);
      RunGenuine(u, rs, ss, ds, outs, marks, n - 1);
      assert DispatchAt(u, rs, ss, ds, outs, n - 1);
      assert Timely(ss[n - 1], marks[n - 1], marks[n]);
      DispatchGenuine(u, ds[n - 1], rs[n - 1], ss[n - 1], marks[n - 1], marks[n]);
      GrewTrans(ds[from].books, ds[n - 1].books, ds[n].books, marks[from], marks[n - 1]);
    }
  }

  /**
   From dispatch `from` on, a target whose every outcome is a failure or a timeout is invoked, in the T seconds
   they last, at most failure_threshold + floor(T / timeout) times.
   */
  lemma {:induction false} FailingTargetIsRarelyInvoked(u: Setup, rs: seq<Request>, ss: seq<Script>, ds: seq<State>,
      outs: seq<Outcome>, marks: seq<int>, from: nat, k: Key, T: nat)
    requires IsRun(u, rs, ss, ds, outs) && InTime(ss, marks) && from <= |rs|
    requires marks[|rs|] <= marks[from] + T
    requires Breaker.OnlyFails(BookOf(ds[|rs|].books, k).calls, |BookOf(ds[from].books, k).calls|)
    ensures |OutcomesOf(ds[|rs|].books, k)| - |OutcomesOf(ds[from].books, k)|
         <= Breaker.DEFAULTS.failureThreshold + T / Breaker.DEFAULTS.timeout
  {
    hide Dispatch, Timely;
    var x, y := BookOf(ds[from].books, k), BookOf(ds[|rs|].books, k);
    RunGenuine(u, rs, ss, ds, outs, marks, |rs|);
    RunGrew(u, rs, ss, ds, outs, marks, from, |rs|);
    assert BookGrew(x, y, marks[from]);
    Breaker.BlankGenuine(marks[|rs|]);
    BookThrottled(x, y, marks[from], marks[|rs|], T);
  }

  /** A target that only raises is never throttled: its breaker, once closed, stays closed through any
      number of dispatches, so that the next call is admitted at whatever time. */
  lemma {:induction false} RaisingTargetIsNeverThrottled(u: Setup, rs: seq<Request>, ss: seq<Script>, ds: seq<State>,
      outs: seq<Outcome>, from: nat, n: nat, k: Key)
    requires IsRun(u, rs, ss, ds, outs) && from <= n <= |rs| && BookOf(ds[from].books, k).state.mode == Breaker.Closed
    requires forall i: nat :: from <= i < n ==> RaisesHere(u, ds[i], ss[i], k)
    ensures Untouched(ds[from].books, ds[n].books, k)
    ensures forall t, at :: BreakerKey(t) == k ==> !IsOpen(Post(ds[n].books, t, Breaker.Query(at)), t)
    decreases n - from
  {
    hide RaisesHere, OutcomesOf;
    if n == from {
    } else {
      RaisingTargetIsNeverThrottled(u, rs, ss, ds, outs, from, n - 1, k);
      assert DispatchAt(u, rs, ss, ds, outs, n - 1);
      RaisingLeaves(u, ds[n - 1], rs[n - 1], ss[n - 1], k);
    }
  }

  lemma {:induction false} RaisingLeaves(u: Setup, d: State, r: Request, s: Script, k: Key)
    requires RaisesHere(u, d, s, k) && BookOf(d.books, k).state.mode == Breaker.Closed
    ensures Untouched(d.books, Dispatch(u, d, r, s).state.books, k)
  {
    hide Failover, FilterHealthy, OutcomesOf, Cached, Post;
    var f := Prepared(u, d, s);
    var all := Resolved(s.candidates, |s.candidates|);
    FilterLeaves(d.books, all, s, |all|, k);
    var ts := Chosen(u.config, f.kept);
    FailoverLeaves(d.books, f.books, ts, Limit(u.config, r), s.turn, |ts|, k);
  }

  lemma {:induction false} BookThrottled(x: Breaker.Book, y: Breaker.Book, lo: int, hi: int, T: nat)
    requires BookGrew(x, y, lo) && Breaker.Genuine(y, hi) && hi <= lo + T
    requires Breaker.OnlyFails(y.calls, |x.calls|)
    ensures |Breaker.Outcomes(y.calls, |y.calls|)| - |Breaker.Outcomes(x.calls, |x.calls|)|
         <= Breaker.DEFAULTS.failureThreshold + T / Breaker.DEFAULTS.timeout
  {
    hide Breaker.IsRun, Breaker.Samples, Breaker.Outcomes;
    var from := |x.calls|;
    var states :| Breaker.Explains(y, states);
    assert y.calls == x.calls + y.calls[from..];
    Breaker.OutcomesPrefix(x.calls, y.calls[from..], from);
    Breaker.OutcomesSplit(y.calls, from, |y.calls|);
    Breaker.FailingTargetIsThrottled(Breaker.DEFAULTS, y.calls, states, from, lo, T);
  }

  // ---------------------------------------------------------------- where degraded answers come from

  /** What dispatch does to the cache. */
  function CacheEvent(u: Setup, d: State, r: Request, s: Script): Cache.Event<Result> {
    var t := Dispatch(u, d, r, s);
    if u.cache.None? then Cache.Skipped(s.cacheAt)
    else if Prepared(u, d, s).kept == [] || Attempts(u, d, r, s).stop == Going then Cache.Got(CacheKey(u, r), s.cacheAt)
    else if IsFresh(t.outcome) then Cache.Kept(CacheKey(u, r), s.cacheAt, t.outcome.result)
    else Cache.Skipped(s.cacheAt)
  }

  /** Only a fresh success enters the cache, and every fresh success does. */
  lemma {:induction false} OnlyFreshIsKept(u: Setup, d: State, r: Request, s: Script)
    requires u.cache.Some?
    ensures var t, e := Dispatch(u, d, r, s), CacheEvent(u, d, r, s);
            && Cache.StepOk(u.cache.value, d.store, e, t.state.store)
            && e.at == s.cacheAt
            && (e.Kept? <==> IsFresh(t.outcome))
            && (e.Kept? ==> e.key == CacheKey(u, r) && e.result == t.outcome.result)
            && (t.outcome.Returned? && t.outcome.result.degraded ==>
                  var hit := Cache.Get(d.store, CacheKey(u, r), s.cacheAt).hit;
                  hit.Some? && t.outcome.result.output == hit.value.output
                  && t.outcome.result.target == hit.value.target)
  {
    hide Failover, FilterHealthy, Cache.Get, Cache.Put;
  }

  ghost predicate SameWork(u: Setup, r: Request, q: Request) {
    r.agentType == q.agentType && u.hash(r.task) == u.hash(q.task)
  }

  lemma {:induction false} SameKeySameWork(u: Setup, r: Request, q: Request)
    ensures CacheKey(u, r) == CacheKey(u, q) <==> SameWork(u, r, q)
  {
    if CacheKey(u, r) == CacheKey(u, q) {
      Cache.KeyInjective(r.agentType, u.hash(r.task), "", q.agentType, u.hash(q.task), "");
    }
  }

  lemma {:induction false} CacheHistory(u: Setup, rs: seq<Request>, ss: seq<Script>, ds: seq<State>, outs: seq<Outcome>)
    returns (es: seq<Cache.Event<Result>>, stores: seq<Store>)
    requires u.cache.Some? && IsRun(u, rs, ss, ds, outs)
    ensures Cache.IsRun(u.cache.value, es, stores) && |es| == |rs|
    ensures forall i :: 0 <= i < |rs| ==> es[i] == CacheEvent(u, ds[i], rs[i], ss[i])
    ensures forall i :: 0 <= i < |ds| ==> stores[i] == ds[i].store
  {
    hide Dispatch, CacheEvent, Cache.StepOk;
    es := seq(|rs|, i requires 0 <= i < |rs| => CacheEvent(u, ds[i], rs[i], ss[i]));
    stores := seq(|ds|, i requires 0 <= i < |ds| => ds[i].store);
    forall i: nat ensures Cache.StepAt(u.cache.value, es, stores, i) {
      if i < |rs| {
        assert DispatchAt(u, rs, ss, ds, outs, i);
        OnlyFreshIsKept(u, ds[i], rs[i], ss[i]);
      }
    }
  }

  /**
   A degraded answer carries the output of the most recent fresh success an earlier dispatch returned
   for the same agent type and hash-equal task, at most ttl old.
   */
  lemma {:induction false} DegradedIsLatestFresh(u: Setup, rs: seq<Request>, ss: seq<Script>, ds: seq<State>,
      outs: seq<Outcome>, n: nat) returns (m: nat)
    requires u.cache.Some? && IsRun(u, rs, ss, ds, outs) && n < |rs|
    requires outs[n].Returned? && outs[n].result.degraded
    ensures m < n && IsFresh(outs[m]) && SameWork(u, rs[m], rs[n])
    ensures outs[n].result.output == outs[m].result.output && outs[n].result.target == outs[m].result.target
    ensures ss[n].cacheAt <= ss[m].cacheAt + u.cache.value.ttl
    ensures forall l :: m < l < n && IsFresh(outs[l]) ==> !SameWork(u, rs[l], rs[n])
  {
    hide Dispatch, CacheEvent, Cache.Get, Cache.IsRun, SameWork, CacheKey;
    var es, stores := CacheHistory(u, rs, ss, ds, outs);
    forall i | 0 <= i <= n
      ensures es[i].Kept? <==> IsFresh(outs[i])
      ensures es[i].at == ss[i].cacheAt
      ensures es[i].Kept? ==> es[i].key == CacheKey(u, rs[i]) && es[i].result == outs[i].result
    {
      assert DispatchAt(u, rs, ss, ds, outs, i);
      OnlyFreshIsKept(u, ds[i], rs[i], ss[i]);
    }
    assert DispatchAt(u, rs, ss, ds, outs, n);
    OnlyFreshIsKept(u, ds[n], rs[n], ss[n]);
    m := Cache.HitIsLastPut(u.cache.value, es, stores, n, CacheKey(u, rs[n]), ss[n].cacheAt);
    forall l | m <= l < n ensures CacheKey(u, rs[l]) == CacheKey(u, rs[n]) <==> SameWork(u, rs[l], rs[n]) {
      SameKeySameWork(u, rs[l], rs[n]);
    }
  }
}
