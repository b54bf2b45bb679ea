/**
 The three-state circuit breaker of src/resilience/circuit_breaker.py.

 `Step` specifies one public operation; the class performs it the way the source
 does, through its private helpers.  The theorems are about whole histories: what
 the trimmed window holds, when the breaker opens, how it recovers, how far apart
 its openings are, and how often a failing target can be called through it.
 */
module Breaker {
  import opened Arithmetic

  datatype Mode = Closed | Open | HalfOpen

  /** The constructor's arguments; the source accepts any numbers. */
  datatype Config = Config(failureThreshold: int, successThreshold: int, timeout: int, slowCall: int) {
    function Window(): int { failureThreshold + successThreshold }

    predicate Positive() { failureThreshold >= 1 && successThreshold >= 1 }
  }

  /** What a breaker built with no arguments uses. */
  const DEFAULTS: Config := Config(5, 3, 30, 15)

  datatype Sample = Sample(at: int, ok: bool)

  datatype State = State(mode: Mode, results: seq<Sample>, openedAt: int, halfOpenSuccesses: int)

  const FRESH: State := State(Closed, [], 0, 0)

  /** A call of state(), record_success(), record_failure() or reset() with the clock it reads. */
  datatype Event = Query(at: int) | Success(at: int) | Failure(at: int) | Reset(at: int) {
    predicate Records() { Success? || Failure? }
  }

  // ---------------------------------------------------------------- one operation

  /** The last `n` elements, all of them when there are fewer. */
  function LastN<T>(s: seq<T>, n: nat): seq<T> {
    if |s| <= n then s else s[|s| - n..]
  }

  lemma {:induction false} LastNAt<T>(s: seq<T>, n: nat, k: nat)
    ensures |LastN(s, n)| == if |s| <= n then |s| else n
    ensures k < |LastN(s, n)| ==> LastN(s, n)[k] == s[|s| - |LastN(s, n)| + k]
  {
  }

  /** `results[-w:]` when the list is longer than `w`, for any sign of `w`. */
  function Trim<T>(s: seq<T>, w: int): seq<T> {
    if |s| <= w || w == 0 then s
    else if w > 0 then s[|s| - w..]
    else if -w <= |s| then s[-w..] else []
  }

  function FailuresUpTo(s: seq<Sample>, n: nat): nat
    requires n <= |s|
  {
    if n == 0 then 0 else FailuresUpTo(s, n - 1) + (if s[n - 1].ok then 0 else 1)
  }

  function Failures(s: seq<Sample>): nat { FailuresUpTo(s, |s|) }

  /** How many of the samples are failures. */
  lemma {:induction false} FailuresCount(s: seq<Sample>, n: nat)
    requires n <= |s|
    ensures FailuresUpTo(s, n) == |set k | 0 <= k < n && !s[k].ok|
  {
    var all := set k | 0 <= k < n && !s[k].ok;
    if n == 0 {
      assert all == {};
    } else {
      FailuresCount(s, n - 1);
      var before := set k | 0 <= k < n - 1 && !s[k].ok;
      assert all == if s[n - 1].ok then before else before + {n - 1};
    }
  }

  function Enter(s: State, m: Mode, at: int): State {
    match m
    case Open => s.(mode := Open, openedAt := at, halfOpenSuccesses := 0)
    case HalfOpen => s.(mode := HalfOpen, halfOpenSuccesses := 0)
    case Closed => s.(mode := Closed, results := [], halfOpenSuccesses := 0)
  }

  function Step(c: Config, s: State, e: Event): State {
    match e
    case Query(at) =>
      if s.mode == Open && at - s.openedAt >= c.timeout then Enter(s, HalfOpen, at) else s
    case Success(at) =>
      var p := s.(results := Trim(s.results + [Sample(at, true)], c.Window()));
      if s.mode != HalfOpen then p
      else if s.halfOpenSuccesses + 1 >= c.successThreshold then Enter(p, Closed, at)
      else p.(halfOpenSuccesses := s.halfOpenSuccesses + 1)
    case Failure(at) =>
      var p := s.(results := Trim(s.results + [Sample(at, false)], c.Window()));
      if s.mode == HalfOpen || (s.mode == Closed && Failures(p.results) >= c.failureThreshold)
      then Enter(p, Open, at) else p
    case Reset(at) => Enter(s, Closed, at)
  }

  // ---------------------------------------------------------------- the class

  /** What the wrapped coroutine of `call` did. */
  datatype CallResult<T> = Value(value: T) | Raised(message: string) | Rejected

  class CircuitBreaker {
    const config: Config
    var results: seq<Sample>
    var mode: Mode
    var openedAt: int
    var halfOpenSuccesses: int

    function Abs(): State
      reads this
    {
      State(mode, results, openedAt, halfOpenSuccesses)
    }

    constructor (c: Config)
      ensures config == c && Abs() == FRESH
    {
      config := c;
      results, mode, openedAt, halfOpenSuccesses := [], Closed, 0, 0;
    }

    method Push(success: bool, now: int)
      modifies this`results
      ensures results == Trim(old(results) + [Sample(now, success)], config.Window())
    {
      results := results + [Sample(now, success)];
      var window := config.Window();
      if |results| > window {
        // Python's results[-window:]
        if window > 0 {
          results := results[|results| - window..];
        } else if window < 0 {
          results := if -window <= |results| then results[-window..] else [];
        }
      }
    }

    method CountRecentFailures() returns (count: nat)
      ensures count == Failures(results)
    {
      count := 0;
      for i := 0 to |results|
        invariant count == FailuresUpTo(results, i)
      {
        if !results[i].ok { count := count + 1; }
      }
    }

    method TransitionTo(m: Mode, now: int)
      modifies this
      ensures Abs() == Enter(old(Abs()), m, now)
    {
      mode := m;
      match m {
        case Open =>
          openedAt := now;
          halfOpenSuccesses := 0;
        case HalfOpen =>
          halfOpenSuccesses := 0;
        case Closed =>
          results := [];
          halfOpenSuccesses := 0;
      }
    }

    method CurrentState(now: int) returns (m: Mode)
      modifies this
      ensures Abs() == Step(config, old(Abs()), Query(now)) && m == mode
    {
      if mode == Open {
        if now - openedAt >= config.timeout {
          TransitionTo(HalfOpen, now);
        }
      }
      m := mode;
    }

    method Allow(now: int) returns (allowed: bool)
      modifies this
      ensures Abs() == Step(config, old(Abs()), Query(now))
      ensures allowed <==> mode != Open
    {
      var m := CurrentState(now);
      allowed := m != Open;
    }

    method RecordSuccess(now: int)
      modifies this
      ensures Abs() == Step(config, old(Abs()), Success(now))
    {
      Push(true, now);
      if mode == HalfOpen {
        halfOpenSuccesses := halfOpenSuccesses + 1;
        if halfOpenSuccesses >= config.successThreshold {
          TransitionTo(Closed, now);
        }
      }
    }

    method RecordFailure(now: int)
      modifies this
      ensures Abs() == Step(config, old(Abs()), Failure(now))
    {
      Push(false, now);
      if mode == HalfOpen {
        TransitionTo(Open, now);
      } else if mode == Closed {
        var failures := CountRecentFailures();
        if failures >= config.failureThreshold {
          TransitionTo(Open, now);
        }
      }
    }

    method ForceReset(now: int)
      modifies this
      ensures Abs() == Step(config, old(Abs()), Reset(now))
    {
      results := [];
      halfOpenSuccesses := 0;
      TransitionTo(Closed, now);
    }

    /**
     `call`: rejected exactly when the circuit is open at `asked`; otherwise one outcome is
     recorded at `done`, a failure when the function raised or took longer than the slow-call
     threshold, even though a slow value is still returned.
     */
    method Call<T>(func: CallResult<T>, asked: int, started: int, done: int) returns (r: CallResult<T>)
      requires !func.Rejected?
      modifies this
      ensures var q := Step(config, old(Abs()), Query(asked));
              var e := if func.Value? && done - started <= config.slowCall then Success(done) else Failure(done);
              && r == (if q.mode == Open then Rejected else func)
              && Abs() == (if q.mode == Open then q else Step(config, q, e))
    {
      var current := CurrentState(asked);
      if current == Open {
        return Rejected;
      }
      match func {
        case Value(_) =>
          var elapsed := done - started;
          if elapsed > config.slowCall {
            RecordFailure(done);
          } else {
            RecordSuccess(done);
          }
        case Raised(_) =>
          RecordFailure(done);
      }
      r := func;
    }
  }

  // ---------------------------------------------------------------- histories

  /** `ss` are the states a new breaker goes through on the calls `es`. */
  predicate IsRun(c: Config, es: seq<Event>, ss: seq<State>) {
    && |ss| == |es| + 1
    && ss[0] == FRESH
    && forall i :: 0 <= i < |es| ==> ss[i + 1] == Step(c, ss[i], es[i])
  }

  /** Call `i` put the breaker into mode `m` (a reset always re-enters Closed). */
  predicate Enters(es: seq<Event>, ss: seq<State>, i: nat, m: Mode)
    requires i < |es| && |ss| == |es| + 1
  {
    ss[i + 1].mode == m && (ss[i].mode != m || es[i].Reset?)
  }

  /** How many of the first `n` calls precede the latest spell in `m`: 0 when `m` was never entered. */
  function SpellStart(es: seq<Event>, ss: seq<State>, n: nat, m: Mode): (k: nat)
    requires n <= |es| && |ss| == |es| + 1
    ensures k <= n
    ensures k > 0 ==> Enters(es, ss, k - 1, m)
    ensures forall i :: k <= i < n ==> !Enters(es, ss, i, m)
  {
    if n == 0 then 0 else if Enters(es, ss, n - 1, m) then n else SpellStart(es, ss, n - 1, m)
  }

  /** The outcomes recorded by the calls from `lo` up to `hi`, in order. */
  function Samples(es: seq<Event>, lo: nat, hi: nat): seq<Sample>
    requires hi <= |es|
  {
    if hi <= lo then []
    else
      var e := es[hi - 1];
      Samples(es, lo, hi - 1) + (if e.Records() then [Sample(e.at, e.Success?)] else [])
  }

  /** After `n` calls, everything recorded since the breaker last became Closed. */
  function Log(es: seq<Event>, ss: seq<State>, n: nat): seq<Sample>
    requires n <= |es| && |ss| == |es| + 1
  {
    Samples(es, SpellStart(es, ss, n, Closed), n)
  }

  lemma {:induction false} TrimOne<T>(log: seq<T>, w: nat, x: T)
    requires w >= 1
    ensures Trim(LastN(log, w) + [x], w) == LastN(log + [x], w)
  {
  }

  lemma {:induction false} WindowStep(c: Config, s: State, e: Event, log: seq<Sample>)
    requires c.Positive() && s.results == LastN(log, c.Window())
    ensures var t := Step(c, s, e);
            t.results == if t.mode == Closed && (s.mode != Closed || e.Reset?) then []
                         else LastN(log + (if e.Records() then [Sample(e.at, e.Success?)] else []), c.Window())
  {
    if e.Records() {
      TrimOne(log, c.Window(), Sample(e.at, e.Success?));
    } else {
      assert log + [] == log;
    }
  }

  /** The trimmed list is the last failure_threshold + success_threshold outcomes since the last closing. */
  lemma {:induction false} WindowIsSuffixOfLog(c: Config, es: seq<Event>, ss: seq<State>, n: nat)
    requires c.Positive() && IsRun(c, es, ss) && n <= |es|
    ensures ss[n].results == LastN(Log(es, ss, n), c.Window())
  {
    if n == 0 {
    } else {
      WindowIsSuffixOfLog(c, es, ss, n - 1);
      WindowStep(c, ss[n - 1], es[n - 1], Log(es, ss, n - 1));
    }
  }

  predicate Full(c: Config, log: seq<Sample>)
    requires c.Positive()
  {
    Failures(LastN(log, c.Window())) >= c.failureThreshold
  }

  /** In a Closed spell the next call opens the breaker exactly when it is a failure that fills the window of
      the log. */
  lemma {:induction false} OpensOnFullWindow(c: Config, es: seq<Event>, ss: seq<State>, n: nat)
    requires c.Positive() && IsRun(c, es, ss) && n < |es| && ss[n].mode == Closed
    ensures ss[n + 1].mode == Open <==>
            es[n].Failure? && Full(c, Log(es, ss, n) + [Sample(es[n].at, false)])
    ensures ss[n + 1].mode != Open ==> ss[n + 1].mode == Closed
  {
    WindowIsSuffixOfLog(c, es, ss, n);
    TrimOne(Log(es, ss, n), c.Window(), Sample(es[n].at, false));
  }

  lemma {:induction false} FailuresAgree(s: seq<Sample>, t: seq<Sample>, n: nat)
    requires n <= |s| && n <= |t| && forall i :: 0 <= i < n ==> s[i] == t[i]
    ensures FailuresUpTo(s, n) == FailuresUpTo(t, n)
  {
    if n == 0 {
    } else {
      FailuresAgree(s, t, n - 1);
    }
  }

  lemma {:induction false} FailuresDropFirst(s: seq<Sample>, n: nat)
    requires 0 < n <= |s|
    ensures FailuresUpTo(s[1..], n - 1) <= FailuresUpTo(s, n) <= FailuresUpTo(s[1..], n - 1) + 1
  {
    if n == 1 {
    } else {
      FailuresDropFirst(s, n - 1);
    }
  }

  lemma {:induction false} SuccessNeverFills(c: Config, log: seq<Sample>, x: Sample)
    requires c.Positive() && x.ok && !Full(c, log)
    ensures !Full(c, log + [x])
  {
    var w := c.Window();
    var old', new' := LastN(log, w), LastN(log + [x], w);
    if |log| >= w {
      FailuresDropFirst(old', w);
      FailuresAgree(old'[1..], new', w - 1);
    } else {
      FailuresAgree(old', new', |log|);
    }
  }

  /** ... and it is the first: at no moment of a Closed spell is the window full. */
  lemma {:induction false} ClosedSpellNeverFull(c: Config, es: seq<Event>, ss: seq<State>, n: nat)
    requires c.Positive() && IsRun(c, es, ss) && n <= |es| && ss[n].mode == Closed
    ensures !Full(c, Log(es, ss, n))
  {
    if n > 0 && !Enters(es, ss, n - 1, Closed) {
      ClosedSpellNeverFull(c, es, ss, n - 1);
      var was, e := Log(es, ss, n - 1), es[n - 1];
      OpensOnFullWindow(c, es, ss, n - 1);
      if e.Success? {
        SuccessNeverFills(c, was, Sample(e.at, true));
      } else if e.Query? {
        assert Log(es, ss, n) == was;
      }
    }
  }

  predicate AllOk(s: seq<Sample>) { forall i :: 0 <= i < |s| ==> s[i].ok }

  /** Half open: everything recorded since entry succeeded, and it is counted, below the threshold. */
  lemma {:induction false} HalfOpenCountsSuccesses(c: Config, es: seq<Event>, ss: seq<State>, n: nat)
    requires c.Positive() && IsRun(c, es, ss) && n <= |es| && ss[n].mode == HalfOpen
    ensures var probes := Samples(es, SpellStart(es, ss, n, HalfOpen), n);
            AllOk(probes) && |probes| == ss[n].halfOpenSuccesses < c.successThreshold
  {
    if ss[n - 1].mode == HalfOpen {
      HalfOpenCountsSuccesses(c, es, ss, n - 1);
    }
  }

  predicate NoReset(es: seq<Event>) { forall i :: 0 <= i < |es| ==> !es[i].Reset? }

  /** Calls `asked` up to `closed` take the open breaker through half open and close it. */
  predicate Recovery(c: Config, es: seq<Event>, ss: seq<State>, asked: nat, closed: nat)
    requires asked < closed < |es| && |ss| == |es| + 1
  {
    && es[asked].Query? && ss[asked].mode == Open
    && es[asked].at - ss[asked].openedAt >= c.timeout
    && (forall k :: asked < k <= closed ==> ss[k].mode == HalfOpen)
    && AllOk(Samples(es, asked + 1, closed + 1))
    && |Samples(es, asked + 1, closed + 1)| == c.successThreshold
  }

  lemma {:induction false} HalfOpenEntry(c: Config, es: seq<Event>, ss: seq<State>, n: nat)
    requires IsRun(c, es, ss) && n <= |es| && ss[n].mode == HalfOpen
    ensures var k := SpellStart(es, ss, n, HalfOpen);
            k > 0 && es[k - 1].Query? && ss[k - 1].mode == Open
            && es[k - 1].at - ss[k - 1].openedAt >= c.timeout
            && forall j :: k <= j <= n ==> ss[j].mode == HalfOpen
  {
    if ss[n - 1].mode == HalfOpen {
      HalfOpenEntry(c, es, ss, n - 1);
    }
  }

  /** Without reset, Closed is re-entered only after the timeout and then exactly that many successes in a row. */
  lemma {:induction false} ClosesOnlyByRecovery(c: Config, es: seq<Event>, ss: seq<State>, n: nat)
    requires c.Positive() && IsRun(c, es, ss) && NoReset(es)
    requires n < |es| && Enters(es, ss, n, Closed)
    ensures var asked := SpellStart(es, ss, n, HalfOpen) - 1;
            0 <= asked < n && Recovery(c, es, ss, asked, n)
  {
    HalfOpenCountsSuccesses(c, es, ss, n);
    HalfOpenEntry(c, es, ss, n);
  }

  /** ... and whenever the timeout has passed and then exactly that many successes came in a row. */
  lemma {:induction false} ClosesExactlyByRecovery(c: Config, es: seq<Event>, ss: seq<State>, n: nat)
    requires c.Positive() && IsRun(c, es, ss) && NoReset(es) && n < |es|
    ensures Enters(es, ss, n, Closed) <==> exists asked: nat :: asked < n && Recovery(c, es, ss, asked, n)
  {
    if Enters(es, ss, n, Closed) {
      ClosesOnlyByRecovery(c, es, ss, n);
    } else {
      forall asked: nat | asked < n ensures !Recovery(c, es, ss, asked, n) {
        if ss[n].mode == HalfOpen && ss[asked].mode == Open && (forall k :: asked < k <= n ==> ss[k].mode == HalfOpen) {
          SpellOf(es, ss, asked, n);
          HalfOpenLeavesExactlyWhen(c, es, ss, n);
          HalfOpenCountsSuccesses(c, es, ss, n);
          var probes := Samples(es, asked + 1, n + 1);
          assert es[n].Failure? ==> !probes[|probes| - 1].ok;
        }
      }
    }
  }

  lemma {:induction false} SpellOf(es: seq<Event>, ss: seq<State>, asked: nat, n: nat)
    requires asked < n <= |es| && |ss| == |es| + 1 && NoReset(es) && ss[asked].mode != HalfOpen
    requires forall k :: asked < k <= n ==> ss[k].mode == HalfOpen
    ensures SpellStart(es, ss, n, HalfOpen) == asked + 1
  {
    if n == asked + 1 {
    } else {
      SpellOf(es, ss, asked, n - 1);
    }
  }

  /** When the breaker last opened. */
  lemma {:induction false} OpenedWhen(c: Config, es: seq<Event>, ss: seq<State>, n: nat)
    requires IsRun(c, es, ss) && n <= |es| && ss[n].mode == Open
    ensures var k := SpellStart(es, ss, n, Open); k > 0 && ss[n].openedAt == es[k - 1].at
  {
    OpenStep(c, ss[n - 1], es[n - 1]);
    hide Step;
    if ss[n - 1].mode == Open {
      OpenedWhen(c, es, ss, n - 1);
    }
  }

  lemma {:induction false} OpenStep(c: Config, s: State, e: Event)
    requires Step(c, s, e).mode == Open
    ensures !e.Reset? && Step(c, s, e).openedAt == if s.mode == Open then s.openedAt else e.at
  {
    hide Trim, Failures;
  }

  /** An open breaker becomes half open exactly when it is asked no sooner than the timeout after it opened;
      no outcome moves it. */
  lemma {:induction false} OpenLeavesExactlyWhen(c: Config, es: seq<Event>, ss: seq<State>, n: nat)
    requires IsRun(c, es, ss) && n < |es| && ss[n].mode == Open
    ensures SpellStart(es, ss, n, Open) > 0
    ensures var since := es[SpellStart(es, ss, n, Open) - 1].at;
            && (ss[n + 1].mode == HalfOpen <==> es[n].Query? && es[n].at - since >= c.timeout)
            && (ss[n + 1].mode == Closed <==> es[n].Reset?)
  {
    OpenedWhen(c, es, ss, n);
  }

  /** A half-open breaker closes exactly with the success that makes success_threshold successes since it was
      entered (or by a reset), opens exactly with a failure, and closes with nothing recorded. */
  lemma {:induction false} HalfOpenLeavesExactlyWhen(c: Config, es: seq<Event>, ss: seq<State>, n: nat)
    requires c.Positive() && IsRun(c, es, ss) && n < |es| && ss[n].mode == HalfOpen
    ensures var probes := Samples(es, SpellStart(es, ss, n, HalfOpen), n);
            && (ss[n + 1].mode == Closed <==> es[n].Reset? || (es[n].Success? && |probes| + 1 == c.successThreshold))
            && (ss[n + 1].mode == Open <==> es[n].Failure?)
    ensures ss[n + 1].mode == Closed ==> ss[n + 1].results == [] && Log(es, ss, n + 1) == []
  {
    HalfOpenCountsSuccesses(c, es, ss, n);
  }

  predicate Ordered(es: seq<Event>) { forall i, j :: 0 <= i <= j < |es| ==> es[i].at <= es[j].at }

  lemma {:induction false} OpenUntilTimeout(c: Config, es: seq<Event>, ss: seq<State>, i: nat, n: nat)
    requires IsRun(c, es, ss) && NoReset(es) && Ordered(es)
    requires i < n <= |es| && Enters(es, ss, i, Open)
    ensures (ss[n].mode == Open && ss[n].openedAt == es[i].at) || es[n - 1].at >= es[i].at + c.timeout
    decreases n
  {
    if n > i + 1 {
      OpenUntilTimeout(c, es, ss, i, n - 1);
      assert es[n - 2].at <= es[n - 1].at;
    }
  }

  /** Without reset two openings are at least `timeout` apart. */
  lemma {:induction false} OpeningsAreSpaced(c: Config, es: seq<Event>, ss: seq<State>, i: nat, j: nat)
    requires IsRun(c, es, ss) && NoReset(es) && Ordered(es)
    requires i < j < |es| && Enters(es, ss, i, Open) && Enters(es, ss, j, Open)
    ensures es[j].at >= es[i].at + c.timeout
  {
    OpenUntilTimeout(c, es, ss, i, j);
    assert es[j - 1].at <= es[j].at;
  }

  // ---------------------------------------------------------------- throttling a failing target

  /** From call `from` on the callers come one after the other: each outcome follows a query that was not refused. */
  predicate Guarded(es: seq<Event>, ss: seq<State>, from: nat)
    requires |ss| == |es| + 1
  {
    forall i :: from <= i < |es| && es[i].Records() ==>
      from < i && es[i - 1].Query? && ss[i].mode != Open
  }

  /** From call `from` on every outcome is a failure and nobody resets. */
  predicate OnlyFails(es: seq<Event>, from: nat) {
    forall i :: from <= i < |es| ==> es[i].Query? || es[i].Failure?
  }

  /** Every recorded call was asked for no later than `end`. */
  predicate AskedBy(es: seq<Event>, from: nat, end: int) {
    forall i :: from < i < |es| && es[i].Records() ==> es[i - 1].at <= end
  }

  /** The last `n` entries of the window are all failures. */
  predicate TailFails(s: seq<Sample>, n: nat) {
    n <= |s| && forall i :: |s| - n <= i < |s| ==> !s[i].ok
  }

  lemma {:induction false} TailFailsCount(s: seq<Sample>, m: nat, n: nat)
    requires n <= m <= |s| && forall i :: m - n <= i < m ==> !s[i].ok
    ensures n <= FailuresUpTo(s, m)
    decreases n
  {
    if n == 0 {
    } else {
      TailFailsCount(s, m - 1, n - 1);
    }
  }

  /** How `n` calls since `start` bound the state reached at `now`. */
  predicate Budget(c: Config, s: State, n: nat, start: int, now: int)
    requires c.Positive()
  {
    match s.mode
    case Closed => n < c.failureThreshold && TailFails(s.results, n) && |s.results| <= c.Window()
    case Open => n == 0 || s.openedAt >= start + (n - c.failureThreshold) * c.timeout
    case HalfOpen => now >= start + (n - c.failureThreshold + 1) * c.timeout
  }

  lemma {:induction false} BudgetQuery(c: Config, s: State, n: nat, start: int, was: int, now: int)
    requires c.Positive() && c.timeout > 0 && start <= was <= now
    requires Budget(c, s, n, start, was)
    ensures Budget(c, Step(c, s, Query(now)), n, start, now)
  {
    var m := n - c.failureThreshold;
    assert (m + 1) * c.timeout == m * c.timeout + c.timeout;
    if n == 0 {
      MulMono(m + 1, 0, c.timeout);
    }
  }

  lemma {:induction false} BudgetFailure(c: Config, s: State, n: nat, start: int, was: int, now: int)
    requires c.Positive() && c.timeout > 0 && start <= was <= now
    requires Budget(c, s, n, start, was) && s.mode != Open
    ensures Budget(c, Step(c, s, Failure(now)), n + 1, start, now)
  {
    if s.mode == Closed {
      var pushed := Trim(s.results + [Sample(now, false)], c.Window());
      assert TailFails(pushed, n + 1);
      TailFailsCount(pushed, |pushed|, n + 1);
      MulMono(n + 1 - c.failureThreshold, 0, c.timeout);
    }
  }

  lemma {:induction false} BudgetKept(c: Config, es: seq<Event>, ss: seq<State>, from: nat, n: nat, start: int)
    requires c.Positive() && c.timeout > 0 && IsRun(c, es, ss) && Ordered(es)
    requires from <= n <= |es| && Guarded(es, ss, from) && OnlyFails(es, from)
    requires from < |es| ==> es[from].at >= start
    ensures Budget(c, ss[n], |Samples(es, from, n)|, start, if n == from then start else es[n - 1].at)
    decreases n
  {
    if n == from {
      WindowIsSuffixOfLog(c, es, ss, n);
      MulMono(1 - c.failureThreshold, 0, c.timeout);
    } else {
      BudgetKept(c, es, ss, from, n - 1, start);
      var calls, e := |Samples(es, from, n - 1)|, es[n - 1];
      var was := if n - 1 == from then start else es[n - 2].at;
      assert start <= was <= e.at;
      assert ss[n] == Step(c, ss[n - 1], e);
      if e.Query? {
        BudgetQuery(c, ss[n - 1], calls, start, was, e.at);
      } else {
        BudgetFailure(c, ss[n - 1], calls, start, was, e.at);
      }
    }
  }

  lemma {:induction false} DivBound(n: int, t: int, total: int)
    requires t > 0 && n * t <= total
    ensures n <= total / t
  {
    var q := total / t;
    assert (q + 1) * t == q * t + t > total;
    if n >= q + 1 {
      MulMono(q + 1, n, t);
    }
  }

  /** One more call, asked for within the T seconds and not refused. */
  lemma {:induction false} CallBound(c: Config, s: State, asked: int, n: nat, start: int, T: nat)
    requires c.Positive() && c.timeout > 0 && s.mode != Open
    requires Budget(c, s, n, start, asked) && asked <= start + T
    ensures n + 1 <= c.failureThreshold + T / c.timeout
  {
    if s.mode == HalfOpen {
      DivBound(n - c.failureThreshold + 1, c.timeout, T);
    } else {
      DivBound(0, c.timeout, T);
    }
  }

  lemma {:induction false} LastCall(es: seq<Event>, from: nat, n: nat) returns (k: nat)
    requires n <= |es| && |Samples(es, from, n)| > 0
    ensures from <= k < n && es[k].Records() && |Samples(es, from, k)| == |Samples(es, from, n)| - 1
  {
    if es[n - 1].Records() { k := n - 1; } else { k := LastCall(es, from, n - 1); }
  }

  lemma {:induction false} ThrottledAtCall(c: Config, es: seq<Event>, ss: seq<State>, from: nat, k: nat, start: int,
        T: nat)
    requires c.Positive() && c.timeout > 0 && IsRun(c, es, ss) && Ordered(es)
    requires Guarded(es, ss, from) && OnlyFails(es, from)
    requires from <= k < |es| && es[from].at >= start
    requires es[k].Records() && AskedBy(es, from, start + T)
    ensures |Samples(es, from, k)| + 1 <= c.failureThreshold + T / c.timeout
  {
    BudgetKept(c, es, ss, from, k, start);
    CallBound(c, ss[k], es[k - 1].at, |Samples(es, from, k)|, start, T);
  }

  /**
   Whatever happened before call `from`, a target that fails from then on is called at most
   failure_threshold + floor(T / timeout) times by sequential callers that ask within T seconds.
   */
  lemma {:induction false} FailingTargetIsThrottled(c: Config, es: seq<Event>, ss: seq<State>, from: nat, start: int,
        T: nat)
    requires c.Positive() && c.timeout > 0 && IsRun(c, es, ss) && Ordered(es)
    requires from <= |es| && Guarded(es, ss, from) && OnlyFails(es, from)
    requires from < |es| ==> es[from].at >= start
    requires AskedBy(es, from, start + T)
    ensures |Samples(es, from, |es|)| <= c.failureThreshold + T / c.timeout
  {
    if Samples(es, from, |es|) == [] {
      DivBound(0, c.timeout, T);
    } else {
      var k := LastCall(es, from, |es|);
      ThrottledAtCall(c, es, ss, from, k, start, T);
    }
  }

  // ---------------------------------------------------------------- the calls made on one breaker

  /** Everything called on a breaker since it was built, and where that has left it. */
  datatype Book = Book(calls: seq<Event>, state: State)

  const BLANK: Book := Book([], FRESH)

  function Post(b: Book, e: Event): Book {
    Book(b.calls + [e], Step(DEFAULTS, b.state, e))
  }

  /** The calls are those of one-after-the-other callers, and `ss` are the states they led through. */
  ghost predicate Explains(b: Book, ss: seq<State>) {
    && IsRun(DEFAULTS, b.calls, ss) && ss[|b.calls|] == b.state
    && Guarded(b.calls, ss, 0) && NoReset(b.calls) && Ordered(b.calls)
  }

  ghost predicate Genuine(b: Book, now: int) {
    && (exists ss :: Explains(b, ss))
    && (|b.calls| > 0 ==> b.calls[|b.calls| - 1].at <= now)
  }

  lemma {:induction false} BlankGenuine(now: int)
    ensures Genuine(BLANK, now)
  {
    assert Explains(BLANK, [FRESH]);
  }

  lemma {:induction false} PostGenuine(b: Book, e: Event, was: int)
    requires Genuine(b, was) && was <= e.at
    requires e.Query? ||
             (e.Records() && |b.calls| > 0 && b.calls[|b.calls| - 1].Query? && b.state.mode != Open)
    ensures Genuine(Post(b, e), e.at)
  {
    hide Step;
    var ss :| Explains(b, ss);
    var p := Post(b, e);
    var tt := ss + [p.state];
    assert forall i :: 0 <= i < |b.calls| ==> p.calls[i] == b.calls[i];
    assert forall i :: 0 <= i < |ss| ==> tt[i] == ss[i];
    assert Explains(p, tt);
  }

  /** The outcomes recorded among the first `n` calls. */
  function Outcomes(calls: seq<Event>, n: nat): seq<bool>
    requires n <= |calls|
  {
    if n == 0 then []
    else Outcomes(calls, n - 1) + (if calls[n - 1].Records() then [calls[n - 1].Success?] else [])
  }

  lemma {:induction false} OutcomesPrefix(calls: seq<Event>, more: seq<Event>, n: nat)
    requires n <= |calls|
    ensures Outcomes(calls + more, n) == Outcomes(calls, n)
  {
    if n == 0 {
    } else {
      OutcomesPrefix(calls, more, n - 1);
    }
  }

  lemma {:induction false} PostOutcomes(b: Book, e: Event)
    ensures Outcomes(Post(b, e).calls, |b.calls| + 1)
         == Outcomes(b.calls, |b.calls|) + (if e.Records() then [e.Success?] else [])
  {
    OutcomesPrefix(b.calls, [e], |b.calls|);
  }

  lemma {:induction false} OutcomesSplit(calls: seq<Event>, from: nat, n: nat)
    requires from <= n <= |calls|
    ensures |Outcomes(calls, n)| == |Outcomes(calls, from)| + |Samples(calls, from, n)|
  {
    if n == from {
    } else {
      OutcomesSplit(calls, from, n - 1);
    }
  }
}
