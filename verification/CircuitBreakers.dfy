/** The circuit breaker shared by the OPA client, the registry client and the tool cache, and the
    bound it puts on the requests that reach a failing backend. Time is a real number of seconds
    on a monotonic clock, passed in at every reading. */
module CircuitBreakers {

  datatype State = State(failures: nat, openUntil: real)

  datatype Config = Config(threshold: int, recovery: real)

  predicate IsOpen(s: State, c: Config, now: real) {
    s.failures >= c.threshold && now < s.openUntil
  }

  function AfterSuccess(s: State): State { s.(failures := 0) }

  function AfterFailure(s: State, c: Config, now: real): State {
    State(s.failures + 1, if s.failures + 1 >= c.threshold then now + c.recovery else s.openUntil)
  }

  const CLOSED := State(0, 0.0)

  /** The default threshold and recovery time; the registry client asks for the same. */
  const DEFAULTS := Config(5, 30.0)

  class CircuitBreaker {
    const config: Config
    var failures: nat
    var openUntil: real

    constructor (config: Config)
      ensures this.config == config && Current() == CLOSED
    {
      this.config := config;
      failures, openUntil := 0, 0.0;
    }

    function Current(): State
      reads this
    {
      State(failures, openUntil)
    }

    method Open(now: real) returns (open: bool)
      ensures open <==> IsOpen(Current(), config, now)
    {
      if failures < config.threshold { return false; }
      if now >= openUntil { return false; }
      return true;
    }

    method RecordSuccess()
      modifies this
      ensures Current() == AfterSuccess(old(Current()))
    {
      failures := 0;
    }

    method RecordFailure(now: real)
      modifies this
      ensures Current() == AfterFailure(old(Current()), config, now)
    {
      failures := failures + 1;
      if failures >= config.threshold {
        openUntil := now + config.recovery;
      }
    }
  }

  // ---- Calls to a backend that fails ---------------------------------------

  /** A call that asks the breaker at `start` and, if let through, fails at each of `failedAt`. */
  datatype Call = Call(start: real, failedAt: seq<real>)

  function RecordAll(s: State, c: Config, times: seq<real>): State
    decreases times
  {
    if times == [] then s else RecordAll(AfterFailure(s, c, times[0]), c, times[1..])
  }

  /** The time of the last event of a call that was let through. */
  function End(call: Call): real {
    if call.failedAt == [] then call.start else call.failedAt[|call.failedAt| - 1]
  }

  predicate TimesFrom(now: real, times: seq<real>)
    decreases times
  {
    times != [] ==> now <= times[0] && TimesFrom(times[0], times[1..])
  }

  function AfterCall(s: State, c: Config, call: Call): State {
    if IsOpen(s, c, call.start) then s else RecordAll(s, c, call.failedAt)
  }

  /** The requests that reach the backend during the calls. */
  function Requests(s: State, c: Config, calls: seq<Call>): nat
    decreases calls
  {
    if calls == [] then 0
    else (if IsOpen(s, c, calls[0].start) then 0 else |calls[0].failedAt|)
         + Requests(AfterCall(s, c, calls[0]), c, calls[1..])
  }

  /** One call after the other, none starting before `now` or after `until`, with at most
      `m` attempts each. */
  predicate Sequential(s: State, c: Config, now: real, until: real, m: nat, calls: seq<Call>)
    decreases calls
  {
    calls != [] ==>
      && now <= calls[0].start <= until
      && |calls[0].failedAt| <= m && TimesFrom(calls[0].start, calls[0].failedAt)
      && Sequential(AfterCall(s, c, calls[0]), c,
                    if IsOpen(s, c, calls[0].start) then calls[0].start else End(calls[0]),
                    until, m, calls[1..])
  }

  /** How many calls an open breaker can let through from `t` on, one per recovery period. */
  function Probes(t: real, until: real, recovery: real): nat
    requires recovery > 0.0
  {
    if t > until then 0 else PeriodsNonNegative(until - t, recovery); 1 + Periods(until - t, recovery)
  }

  function Periods(length: real, recovery: real): int
    requires recovery > 0.0
  {
    (length / recovery).Floor
  }

  lemma PeriodsNonNegative(length: real, recovery: real)
    requires recovery > 0.0 && length >= 0.0
    ensures Periods(length, recovery) >= 0
  {
  }

  lemma PeriodsMonotone(a: real, b: real, recovery: real)
    requires recovery > 0.0 && a <= b
    ensures Periods(a, recovery) <= Periods(b, recovery)
  {
    assert a / recovery <= b / recovery;
  }

  lemma Cancel(x: real, r: real)
    requires r > 0.0 && x * r == 0.0
    ensures x == 0.0
  {
  }

  lemma PeriodsLess(length: real, recovery: real)
    requires recovery > 0.0
    ensures Periods(length - recovery, recovery) == Periods(length, recovery) - 1
  {
    var q, p := length / recovery, (length - recovery) / recovery;
    assert q * recovery == length && p * recovery == length - recovery;
    Cancel(q - 1.0 - p, recovery);
    assert p == q - 1.0;
  }

  lemma ProbesMonotone(t: real, t': real, until: real, recovery: real)
    requires recovery > 0.0 && t <= t'
    ensures Probes(t', until, recovery) <= Probes(t, until, recovery)
  {
    if t' <= until {
      PeriodsMonotone(until - t', until - t, recovery);
    }
  }

  /** A failure at or after `t` postpones the next probe by a whole period. */
  lemma ProbesAfterFailure(t: real, failed: real, until: real, recovery: real)
    requires recovery > 0.0 && t <= until && t <= failed
    ensures Probes(failed + recovery, until, recovery) + 1 <= Probes(t, until, recovery)
  {
    PeriodsNonNegative(until - t, recovery);
    if failed + recovery <= until {
      PeriodsMonotone(until - failed, until - t, recovery);
      PeriodsLess(until - failed, recovery);
      assert until - (failed + recovery) == until - failed - recovery;
    }
  }

  /** What the state still allows: the failures left before it opens, then `m` a probe. */
  function Allowance(s: State, c: Config, now: real, until: real, m: nat): nat
    requires c.recovery > 0.0
  {
    if s.failures < c.threshold
    then c.threshold - 1 - s.failures + m * Probes(now, until, c.recovery)
    else m * Probes(if now < s.openUntil then s.openUntil else now, until, c.recovery)
  }

  lemma Scale(m: nat, a: nat, b: nat)
    requires a <= b
    ensures m * a <= m * b
  {
  }

  lemma ScaleNext(m: nat, a: nat, b: nat)
    requires a + 1 <= b
    ensures m * a + m <= m * b
  {
    Scale(m, a + 1, b);
  }

  lemma AllowanceMonotone(s: State, c: Config, now: real, later: real, until: real, m: nat)
    requires c.recovery > 0.0 && now <= later
    ensures Allowance(s, c, later, until, m) <= Allowance(s, c, now, until, m)
  {
    var t := if now < s.openUntil then s.openUntil else now;
    var t' := if later < s.openUntil then s.openUntil else later;
    ProbesMonotone(now, later, until, c.recovery);
    ProbesMonotone(t, t', until, c.recovery);
    Scale(m, Probes(later, until, c.recovery), Probes(now, until, c.recovery));
    Scale(m, Probes(t', until, c.recovery), Probes(t, until, c.recovery));
  }

  lemma {:induction false} RecordAllState(s: State, c: Config, now: real, times: seq<real>)
    requires TimesFrom(now, times)
    ensures RecordAll(s, c, times).failures == s.failures + |times|
    ensures times != [] ==>
      && now <= times[|times| - 1]
      && RecordAll(s, c, times).openUntil
         == if s.failures + |times| >= c.threshold then times[|times| - 1] + c.recovery else s.openUntil
    decreases times
  {
    if times != [] {
      RecordAllState(AfterFailure(s, c, times[0]), c, times[0], times[1..]);
    }
  }

  lemma RecordNothing(s: State, c: Config)
    ensures RecordAll(s, c, []) == s
  {
  }

  /** When it opens: after a success, exactly from the threshold-th failure on, until the recovery time
      after the last one has passed. */
  lemma OpensIff(s: State, c: Config, now: real, times: seq<real>, at: real)
    requires c.threshold >= 1 && TimesFrom(now, times)
    ensures IsOpen(RecordAll(AfterSuccess(s), c, times), c, at) <==>
            |times| >= c.threshold && at < times[|times| - 1] + c.recovery
  {
    RecordAllState(AfterSuccess(s), c, now, times);
  }

  /** A call that is let through spends at least as much allowance as it makes requests. */
  lemma CallSpends(s: State, c: Config, now: real, until: real, m: nat, call: Call)
    requires c.recovery > 0.0 && c.threshold >= 1
    requires now <= call.start <= until && |call.failedAt| <= m && TimesFrom(call.start, call.failedAt)
    requires !IsOpen(s, c, call.start)
    ensures now <= End(call)
    ensures |call.failedAt| + Allowance(RecordAll(s, c, call.failedAt), c, End(call), until, m)
         <= Allowance(s, c, now, until, m)
  {
    var k, end := |call.failedAt|, End(call);
    var s' := RecordAll(s, c, call.failedAt);
    RecordAllState(s, c, call.start, call.failedAt);
    AllowanceMonotone(s, c, now, call.start, until, m);
    hide Probes, RecordAll;
    if k == 0 {
      assert RecordAll(s, c, []) == s by { RecordNothing(s, c); }
    } else if s'.failures < c.threshold {
      ProbesMonotone(call.start, end, until, c.recovery);
      Scale(m, Probes(end, until, c.recovery), Probes(call.start, until, c.recovery));
    } else {
      var before, after := Probes(call.start, until, c.recovery), Probes(end + c.recovery, until, c.recovery);
      ProbesAfterFailure(call.start, end, until, c.recovery);
      ScaleNext(m, after, before);
    }
  }

  lemma {:induction false} RequestsWithinAllowance(s: State, c: Config, now: real, until: real, m: nat,
                                                   calls: seq<Call>)
    requires c.recovery > 0.0 && c.threshold >= 1
    requires Sequential(s, c, now, until, m, calls)
    ensures Requests(s, c, calls) <= Allowance(s, c, now, until, m)
    decreases calls
  {
    if calls != [] {
      var call := calls[0];
      if IsOpen(s, c, call.start) {
        RequestsWithinAllowance(s, c, call.start, until, m, calls[1..]);
        AllowanceMonotone(s, c, now, call.start, until, m);
      } else {
        CallSpends(s, c, now, until, m, call);
        RequestsWithinAllowance(AfterCall(s, c, call), c, End(call), until, m, calls[1..]);
      }
    }
  }

  /** Main bound. From any breaker state, sequential calls that all start within a window of length
      `length` and whose every attempt fails make at most `threshold - 1` requests before the breaker
      opens, and `m` more in each period of the window that begins. */
  lemma FailingCallsBound(s: State, c: Config, from: real, length: real, m: nat, calls: seq<Call>)
    requires c.recovery > 0.0 && c.threshold >= 1 && length >= 0.0
    requires Sequential(s, c, from, from + length, m, calls)
    ensures Requests(s, c, calls) <= (c.threshold - 1) + m * (1 + Periods(length, c.recovery))
  {
    var until := from + length;
    RequestsWithinAllowance(s, c, from, until, m, calls);
    assert until - from == length;
    PeriodsNonNegative(length, c.recovery);
    var t := if from < s.openUntil then s.openUntil else from;
    ProbesMonotone(from, t, until, c.recovery);
    Scale(m, Probes(t, until, c.recovery), Probes(from, until, c.recovery));
  }

  // ---- Calls of one request ---------------------------------------------------

  /** A call that makes one request, if it is let through, which fails at `end`. */
  datatype Single = Single(start: real, end: real)

  function AfterSingle(s: State, c: Config, call: Single): State {
    if IsOpen(s, c, call.start) then s else AfterFailure(s, c, call.end)
  }

  function Sent(s: State, c: Config, calls: seq<Single>): nat
    decreases calls
  {
    if calls == [] then 0
    else (if IsOpen(s, c, calls[0].start) then 0 else 1) + Sent(AfterSingle(s, c, calls[0]), c, calls[1..])
  }

  predicate OneByOne(s: State, c: Config, now: real, until: real, calls: seq<Single>)
    decreases calls
  {
    calls != [] ==>
      && now <= calls[0].start <= until && calls[0].start <= calls[0].end
      && OneByOne(AfterSingle(s, c, calls[0]), c,
                  if IsOpen(s, c, calls[0].start) then calls[0].start else calls[0].end, until, calls[1..])
  }

  function AsCalls(calls: seq<Single>): seq<Call> {
    if calls == [] then [] else [Call(calls[0].start, [calls[0].end])] + AsCalls(calls[1..])
  }

  lemma {:induction false} SinglesAreCalls(s: State, c: Config, now: real, until: real, calls: seq<Single>)
    requires OneByOne(s, c, now, until, calls)
    ensures Sequential(s, c, now, until, 1, AsCalls(calls)) && Sent(s, c, calls) == Requests(s, c, AsCalls(calls))
    decreases calls
  {
    if calls != [] {
      var call := calls[0];
      var from := if IsOpen(s, c, call.start) then call.start else call.end;
      SinglesAreCalls(AfterSingle(s, c, call), c, from, until, calls[1..]);
      assert AsCalls(calls)[1..] == AsCalls(calls[1..]);
      assert RecordAll(s, c, [call.end]) == AfterFailure(s, c, call.end) by { assert [call.end][1..] == []; }
    }
  }

  /** The bound for such calls: the threshold, and one more in each recovery period. */
  lemma SinglesBound(s: State, c: Config, from: real, length: real, calls: seq<Single>)
    requires c.recovery > 0.0 && c.threshold >= 1 && length >= 0.0
    requires OneByOne(s, c, from, from + length, calls)
    ensures Sent(s, c, calls) <= c.threshold + Periods(length, c.recovery)
  {
    SinglesAreCalls(s, c, from, from + length, calls);
    FailingCallsBound(s, c, from, length, 1, AsCalls(calls));
  }

  // ---- Calls in flight at once -------------------------------------------------

  /** A call of one request is let through, or one in flight fails. */
  datatype Traffic = Begin(at: real) | Fail(at: real)

  datatype Load = Load(breaker: State, now: real, inFlight: nat, begun: nat)

  /** Nothing begins while the breaker is open, after `until`, or with `k` calls in flight. */
  predicate CanFlow(l: Load, c: Config, k: nat, until: real, e: Traffic) {
    l.now <= e.at &&
    if e.Begin? then !IsOpen(l.breaker, c, e.at) && e.at <= until && l.inFlight < k else l.inFlight > 0
  }

  function Flow(l: Load, c: Config, k: nat, until: real, e: Traffic): Load
    requires CanFlow(l, c, k, until, e)
  {
    match e
    case Begin(at) => Load(l.breaker, at, l.inFlight + 1, l.begun + 1)
    case Fail(at) => Load(AfterFailure(l.breaker, c, at), at, l.inFlight - 1, l.begun)
  }

  predicate Flows(l: Load, c: Config, k: nat, until: real, es: seq<Traffic>)
    decreases es
  {
    es != [] ==> CanFlow(l, c, k, until, es[0]) && Flows(Flow(l, c, k, until, es[0]), c, k, until, es[1..])
  }

  function FlowAll(l: Load, c: Config, k: nat, until: real, es: seq<Traffic>): Load
    requires Flows(l, c, k, until, es)
    decreases es
  {
    if es == [] then l else FlowAll(Flow(l, c, k, until, es[0]), c, k, until, es[1..])
  }

  /** The breaker was opened, if at all, by a call of those in flight or before them. */
  predicate LoadOk(l: Load, c: Config, k: nat) {
    && c.recovery > 0.0 && c.threshold >= 1 && l.inFlight <= k
    && (l.inFlight > 0 && l.breaker.failures >= c.threshold ==> l.breaker.openUntil <= l.now + c.recovery)
  }

  /** What may still begin. */
  function Budget(l: Load, c: Config, k: nat, until: real): int
    requires c.recovery > 0.0
  {
    if l.now > until then 0
    else if l.breaker.failures < c.threshold
    then c.threshold - 1 - l.breaker.failures + k * Probes(l.now, until, c.recovery) - l.inFlight
    else if l.now < l.breaker.openUntil then k * Probes(l.breaker.openUntil, until, c.recovery)
    else k * Probes(l.now, until, c.recovery) - l.inFlight
  }

  lemma BudgetNonNegative(l: Load, c: Config, k: nat, until: real)
    requires LoadOk(l, c, k)
    ensures Budget(l, c, k, until) >= 0
  {
    if l.now <= until {
      PeriodsNonNegative(until - l.now, c.recovery);
      Scale(k, 1, Probes(l.now, until, c.recovery));
    }
  }

  lemma BudgetLater(l: Load, c: Config, k: nat, until: real, at: real)
    requires LoadOk(l, c, k) && l.now <= at
    ensures Budget(l.(now := at), c, k, until) <= Budget(l, c, k, until)
  {
    BudgetNonNegative(l, c, k, until);
    var t := l.breaker.openUntil;
    var from := if l.now < t then t else l.now;
    var later := if at < t then t else at;
    ProbesMonotone(l.now, at, until, c.recovery);
    ProbesMonotone(from, later, until, c.recovery);
    hide Probes;
    Scale(k, Probes(at, until, c.recovery), Probes(l.now, until, c.recovery));
    Scale(k, Probes(later, until, c.recovery), Probes(from, until, c.recovery));
  }

  lemma FailSpends(l: Load, c: Config, k: nat, until: real)
    requires LoadOk(l, c, k) && l.inFlight > 0
    ensures var m := Load(AfterFailure(l.breaker, c, l.now), l.now, l.inFlight - 1, l.begun);
      LoadOk(m, c, k) && Budget(m, c, k, until) <= Budget(l, c, k, until)
  {
    var reopen := l.now + c.recovery;
    if l.now <= until {
      ProbesAfterFailure(l.now, l.now, until, c.recovery);
      var probes, again := Probes(l.now, until, c.recovery), Probes(reopen, until, c.recovery);
      ScaleNext(k, again, probes);
      if l.breaker.openUntil <= reopen {
        ProbesMonotone(l.breaker.openUntil, reopen, until, c.recovery);
        Scale(k, again, Probes(l.breaker.openUntil, until, c.recovery));
      }
      hide Probes;
    }
  }

  lemma {:induction false} BegunWithinBudget(l: Load, c: Config, k: nat, until: real, es: seq<Traffic>)
    requires LoadOk(l, c, k) && Flows(l, c, k, until, es)
    ensures FlowAll(l, c, k, until, es).begun <= l.begun + Budget(l, c, k, until)
    decreases es
  {
    BudgetNonNegative(l, c, k, until);
    if es != [] {
      var e := es[0];
      var at := l.(now := e.at);
      BudgetLater(l, c, k, until, e.at);
      if e.Fail? { FailSpends(at, c, k, until); }
      hide Probes;
      BegunWithinBudget(Flow(l, c, k, until, e), c, k, until, es[1..]);
    }
  }

  /** The bound for `k` calls in flight at once, in any order of beginnings and failures. The recovery time
      lets through up to `k` of them, not the single probe that the documentation promises. */
  lemma InFlightBound(s: State, c: Config, k: nat, from: real, length: real, es: seq<Traffic>)
    requires c.recovery > 0.0 && c.threshold >= 1 && length >= 0.0
    requires Flows(Load(s, from, 0, 0), c, k, from + length, es)
    ensures FlowAll(Load(s, from, 0, 0), c, k, from + length, es).begun
         <= (c.threshold - 1) + k * (1 + Periods(length, c.recovery))
  {
    var l, until := Load(s, from, 0, 0), from + length;
    BegunWithinBudget(l, c, k, until, es);
    assert until - from == length;
    PeriodsNonNegative(length, c.recovery);
    var t := if from < s.openUntil then s.openUntil else from;
    ProbesMonotone(from, t, until, c.recovery);
    Scale(k, Probes(t, until, c.recovery), Probes(from, until, c.recovery));
  }

  // ---- The bound is attained -------------------------------------------------

  function Repeat<T>(x: T, n: nat): (r: seq<T>)
    ensures |r| == n
  {
    if n == 0 then [] else [x] + Repeat(x, n - 1)
  }

  /** One call of `m` failures at each of the times `from`, `from + recovery`, ... */
  function ProbeRun(c: Config, from: real, m: nat, n: nat): seq<Call>
    decreases n
  {
    if n == 0 then [] else [Call(from, Repeat(from, m))] + ProbeRun(c, from + c.recovery, m, n - 1)
  }

  lemma {:induction false} RepeatTimes(t: real, n: nat)
    ensures TimesFrom(t, Repeat(t, n))
    ensures n > 0 ==> Repeat(t, n)[n - 1] == t
  {
    if n > 0 {
      RepeatTimes(t, n - 1);
      assert Repeat(t, n)[1..] == Repeat(t, n - 1);
    }
  }

  function LastProbe(from: real, recovery: real, n: nat): real
    decreases n
  {
    if n <= 1 then from else LastProbe(from + recovery, recovery, n - 1)
  }

  lemma {:induction false} LastProbeTime(from: real, recovery: real, n: nat)
    requires n >= 1
    ensures LastProbe(from, recovery, n) == from + (n - 1) as real * recovery
    decreases n
  {
    if n > 1 {
      LastProbeTime(from + recovery, recovery, n - 1);
      assert (n - 1) as real * recovery == (n - 2) as real * recovery + recovery;
    }
  }

  lemma {:induction false} LastProbeLater(from: real, recovery: real, n: nat)
    requires recovery > 0.0
    ensures from <= LastProbe(from, recovery, n)
    decreases n
  {
    if n > 1 {
      LastProbeLater(from + recovery, recovery, n - 1);
    }
  }

  lemma {:induction false} ProbeRunAttains(s: State, c: Config, now: real, from: real, until: real, m: nat, n: nat)
    requires c.recovery > 0.0 && c.threshold >= 1 && m >= 1
    requires s.failures + 1 >= c.threshold && (s.failures >= c.threshold ==> s.openUntil <= from)
    requires now <= from && (n >= 1 ==> LastProbe(from, c.recovery, n) <= until)
    ensures Sequential(s, c, now, until, m, ProbeRun(c, from, m, n))
    ensures Requests(s, c, ProbeRun(c, from, m, n)) == m * n
    decreases n
  {
    if n > 0 {
      var calls := ProbeRun(c, from, m, n);
      var call := calls[0];
      assert calls[1..] == ProbeRun(c, from + c.recovery, m, n - 1);
      RepeatTimes(from, m);
      RecordAllState(s, c, from, call.failedAt);
      LastProbeLater(from, c.recovery, n);
      ProbeRunAttains(AfterCall(s, c, call), c, from, from + c.recovery, until, m, n - 1);
    }
  }

  lemma {:induction false} OpeningRun(s: State, c: Config, from: real, until: real, m: nat, k: nat, rest: seq<Call>)
    requires s.failures + k < c.threshold && m >= 1 && from <= until
    requires Sequential(State(s.failures + k, s.openUntil), c, from, until, m, rest)
    ensures Sequential(s, c, from, until, m, Repeat(Call(from, [from]), k) + rest)
    ensures Requests(s, c, Repeat(Call(from, [from]), k) + rest)
         == k + Requests(State(s.failures + k, s.openUntil), c, rest)
    decreases k
  {
    var calls := Repeat(Call(from, [from]), k) + rest;
    if k == 0 {
      assert calls == rest;
    } else {
      var first, more := Call(from, [from]), Repeat(Call(from, [from]), k - 1) + rest;
      assert calls[0] == first && calls[1..] == more;
      OneFailure(s, c, from);
      hide Repeat, RecordAll, IsOpen, AfterCall, AfterFailure;
      OpeningRun(State(s.failures + 1, s.openUntil), c, from, until, m, k - 1, rest);
    }
  }

  lemma OneFailure(s: State, c: Config, from: real)
    requires s.failures + 1 < c.threshold
    ensures var call := Call(from, [from]);
      !IsOpen(s, c, from) && AfterCall(s, c, call) == State(s.failures + 1, s.openUntil) && End(call) == from
      && TimesFrom(from, call.failedAt)
  {
    assert [from][1..] == [];
    assert RecordAll(s, c, [from]) == AfterFailure(s, c, from);
  }

  lemma {:induction false} RepeatAll<T>(x: T, n: nat)
    ensures forall i :: 0 <= i < n ==> Repeat(x, n)[i] == x
  {
    if n > 0 {
      RepeatAll(x, n - 1);
    }
  }

  lemma {:induction false} ProbeRunFails(c: Config, from: real, m: nat, n: nat)
    requires m >= 1
    ensures forall i :: 0 <= i < |ProbeRun(c, from, m, n)| ==> ProbeRun(c, from, m, n)[i].failedAt != []
    decreases n
  {
    if n > 0 {
      ProbeRunFails(c, from + c.recovery, m, n - 1);
    }
  }

  /** No smaller bound holds: for every configuration and window there is a run that makes exactly
      that many requests, starting from a closed breaker. */
  lemma BoundAttained(c: Config, from: real, length: real, m: nat) returns (calls: seq<Call>)
    requires c.recovery > 0.0 && c.threshold >= 1 && length >= 0.0 && m >= 1
    ensures Sequential(CLOSED, c, from, from + length, m, calls)
    ensures Requests(CLOSED, c, calls) == (c.threshold - 1) + m * (1 + Periods(length, c.recovery))
    ensures forall i :: 0 <= i < |calls| ==> calls[i].failedAt != []
  {
    PeriodsNonNegative(length, c.recovery);
    var n := 1 + Periods(length, c.recovery);
    var until := from + length;
    var nearly := State(c.threshold - 1, 0.0);
    assert (n - 1) as real <= length / c.recovery;
    assert (n - 1) as real * c.recovery <= length;
    LastProbeTime(from, c.recovery, n);
    ProbeRunAttains(nearly, c, from, from, until, m, n);
    calls := Repeat(Call(from, [from]), c.threshold - 1) + ProbeRun(c, from, m, n);
    OpeningRun(CLOSED, c, from, until, m, c.threshold - 1, ProbeRun(c, from, m, n));
    RepeatAll(Call(from, [from]), c.threshold - 1);
    ProbeRunFails(c, from, m, n);
  }
}
