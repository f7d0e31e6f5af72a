/** `OpaClient.authorize`: a retry loop around the policy server that fails closed. */
module OpaClients {
  import CB = CircuitBreakers

  /** What one POST comes to: a decoded decision, or one of the three kinds of exception. */
  datatype Reply = Decision(truthy: bool) | Timeout | HttpStatusError | OtherError

  datatype Attempt = Attempt(reply: Reply, at: real)

  datatype Verdict = Verdict(allowed: bool, requests: nat, breaker: CB.State)

  /** The attempts of one call after the breaker let it through. */
  function Tries(s: CB.State, c: CB.Config, attempts: seq<Attempt>): Verdict
    decreases attempts
  {
    if attempts == [] then Verdict(false, 0, s)
    else
      match attempts[0].reply
      case Decision(truthy) => Verdict(truthy, 1, CB.AfterSuccess(s))
      case HttpStatusError => Verdict(false, 1, CB.AfterFailure(s, c, attempts[0].at))
      case _ =>
        var rest := Tries(CB.AfterFailure(s, c, attempts[0].at), c, attempts[1..]);
        rest.(requests := rest.requests + 1)
  }

  function Retries(maxRetries: int): nat { if maxRetries < 0 then 0 else maxRetries }

  function Authorized(s: CB.State, c: CB.Config, maxRetries: int, start: real, attempts: seq<Attempt>): Verdict
    requires Retries(maxRetries) <= |attempts|
  {
    if CB.IsOpen(s, c, start) then Verdict(false, 0, s) else Tries(s, c, attempts[..Retries(maxRetries)])
  }

  predicate Retryable(r: Reply) { r.Timeout? || r.OtherError? }

  /** Attempt `k` is made: nothing before it settled the call. */
  predicate Reached(attempts: seq<Attempt>, k: nat) {
    k < |attempts| && forall j :: 0 <= j < k ==> Retryable(attempts[j].reply)
  }

  lemma {:induction false} TriesSettled(s: CB.State, c: CB.Config, attempts: seq<Attempt>, k: nat)
    requires Reached(attempts, k) && !Retryable(attempts[k].reply)
    ensures var v, reply := Tries(s, c, attempts), attempts[k].reply;
      v.allowed == (reply == Decision(true)) && v.requests == k + 1
      && v.breaker.failures == if reply.Decision? then 0 else s.failures + k + 1
    decreases attempts
  {
    if k > 0 {
      var rest := attempts[1..];
      assert Retryable(attempts[0].reply) && rest[k - 1] == attempts[k];
      assert forall j :: 0 <= j < k - 1 ==> rest[j] == attempts[j + 1];
      TriesSettled(CB.AfterFailure(s, c, attempts[0].at), c, rest, k - 1);
    }
  }

  lemma {:induction false} TriesExhausted(s: CB.State, c: CB.Config, attempts: seq<Attempt>)
    requires forall k: nat :: k < |attempts| ==> Retryable(attempts[k].reply)
    ensures var v := Tries(s, c, attempts);
      !v.allowed && v.requests == |attempts| && v.breaker.failures == s.failures + |attempts|
    decreases attempts
  {
    if attempts != [] {
      assert Retryable(attempts[0].reply);
      TriesExhausted(CB.AfterFailure(s, c, attempts[0].at), c, attempts[1..]);
    }
  }

  /** A call ends at the first attempt that is neither a timeout nor another error. A decision, a denial
      too, is the answer and a success of the server; an HTTP error denies and counts. */
  lemma SettledVerdict(s: CB.State, c: CB.Config, maxRetries: int, start: real, attempts: seq<Attempt>, k: nat)
    requires Retries(maxRetries) <= |attempts| && !CB.IsOpen(s, c, start)
    requires k < Retries(maxRetries) && Reached(attempts, k) && !Retryable(attempts[k].reply)
    ensures var v, reply := Authorized(s, c, maxRetries, start, attempts), attempts[k].reply;
      v.allowed == (reply == Decision(true)) && v.requests == k + 1
      && v.breaker.failures == if reply.Decision? then 0 else s.failures + k + 1
  {
    var script := attempts[..Retries(maxRetries)];
    assert Reached(script, k) && script[k] == attempts[k];
    TriesSettled(s, c, script, k);
    hide Tries, Reached;
  }

  /** Without such an attempt every retry is made and counted, and access denied. */
  lemma ExhaustedVerdict(s: CB.State, c: CB.Config, maxRetries: int, start: real, attempts: seq<Attempt>)
    requires Retries(maxRetries) <= |attempts| && !CB.IsOpen(s, c, start)
    requires forall k: nat :: k < Retries(maxRetries) ==> Retryable(attempts[k].reply)
    ensures var v := Authorized(s, c, maxRetries, start, attempts);
      !v.allowed && v.requests == Retries(maxRetries) && v.breaker.failures == s.failures + Retries(maxRetries)
  {
    var script := attempts[..Retries(maxRetries)];
    assert forall k: nat :: k < |script| ==> script[k] == attempts[k];
    TriesExhausted(s, c, script);
    hide Tries, Retryable;
  }

  /** Nothing is asked while the breaker is open, and then nothing changes. */
  lemma OpenVerdict(s: CB.State, c: CB.Config, maxRetries: int, start: real, attempts: seq<Attempt>)
    requires Retries(maxRetries) <= |attempts| && s.failures >= c.threshold && start < s.openUntil
    ensures Authorized(s, c, maxRetries, start, attempts) == Verdict(false, 0, s)
  {
  }

  /** A decision leaves the breaker closed at all times, whichever way it went. */
  lemma DecisionClosesBreaker(s: CB.State, c: CB.Config, maxRetries: int, start: real, attempts: seq<Attempt>, k: nat)
    requires Retries(maxRetries) <= |attempts| && c.threshold >= 1 && !CB.IsOpen(s, c, start)
    requires k < Retries(maxRetries) && Reached(attempts, k) && attempts[k].reply.Decision?
    ensures var v := Authorized(s, c, maxRetries, start, attempts);
      v.allowed == attempts[k].reply.truthy && v.requests == k + 1
      && v.breaker.failures == 0 && forall at: real :: !CB.IsOpen(v.breaker, c, at)
  {
    SettledVerdict(s, c, maxRetries, start, attempts, k);
    hide Tries, Authorized, Reached;
  }

  class OpaClient {
    const maxRetries: int
    const breaker: CB.CircuitBreaker

    constructor (maxRetries: int, config: CB.Config)
      ensures this.maxRetries == maxRetries && fresh(breaker)
      ensures breaker.config == config && breaker.Current() == CB.CLOSED
    {
      this.maxRetries := maxRetries;
      breaker := new CB.CircuitBreaker(config);
    }

    /** `attempts` are the replies the server would give, as far as it is asked. */
    method Authorize(start: real, attempts: seq<Attempt>) returns (allowed: bool, ghost requests: nat)
      requires Retries(maxRetries) <= |attempts|
      modifies breaker
      ensures Verdict(allowed, requests, breaker.Current())
           == Authorized(old(breaker.Current()), breaker.config, maxRetries, start, attempts)
    {
      requests := 0;
      var open := breaker.Open(start);
      if open { return false, 0; }
      ghost var script := attempts[..Retries(maxRetries)];
      var attempt := 0;
      while attempt < maxRetries
        invariant 0 <= attempt <= Retries(maxRetries) && requests == attempt
        invariant var rest := Tries(breaker.Current(), breaker.config, script[attempt..]);
          rest.(requests := attempt + rest.requests) == Tries(old(breaker.Current()), breaker.config, script)
      {
        assert script[attempt..][0] == attempts[attempt] && script[attempt..][1..] == script[attempt + 1..];
        var at := attempts[attempt].at;
        requests := requests + 1;
        match attempts[attempt].reply {
          case Decision(truthy) =>
            breaker.RecordSuccess();
            return truthy, requests;
          case HttpStatusError =>
            breaker.RecordFailure(at);
            return false, requests;
          case Timeout => breaker.RecordFailure(at);
          case OtherError => breaker.RecordFailure(at);
        }
        attempt := attempt + 1;
      }
      return false, requests;
    }
  }

  lemma {:induction false} TriesAllowedIff(s: CB.State, c: CB.Config, attempts: seq<Attempt>)
    ensures Tries(s, c, attempts).allowed <==>
            exists k: nat :: Reached(attempts, k) && attempts[k].reply == Decision(true)
    ensures forall k: nat :: Reached(attempts, k) && !Retryable(attempts[k].reply) ==>
            Tries(s, c, attempts).requests == k + 1
    ensures Tries(s, c, attempts).allowed ==> Tries(s, c, attempts).breaker.failures == 0
    decreases attempts
  {
    if attempts != [] {
      var rest := attempts[1..];
      TriesAllowedIff(CB.AfterFailure(s, c, attempts[0].at), c, rest);
      assert forall j :: 0 <= j < |rest| ==> rest[j] == attempts[j + 1];
      forall k: nat
        ensures Reached(attempts, k + 1) <==> Retryable(attempts[0].reply) && Reached(rest, k)
      {
        if Retryable(attempts[0].reply) && Reached(rest, k) {
          assert forall j :: 0 < j < k + 1 ==> attempts[j] == rest[j - 1];
        }
      }
      if Retryable(attempts[0].reply) {
        if Tries(s, c, attempts).allowed {
          var k: nat :| Reached(rest, k) && rest[k].reply == Decision(true);
          assert Reached(attempts, k + 1) && attempts[k + 1].reply == Decision(true);
        }
        forall k: nat | Reached(attempts, k) && !Retryable(attempts[k].reply)
          ensures Reached(rest, k - 1) && rest[k - 1] == attempts[k]
        {
          assert Reached(attempts, k - 1 + 1);
        }
      } else {
        assert Reached(attempts, 0);
      }
    }
  }

  /** Access is granted if and only if the breaker let the call through and, after nothing but
      timeouts and other errors, one of the allowed attempts returned a truthy result. That attempt
      is then the last one, and the failure count is zero: everything else is denied. */
  lemma AllowedIff(s: CB.State, c: CB.Config, maxRetries: int, start: real, attempts: seq<Attempt>)
    requires Retries(maxRetries) <= |attempts|
    ensures var v := Authorized(s, c, maxRetries, start, attempts);
      v.allowed <==>
        !CB.IsOpen(s, c, start)
        && exists k: nat :: k < Retries(maxRetries) && Reached(attempts, k) && attempts[k].reply == Decision(true)
    ensures var v := Authorized(s, c, maxRetries, start, attempts);
      v.allowed ==>
        && v.breaker.failures == 0 && 1 <= v.requests <= Retries(maxRetries)
        && attempts[v.requests - 1].reply == Decision(true)
  {
    var script := attempts[..Retries(maxRetries)];
    TriesAllowedIff(s, c, script);
    assert forall k: nat :: Reached(script, k) ==> Reached(attempts, k) && script[k] == attempts[k];
    assert forall k: nat :: k < |script| && Reached(attempts, k) ==> Reached(script, k) && script[k] == attempts[k];
  }

  /** Once a call is let through, timeouts use up every retry, even after the breaker opened:
      it is not asked again between attempts. */
  lemma {:induction false} TimeoutsUseEveryRetry(s: CB.State, c: CB.Config, attempts: seq<Attempt>)
    requires forall i :: 0 <= i < |attempts| ==> attempts[i].reply == Timeout
    ensures Tries(s, c, attempts).requests == |attempts|
    decreases attempts
  {
    if attempts != [] {
      TimeoutsUseEveryRetry(CB.AfterFailure(s, c, attempts[0].at), c, attempts[1..]);
    }
  }

  // ---- The load on a failing policy server ----------------------------------

  datatype Request = Request(start: real, attempts: seq<Attempt>)

  /** The times of the attempts made when none is decided. */
  function FailedAt(attempts: seq<Attempt>): seq<real> {
    if attempts == [] then []
    else if attempts[0].reply.HttpStatusError? then [attempts[0].at]
    else [attempts[0].at] + FailedAt(attempts[1..])
  }

  predicate AllFail(attempts: seq<Attempt>) {
    forall i :: 0 <= i < |attempts| ==> !attempts[i].reply.Decision?
  }

  lemma {:induction false} FailingTries(s: CB.State, c: CB.Config, attempts: seq<Attempt>)
    requires AllFail(attempts)
    ensures Tries(s, c, attempts) == Verdict(false, |FailedAt(attempts)|, CB.RecordAll(s, c, FailedAt(attempts)))
    ensures |FailedAt(attempts)| <= |attempts|
    decreases attempts
  {
    if attempts != [] {
      var times := FailedAt(attempts);
      FailingTries(CB.AfterFailure(s, c, attempts[0].at), c, attempts[1..]);
      assert times[1..] == if attempts[0].reply.HttpStatusError? then [] else FailedAt(attempts[1..]);
    }
  }

  /** The requests a sequence of calls sends to the server. */
  function RequestsSent(s: CB.State, c: CB.Config, maxRetries: int, calls: seq<Request>): nat
    requires forall i :: 0 <= i < |calls| ==> Retries(maxRetries) <= |calls[i].attempts|
    decreases calls
  {
    if calls == [] then 0
    else
      var v := Authorized(s, c, maxRetries, calls[0].start, calls[0].attempts);
      v.requests + RequestsSent(v.breaker, c, maxRetries, calls[1..])
  }

  function AsCall(call: Request, maxRetries: int): CB.Call
    requires Retries(maxRetries) <= |call.attempts|
  {
    CB.Call(call.start, FailedAt(call.attempts[..Retries(maxRetries)]))
  }

  function AsCalls(calls: seq<Request>, maxRetries: int): seq<CB.Call>
    requires forall i :: 0 <= i < |calls| ==> Retries(maxRetries) <= |calls[i].attempts|
  {
    if calls == [] then [] else [AsCall(calls[0], maxRetries)] + AsCalls(calls[1..], maxRetries)
  }

  lemma {:induction false} RequestsAreCallRequests(s: CB.State, c: CB.Config, maxRetries: int, calls: seq<Request>)
    requires forall i :: 0 <= i < |calls| ==>
      Retries(maxRetries) <= |calls[i].attempts| && AllFail(calls[i].attempts[..Retries(maxRetries)])
    ensures RequestsSent(s, c, maxRetries, calls) == CB.Requests(s, c, AsCalls(calls, maxRetries))
    decreases calls
  {
    if calls != [] {
      var script := calls[0].attempts[..Retries(maxRetries)];
      FailingTries(s, c, script);
      var mapped := AsCalls(calls, maxRetries);
      assert mapped[0] == AsCall(calls[0], maxRetries) && mapped[1..] == AsCalls(calls[1..], maxRetries);
      var next := Authorized(s, c, maxRetries, calls[0].start, calls[0].attempts).breaker;
      RequestsAreCallRequests(next, c, maxRetries, calls[1..]);
    }
  }

  /** From any breaker state, sequential calls that start within a window of length `length` and
      whose every attempt fails send at most this many requests to the policy server. */
  lemma AuthorizeBound(s: CB.State, c: CB.Config, maxRetries: int, from: real, length: real, calls: seq<Request>)
    requires c.recovery > 0.0 && c.threshold >= 1 && length >= 0.0
    requires forall i :: 0 <= i < |calls| ==>
      Retries(maxRetries) <= |calls[i].attempts| && AllFail(calls[i].attempts[..Retries(maxRetries)])
    requires CB.Sequential(s, c, from, from + length, Retries(maxRetries), AsCalls(calls, maxRetries))
    ensures RequestsSent(s, c, maxRetries, calls)
         <= (c.threshold - 1) + Retries(maxRetries) * (1 + CB.Periods(length, c.recovery))
  {
    RequestsAreCallRequests(s, c, maxRetries, calls);
    CB.FailingCallsBound(s, c, from, length, Retries(maxRetries), AsCalls(calls, maxRetries));
  }

  /** A call that fails at these times: timeouts, and an HTTP error at the last. */
  function Failing(times: seq<real>): seq<Attempt> {
    if times == [] then []
    else [Attempt(if |times| == 1 then HttpStatusError else Timeout, times[0])] + Failing(times[1..])
  }

  function Padding(n: nat): (r: seq<Attempt>)
    ensures |r| == n && AllFail(r)
  {
    seq(n, _ => Attempt(Timeout, 0.0))
  }

  function RequestOf(call: CB.Call, m: nat): Request { Request(call.start, Failing(call.failedAt) + Padding(m)) }

  lemma {:induction false} FailingTimes(times: seq<real>, rest: seq<Attempt>, k: nat)
    requires times != [] && |times| <= k <= |Failing(times) + rest|
    ensures FailedAt((Failing(times) + rest)[..k]) == times
    ensures AllFail(Failing(times)) && |Failing(times)| == |times|
    decreases times
  {
    var tail := Failing(times[1..]);
    var first := Attempt(if |times| == 1 then HttpStatusError else Timeout, times[0]);
    FirstAttempt(first, tail, rest, k);
    assert times == [times[0]] + times[1..];
    if |times| > 1 {
      FailingTimes(times[1..], rest, k - 1);
    }
    hide Failing;
  }

  lemma FirstAttempt(first: Attempt, tail: seq<Attempt>, rest: seq<Attempt>, k: nat)
    requires 1 <= k <= |[first] + tail + rest|
    ensures FailedAt(([first] + tail + rest)[..k])
         == [first.at] + if first.reply.HttpStatusError? then [] else FailedAt((tail + rest)[..k - 1])
    ensures !first.reply.Decision? && AllFail(tail) ==> AllFail([first] + tail)
  {
    var all := ([first] + tail + rest)[..k];
    assert all[0] == first && all[1..] == (tail + rest)[..k - 1];
  }

  lemma {:induction false} CallsOfRequests(calls: seq<CB.Call>, maxRetries: int) returns (rs: seq<Request>)
    requires forall i :: 0 <= i < |calls| ==> 1 <= |calls[i].failedAt| <= Retries(maxRetries)
    ensures forall i :: 0 <= i < |rs| ==>
      Retries(maxRetries) <= |rs[i].attempts| && AllFail(rs[i].attempts[..Retries(maxRetries)])
    ensures AsCalls(rs, maxRetries) == calls
    decreases calls
  {
    if calls == [] {
      rs := [];
    } else {
      var m := Retries(maxRetries);
      var rest := CallsOfRequests(calls[1..], maxRetries);
      var r := RequestOf(calls[0], m);
      FailingTimes(calls[0].failedAt, Padding(m), m);
      rs := [r] + rest;
      assert rs[1..] == rest && AsCall(r, maxRetries) == calls[0];
    }
  }

  lemma {:induction false} SequentialSizes(s: CB.State, c: CB.Config, now: real, until: real, m: nat,
                                           calls: seq<CB.Call>)
    requires CB.Sequential(s, c, now, until, m, calls)
    ensures forall i :: 0 <= i < |calls| ==> |calls[i].failedAt| <= m
    decreases calls
  {
    if calls != [] {
      var from := if CB.IsOpen(s, c, calls[0].start) then calls[0].start else CB.End(calls[0]);
      SequentialSizes(CB.AfterCall(s, c, calls[0]), c, from, until, m, calls[1..]);
    }
  }

  /** The bound cannot be improved as long as the retries of a call may follow each other at once: for
      every configuration and window some calls send exactly that many requests. */
  lemma AuthorizeBoundAttained(c: CB.Config, maxRetries: int, from: real, length: real) returns (calls: seq<Request>)
    requires c.recovery > 0.0 && c.threshold >= 1 && length >= 0.0 && maxRetries >= 1
    ensures forall i :: 0 <= i < |calls| ==>
      maxRetries <= |calls[i].attempts| && AllFail(calls[i].attempts[..maxRetries])
    ensures CB.Sequential(CB.CLOSED, c, from, from + length, maxRetries, AsCalls(calls, maxRetries))
    ensures RequestsSent(CB.CLOSED, c, maxRetries, calls)
         == (c.threshold - 1) + maxRetries * (1 + CB.Periods(length, c.recovery))
  {
    var script := CB.BoundAttained(c, from, length, maxRetries);
    SequentialSizes(CB.CLOSED, c, from, from + length, maxRetries, script);
    calls := CallsOfRequests(script, maxRetries);
    RequestsAreCallRequests(CB.CLOSED, c, maxRetries, calls);
  }

  // ---- The input is stamped -------------------------------------------------

  /** `{**payload, "tool": ..., "environment": ..., "agent_role": ...}` */
  function InputData<V>(payload: map<string, V>, tool: V, environment: V, agentRole: V): map<string, V> {
    payload["tool" := tool]["environment" := environment]["agent_role" := agentRole]
  }

  /** A caller cannot influence the stamped fields: they arrive with the server's values, payloads that
      differ only there ask the same question, and every other field arrives as it was given. */
  lemma CallerCannotStamp<V>(payload: map<string, V>, forged: map<string, V>, tool: V, environment: V, agentRole: V)
    requires payload - {"tool", "environment", "agent_role"} == forged - {"tool", "environment", "agent_role"}
    ensures InputData(payload, tool, environment, agentRole) == InputData(forged, tool, environment, agentRole)
    ensures InputData(payload, tool, environment, agentRole) - {"tool", "environment", "agent_role"}
         == payload - {"tool", "environment", "agent_role"}
    ensures var sent := InputData(payload, tool, environment, agentRole);
      {"tool", "environment", "agent_role"} <= sent.Keys
      && sent["tool"] == tool && sent["environment"] == environment && sent["agent_role"] == agentRole
  {
    var stamped := {"tool", "environment", "agent_role"};
    var a, b := InputData(payload, tool, environment, agentRole), InputData(forged, tool, environment, agentRole);
    forall k ensures k in a <==> k in b {
      assert k in payload - stamped <==> k in forged - stamped;
    }
    forall k | k in a ensures a[k] == b[k] {
      if k !in stamped {
        assert (payload - stamped)[k] == (forged - stamped)[k];
      }
    }
  }
}
