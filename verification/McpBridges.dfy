/** `MCPToolBridge`: the reconnect loop, cut at its await points, together with the tool closures
    that read the session field and `disconnect`, which sets the stop event. */
module McpBridges {
  import opened Text

  // ---- The loop's frame ------------------------------------------------------

  datatype Exit = Normal | Failed | Cancelled

  /** Where the loop is suspended; `Unstarted` is before its first step. `Closing` is the unwinding of the
      exit stack. */
  datatype Await = Unstarted | Streams | Session | Initialize | StopEvent | Closing(exit: Exit) | Sleep | Ended

  /** How the awaited operation comes back: a result, an exception, or a cancellation. An exit stack may
      also come back having swallowed the exception in flight. */
  datatype Wakeup = Ready | Raised | Cancel | Swallowed

  /** The bridge's fields and the loop's local variables. A session is named by the iteration that
      opened it. `slices` counts the completed sleeps of the current backoff, `slept` those since the
      last successful connection, `attempts` the connection attempts started. `uncounted` adds up the
      delays since then that follow no counted failure. */
  datatype Bridge = Bridge(
    at: Await, session: Option<nat>, stop: bool, connected: bool,
    failures: nat, delay: nat, elapsed: real,
    attempts: nat, slices: nat, slept: nat, uncounted: nat)

  function Pow2(n: nat): nat { if n == 0 then 1 else 2 * Pow2(n - 1) }

  function Min(a: nat, b: nat): nat { if a < b then a else b }

  function Delay(failures: nat): nat { Min(Pow2(failures), 60) }

  /** The head of the outer loop: a new attempt unless stop is set. */
  function LoopTop(b: Bridge): Bridge {
    if b.stop then b.(at := Ended) else b.(at := Streams, attempts := b.attempts + 1)
  }

  /** The head of the sleeping loop. */
  function SleepTop(b: Bridge): Bridge {
    if b.elapsed < b.delay as real && !b.stop then b.(at := Sleep) else LoopTop(b)
  }

  /** From the except clauses to the next await. */
  function Unwound(b: Bridge, exit: Exit): Bridge {
    var c := b.(failures := if exit.Failed? then b.failures + 1 else b.failures, session := None);
    if exit.Cancelled? || c.stop then c.(at := Ended)
    else
      var delay := Delay(c.failures);
      SleepTop(c.(delay := delay, elapsed := 0.0, slices := 0,
                  uncounted := if exit.Failed? then c.uncounted else c.uncounted + delay))
  }

  function ExitOf(w: Wakeup, otherwise: Exit): Exit {
    match w case Ready => otherwise case Raised => Failed case Cancel => Cancelled case Swallowed => Normal
  }

  /** What can come back where: the stop event only once it is set, and a sleep never raises. */
  predicate CanWake(b: Bridge, w: Wakeup) {
    && (b.at.StopEvent? && w.Ready? ==> b.stop)
    && (b.at.Sleep? || b.at.Unstarted? ==> !w.Raised?)
    && (w.Swallowed? ==> b.at.Closing?)
    && !b.at.Ended?
  }

  /** The loop from one await to the next. */
  function Resumed(b: Bridge, w: Wakeup): Bridge
    requires CanWake(b, w)
  {
    match b.at
    case Unstarted => if w.Cancel? then b.(at := Ended) else LoopTop(b)
    case Streams => if w.Ready? then b.(at := Session) else Unwound(b, ExitOf(w, Normal))
    case Session =>
      if w.Ready? then b.(at := Initialize, session := Some(b.attempts)) else b.(at := Closing(ExitOf(w, Normal)))
    case Initialize =>
      if w.Ready? then b.(at := if b.stop then Closing(Normal) else StopEvent, failures := 0, connected := true,
                               slept := 0, uncounted := 0)
      else b.(at := Closing(ExitOf(w, Normal)))
    case StopEvent => b.(at := Closing(ExitOf(w, Normal)))
    case Closing(exit) => Unwound(b, ExitOf(w, exit))
    case Sleep =>
      if w.Cancel? then b.(at := Ended)
      else SleepTop(b.(elapsed := b.elapsed + 1.0, slices := b.slices + 1, slept := b.slept + 1))
    case Ended => b
  }

  /** `connect` schedules the loop. */
  const SCHEDULED := Bridge(Unstarted, None, false, false, 0, 0, 0.0, 0, 0, 0, 0)

  class McpToolBridge {
    var at: Await
    var session: Option<nat>
    var stopEvent: bool
    var connectedEvent: bool
    var consecutiveFailures: nat
    var delay: nat
    var elapsed: real
    ghost var attempts: nat
    ghost var slices: nat
    ghost var slept: nat
    ghost var uncounted: nat

    ghost function Current(): Bridge
      reads this
    {
      Bridge(at, session, stopEvent, connectedEvent, consecutiveFailures, delay, elapsed,
             attempts, slices, slept, uncounted)
    }

    constructor Connect()
      ensures Current() == SCHEDULED
      ensures session == None && !stopEvent && !connectedEvent && consecutiveFailures == 0
    {
      at, session, stopEvent, connectedEvent := Unstarted, None, false, false;
      consecutiveFailures, delay, elapsed := 0, 0, 0.0;
      attempts, slices, slept, uncounted := 0, 0, 0, 0;
    }

    method Disconnect()
      modifies this
      ensures Current() == old(Current()).(stop := true)
    {
      stopEvent := true;
    }

    /** Runs the loop from the await it is suspended at to the next one. `client` is the session object
        that the exit stack would deliver now. */
    method Resume(w: Wakeup, client: nat)
      requires CanWake(Current(), w) && client == attempts
      modifies this
      ensures Current() == Resumed(old(Current()), w)
    {
      match at {
        case Unstarted =>
          if w.Cancel? { at := Ended; } else { BeginIteration(); }
        case Streams =>
          if w.Ready? { at := Session; } else { LeaveTry(ExitOf(w, Normal)); }
        case Session =>
          if w.Ready? {
            session := Some(client);
            at := Initialize;
          } else {
            at := Closing(ExitOf(w, Normal));
          }
        case Initialize =>
          if w.Ready? {
            consecutiveFailures := 0;
            slept, uncounted := 0, 0;
            if !connectedEvent { connectedEvent := true; }
            at := if stopEvent then Closing(Normal) else StopEvent;
          } else {
            at := Closing(ExitOf(w, Normal));
          }
        case StopEvent =>
          at := Closing(ExitOf(w, Normal));
        case Closing(exit) =>
          LeaveTry(ExitOf(w, exit));
        case Sleep =>
          if w.Cancel? {
            at := Ended;
          } else {
            elapsed := elapsed + 1.0;
            slices, slept := slices + 1, slept + 1;
            ContinueBackoff();
          }
      }
    }

    /** The except and finally clauses, and what follows them. */
    method LeaveTry(exit: Exit)
      modifies this
      ensures Current() == Unwound(old(Current()), exit)
    {
      if exit.Failed? { consecutiveFailures := consecutiveFailures + 1; }
      session := None;
      if exit.Cancelled? || stopEvent {
        at := Ended;
        return;
      }
      delay := Min(Pow2(consecutiveFailures), 60);
      elapsed, slices := 0.0, 0;
      if !exit.Failed? { uncounted := uncounted + delay; }
      ContinueBackoff();
    }

    method ContinueBackoff()
      modifies this
      ensures Current() == SleepTop(old(Current()))
    {
      if elapsed < delay as real && !stopEvent {
        at := Sleep;
      } else {
        BeginIteration();
      }
    }

    method BeginIteration()
      modifies this
      ensures Current() == LoopTop(old(Current()))
    {
      if stopEvent {
        at := Ended;
      } else {
        at := Streams;
        attempts := attempts + 1;
      }
    }

    /** A tool closure reads the session when it is called, and sends its call there, if there is one. */
    method Invoke() returns (target: Option<nat>, ghost d: Dispatch)
      ensures target == Current().session && d == Dispatched(Current())
      ensures d == match target case None => Unavailable case Some(client) => SentTo(client, Current().attempts)
    {
      return session, Dispatched(Current());
    }
  }

  // ---- Runs ------------------------------------------------------------------

  /** `Invoke` is a call of a tool closure, however long ago it was built. */
  datatype Event = Wake(w: Wakeup) | Disconnect | Invoke

  /** A dispatch: the session used, and the attempt that was current. */
  datatype Dispatch = Unavailable | SentTo(session: nat, attempt: nat)

  datatype System = System(bridge: Bridge, dispatched: seq<Dispatch>)

  predicate Enabled(s: System, e: Event) { e.Wake? ==> CanWake(s.bridge, e.w) }

  function Dispatched(b: Bridge): Dispatch {
    match b.session case None => Unavailable case Some(client) => SentTo(client, b.attempts)
  }

  function Step(s: System, e: Event): System
    requires Enabled(s, e)
  {
    match e
    case Wake(w) => s.(bridge := Resumed(s.bridge, w))
    case Disconnect => s.(bridge := s.bridge.(stop := true))
    case Invoke => s.(dispatched := s.dispatched + [Dispatched(s.bridge)])
  }

  predicate Runs(s: System, es: seq<Event>)
    decreases es
  {
    es != [] ==> Enabled(s, es[0]) && Runs(Step(s, es[0]), es[1..])
  }

  function Run(s: System, es: seq<Event>): System
    requires Runs(s, es)
    decreases es
  {
    if es == [] then s else Run(Step(s, es[0]), es[1..])
  }

  const INITIAL := System(SCHEDULED, [])

  // ---- Backoff arithmetic ----------------------------------------------------

  /** The seconds slept during the first `n` backoffs. */
  function Schedule(n: nat): nat { if n == 0 then 0 else Schedule(n - 1) + Delay(n) }

  lemma SmallPowers()
    ensures Pow2(0) == 1 && Pow2(1) == 2 && Pow2(2) == 4 && Pow2(3) == 8 && Pow2(4) == 16 && Pow2(5) == 32
      && Pow2(6) == 64
  {
  }

  lemma {:induction false} LargePowers(n: nat)
    requires n >= 6
    ensures Pow2(n) >= 64
  {
    SmallPowers();
    if n > 6 {
      LargePowers(n - 1);
    }
  }

  /** The schedule in closed form: 2, 6, 14, 30, 62, and 60 more for each further failure. */
  lemma {:induction false} ScheduleClosedForm(n: nat)
    ensures Schedule(n) == if n <= 5 then Pow2(n + 1) - 2 else 62 + 60 * (n - 5)
  {
    SmallPowers();
    if n > 0 {
      ScheduleClosedForm(n - 1);
      if n > 5 {
        LargePowers(n);
      }
    }
  }

  /** The first backoff is two seconds, not the one second that the comments give: the failure is
      counted before the delay is computed. */
  lemma FirstDelay(b: Bridge)
    requires b.failures == 0 && !b.stop
    ensures Unwound(b, Failed).at == Sleep && Unwound(b, Failed).delay == 2
  {
    SmallPowers();
  }

  // ---- What every run keeps --------------------------------------------------

  /** A session is live only in the attempt that opened it, and not while the loop waits for streams
      or a session, sleeps, or has ended. */
  predicate SessionOk(b: Bridge) {
    && (b.session.Some? ==> b.session.value == b.attempts && (b.at.Initialize? || b.at.StopEvent? || b.at.Closing?))
    && (b.at.Initialize? || b.at.StopEvent? ==> b.session.Some?)
  }

  predicate BackoffOk(b: Bridge) {
    && (b.at.Closing? && b.at.exit.Normal? ==> b.stop)
    && (b.at.StopEvent? ==> b.failures == 0)
    && (match b.at
        case Sleep =>
          && b.delay == Delay(b.failures)
          && b.elapsed == b.slices as real && b.slices < b.delay
          && b.slept + (b.delay - b.slices) == Schedule(b.failures) + b.uncounted
        case Ended => b.slept <= Schedule(b.failures) + b.uncounted
        case _ => b.slept == Schedule(b.failures) + b.uncounted)
  }

  predicate DispatchOk(d: Dispatch) { d.SentTo? ==> d.session == d.attempt }

  predicate Inv(s: System) {
    && SessionOk(s.bridge) && BackoffOk(s.bridge)
    && forall i :: 0 <= i < |s.dispatched| ==> DispatchOk(s.dispatched[i])
  }

  lemma UnwoundOk(b: Bridge, exit: Exit)
    requires b.slept == Schedule(b.failures) + b.uncounted
    ensures SessionOk(Unwound(b, exit)) && BackoffOk(Unwound(b, exit))
  {
  }

  lemma WakeKeepsInv(b: Bridge, w: Wakeup)
    requires SessionOk(b) && BackoffOk(b) && CanWake(b, w)
    ensures SessionOk(Resumed(b, w)) && BackoffOk(Resumed(b, w))
  {
    match b.at
    case Streams => if !w.Ready? { UnwoundOk(b, ExitOf(w, Normal)); }
    case Closing(exit) => UnwoundOk(b, ExitOf(w, exit));
    case _ =>
  }

  lemma {:induction false} RunKeepsInv(s: System, es: seq<Event>)
    requires Runs(s, es) && Inv(s)
    ensures Inv(Run(s, es))
    decreases es
  {
    if es != [] {
      if es[0].Wake? {
        WakeKeepsInv(s.bridge, es[0].w);
      }
      RunKeepsInv(Step(s, es[0]), es[1..]);
    }
  }

  lemma InitialInv()
    ensures Inv(INITIAL)
  {
  }

  /** A session is live only in an attempt under way and belongs to it, and every tool call that was
      dispatched went to the session opened by the attempt that was current at that moment. */
  predicate Safe(s: System) {
    && (s.bridge.at in {Unstarted, Sleep, Ended, Streams} ==> s.bridge.session == None)
    && (s.bridge.session.Some? ==> s.bridge.session.value == s.bridge.attempts)
    && forall i :: 0 <= i < |s.dispatched| && s.dispatched[i].SentTo? ==>
         s.dispatched[i].session == s.dispatched[i].attempt
  }

  lemma InvParts(s: System)
    requires Inv(s)
    ensures SessionOk(s.bridge) && BackoffOk(s.bridge)
  {
  }

  lemma InvIsSafe(s: System)
    requires Inv(s)
    ensures Safe(s)
  {
    assert forall i :: 0 <= i < |s.dispatched| ==> DispatchOk(s.dispatched[i]);
    hide BackoffOk;
  }

  /** In every run, over arbitrary outcomes and with disconnects and tool calls at any await. */
  lemma SessionSafety(es: seq<Event>)
    requires Runs(INITIAL, es)
    ensures Safe(Run(INITIAL, es))
  {
    hide *;
    InitialInv();
    RunKeepsInv(INITIAL, es);
    InvIsSafe(Run(INITIAL, es));
  }

  /** The total of the first `n` delays. */
  function ClosedForm(n: nat): int { if n <= 5 then Pow2(n + 1) - 2 else 62 + 60 * (n - 5) }

  /** In every run: when an attempt begins after `n` counted failures, the loop has slept exactly the
      closed form of the schedule since the last success, in one-second slices, and the delays that
      followed an exception swallowed by the exit stack; and during a backoff it never sleeps longer
      than the chosen delay. */
  lemma BackoffSchedule(es: seq<Event>)
    requires Runs(INITIAL, es)
    ensures var b := Run(INITIAL, es).bridge;
      && (b.at.Streams? ==> b.slept == ClosedForm(b.failures) + b.uncounted)
      && (b.at.Sleep? ==>
            b.elapsed == b.slices as real && b.elapsed + 1.0 <= b.delay as real && b.delay == Delay(b.failures))
  {
    hide *;
    InitialInv();
    RunKeepsInv(INITIAL, es);
    InvParts(Run(INITIAL, es));
    InvBackoff(Run(INITIAL, es).bridge);
  }

  lemma InvBackoff(b: Bridge)
    requires BackoffOk(b)
    ensures b.at.Streams? ==> b.slept == ClosedForm(b.failures) + b.uncounted
    ensures b.at.Sleep? ==>
      b.elapsed == b.slices as real && b.elapsed + 1.0 <= b.delay as real && b.delay == Delay(b.failures)
  {
    ScheduleClosedForm(b.failures);
    hide Schedule, Delay;
  }

  /** Since the last success an exception was swallowed while the loop was to go on. */
  predicate SwallowedSince(s: System, es: seq<Event>, before: bool)
    requires Runs(s, es)
    decreases es
  {
    if es == [] then before
    else
      var t := Step(s, es[0]);
      SwallowedSince(t, es[1..],
                     if es[0] == Wake(Ready) && s.bridge.at.Initialize? then false
                     else before || (es[0] == Wake(Swallowed) && !s.bridge.stop))
  }

  lemma {:induction false} PowPositive(n: nat)
    ensures Pow2(n) >= 1
  {
    if n > 0 {
      PowPositive(n - 1);
    }
  }

  lemma WakeUncounted(b: Bridge, w: Wakeup)
    requires BackoffOk(b) && CanWake(b, w)
    ensures Resumed(b, w).uncounted ==
      if w.Ready? && b.at.Initialize? then 0
      else if w.Swallowed? && !b.stop then b.uncounted + Delay(b.failures)
      else b.uncounted
  {
  }

  /** The schedule is exact if and only if that is so: each such exception adds at least a second. */
  lemma {:induction false} UncountedIff(s: System, es: seq<Event>, before: bool)
    requires Runs(s, es) && Inv(s) && (s.bridge.uncounted > 0 <==> before)
    ensures Run(s, es).bridge.uncounted > 0 <==> SwallowedSince(s, es, before)
    decreases es
  {
    if es != [] {
      if es[0].Wake? {
        WakeKeepsInv(s.bridge, es[0].w);
        WakeUncounted(s.bridge, es[0].w);
        PowPositive(s.bridge.failures);
      }
      var after := if es[0] == Wake(Ready) && s.bridge.at.Initialize? then false
                   else before || (es[0] == Wake(Swallowed) && !s.bridge.stop);
      hide Resumed, SessionOk, BackoffOk;
      UncountedIff(Step(s, es[0]), es[1..], after);
    }
  }

  /** For instance, after a success whose failure is swallowed the loop waits for the one second that the
      comments give. */
  lemma SwallowedFailureWaitsOneSecond(b: Bridge)
    requires b.at == StopEvent && b.failures == 0 && !b.stop
    ensures var c := Resumed(Resumed(b, Raised), Swallowed); c.at == Sleep && c.delay == 1
  {
    assert Pow2(0) == 1;
  }

  /** A connection resets the schedule: whatever came before, the next failure waits two seconds. */
  lemma SuccessResetsBackoff(b: Bridge)
    requires b.at.Initialize? && !b.stop
    ensures var up := Resumed(b, Ready);
      up.at.StopEvent? && up.connected && Resumed(Resumed(up, Raised), Ready).at == Sleep
      && Resumed(Resumed(up, Raised), Ready).delay == 2
  {
    var up := Resumed(b, Ready);
    FirstDelay(Resumed(up, Raised));
  }

  // ---- Stopping ---------------------------------------------------------------

  /** How many more wakeups the loop can take once stop is set. */
  function Remaining(at: Await): nat {
    match at
    case Unstarted => 1
    case Streams => 4
    case Session => 3
    case Initialize => 2
    case StopEvent => 2
    case Closing(_) => 1
    case Sleep => 1
    case Ended => 0
  }

  function Wakes(es: seq<Event>): nat {
    if es == [] then 0 else (if es[0].Wake? then 1 else 0) + Wakes(es[1..])
  }

  lemma StoppedWake(b: Bridge, w: Wakeup)
    requires b.stop && CanWake(b, w)
    ensures var c := Resumed(b, w);
      c.stop && c.attempts == b.attempts && Remaining(c.at) < Remaining(b.at)
  {
  }

  /** Once stop is set no new attempt starts, at most four wakeups remain (none of them another sleep
      or attempt), the loop can always take the next one, and after them it has ended. */
  lemma {:induction false} StopTerminates(s: System, es: seq<Event>)
    requires Runs(s, es) && s.bridge.stop
    ensures var t := Run(s, es);
      && t.bridge.stop && t.bridge.attempts == s.bridge.attempts
      && Wakes(es) + Remaining(t.bridge.at) <= Remaining(s.bridge.at) <= 4
      && (t.bridge.at.Ended? || CanWake(t.bridge, Ready))
    decreases es
  {
    if es != [] {
      if es[0].Wake? {
        StoppedWake(s.bridge, es[0].w);
      }
      StopTerminates(Step(s, es[0]), es[1..]);
    }
  }

  /** No cancellation has reached the loop. */
  predicate Uncancelled(at: Await) { at.Closing? ==> !at.exit.Cancelled? }

  lemma WakeEndsOnlyOnRequest(b: Bridge, w: Wakeup)
    requires SessionOk(b) && BackoffOk(b) && CanWake(b, w) && Uncancelled(b.at) && !w.Cancel?
    ensures Uncancelled(Resumed(b, w).at) && (Resumed(b, w).at.Ended? ==> Resumed(b, w).stop)
  {
  }

  /** Conversely the loop ends for no other reason than stop or a cancellation. */
  lemma {:induction false} EndsOnlyOnRequest(s: System, es: seq<Event>)
    requires Runs(s, es) && Inv(s) && Uncancelled(s.bridge.at) && (s.bridge.at.Ended? ==> s.bridge.stop)
    requires forall i :: 0 <= i < |es| ==> es[i] != Wake(Cancel)
    ensures Run(s, es).bridge.at.Ended? ==> Run(s, es).bridge.stop
    decreases es
  {
    if es != [] {
      assert es[0] != Wake(Cancel);
      if es[0].Wake? {
        WakeKeepsInv(s.bridge, es[0].w);
        WakeEndsOnlyOnRequest(s.bridge, es[0].w);
      }
      hide Resumed, SessionOk, BackoffOk;
      EndsOnlyOnRequest(Step(s, es[0]), es[1..]);
    }
  }

  // ---- Arguments of a dispatched call ----------------------------------------

  type Arguments = map<string, string>

  /** `a or b` on optional strings: an empty string counts as absent. */
  function Either(a: Option<string>, b: Option<string>): Option<string> {
    if a.Some? && a.value != "" then a else if b.Some? && b.value != "" then b else None
  }

  /** The arguments sent for the model's `kwargs`: a trusted session id replaces whatever the model
      chose, the bridge's before the context's, and the user's token is stamped. */
  function SentArguments(kwargs: Arguments, scoped: bool, bridgeId: Option<string>, contextId: Option<string>,
                         authToken: Option<string>): Arguments
  {
    var trusted := Either(bridgeId, contextId);
    var a := if scoped && trusted.Some? then kwargs["session_id" := trusted.value] else kwargs;
    if authToken.Some? then a["auth_context" := authToken.value] else a
  }

  /** With a trusted id and a user the model controls neither field: the trusted values are sent, calls
      that differ only there send the same arguments, and all others arrive as they were given. */
  lemma ModelCannotChooseSession(kwargs: Arguments, forged: Arguments, bridgeId: Option<string>,
                                 contextId: Option<string>, token: string)
    requires kwargs - {"session_id", "auth_context"} == forged - {"session_id", "auth_context"}
    requires Either(bridgeId, contextId).Some?
    ensures SentArguments(kwargs, true, bridgeId, contextId, Some(token))
         == SentArguments(forged, true, bridgeId, contextId, Some(token))
    ensures var sent := SentArguments(kwargs, true, bridgeId, contextId, Some(token));
      && sent - {"session_id", "auth_context"} == kwargs - {"session_id", "auth_context"}
      && "session_id" in sent && Either(bridgeId, contextId) == Some(sent["session_id"])
      && "auth_context" in sent && sent["auth_context"] == token
  {
    var stamped := {"session_id", "auth_context"};
    var a := SentArguments(kwargs, true, bridgeId, contextId, Some(token));
    var b := SentArguments(forged, true, bridgeId, contextId, Some(token));
    forall k ensures k in a <==> k in b {
      assert k in kwargs - stamped <==> k in forged - stamped;
    }
    forall k | k in a ensures a[k] == b[k] {
      if k !in stamped {
        assert (kwargs - stamped)[k] == (forged - stamped)[k];
      }
    }
  }

  /** What is sent, argument by argument. The bridge's session id comes before the context's, an empty one
      counts as absent, and neither is used for a tool without a `session_id` of its own. */
  lemma SentArgumentsAre(kwargs: Arguments, scoped: bool, bridgeId: Option<string>, contextId: Option<string>,
                         authToken: Option<string>)
    ensures var sent := SentArguments(kwargs, scoped, bridgeId, contextId, authToken);
      var stamped := kwargs["auth_context" := if authToken.Some? then authToken.value else ""];
      var base := if authToken.Some? then stamped else kwargs;
      sent == if scoped && bridgeId.Some? && bridgeId.value != "" then base["session_id" := bridgeId.value]
              else if scoped && contextId.Some? && contextId.value != "" then base["session_id" := contextId.value]
              else base
  {
  }

  /** A cancellation ends the loop: at once between attempts, and otherwise after the exit stack, unless
      that swallows it. */
  lemma CancellationEnds(b: Bridge)
    requires CanWake(b, Cancel)
    ensures b.at in {Unstarted, Streams, Sleep} || b.at.Closing? ==> Resumed(b, Cancel).at == Ended
    ensures b.at in {Session, Initialize, StopEvent} ==> Resumed(b, Cancel).at == Closing(Cancelled)
    ensures b.at == Closing(Cancelled) ==>
      Resumed(b, Ready).at == Ended && (Resumed(b, Swallowed).at == Ended ==> b.stop)
  {
    PowPositive(b.failures);
  }

  /** A failure anywhere in an attempt is counted once, and unless stop is set leads to a backoff. */
  lemma FailureIsCounted(b: Bridge)
    requires !b.stop && b.at in {Streams, Session, Initialize, StopEvent}
    ensures var after := if b.at.Streams? then Resumed(b, Raised) else Resumed(Resumed(b, Raised), Ready);
      after.at == Sleep && after.failures == b.failures + 1 && after.session == None && after.slices == 0
  {
    PowPositive(b.failures + 1);
  }
}
