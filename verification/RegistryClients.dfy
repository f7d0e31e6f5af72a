/** `RegistryClient.lookup` and the refresh loop. A lookup is split at its only await point, the
    fetch; between the two halves other lookups and refresh ticks may run. */
module RegistryClients {
  import opened Text
  import CB = CircuitBreakers

  datatype Entry = Entry(name: string, details: int)

  datatype Cached = Cached(entry: Entry, fetchedAt: real)

  datatype Settings = Settings(refresh: real, staleMax: real, breaker: CB.Config)

  datatype Memory = Memory(cache: map<string, Cached>, breaker: CB.State)

  // ---- One fetch -------------------------------------------------------------

  /** What the HTTP layer delivers: nothing, or a status and the body if it validates. */
  datatype Response = NoResponse | Status(code: int, body: Option<Entry>)

  datatype Outcome = Fetched(entry: Entry) | NotFound | Unreachable | HttpError | BadBody

  /** The outcomes that count against the breaker. */
  predicate Fails(o: Outcome) { o.Unreachable? || o.HttpError? }

  function Classify(r: Response): Outcome {
    match r
    case NoResponse => Unreachable
    case Status(code, body) =>
      if code == 404 then NotFound
      else if code >= 500 then Unreachable
      else if code < 200 || code >= 300 then HttpError
      else match body { case Some(entry) => Fetched(entry) case None => BadBody }
  }

  /** `BadBody` stands for the validation error that `lookup` does not catch. */
  datatype Answer = Found(entry: Entry) | ServiceNotFound | InvalidBody

  // ---- The two halves of a lookup -------------------------------------------

  function Age(c: Cached, now: real): real { now - c.fetchedAt }

  function StaleOrRaise(cached: Option<Cached>, now: real, cfg: Settings): Answer {
    if cached.Some? && Age(cached.value, now) < cfg.staleMax then Found(cached.value.entry) else ServiceNotFound
  }

  function Remembered(m: Memory, name: string): Option<Cached> {
    if name in m.cache then Some(m.cache[name]) else None
  }

  /** Up to the fetch: the answer if none is needed. */
  function Begin(m: Memory, name: string, now: real, cfg: Settings): Option<Answer> {
    var cached := Remembered(m, name);
    if cached.Some? && Age(cached.value, now) < cfg.refresh then Some(Found(cached.value.entry))
    else if CB.IsOpen(m.breaker, cfg.breaker, now) then Some(StaleOrRaise(cached, now, cfg))
    else None
  }

  /** From the fetch on. `cached` is what the first half read. */
  function Finish(m: Memory, name: string, cached: Option<Cached>, outcome: Outcome, now: real, cfg: Settings)
    : (Memory, Answer)
  {
    match outcome
    case Fetched(entry) =>
      (Memory(m.cache[name := Cached(entry, now)], CB.AfterSuccess(m.breaker)), Found(entry))
    case NotFound => (m, ServiceNotFound)
    case BadBody => (m, InvalidBody)
    case _ => (m.(breaker := CB.AfterFailure(m.breaker, cfg.breaker, now)), StaleOrRaise(cached, now, cfg))
  }

  /** One pass of the refresh loop over the services listed; the first that does not validate
      ends it, and the entries written before stay. */
  function Refreshed(cache: map<string, Cached>, services: seq<Option<Entry>>, now: real): map<string, Cached>
    decreases services
  {
    if services == [] || services[0].None? then cache
    else Refreshed(cache[services[0].value.name := Cached(services[0].value, now)], services[1..], now)
  }

  /** What a lookup that fetched must do, response by response. */
  predicate ByResponse(m: Memory, name: string, cached: Option<Cached>, r: Response, now: real, cfg: Settings,
                       after: Memory, answer: Answer)
  {
    if r.Status? && r.code == 404 then answer == ServiceNotFound && after == m
    else if r.Status? && 200 <= r.code < 300 then
      match r.body
      case Some(entry) =>
        answer == Found(entry) && after.breaker.failures == 0 && after.breaker.openUntil == m.breaker.openUntil
        && after.cache == m.cache[name := Cached(entry, now)]
      case None => answer == InvalidBody && after == m
    else
      && after.cache == m.cache && after.breaker.failures == m.breaker.failures + 1
      && after.breaker.openUntil
         == (if after.breaker.failures >= cfg.breaker.threshold then now + cfg.breaker.recovery
             else m.breaker.openUntil)
      && answer == if cached.Some? && now - cached.value.fetchedAt < cfg.staleMax then Found(cached.value.entry)
                   else ServiceNotFound
  }

  /** Every response has its consequence: not found, found, invalid, or a failure that falls back on what
      was read at the start. */
  lemma FinishByResponse(m: Memory, name: string, cached: Option<Cached>, r: Response, now: real, cfg: Settings)
    ensures var (after, answer) := Finish(m, name, cached, Classify(r), now, cfg);
      ByResponse(m, name, cached, r, now, cfg, after, answer)
  {
  }

  /** A lookup needs no fetch exactly if the entry is young enough or the breaker is open. */
  lemma BeginByCases(m: Memory, name: string, now: real, cfg: Settings)
    ensures var young := name in m.cache && now - m.cache[name].fetchedAt < cfg.refresh;
      var open := m.breaker.failures >= cfg.breaker.threshold && now < m.breaker.openUntil;
      var usable := name in m.cache && now - m.cache[name].fetchedAt < cfg.staleMax;
      && (Begin(m, name, now, cfg).None? <==> !young && !open)
      && (young ==> Begin(m, name, now, cfg) == Some(Found(m.cache[name].entry)))
      && (!young && open ==>
            Begin(m, name, now, cfg) == Some(if usable then Found(m.cache[name].entry) else ServiceNotFound))
  {
  }

  /** The number of services that a refresh takes in: up to the first that does not validate. */
  predicate TakenIn(services: seq<Option<Entry>>, n: nat) {
    n <= |services| && (forall i :: 0 <= i < n ==> services[i].Some?) && (n < |services| ==> services[n].None?)
  }

  /** After a refresh every name has the last entry taken in for it, fetched now, or what it had. */
  lemma {:induction false} RefreshedExactly(cache: map<string, Cached>, services: seq<Option<Entry>>, now: real,
                                            n: nat, name: string)
    requires TakenIn(services, n)
    ensures var after := Refreshed(cache, services, now);
      forall i :: LastFor(services, n, name, i) ==> name in after && after[name] == Cached(services[i].value, now)
    ensures var after := Refreshed(cache, services, now);
      (forall i :: 0 <= i < n ==> services[i].value.name != name) ==>
        (name in after <==> name in cache) && (name in cache ==> after[name] == cache[name])
    decreases services
  {
    if n > 0 {
      var entry, rest := services[0].value, services[1..];
      assert TakenIn(rest, n - 1);
      RefreshedExactly(cache[entry.name := Cached(entry, now)], rest, now, n - 1, name);
      assert (forall i :: 0 <= i < n ==> services[i].value.name != name) ==>
        entry.name != name && forall i :: 0 <= i < n - 1 ==> rest[i].value.name != name by {
        assert forall i :: 0 <= i < n - 1 ==> rest[i] == services[i + 1];
      }
      forall i | LastFor(services, n, name, i)
        ensures name in Refreshed(cache, services, now)
        ensures Refreshed(cache, services, now)[name] == Cached(services[i].value, now)
      {
        LastForTail(services, n, name, i);
        hide LastFor;
      }
    }
  }

  lemma LastForTail(services: seq<Option<Entry>>, n: nat, name: string, i: int)
    requires TakenIn(services, n) && n > 0 && LastFor(services, n, name, i)
    ensures TakenIn(services[1..], n - 1)
    ensures i > 0 ==> LastFor(services[1..], n - 1, name, i - 1) && services[1..][i - 1] == services[i]
    ensures i == 0 ==>
      services[0].value.name == name && forall j :: 0 <= j < n - 1 ==> services[1..][j].value.name != name
  {
    assert forall j :: 0 <= j < n - 1 ==> services[1..][j] == services[j + 1];
  }

  /** The last service of that name among the first `n`. */
  predicate LastFor(services: seq<Option<Entry>>, n: nat, name: string, i: int)
    requires TakenIn(services, n)
  {
    0 <= i < n && services[i].value.name == name && forall j :: i < j < n ==> services[j].value.name != name
  }

  class RegistryClient {
    const settings: Settings
    const breaker: CB.CircuitBreaker
    var cache: map<string, Cached>

    constructor (refresh: real, staleMax: real)
      ensures Valid() && settings == Settings(refresh, staleMax, CB.DEFAULTS) && fresh(breaker)
      ensures Current() == Memory(map[], CB.CLOSED)
    {
      settings := Settings(refresh, staleMax, CB.DEFAULTS);
      breaker := new CB.CircuitBreaker(CB.DEFAULTS);
      cache := map[];
    }

    ghost predicate Valid() { breaker.config == settings.breaker }

    ghost function Current(): Memory
      reads this, breaker
    {
      Memory(cache, breaker.Current())
    }

    method BeginLookup(name: string, now: real) returns (cached: Option<Cached>, answer: Option<Answer>)
      requires Valid()
      ensures cached == Remembered(Current(), name)
      ensures answer == Begin(Current(), name, now, settings)
    {
      cached := if name in cache then Some(cache[name]) else None;
      if cached.Some? && now - cached.value.fetchedAt < settings.refresh {
        return cached, Some(Found(cached.value.entry));
      }
      var open := breaker.Open(now);
      if open {
        return cached, Some(StaleOrRaise(cached, now, settings));
      }
      return cached, None;
    }

    method FinishLookup(name: string, cached: Option<Cached>, response: Response, now: real) returns (answer: Answer)
      requires Valid()
      modifies this, breaker
      ensures (Current(), answer) == Finish(old(Current()), name, cached, Classify(response), now, settings)
      ensures ByResponse(old(Current()), name, cached, response, now, settings, Current(), answer)
    {
      match Classify(response) {
        case Fetched(entry) =>
          breaker.RecordSuccess();
          cache := cache[name := Cached(entry, now)];
          return Found(entry);
        case NotFound => return ServiceNotFound;
        case BadBody => return InvalidBody;
        case Unreachable =>
          breaker.RecordFailure(now);
          return StaleOrRaise(cached, now, settings);
        case HttpError =>
          breaker.RecordFailure(now);
          return StaleOrRaise(cached, now, settings);
      }
    }

    method RefreshTick(services: seq<Option<Entry>>, now: real)
      modifies this
      ensures cache == Refreshed(old(cache), services, now)
      ensures Current().breaker == old(Current().breaker)
    {
      var i := 0;
      while i < |services|
        invariant 0 <= i <= |services|
        invariant Refreshed(cache, services[i..], now) == Refreshed(old(cache), services, now)
      {
        assert services[i..][1..] == services[i + 1..];
        if services[i].None? { return; }
        var entry := services[i].value;
        cache := cache[entry.name := Cached(entry, now)];
        i := i + 1;
      }
    }
  }

  /** The answer of a lookup whose fetch ended: not found exactly when the registry says so, or the
      fetch failed and what was cached when the lookup began is missing or too old by now. An entry
      fetched closes the breaker; a failure at the threshold opens it for the recovery time. */
  lemma NotFoundIff(m: Memory, name: string, cached: Option<Cached>, outcome: Outcome, now: real, cfg: Settings)
    ensures Finish(m, name, cached, outcome, now, cfg).1 == ServiceNotFound <==>
      outcome == NotFound ||
      (Fails(outcome) && (cached == None || Age(cached.value, now) >= cfg.staleMax))
    ensures outcome == NotFound ==> Finish(m, name, cached, outcome, now, cfg).0 == m
    ensures cfg.breaker.threshold >= 1 && outcome.Fetched? ==>
      forall at: real :: !CB.IsOpen(Finish(m, name, cached, outcome, now, cfg).0.breaker, cfg.breaker, at)
    ensures Fails(outcome) && m.breaker.failures + 1 >= cfg.breaker.threshold ==>
      forall at: real :: CB.IsOpen(Finish(m, name, cached, outcome, now, cfg).0.breaker, cfg.breaker, at) <==>
        at < now + cfg.breaker.recovery
  {
  }

  // ---- Interleaved lookups and refresh ticks --------------------------------

  datatype Pending = Pending(name: string, cached: Option<Cached>)

  datatype Given = Given(id: nat, name: string, at: real, answer: Answer, fetchedNow: bool)

  /** `fetches` remembers every entry ever delivered, with the name it was cached under. */
  datatype System = System(memory: Memory, now: real, pending: map<nat, Pending>, given: seq<Given>,
                           fetches: set<(string, Cached)>)

  datatype Event =
    | Start(id: nat, name: string, at: real)
    | Done(id: nat, outcome: Outcome, at: real)
    | Tick(services: seq<Option<Entry>>, at: real)

  predicate Enabled(s: System, e: Event) {
    e.at >= s.now &&
    match e
    case Start(id, _, _) => id !in s.pending && forall i :: 0 <= i < |s.given| ==> s.given[i].id != id
    case Done(id, _, _) => id in s.pending
    case Tick(_, _) => true
  }

  function Listed(services: seq<Option<Entry>>, now: real): set<(string, Cached)> {
    if services == [] || services[0].None? then {}
    else {(services[0].value.name, Cached(services[0].value, now))} + Listed(services[1..], now)
  }

  function Step(s: System, e: Event, cfg: Settings): System
    requires Enabled(s, e)
  {
    match e
    case Start(id, name, at) =>
      (match Begin(s.memory, name, at, cfg)
       case Some(answer) => s.(now := at, given := s.given + [Given(id, name, at, answer, false)])
       case None => s.(now := at, pending := s.pending[id := Pending(name, Remembered(s.memory, name))]))
    case Done(id, outcome, at) =>
      var p := s.pending[id];
      var (memory, answer) := Finish(s.memory, p.name, p.cached, outcome, at, cfg);
      System(memory, at, s.pending - {id}, s.given + [Given(id, p.name, at, answer, outcome.Fetched?)],
             if outcome.Fetched? then s.fetches + {(p.name, Cached(outcome.entry, at))} else s.fetches)
    case Tick(services, at) =>
      s.(memory := s.memory.(cache := Refreshed(s.memory.cache, services, at)), now := at,
         fetches := s.fetches + Listed(services, at))
  }

  /** Every event of the run is enabled when it happens. */
  predicate Runs(s: System, es: seq<Event>, cfg: Settings)
    decreases es
  {
    es != [] ==> Enabled(s, es[0]) && Runs(Step(s, es[0], cfg), es[1..], cfg)
  }

  function Run(s: System, es: seq<Event>, cfg: Settings): System
    requires Runs(s, es, cfg)
    decreases es
  {
    if es == [] then s else Run(Step(s, es[0], cfg), es[1..], cfg)
  }

  /** A client with nothing cached and no lookup in flight, whatever its breaker. */
  function Fresh(breaker: CB.State, now: real): System {
    System(Memory(map[], breaker), now, map[], [], {})
  }

  // ---- Safety of every run ---------------------------------------------------

  function Max(a: real, b: real): real { if a < b then b else a }

  /** An answer is a delivery of this very call, or was delivered for the name less than the larger
      of the two limits before it was checked. */
  ghost predicate Justified(g: Given, fetches: set<(string, Cached)>, cfg: Settings) {
    g.answer.Found? ==>
      if g.fetchedNow then (g.name, Cached(g.answer.entry, g.at)) in fetches
      else exists c :: (g.name, c) in fetches && c.entry == g.answer.entry && c.fetchedAt <= g.at
                       && Age(c, g.at) < Max(cfg.refresh, cfg.staleMax)
  }

  ghost predicate Inv(s: System, cfg: Settings) {
    && (forall name :: name in s.memory.cache ==> (name, s.memory.cache[name]) in s.fetches)
    && (forall id :: id in s.pending && s.pending[id].cached.Some? ==>
          (s.pending[id].name, s.pending[id].cached.value) in s.fetches)
    && (forall f :: f in s.fetches ==> f.1.fetchedAt <= s.now)
    && (forall f :: f in s.fetches ==>
          f.0 in s.memory.cache && f.1.fetchedAt <= s.memory.cache[f.0].fetchedAt)
    && (forall i :: 0 <= i < |s.given| ==> Justified(s.given[i], s.fetches, cfg))
  }

  /** The cache after `t` knows every name it knew at `s`, at no earlier fetch time. */
  predicate Advances(s: map<string, Cached>, t: map<string, Cached>) {
    forall name :: name in s ==> name in t && s[name].fetchedAt <= t[name].fetchedAt
  }

  lemma {:induction false} RefreshFacts(cache: map<string, Cached>, services: seq<Option<Entry>>, now: real)
    requires forall name :: name in cache ==> cache[name].fetchedAt <= now
    ensures Advances(cache, Refreshed(cache, services, now))
    ensures forall name :: name in Refreshed(cache, services, now) ==>
      Refreshed(cache, services, now)[name].fetchedAt <= now &&
      ((name in cache && Refreshed(cache, services, now)[name] == cache[name])
       || (name, Refreshed(cache, services, now)[name]) in Listed(services, now))
    ensures forall f :: f in Listed(services, now) ==>
      f.1.fetchedAt == now && f.0 in Refreshed(cache, services, now)
          && Refreshed(cache, services, now)[f.0].fetchedAt == now
    decreases services
  {
    if services != [] && services[0].Some? {
      var entry := services[0].value;
      RefreshFacts(cache[entry.name := Cached(entry, now)], services[1..], now);
    }
  }

  lemma JustifiedMonotone(given: seq<Given>, few: set<(string, Cached)>, many: set<(string, Cached)>, cfg: Settings)
    requires few <= many && forall i :: 0 <= i < |given| ==> Justified(given[i], few, cfg)
    ensures forall i :: 0 <= i < |given| ==> Justified(given[i], many, cfg)
  {
  }

  lemma StartKeepsInv(s: System, e: Event, cfg: Settings)
    requires e.Start? && Enabled(s, e) && Inv(s, cfg)
    ensures Inv(Step(s, e, cfg), cfg)
  {
  }

  lemma DoneKeepsInv(s: System, e: Event, cfg: Settings)
    requires e.Done? && Enabled(s, e) && Inv(s, cfg)
    ensures Inv(Step(s, e, cfg), cfg)
  {
    var t := Step(s, e, cfg);
    var p := s.pending[e.id];
    JustifiedMonotone(s.given, s.fetches, t.fetches, cfg);
    var g := t.given[|s.given|];
    if g.answer.Found? && !g.fetchedNow {
      assert (p.name, p.cached.value) in t.fetches;
    }
    assert Justified(g, t.fetches, cfg);
  }

  lemma TickKeepsInv(s: System, e: Event, cfg: Settings)
    requires e.Tick? && Enabled(s, e) && Inv(s, cfg)
    ensures Inv(Step(s, e, cfg), cfg)
    ensures Advances(s.memory.cache, Step(s, e, cfg).memory.cache)
  {
    assert forall name :: name in s.memory.cache ==> (name, s.memory.cache[name]) in s.fetches;
    RefreshFacts(s.memory.cache, e.services, e.at);
    JustifiedMonotone(s.given, s.fetches, Step(s, e, cfg).fetches, cfg);
  }

  lemma StepKeepsInv(s: System, e: Event, cfg: Settings)
    requires Enabled(s, e) && Inv(s, cfg)
    ensures Inv(Step(s, e, cfg), cfg)
    ensures Advances(s.memory.cache, Step(s, e, cfg).memory.cache) && s.fetches <= Step(s, e, cfg).fetches
  {
    match e
    case Start(_, _, _) => StartKeepsInv(s, e, cfg);
    case Done(id, _, _) =>
      DoneKeepsInv(s, e, cfg);
      assert forall name :: name in s.memory.cache ==> (name, s.memory.cache[name]) in s.fetches;
    case Tick(_, _) => TickKeepsInv(s, e, cfg);
  }

  lemma {:induction false} RunKeepsInv(s: System, es: seq<Event>, cfg: Settings)
    requires Runs(s, es, cfg) && Inv(s, cfg)
    ensures Inv(Run(s, es, cfg), cfg)
    ensures Advances(s.memory.cache, Run(s, es, cfg).memory.cache) && s.fetches <= Run(s, es, cfg).fetches
    decreases es
  {
    if es != [] {
      StepKeepsInv(s, es[0], cfg);
      RunKeepsInv(Step(s, es[0], cfg), es[1..], cfg);
    }
  }

  /** In every interleaving: names never leave the cache and their fetch times never go back from
      any moment to any later one, and every answer is justified. */
  lemma StalenessBound(breaker: CB.State, now: real, before: seq<Event>, after: seq<Event>, cfg: Settings)
    requires Runs(Fresh(breaker, now), before, cfg)
    requires Runs(Run(Fresh(breaker, now), before, cfg), after, cfg)
    ensures var s := Run(Fresh(breaker, now), before, cfg);
            var t := Run(s, after, cfg);
      && Advances(s.memory.cache, t.memory.cache)
      && forall i :: 0 <= i < |t.given| ==> Justified(t.given[i], t.fetches, cfg)
  {
    RunKeepsInv(Fresh(breaker, now), before, cfg);
    RunKeepsInv(Run(Fresh(breaker, now), before, cfg), after, cfg);
  }

  // ---- Availability ----------------------------------------------------------

  lemma {:induction false} PendingPersists(s: System, es: seq<Event>, id: nat, cfg: Settings)
    requires Runs(s, es, cfg) && id in s.pending
    requires forall i :: 0 <= i < |es| ==> !(es[i].Done? && es[i].id == id)
    ensures id in Run(s, es, cfg).pending && Run(s, es, cfg).pending[id] == s.pending[id]
    decreases es
  {
    if es != [] {
      PendingPersists(Step(s, es[0], cfg), es[1..], id, cfg);
    }
  }

  /** The last answer given. */
  function Latest(s: System): Given
    requires s.given != []
  {
    s.given[|s.given| - 1]
  }

  /** Soft failure, without a fetch: a lookup that the cache or the open breaker answers finds an
      entry if the name was fetched less than `staleMax` before. */
  lemma AvailableAtOnce(breaker: CB.State, clock: real, before: seq<Event>, id: nat, name: string, at: real,
                        c: Cached, cfg: Settings)
    requires Runs(Fresh(breaker, clock), before, cfg)
    requires Enabled(Run(Fresh(breaker, clock), before, cfg), Start(id, name, at))
    requires (name, c) in Run(Fresh(breaker, clock), before, cfg).fetches && at - c.fetchedAt < cfg.staleMax
    ensures var t := Step(Run(Fresh(breaker, clock), before, cfg), Start(id, name, at), cfg);
      id in t.pending || (t.given != [] && Latest(t).id == id && Latest(t).answer.Found?)
  {
    RunKeepsInv(Fresh(breaker, clock), before, cfg);
    var s := Run(Fresh(breaker, clock), before, cfg);
    assert (name, c).1.fetchedAt <= s.memory.cache[name].fetchedAt;
  }

  /** Soft failure, with a fetch: once a name has been fetched at `c.fetchedAt`, a lookup of it that
      begins later and ends less than `staleMax` after that fetch finds an entry, whatever happens in
      between, unless the registry itself answers 404 or with an invalid body. */
  lemma AvailableAfterFetch(breaker: CB.State, clock: real, before: seq<Event>, id: nat, name: string, at: real,
                            during: seq<Event>, outcome: Outcome, end: real, c: Cached, cfg: Settings)
    requires Runs(Fresh(breaker, clock), before, cfg)
    requires Enabled(Run(Fresh(breaker, clock), before, cfg), Start(id, name, at))
    requires var t := Step(Run(Fresh(breaker, clock), before, cfg), Start(id, name, at), cfg);
      && id in t.pending && Runs(t, during, cfg)
      && (forall i :: 0 <= i < |during| ==> !(during[i].Done? && during[i].id == id))
      && Enabled(Run(t, during, cfg), Done(id, outcome, end))
    requires (name, c) in Run(Fresh(breaker, clock), before, cfg).fetches && end - c.fetchedAt < cfg.staleMax
    requires outcome.Fetched? || Fails(outcome)
    ensures var t := Step(Run(Fresh(breaker, clock), before, cfg), Start(id, name, at), cfg);
      var u := Step(Run(t, during, cfg), Done(id, outcome, end), cfg);
      Latest(u).id == id && Latest(u).answer.Found?
  {
    RunKeepsInv(Fresh(breaker, clock), before, cfg);
    var s := Run(Fresh(breaker, clock), before, cfg);
    hide Run, Runs, Inv;
    StartReadsCache(s, id, name, at, c, cfg);
    var t := Step(s, Start(id, name, at), cfg);
    PendingPersists(t, during, id, cfg);
    DoneFinds(Run(t, during, cfg), id, outcome, end, cfg);
  }

  lemma StartReadsCache(s: System, id: nat, name: string, at: real, c: Cached, cfg: Settings)
    requires Inv(s, cfg) && (name, c) in s.fetches && Enabled(s, Start(id, name, at))
    requires id in Step(s, Start(id, name, at), cfg).pending
    ensures var p := Step(s, Start(id, name, at), cfg).pending[id];
      p.cached.Some? && c.fetchedAt <= p.cached.value.fetchedAt
  {
  }

  lemma DoneFinds(s: System, id: nat, outcome: Outcome, end: real, cfg: Settings)
    requires Enabled(s, Done(id, outcome, end)) && (outcome.Fetched? || Fails(outcome))
    requires s.pending[id].cached.Some? && end - s.pending[id].cached.value.fetchedAt < cfg.staleMax
    ensures var u := Step(s, Done(id, outcome, end), cfg);
      u.given != [] && Latest(u).id == id && Latest(u).answer.Found?
  {
  }

  /** Beginning after the fetch matters: a lookup in flight keeps what it read at the start, and can
      raise ServiceNotFound although the cache holds a fresh entry by the time it ends. */
  lemma EarlierLookupMisses(entry: Entry, cfg: Settings) returns (es: seq<Event>)
    requires cfg.breaker == CB.DEFAULTS && cfg.refresh > 1.0
    ensures Runs(Fresh(CB.CLOSED, 0.0), es, cfg)
    ensures var t := Run(Fresh(CB.CLOSED, 0.0), es, cfg);
      && t.given == [Given(0, entry.name, 2.0, ServiceNotFound, false)]
      && entry.name in t.memory.cache && Age(t.memory.cache[entry.name], t.now) < cfg.refresh
  {
    var e0, e1, e2 := Start(0, entry.name, 0.0), Tick([Some(entry)], 1.0), Done(0, Unreachable, 2.0);
    es := [e0, e1, e2];
    var s := Fresh(CB.CLOSED, 0.0);
    var s1 := Step(s, e0, cfg);
    var s2 := Step(s1, e1, cfg);
    assert [Some(entry)][1..] == [];
    assert Refreshed(map[], [Some(entry)], 1.0) == Refreshed(map[entry.name := Cached(entry, 1.0)], [], 1.0);
    assert s2.memory.cache == map[entry.name := Cached(entry, 1.0)];
    var s3 := Step(s2, e2, cfg);
    assert es[1..] == [e1, e2] && es[1..][1..] == [e2] && es[1..][1..][1..] == [];
    assert Runs(s3, [], cfg) && Runs(s2, [e2], cfg) && Runs(s1, [e1, e2], cfg);
    assert Run(s2, [e2], cfg) == s3;
  }

  // ---- The load on an unreachable registry ----------------------------------

  /** Lookups one after the other: each starts at `start`; a fetch, if made, fails at `end`. */
  datatype Lookup = Lookup(name: string, start: real, outcome: Outcome, end: real)

  predicate FetchesOn(m: Memory, l: Lookup, cfg: Settings) { Begin(m, l.name, l.start, cfg).None? }

  function AfterLookup(m: Memory, l: Lookup, cfg: Settings): Memory {
    if FetchesOn(m, l, cfg) then Finish(m, l.name, Remembered(m, l.name), l.outcome, l.end, cfg).0 else m
  }

  function FetchCount(m: Memory, ls: seq<Lookup>, cfg: Settings): nat
    decreases ls
  {
    if ls == [] then 0
    else (if FetchesOn(m, ls[0], cfg) then 1 else 0) + FetchCount(AfterLookup(m, ls[0], cfg), ls[1..], cfg)
  }

  predicate OneByOne(m: Memory, now: real, until: real, ls: seq<Lookup>, cfg: Settings)
    decreases ls
  {
    ls != [] ==>
      && now <= ls[0].start <= until && ls[0].start <= ls[0].end && Fails(ls[0].outcome)
      && OneByOne(AfterLookup(m, ls[0], cfg), if FetchesOn(m, ls[0], cfg) then ls[0].end else ls[0].start,
                  until, ls[1..], cfg)
  }

  /** The lookups that get past the cache. */
  function PastCache(m: Memory, ls: seq<Lookup>, cfg: Settings): seq<CB.Single>
    decreases ls
  {
    if ls == [] then []
    else
      var cached := Remembered(m, ls[0].name);
      var rest := PastCache(AfterLookup(m, ls[0], cfg), ls[1..], cfg);
      if cached.Some? && Age(cached.value, ls[0].start) < cfg.refresh then rest
      else [CB.Single(ls[0].start, ls[0].end)] + rest
  }

  lemma {:induction false} LookupsAreSingles(m: Memory, now: real, until: real, ls: seq<Lookup>, cfg: Settings)
    requires OneByOne(m, now, until, ls, cfg)
    ensures CB.OneByOne(m.breaker, cfg.breaker, now, until, PastCache(m, ls, cfg))
    ensures FetchCount(m, ls, cfg) == CB.Sent(m.breaker, cfg.breaker, PastCache(m, ls, cfg))
    decreases ls
  {
    if ls != [] {
      var l := ls[0];
      var next := AfterLookup(m, l, cfg);
      LookupsAreSingles(next, if FetchesOn(m, l, cfg) then l.end else l.start, until, ls[1..], cfg);
      var single, rest := CB.Single(l.start, l.end), PastCache(next, ls[1..], cfg);
      assert ([single] + rest)[1..] == rest;
    }
  }

  /** From any cache and breaker state, lookups made one after the other within a window of length
      `length`, all of whose fetches fail, fetch at most 5 times and once more for every 30 seconds. */
  lemma FetchBound(m: Memory, from: real, length: real, ls: seq<Lookup>, cfg: Settings)
    requires cfg.breaker == CB.DEFAULTS && length >= 0.0
    requires OneByOne(m, from, from + length, ls, cfg)
    ensures FetchCount(m, ls, cfg) <= 5 + CB.Periods(length, 30.0)
  {
    LookupsAreSingles(m, from, from + length, ls, cfg);
    CB.SinglesBound(m.breaker, cfg.breaker, from, length, PastCache(m, ls, cfg));
  }

  // ---- Lookups in flight at once -----------------------------------------------

  /** Whether the event begins a fetch. */
  predicate BeginsFetch(s: System, e: Event, cfg: Settings) {
    e.Start? && Begin(s.memory, e.name, e.at, cfg).None?
  }

  function FetchesBegun(s: System, es: seq<Event>, cfg: Settings): nat
    requires Runs(s, es, cfg)
    decreases es
  {
    if es == [] then 0
    else (if BeginsFetch(s, es[0], cfg) then 1 else 0) + FetchesBegun(Step(s, es[0], cfg), es[1..], cfg)
  }

  /** Every fetch fails, none begins after `until`, and no more than `k` are under way at once. */
  predicate Failing(s: System, es: seq<Event>, cfg: Settings, k: nat, until: real)
    requires Runs(s, es, cfg)
    decreases es
  {
    |s.pending| <= k &&
    (es != [] ==>
      && (es[0].Done? ==> Fails(es[0].outcome)) && (es[0].Start? ==> es[0].at <= until)
      && Failing(Step(s, es[0], cfg), es[1..], cfg, k, until))
  }

  function TrafficOf(s: System, es: seq<Event>, cfg: Settings): seq<CB.Traffic>
    requires Runs(s, es, cfg)
    decreases es
  {
    if es == [] then []
    else
      var rest := TrafficOf(Step(s, es[0], cfg), es[1..], cfg);
      if BeginsFetch(s, es[0], cfg) then [CB.Begin(es[0].at)] + rest
      else if es[0].Done? then [CB.Fail(es[0].at)] + rest
      else rest
  }

  lemma PendingCount(s: System, e: Event, cfg: Settings)
    requires Enabled(s, e)
    ensures |Step(s, e, cfg).pending|
         == |s.pending| + (if BeginsFetch(s, e, cfg) then 1 else 0) - (if e.Done? then 1 else 0)
  {
    if e.Done? {
      var rest := s.pending - {e.id};
      assert s.pending.Keys == rest.Keys + {e.id};
      assert |s.pending.Keys| == |s.pending| && |rest.Keys| == |rest|;
    }
  }

  /** One event, as the breaker and the number of pending lookups see it. */
  lemma StepIsTraffic(s: System, e: Event, cfg: Settings, k: nat, until: real, now: real, n: nat)
    requires Enabled(s, e) && now <= s.now && |Step(s, e, cfg).pending| <= k
    requires (e.Done? ==> Fails(e.outcome)) && (e.Start? ==> e.at <= until)
    ensures var l, t := CB.Load(s.memory.breaker, now, |s.pending|, n), Step(s, e, cfg);
      if BeginsFetch(s, e, cfg) then
        CB.CanFlow(l, cfg.breaker, k, until, CB.Begin(e.at))
        && CB.Flow(l, cfg.breaker, k, until, CB.Begin(e.at)) == CB.Load(t.memory.breaker, e.at, |t.pending|, n + 1)
      else if e.Done? then
        CB.CanFlow(l, cfg.breaker, k, until, CB.Fail(e.at))
        && CB.Flow(l, cfg.breaker, k, until, CB.Fail(e.at)) == CB.Load(t.memory.breaker, e.at, |t.pending|, n)
      else l == CB.Load(t.memory.breaker, now, |t.pending|, n) && now <= t.now
  {
    PendingCount(s, e, cfg);
    if e.Done? { assert e.id in s.pending.Keys && |s.pending.Keys| == |s.pending|; }
  }

  lemma FlowCons(l: CB.Load, c: CB.Config, k: nat, until: real, e: CB.Traffic, rest: seq<CB.Traffic>)
    requires CB.CanFlow(l, c, k, until, e) && CB.Flows(CB.Flow(l, c, k, until, e), c, k, until, rest)
    ensures CB.Flows(l, c, k, until, [e] + rest)
    ensures CB.FlowAll(l, c, k, until, [e] + rest) == CB.FlowAll(CB.Flow(l, c, k, until, e), c, k, until, rest)
  {
    assert ([e] + rest)[1..] == rest;
  }

  lemma {:induction false} LookupsAreTraffic(s: System, es: seq<Event>, cfg: Settings, k: nat, until: real, now: real,
                                             n: nat)
    requires Runs(s, es, cfg) && Failing(s, es, cfg, k, until) && now <= s.now
    ensures var l, ts := CB.Load(s.memory.breaker, now, |s.pending|, n), TrafficOf(s, es, cfg);
      CB.Flows(l, cfg.breaker, k, until, ts)
      && CB.FlowAll(l, cfg.breaker, k, until, ts).begun == n + FetchesBegun(s, es, cfg)
    decreases es
  {
    if es != [] {
      var e := es[0];
      var t := Step(s, e, cfg);
      assert |t.pending| <= k;
      assert e.at <= t.now;
      StepIsTraffic(s, e, cfg, k, until, now, n);
      hide Step, Enabled, BeginsFetch, CB.CanFlow, CB.Flow, CB.Flows, CB.FlowAll;
      var l, rest := CB.Load(s.memory.breaker, now, |s.pending|, n), TrafficOf(t, es[1..], cfg);
      if BeginsFetch(s, e, cfg) {
        LookupsAreTraffic(t, es[1..], cfg, k, until, e.at, n + 1);
        FlowCons(l, cfg.breaker, k, until, CB.Begin(e.at), rest);
      } else if e.Done? {
        LookupsAreTraffic(t, es[1..], cfg, k, until, e.at, n);
        FlowCons(l, cfg.breaker, k, until, CB.Fail(e.at), rest);
      } else {
        LookupsAreTraffic(t, es[1..], cfg, k, until, now, n);
      }
    }
  }

  /** In every interleaving of lookups and refreshes, from any cache and breaker state, with at most `k`
      fetches under way at once, all of which fail. */
  lemma FetchBoundInFlight(m: Memory, from: real, length: real, es: seq<Event>, cfg: Settings, k: nat)
    requires cfg.breaker == CB.DEFAULTS && length >= 0.0
    requires var s := System(m, from, map[], [], {});
      Runs(s, es, cfg) && Failing(s, es, cfg, k, from + length)
    ensures FetchesBegun(System(m, from, map[], [], {}), es, cfg) <= 4 + k * (1 + CB.Periods(length, 30.0))
  {
    var s := System(m, from, map[], [], {});
    LookupsAreTraffic(s, es, cfg, k, from + length, from, 0);
    assert |s.pending| == 0;
    CB.InFlightBound(m.breaker, cfg.breaker, k, from, length, TrafficOf(s, es, cfg));
  }

  function Starts(first: nat, n: nat, name: string, at: real): seq<Event>
    decreases n
  {
    if n == 0 then [] else [Start(first, name, at)] + Starts(first + 1, n - 1, name, at)
  }

  lemma {:induction false} StartsGoThrough(s: System, first: nat, n: nat, name: string, at: real, cfg: Settings)
    requires !CB.IsOpen(s.memory.breaker, cfg.breaker, at) && name !in s.memory.cache && s.now <= at && s.given == []
    requires forall id :: id in s.pending ==> id < first
    ensures Runs(s, Starts(first, n, name, at), cfg)
    ensures |Run(s, Starts(first, n, name, at), cfg).pending| == |s.pending| + n
    decreases n
  {
    if n > 0 {
      var e, rest := Start(first, name, at), Starts(first + 1, n - 1, name, at);
      assert Starts(first, n, name, at) == [e] + rest && ([e] + rest)[1..] == rest;
      StartGoesThrough(s, e, cfg);
      var t := Step(s, e, cfg);
      hide Step, Enabled, Starts;
      StartsGoThrough(t, first + 1, n - 1, name, at, cfg);
    }
  }

  lemma StartGoesThrough(s: System, e: Event, cfg: Settings)
    requires e.Start? && !CB.IsOpen(s.memory.breaker, cfg.breaker, e.at) && e.name !in s.memory.cache
    requires s.now <= e.at && s.given == [] && e.id !in s.pending
    ensures Enabled(s, e)
    ensures Step(s, e, cfg) == s.(now := e.at, pending := s.pending[e.id := Pending(e.name, None)])
    ensures |Step(s, e, cfg).pending| == |s.pending| + 1
  {
  }

  /** No single probe: once the recovery time is over, any number of lookups is let through together. */
  lemma ManyProbesAtOnce(n: nat, name: string, cfg: Settings, breaker: CB.State, at: real)
    requires breaker.failures >= cfg.breaker.threshold && breaker.openUntil <= at
    ensures Runs(Fresh(breaker, at), Starts(0, n, name, at), cfg)
    ensures |Run(Fresh(breaker, at), Starts(0, n, name, at), cfg).pending| == n
  {
    StartsGoThrough(Fresh(breaker, at), 0, n, name, at, cfg);
  }
}
