/** `ToolResultCache`, `make_cache_key` and the `cached_tool` wrapper over an unreliable Redis. */
module ToolCaches {
  import opened Text
  import CB = CircuitBreakers

  // ---- The key ---------------------------------------------------------------

  /** A keyword argument: a string, or any other Python object. */
  datatype Value = Str(text: string) | Other(object: int)

  type Kwargs = map<string, Value>

  /** `json.dumps` with `default=str` on one value. Different objects may be rendered alike. */
  type Render = Value -> string

  /** `{"fn": fn_name, **kwargs}`: a keyword argument called `fn` replaces the tool's name. */
  function Merged(tool: string, kwargs: Kwargs): Kwargs { map["fn" := Str(tool)] + kwargs }

  function Rendered(json: Render, kwargs: Kwargs): map<string, string> { map k | k in kwargs :: json(kwargs[k]) }

  /** The payload with its keys sorted: what the digest is taken of. */
  function Payload(json: Render, tool: string, kwargs: Kwargs): map<string, string> {
    Rendered(json, Merged(tool, kwargs))
  }

  /** The name that ends up in the payload. */
  function PayloadName(tool: string, kwargs: Kwargs): Value {
    if "fn" in kwargs then kwargs["fn"] else Str(tool)
  }

  /** Two calls have the same payload, and so the same key under any digest, exactly when these
      names and all other arguments are rendered alike. */
  lemma PayloadsCollideIff(json: Render, f: string, k: Kwargs, g: string, l: Kwargs)
    ensures Payload(json, f, k) == Payload(json, g, l) <==>
            json(PayloadName(f, k)) == json(PayloadName(g, l))
            && Rendered(json, k - {"fn"}) == Rendered(json, l - {"fn"})
  {
    PayloadParts(json, f, k);
    PayloadParts(json, g, l);
    var p, q := Payload(json, f, k), Payload(json, g, l);
    hide *;
    if p["fn"] == q["fn"] && p - {"fn"} == q - {"fn"} {
      assert forall x :: x in p && x != "fn" ==> x in p - {"fn"} && (p - {"fn"})[x] == p[x];
      assert forall x :: x in q && x != "fn" ==> x in q - {"fn"} && (q - {"fn"})[x] == q[x];
      assert p == q;
    }
  }

  lemma PayloadParts(json: Render, f: string, k: Kwargs)
    ensures var p := Payload(json, f, k);
      "fn" in p && p["fn"] == json(PayloadName(f, k)) && p - {"fn"} == Rendered(json, k - {"fn"})
  {
    assert forall x :: x in k - {"fn"} ==> (k - {"fn"})[x] == k[x];
  }

  /** No two of these values are rendered alike. */
  ghost predicate Faithful(json: Render, values: iset<Value>) {
    forall u, v :: u in values && v in values && json(u) == json(v) ==> u == v
  }

  ghost function ValuesOf(tool: string, kwargs: Kwargs): iset<Value> { iset v | v == Str(tool) || v in kwargs.Values }

  /** Without a keyword argument called `fn`, and where nothing else is rendered like them, the key
      identifies the tool and its arguments. */
  lemma PayloadIdentifiesCall(json: Render, f: string, k: Kwargs, g: string, l: Kwargs)
    requires "fn" !in k && "fn" !in l && Payload(json, f, k) == Payload(json, g, l)
    requires Faithful(json, ValuesOf(f, k) + ValuesOf(g, l))
    ensures f == g && k == l
  {
    PayloadsCollideIff(json, f, k, g, l);
    assert k - {"fn"} == k && l - {"fn"} == l;
    assert Str(f) in ValuesOf(f, k) && Str(g) in ValuesOf(g, l);
    RenderedIdentifies(json, k, l, ValuesOf(f, k) + ValuesOf(g, l));
    hide Rendered, Payload;
  }

  lemma RenderedIdentifies(json: Render, k: Kwargs, l: Kwargs, values: iset<Value>)
    requires Rendered(json, k) == Rendered(json, l) && Faithful(json, values)
    requires forall x :: (x in k ==> k[x] in values) && (x in l ==> l[x] in values)
    ensures k == l
  {
    assert k.Keys == Rendered(json, k).Keys == Rendered(json, l).Keys == l.Keys;
    forall x | x in k ensures k[x] == l[x] {
      assert json(k[x]) == Rendered(json, k)[x] == Rendered(json, l)[x] == json(l[x]);
    }
  }

  // ---- Cache operations ------------------------------------------------------

  datatype GetReply = Hit(value: string) | Miss | GetFailed

  predicate Asks(hasRedis: bool, s: CB.State, now: real) { hasRedis && !CB.IsOpen(s, CB.DEFAULTS, now) }

  function AfterReply(s: CB.State, failed: bool, now: real): CB.State {
    if failed then CB.AfterFailure(s, CB.DEFAULTS, now) else CB.AfterSuccess(s)
  }

  function Answer(reply: GetReply): Option<string> {
    match reply case Hit(value) => Some(value) case _ => None
  }

  /** `get` and `set`, each cut at the await of the Redis command. */
  class ToolResultCache {
    const hasRedis: bool
    const ttl: real
    const breaker: CB.CircuitBreaker

    constructor (hasRedis: bool, ttl: real)
      ensures this.hasRedis == hasRedis && this.ttl == ttl && Valid() && fresh(breaker)
        && breaker.Current() == CB.CLOSED
    {
      this.hasRedis, this.ttl := hasRedis, ttl;
      breaker := new CB.CircuitBreaker(CB.DEFAULTS);
    }

    ghost predicate Valid() { breaker.config == CB.DEFAULTS }

    method BeginCommand(now: real) returns (asks: bool)
      requires Valid()
      ensures asks <==> Asks(hasRedis, breaker.Current(), now)
      ensures asks <==> hasRedis && (breaker.failures < 5 || now >= breaker.openUntil)
    {
      if !hasRedis { return false; }
      var open := breaker.Open(now);
      return !open;
    }

    method EndGet(reply: GetReply, now: real) returns (value: Option<string>)
      requires Valid()
      modifies breaker
      ensures value == Answer(reply)
      ensures breaker.Current() == AfterReply(old(breaker.Current()), reply.GetFailed?, now)
      ensures value == if reply.Hit? then Some(reply.value) else None
      ensures breaker.failures == if reply.GetFailed? then old(breaker.failures) + 1 else 0
    {
      match reply {
        case Hit(v) => breaker.RecordSuccess(); return Some(v);
        case Miss => breaker.RecordSuccess(); return None;
        case GetFailed => breaker.RecordFailure(now); return None;
      }
    }

    method EndSet(failed: bool, now: real)
      requires Valid()
      modifies breaker
      ensures breaker.Current() == AfterReply(old(breaker.Current()), failed, now)
      ensures breaker.failures == if failed then old(breaker.failures) + 1 else 0
    {
      if failed { breaker.RecordFailure(now); } else { breaker.RecordSuccess(); }
    }
  }

  // ---- Interleaved cached calls ---------------------------------------------

  datatype Result = Returns(text: string) | Raises(error: string)

  /** `is_error_response`: of the exceptions that `json.loads` raises it catches only the decoding error. */
  datatype Checked = IsError | NoError | CheckRaises(error: string)

  /** What the wrapper works with: the pure tools, by name; the rendering of values, and the exception it
      ends in, if any, for a payload; the digest; and what parsing a response for an "error" key gives. */
  datatype World = World(
    run: (string, Kwargs) -> Result, json: Render, dumpError: Kwargs -> Option<string>,
    digest: map<string, string> -> string, parsed: string -> Checked)

  function Check(w: World, response: string): Checked { if "ERROR:" <= response then IsError else w.parsed(response) }

  function KeyError(w: World, tool: string, kwargs: Kwargs): Option<string> { w.dumpError(Merged(tool, kwargs)) }

  function Key(w: World, tool: string, kwargs: Kwargs): string {
    "tool_cache:" + w.digest(Payload(w.json, tool, kwargs))
  }

  ghost predicate Injective(digest: map<string, string> -> string) {
    forall p, q :: digest(p) == digest(q) ==> p == q
  }

  /** A value in Redis, with the time it was stored and the call that stored it. */
  datatype Stored = Stored(value: string, at: real, tool: string, kwargs: Kwargs)

  /** What the server found for a GET, and when it looked. */
  datatype Read = Read(stored: Stored, at: real)

  /** `Getting` is a GET that the server has not seen; with `Delivering` its answer is on the way. */
  datatype Phase = Getting | Delivering(read: Option<Read>) | Running | Setting(text: string)

  datatype Active = Active(tool: string, kwargs: Kwargs, since: real, phase: Phase)

  datatype Returned = Returned(tool: string, kwargs: Kwargs, since: real, result: Result, at: real, hit: Option<Read>)

  /** `writes` are SETEX commands that have been sent and not yet taken effect. A failed command may
      still take effect later. */
  datatype System = System(breaker: CB.State, now: real, store: map<string, Stored>, active: map<nat, Active>,
                           writes: map<nat, Stored>, returned: seq<Returned>)

  /** A call begins; the server reads its key; the reply, or a failure, resumes it; the tool ends; the
      server stores; the acknowledgement, or a failure, resumes the call; the server drops a key; the
      task of a call is cancelled. */
  datatype Event =
    | Call(id: nat, tool: string, kwargs: Kwargs, at: real)
    | Served(id: nat, at: real)
    | Got(id: nat, failed: bool, at: real)
    | Ran(id: nat, at: real)
    | Landed(id: nat, at: real)
    | Acked(id: nat, failed: bool, at: real)
    | Evicted(key: string, at: real)
    | Cancelled(id: nat, at: real)

  predicate InPhase(s: System, id: nat, p: Phase -> bool) { id in s.active && p(s.active[id].phase) }

  /** What may happen next. A reply comes after the server has read, a failure at any time. */
  predicate Enabled(s: System, e: Event) {
    e.at >= s.now &&
    match e
    case Call(id, _, _, _) => id !in s.active && id !in s.writes
    case Served(id, _) => InPhase(s, id, (p: Phase) => p.Getting?)
    case Got(id, failed, _) => InPhase(s, id, (p: Phase) => p.Delivering? || (failed && p.Getting?))
    case Ran(id, _) => InPhase(s, id, (p: Phase) => p.Running?)
    case Landed(id, _) => id in s.writes
    case Acked(id, failed, _) => InPhase(s, id, (p: Phase) => p.Setting?) && (failed || id !in s.writes)
    case Evicted(_, _) => true
    case Cancelled(id, _) => id in s.active
  }

  /** The server answers with a value that is still alive. */
  function Look(store: map<string, Stored>, key: string, ttl: real, at: real): Option<Read> {
    if key in store && at < store[key].at + ttl then Some(Read(store[key], at)) else None
  }

  function ReplyOf(read: Option<Read>): GetReply {
    match read case Some(r) => Hit(r.stored.value) case None => Miss
  }

  function Finish(s: System, id: nat, result: Result, hit: Option<Read>): System
    requires id in s.active
  {
    var a := s.active[id];
    s.(active := s.active - {id},
       returned := s.returned + [Returned(a.tool, a.kwargs, a.since, result, s.now, hit)])
  }

  function Step(w: World, ttl: real, hasRedis: bool, before: System, e: Event): System
    requires Enabled(before, e)
  {
    var s := before.(now := e.at);
    match e
    case Call(id, tool, kwargs, at) =>
      (match KeyError(w, tool, kwargs)
       case Some(error) => s.(returned := s.returned + [Returned(tool, kwargs, at, Raises(error), at, None)])
       case None =>
         var phase := if Asks(hasRedis, s.breaker, at) then Getting else Running;
         s.(active := s.active[id := Active(tool, kwargs, at, phase)]))
    case Served(id, at) =>
      var a := s.active[id];
      s.(active := s.active[id := a.(phase := Delivering(Look(s.store, Key(w, a.tool, a.kwargs), ttl, at)))])
    case Got(id, failed, at) =>
      var reply := if failed then GetFailed else ReplyOf(s.active[id].phase.read);
      var t := s.(breaker := AfterReply(s.breaker, failed, at));
      (match Answer(reply)
       case Some(value) => Finish(t, id, Returns(value), s.active[id].phase.read)
       case None => t.(active := s.active[id := s.active[id].(phase := Running)]))
    case Ran(id, at) =>
      var Active(tool, kwargs, since, _) := s.active[id];
      var result := w.run(tool, kwargs);
      if result.Raises? || Check(w, result.text).IsError? then Finish(s, id, result, None)
      else if Check(w, result.text).CheckRaises? then Finish(s, id, Raises(Check(w, result.text).error), None)
      else if !Asks(hasRedis, s.breaker, at) then Finish(s, id, result, None)
      else s.(active := s.active[id := Active(tool, kwargs, since, Setting(result.text))],
              writes := s.writes[id := Stored(result.text, at, tool, kwargs)])
    case Landed(id, at) =>
      var write := s.writes[id].(at := at);
      s.(store := s.store[Key(w, write.tool, write.kwargs) := write], writes := s.writes - {id})
    case Acked(id, failed, at) =>
      var t := s.(breaker := AfterReply(s.breaker, failed, at));
      Finish(t, id, Returns(s.active[id].phase.text), None)
    case Evicted(key, _) => s.(store := s.store - {key})
    case Cancelled(id, _) => s.(active := s.active - {id})
  }

  predicate Runs(w: World, ttl: real, hasRedis: bool, s: System, es: seq<Event>)
    decreases es
  {
    es != [] ==> Enabled(s, es[0]) && Runs(w, ttl, hasRedis, Step(w, ttl, hasRedis, s, es[0]), es[1..])
  }

  function Run(w: World, ttl: real, hasRedis: bool, s: System, es: seq<Event>): System
    requires Runs(w, ttl, hasRedis, s, es)
    decreases es
  {
    if es == [] then s else Run(w, ttl, hasRedis, Step(w, ttl, hasRedis, s, es[0]), es[1..])
  }

  // ---- Transparency ----------------------------------------------------------

  type Calls = iset<(string, Kwargs)>

  /** What the wrapper makes of a call, if the cache does not interfere. */
  function Wrapped(w: World, tool: string, kwargs: Kwargs): Result {
    match KeyError(w, tool, kwargs)
    case Some(error) => Raises(error)
    case None =>
      var result := w.run(tool, kwargs);
      if result.Returns? && Check(w, result.text).CheckRaises? then Raises(Check(w, result.text).error) else result
  }

  /** An exception of the wrapper's own takes the place of the tool's result: its arguments cannot be
      rendered, or its result cannot be checked. */
  predicate Spoiled(w: World, tool: string, kwargs: Kwargs) {
    match KeyError(w, tool, kwargs)
    case Some(error) => w.run(tool, kwargs) != Raises(error)
    case None => w.run(tool, kwargs).Returns? && Check(w, w.run(tool, kwargs).text).CheckRaises?
  }

  /** When that is so: the payload cannot be rendered, or the text neither begins with "ERROR:" nor is
      parsed without an exception that the check lets through. */
  lemma SpoiledIff(w: World, tool: string, kwargs: Kwargs)
    ensures w.dumpError(Merged(tool, kwargs)).None? ==>
      (Spoiled(w, tool, kwargs) <==>
        w.run(tool, kwargs).Returns? && !("ERROR:" <= w.run(tool, kwargs).text)
        && w.parsed(w.run(tool, kwargs).text).CheckRaises?)
    ensures w.dumpError(Merged(tool, kwargs)).Some? ==>
      (Spoiled(w, tool, kwargs) <==> w.run(tool, kwargs) != Raises(w.dumpError(Merged(tool, kwargs)).value))
  {
  }

  /** A result that the wrapper stores. */
  predicate Cacheable(w: World, tool: string, kwargs: Kwargs) {
    KeyError(w, tool, kwargs).None? && w.run(tool, kwargs).Returns? && Check(w, w.run(tool, kwargs).text) == NoError
  }

  predicate SamePayload(w: World, c: (string, Kwargs), d: (string, Kwargs)) {
    KeyError(w, c.0, c.1).None? && Payload(w.json, c.0, c.1) == Payload(w.json, d.0, d.1)
  }

  /** Calls that share a payload share their result. */
  ghost predicate Compatible(w: World, calls: Calls) {
    forall c, d :: c in calls && d in calls && SamePayload(w, c, d) && Cacheable(w, d.0, d.1) ==>
      w.run(c.0, c.1) == w.run(d.0, d.1)
  }

  ghost predicate CallsIn(calls: Calls, es: seq<Event>) {
    forall i :: 0 <= i < |es| && es[i].Call? ==> (es[i].tool, es[i].kwargs) in calls
  }

  /** A stored value is the successful result of the call that stored it. */
  ghost predicate Sound(w: World, calls: Calls, now: real, st: Stored) {
    && (st.tool, st.kwargs) in calls && Cacheable(w, st.tool, st.kwargs)
    && w.run(st.tool, st.kwargs) == Returns(st.value) && st.at <= now
  }

  /** What was read was stored less than `ttl` before the server looked, by a call with the same payload;
      and the server looked while the call was under way. */
  predicate Timely(json: Render, ttl: real, tool: string, kwargs: Kwargs, since: real, read: Read, now: real) {
    && Payload(json, read.stored.tool, read.stored.kwargs) == Payload(json, tool, kwargs)
    && read.stored.at <= read.at < read.stored.at + ttl && since <= read.at <= now
  }

  /** The call ended as the wrapped tool does without a cache, and a hit was timely. */
  predicate Transparent(w: World, ttl: real, r: Returned) {
    && r.result == Wrapped(w, r.tool, r.kwargs)
    && (r.hit.Some? ==> Timely(w.json, ttl, r.tool, r.kwargs, r.since, r.hit.value, r.at))
  }

  ghost predicate ReturnedOk(w: World, ttl: real, calls: Calls, r: Returned) {
    && (r.tool, r.kwargs) in calls && Transparent(w, ttl, r)
    && (r.hit.Some? ==> (r.hit.value.stored.tool, r.hit.value.stored.kwargs) in calls)
  }

  ghost predicate ActiveOk(w: World, ttl: real, calls: Calls, now: real, a: Active) {
    && (a.tool, a.kwargs) in calls && a.since <= now && KeyError(w, a.tool, a.kwargs).None?
    && (a.phase.Setting? ==> w.run(a.tool, a.kwargs) == Returns(a.phase.text) && Check(w, a.phase.text) == NoError)
    && (a.phase.Delivering? && a.phase.read.Some? ==>
          Sound(w, calls, now, a.phase.read.value.stored)
          && Timely(w.json, ttl, a.tool, a.kwargs, a.since, a.phase.read.value, now))
  }

  ghost predicate StoreOk(w: World, calls: Calls, now: real, store: map<string, Stored>) {
    forall key :: key in store ==> Sound(w, calls, now, store[key]) && key == Key(w, store[key].tool, store[key].kwargs)
  }

  ghost predicate Inv(w: World, ttl: real, calls: Calls, s: System) {
    && StoreOk(w, calls, s.now, s.store)
    && (forall id :: id in s.writes ==> Sound(w, calls, s.now, s.writes[id]))
    && (forall id :: id in s.active ==> ActiveOk(w, ttl, calls, s.now, s.active[id]))
    && (forall i :: 0 <= i < |s.returned| ==> ReturnedOk(w, ttl, calls, s.returned[i]))
  }

  lemma SameKeySamePayload(w: World, f: string, k: Kwargs, g: string, l: Kwargs)
    requires Injective(w.digest) && Key(w, f, k) == Key(w, g, l)
    ensures Payload(w.json, f, k) == Payload(w.json, g, l)
  {
    var prefix := "tool_cache:";
    var a, b := w.digest(Payload(w.json, f, k)), w.digest(Payload(w.json, g, l));
    assert (prefix + a)[|prefix|..] == a && (prefix + b)[|prefix|..] == b;
  }

  lemma FinishKeepsInv(w: World, ttl: real, calls: Calls, s: System, id: nat, result: Result, hit: Option<Read>)
    requires Inv(w, ttl, calls, s) && id in s.active
    requires var a := s.active[id];
      ReturnedOk(w, ttl, calls, Returned(a.tool, a.kwargs, a.since, result, s.now, hit))
    ensures Inv(w, ttl, calls, Finish(s, id, result, hit))
  {
  }

  lemma LaterKeepsInv(w: World, ttl: real, calls: Calls, s: System, breaker: CB.State, now: real)
    requires Inv(w, ttl, calls, s) && s.now <= now
    ensures Inv(w, ttl, calls, s.(breaker := breaker, now := now))
  {
  }

  lemma ReturnKeepsInv(w: World, ttl: real, calls: Calls, s: System, r: Returned)
    requires Inv(w, ttl, calls, s) && ReturnedOk(w, ttl, calls, r)
    ensures Inv(w, ttl, calls, s.(returned := s.returned + [r]))
  {
  }

  lemma SetActiveKeepsInv(w: World, ttl: real, calls: Calls, s: System, id: nat, a: Active)
    requires Inv(w, ttl, calls, s) && ActiveOk(w, ttl, calls, s.now, a)
    ensures Inv(w, ttl, calls, s.(active := s.active[id := a]))
  {
  }

  lemma SendKeepsInv(w: World, ttl: real, calls: Calls, s: System, id: nat, st: Stored)
    requires Inv(w, ttl, calls, s) && Sound(w, calls, s.now, st)
    ensures Inv(w, ttl, calls, s.(writes := s.writes[id := st]))
  {
  }

  lemma StoreKeepsInv(w: World, ttl: real, calls: Calls, s: System, id: nat)
    requires Inv(w, ttl, calls, s) && id in s.writes
    ensures var st := s.writes[id].(at := s.now);
      Inv(w, ttl, calls, s.(store := s.store[Key(w, st.tool, st.kwargs) := st], writes := s.writes - {id}))
  {
    hide Key, Cacheable, ReturnedOk, ActiveOk;
  }

  lemma ServedKeepsInv(w: World, ttl: real, hasRedis: bool, calls: Calls, s: System, e: Event)
    requires e.Served? && Injective(w.digest) && Enabled(s, e) && Inv(w, ttl, calls, s)
    ensures Inv(w, ttl, calls, Step(w, ttl, hasRedis, s, e))
  {
    var later := s.(now := e.at);
    LaterKeepsInv(w, ttl, calls, s, s.breaker, e.at);
    var a := later.active[e.id];
    var key := Key(w, a.tool, a.kwargs);
    var read := Look(s.store, key, ttl, e.at);
    assert ActiveOk(w, ttl, calls, e.at, a);
    if read.Some? {
      var st := s.store[key];
      SameKeySamePayload(w, a.tool, a.kwargs, st.tool, st.kwargs);
      assert Sound(w, calls, e.at, st);
    }
    hide Inv, Injective, Payload, Key, Sound, StoreOk;
    SetActiveKeepsInv(w, ttl, calls, later, e.id, a.(phase := Delivering(read)));
  }

  lemma HitIsReturnedOk(w: World, ttl: real, calls: Calls, now: real, a: Active)
    requires Compatible(w, calls) && ActiveOk(w, ttl, calls, now, a) && a.phase.Delivering? && a.phase.read.Some?
    ensures var read := a.phase.read.value;
      ReturnedOk(w, ttl, calls, Returned(a.tool, a.kwargs, a.since, Returns(read.stored.value), now, Some(read)))
  {
  }

  lemma GotKeepsInv(w: World, ttl: real, hasRedis: bool, calls: Calls, s: System, e: Event)
    requires e.Got? && Compatible(w, calls) && Enabled(s, e) && Inv(w, ttl, calls, s)
    ensures Inv(w, ttl, calls, Step(w, ttl, hasRedis, s, e))
  {
    var later := s.(breaker := AfterReply(s.breaker, e.failed, e.at), now := e.at);
    LaterKeepsInv(w, ttl, calls, s, later.breaker, e.at);
    var a := later.active[e.id];
    assert ActiveOk(w, ttl, calls, e.at, a);
    hide Inv, Payload, Key, AfterReply, StoreOk, Check, Compatible, Sound, Timely, ReturnedOk;
    if !e.failed && a.phase.read.Some? {
      HitIsReturnedOk(w, ttl, calls, e.at, a);
      FinishKeepsInv(w, ttl, calls, later, e.id, Returns(a.phase.read.value.stored.value), a.phase.read);
    } else {
      SetActiveKeepsInv(w, ttl, calls, later, e.id, a.(phase := Running));
    }
  }

  lemma RanKeepsInv(w: World, ttl: real, hasRedis: bool, calls: Calls, s: System, e: Event)
    requires e.Ran? && Enabled(s, e) && Inv(w, ttl, calls, s)
    ensures Inv(w, ttl, calls, Step(w, ttl, hasRedis, s, e))
  {
    var later := s.(now := e.at);
    LaterKeepsInv(w, ttl, calls, s, s.breaker, e.at);
    var a := later.active[e.id];
    assert ActiveOk(w, ttl, calls, e.at, a);
    hide Inv, Asks, Check;
    var result := w.run(a.tool, a.kwargs);
    if result.Raises? || Check(w, result.text) != NoError || !Asks(hasRedis, s.breaker, e.at) {
      FinishKeepsInv(w, ttl, calls, later, e.id, Wrapped(w, a.tool, a.kwargs), None);
    } else {
      var st := Stored(result.text, e.at, a.tool, a.kwargs);
      SendKeepsInv(w, ttl, calls, later, e.id, st);
      var sent := later.(writes := later.writes[e.id := st]);
      SetActiveKeepsInv(w, ttl, calls, sent, e.id, a.(phase := Setting(result.text)));
    }
  }

  lemma AckedKeepsInv(w: World, ttl: real, hasRedis: bool, calls: Calls, s: System, e: Event)
    requires e.Acked? && Enabled(s, e) && Inv(w, ttl, calls, s)
    ensures Inv(w, ttl, calls, Step(w, ttl, hasRedis, s, e))
  {
    var later := s.(breaker := AfterReply(s.breaker, e.failed, e.at), now := e.at);
    LaterKeepsInv(w, ttl, calls, s, later.breaker, e.at);
    var a := later.active[e.id];
    assert ActiveOk(w, ttl, calls, e.at, a);
    hide Inv, AfterReply;
    FinishKeepsInv(w, ttl, calls, later, e.id, Returns(a.phase.text), None);
  }

  lemma DropKeepsInv(w: World, ttl: real, calls: Calls, s: System, key: string, id: nat)
    requires Inv(w, ttl, calls, s)
    ensures Inv(w, ttl, calls, s.(store := s.store - {key})) && Inv(w, ttl, calls, s.(active := s.active - {id}))
  {
  }

  lemma StepKeepsInv(w: World, ttl: real, hasRedis: bool, calls: Calls, s: System, e: Event)
    requires Injective(w.digest) && Compatible(w, calls) && Enabled(s, e) && Inv(w, ttl, calls, s)
    requires e.Call? ==> (e.tool, e.kwargs) in calls
    ensures Inv(w, ttl, calls, Step(w, ttl, hasRedis, s, e))
  {
    hide Inv, Injective, Compatible, Asks, Key;
    var later := s.(now := e.at);
    LaterKeepsInv(w, ttl, calls, s, s.breaker, e.at);
    match e
    case Call(id, tool, kwargs, at) =>
      if KeyError(w, tool, kwargs).None? {
        var phase := if Asks(hasRedis, s.breaker, at) then Getting else Running;
        SetActiveKeepsInv(w, ttl, calls, later, id, Active(tool, kwargs, at, phase));
      } else {
        ReturnKeepsInv(w, ttl, calls, later, Returned(tool, kwargs, at, Wrapped(w, tool, kwargs), at, None));
      }
    case Served(_, _) => ServedKeepsInv(w, ttl, hasRedis, calls, s, e);
    case Got(_, _, _) => GotKeepsInv(w, ttl, hasRedis, calls, s, e);
    case Ran(_, _) => RanKeepsInv(w, ttl, hasRedis, calls, s, e);
    case Landed(id, _) => StoreKeepsInv(w, ttl, calls, later, id);
    case Acked(_, _, _) => AckedKeepsInv(w, ttl, hasRedis, calls, s, e);
    case Evicted(key, _) => DropKeepsInv(w, ttl, calls, later, key, 0);
    case Cancelled(id, _) => DropKeepsInv(w, ttl, calls, later, "", id);
  }

  lemma {:induction false} RunKeepsInv(w: World, ttl: real, hasRedis: bool, calls: Calls, s: System, es: seq<Event>)
    requires Injective(w.digest) && Compatible(w, calls) && CallsIn(calls, es)
    requires Runs(w, ttl, hasRedis, s, es) && Inv(w, ttl, calls, s)
    ensures Inv(w, ttl, calls, Run(w, ttl, hasRedis, s, es))
    decreases es
  {
    if es != [] {
      StepKeepsInv(w, ttl, hasRedis, calls, s, es[0]);
      RunKeepsInv(w, ttl, hasRedis, calls, Step(w, ttl, hasRedis, s, es[0]), es[1..]);
    }
  }

  /** No call in flight, nothing stored. */
  function Idle(breaker: CB.State, now: real): System { System(breaker, now, map[], map[], map[], []) }

  /** What every interleaving comes to, whatever Redis does and whatever state the breaker is in. */
  ghost predicate RunOk(w: World, ttl: real, s: System) {
    && (forall i :: 0 <= i < |s.returned| ==>
          var r := s.returned[i];
          Transparent(w, ttl, r) && (r.result == w.run(r.tool, r.kwargs) <==> !Spoiled(w, r.tool, r.kwargs)))
    && (forall key :: key in s.store ==>
          !("ERROR:" <= s.store[key].value) && w.parsed(s.store[key].value) == NoError)
  }

  /** For pure tools, an injective digest and compatible calls, every call that ends ends exactly as the
      uncached tool does unless the wrapper's own work raises, and then with that exception; and no error
      response is ever stored. */
  lemma CompatibleCallsAreTransparent(w: World, ttl: real, hasRedis: bool, calls: Calls, breaker: CB.State,
                                      now: real, es: seq<Event>)
    requires Injective(w.digest) && Compatible(w, calls) && CallsIn(calls, es)
    requires Runs(w, ttl, hasRedis, Idle(breaker, now), es)
    ensures RunOk(w, ttl, Run(w, ttl, hasRedis, Idle(breaker, now), es))
  {
    RunKeepsInv(w, ttl, hasRedis, calls, Idle(breaker, now), es);
    hide Run, Runs, Check, Payload;
  }

  /** Nothing in these calls but its own equal is rendered like it, and none has an argument called `fn`. */
  ghost predicate Identified(w: World, calls: Calls) {
    (forall c :: c in calls ==> "fn" !in c.1)
      && Faithful(w.json, iset c, v | c in calls && v in ValuesOf(c.0, c.1) :: v)
  }

  lemma IdentifiedCall(w: World, calls: Calls, f: string, k: Kwargs, g: string, l: Kwargs)
    requires Identified(w, calls) && (f, k) in calls && (g, l) in calls
      && Payload(w.json, f, k) == Payload(w.json, g, l)
    ensures f == g && k == l
  {
    var all := iset c, v | c in calls && v in ValuesOf(c.0, c.1) :: v;
    forall v | v in ValuesOf(f, k) + ValuesOf(g, l) ensures v in all {
      var c := if v in ValuesOf(f, k) then (f, k) else (g, l);
      assert c in calls && v in ValuesOf(c.0, c.1);
    }
    PayloadIdentifiesCall(w.json, f, k, g, l);
  }

  /** Main theorem of the cache: such calls are compatible, and every hit was stored, by the same tool with
      the same arguments, less than `ttl` before the server read it during the call. */
  lemma CacheIsTransparent(w: World, ttl: real, hasRedis: bool, calls: Calls, breaker: CB.State, now: real,
                           es: seq<Event>)
    requires Injective(w.digest) && Identified(w, calls) && CallsIn(calls, es)
    requires Runs(w, ttl, hasRedis, Idle(breaker, now), es)
    ensures var s := Run(w, ttl, hasRedis, Idle(breaker, now), es);
      && RunOk(w, ttl, s)
      && forall i :: 0 <= i < |s.returned| && s.returned[i].hit.Some? ==>
           var st := s.returned[i].hit.value.stored;
           st.tool == s.returned[i].tool && st.kwargs == s.returned[i].kwargs
  {
    forall c, d | c in calls && d in calls && Payload(w.json, c.0, c.1) == Payload(w.json, d.0, d.1) ensures c == d {
      IdentifiedCall(w, calls, c.0, c.1, d.0, d.1);
    }
    CompatibleCallsAreTransparent(w, ttl, hasRedis, calls, breaker, now, es);
    RunKeepsInv(w, ttl, hasRedis, calls, Idle(breaker, now), es);
    hide Run, Runs, Check, Payload, Identified;
    var s := Run(w, ttl, hasRedis, Idle(breaker, now), es);
    forall i | 0 <= i < |s.returned| && s.returned[i].hit.Some?
      ensures s.returned[i].hit.value.stored.tool == s.returned[i].tool
      ensures s.returned[i].hit.value.stored.kwargs == s.returned[i].kwargs
    {
      assert ReturnedOk(w, ttl, calls, s.returned[i]);
    }
  }

  // ---- Compatibility is necessary -------------------------------------------

  const TTL := 300.0

  lemma Chain(w: World, s: System, e: Event, end: System, es: seq<Event>) returns (r: seq<Event>)
    requires Enabled(s, e)
    requires Runs(w, TTL, true, Step(w, TTL, true, s, e), es) && Run(w, TTL, true, Step(w, TTL, true, s, e), es) == end
    ensures r == [e] + es && Runs(w, TTL, true, s, r) && Run(w, TTL, true, s, r) == end
  {
    r := [e] + es;
    assert r[1..] == es;
  }

  lemma {:induction false} RunConcat(w: World, s: System, es: seq<Event>, fs: seq<Event>)
    requires Runs(w, TTL, true, s, es) && Runs(w, TTL, true, Run(w, TTL, true, s, es), fs)
    ensures Runs(w, TTL, true, s, es + fs)
    ensures Run(w, TTL, true, s, es + fs) == Run(w, TTL, true, Run(w, TTL, true, s, es), fs)
    decreases es
  {
    if es == [] {
      assert es + fs == fs;
    } else {
      assert (es + fs)[0] == es[0] && (es + fs)[1..] == es[1..] + fs;
      RunConcat(w, Step(w, TTL, true, s, es[0]), es[1..], fs);
    }
  }

  /** The first half of an undisturbed call: nothing is found. */
  lemma MissFirst(w: World, tool: string, kwargs: Kwargs) returns (es: seq<Event>, s: System)
    requires KeyError(w, tool, kwargs).None?
    ensures CallsIn(iset{(tool, kwargs)}, es)
    ensures Runs(w, TTL, true, Idle(CB.CLOSED, 0.0), es) && Run(w, TTL, true, Idle(CB.CLOSED, 0.0), es) == s
    ensures s == Idle(CB.CLOSED, 0.0).(active := map[0 := Active(tool, kwargs, 0.0, Running)])
  {
    hide Key;
    var e0, e1, e2 := Call(0, tool, kwargs, 0.0), Served(0, 0.0), Got(0, false, 0.0);
    var s0 := Idle(CB.CLOSED, 0.0);
    var s1 := Step(w, TTL, true, s0, e0);
    var s2 := Step(w, TTL, true, s1, e1);
    s := Step(w, TTL, true, s2, e2);
    es := Chain(w, s2, e2, s, []);
    es := Chain(w, s1, e1, s, es);
    es := Chain(w, s0, e0, s, es);
  }

  /** One undisturbed call leaves its result in the store. */
  lemma StoreResult(w: World, tool: string, kwargs: Kwargs) returns (es: seq<Event>, s: System)
    requires Cacheable(w, tool, kwargs)
    ensures CallsIn(iset{(tool, kwargs)}, es)
    ensures Runs(w, TTL, true, Idle(CB.CLOSED, 0.0), es) && Run(w, TTL, true, Idle(CB.CLOSED, 0.0), es) == s
    ensures s.breaker == CB.CLOSED && s.now == 0.0 && s.active == map[] && s.writes == map[] && |s.returned| == 1
    ensures s.store == map[Key(w, tool, kwargs) := Stored(w.run(tool, kwargs).text, 0.0, tool, kwargs)]
  {
    var first, s3 := MissFirst(w, tool, kwargs);
    hide Key, Check;
    var e3, e4, e5 := Ran(0, 0.0), Landed(0, 0.0), Acked(0, false, 0.0);
    var s4 := Step(w, TTL, true, s3, e3);
    var s5 := Step(w, TTL, true, s4, e4);
    s := Step(w, TTL, true, s5, e5);
    es := Chain(w, s5, e5, s, []);
    es := Chain(w, s4, e4, s, es);
    es := Chain(w, s3, e3, s, es);
    hide Step, Enabled;
    RunConcat(w, Idle(CB.CLOSED, 0.0), first, es);
    es := first + es;
  }

  /** A call whose key is in the store, and alive when the server looks, is answered from there. */
  lemma AnsweredFromStore(w: World, s: System, tool: string, kwargs: Kwargs, asked: real, answered: real)
      returns (es: seq<Event>)
    requires s.breaker == CB.CLOSED && s.active == map[] && s.writes == map[] && s.now <= asked <= answered
    requires KeyError(w, tool, kwargs).None? && Key(w, tool, kwargs) in s.store
      && asked < s.store[Key(w, tool, kwargs)].at + TTL
    ensures CallsIn(iset{(tool, kwargs)}, es) && Runs(w, TTL, true, s, es)
    ensures var st := s.store[Key(w, tool, kwargs)];
      Run(w, TTL, true, s, es).returned
      == s.returned + [Returned(tool, kwargs, asked, Returns(st.value), answered, Some(Read(st, asked)))]
  {
    hide Key;
    var ask, look, hit := Call(1, tool, kwargs, asked), Served(1, asked), Got(1, false, answered);
    var s1 := Step(w, TTL, true, s, ask);
    var s2 := Step(w, TTL, true, s1, look);
    var s3 := Step(w, TTL, true, s2, hit);
    es := Chain(w, s2, hit, s3, []);
    es := Chain(w, s1, look, s3, es);
    es := Chain(w, s, ask, s3, es);
  }

  /** A call that shares the payload of another with a different result is answered from the other's
      cache entry in some run. */
  lemma IncompatibleCallsBorrowResults(w: World, a: string, k: Kwargs, b: string, l: Kwargs) returns (es: seq<Event>)
    requires Payload(w.json, a, k) == Payload(w.json, b, l) && KeyError(w, a, k).None?
    requires Cacheable(w, b, l) && w.run(a, k) != w.run(b, l)
    ensures CallsIn(iset{(a, k), (b, l)}, es) && Runs(w, TTL, true, Idle(CB.CLOSED, 0.0), es)
    ensures var s := Run(w, TTL, true, Idle(CB.CLOSED, 0.0), es);
      |s.returned| == 2 && s.returned[1].tool == a && s.returned[1].kwargs == k && !Transparent(w, TTL, s.returned[1])
  {
    var stored, s := StoreResult(w, b, l);
    var rest := AnsweredFromStore(w, s, a, k, 1.0, 1.0);
    es := stored + rest;
    RunConcat(w, Idle(CB.CLOSED, 0.0), stored, rest);
    hide Run, Runs;
  }

  /** The time to live counts when the server reads: a hit may have expired by the time it is returned. */
  lemma HitMayExpireOnTheWay(w: World, tool: string, kwargs: Kwargs) returns (es: seq<Event>)
    requires Cacheable(w, tool, kwargs)
    ensures Runs(w, TTL, true, Idle(CB.CLOSED, 0.0), es)
    ensures var s := Run(w, TTL, true, Idle(CB.CLOSED, 0.0), es);
      |s.returned| == 2 && s.returned[1].hit.Some? && s.returned[1].at > s.returned[1].hit.value.stored.at + TTL
  {
    var stored, s := StoreResult(w, tool, kwargs);
    var rest := AnsweredFromStore(w, s, tool, kwargs, 299.0, 301.0);
    es := stored + rest;
    RunConcat(w, Idle(CB.CLOSED, 0.0), stored, rest);
    hide Run, Runs;
  }

  /** For instance, a tool called with `fn` naming another tool that takes no arguments. */
  lemma FnArgumentCollides(json: Render, a: string, b: string)
    ensures Payload(json, a, map["fn" := Str(b)]) == Payload(json, b, map[])
  {
    PayloadsCollideIff(json, a, map["fn" := Str(b)], b, map[]);
    assert map["fn" := Str(b)] - {"fn"} == map[] - {"fn"};
  }

  /** Or a date and its text, of which `default=str` makes the same. */
  lemma RenderedAlikeCollides(json: Render, tool: string, kwargs: Kwargs, key: string, u: Value, v: Value)
    requires json(u) == json(v)
    ensures Payload(json, tool, kwargs[key := u]) == Payload(json, tool, kwargs[key := v])
  {
  }

  // ---- The wrapper's own exceptions ------------------------------------------

  /** A call whose result cannot be checked ends in the exception of the check, where the uncached tool
      returns. */
  lemma UncheckableIsSpoiled(w: World, tool: string, kwargs: Kwargs) returns (es: seq<Event>)
    requires KeyError(w, tool, kwargs).None? && w.run(tool, kwargs).Returns?
    requires Check(w, w.run(tool, kwargs).text).CheckRaises?
    ensures Runs(w, TTL, true, Idle(CB.CLOSED, 0.0), es)
    ensures Run(w, TTL, true, Idle(CB.CLOSED, 0.0), es).returned
         == [Returned(tool, kwargs, 0.0, Raises(Check(w, w.run(tool, kwargs).text).error), 0.0, None)]
  {
    var first, s := MissFirst(w, tool, kwargs);
    var ran := Ran(0, 0.0);
    es := Chain(w, s, ran, Step(w, TTL, true, s, ran), []);
    RunConcat(w, Idle(CB.CLOSED, 0.0), first, es);
    es := first + es;
  }

  predicate IsInteger(text: string) {
    text != "" && text[0] != '0' && forall i :: 0 <= i < |text| ==> '0' <= text[i] <= '9'
  }

  /** The limit of Python 3.11 on the digits of an integer: a ValueError that is no decoding error. */
  ghost predicate LimitsIntegers(parsed: string -> Checked) {
    forall text :: IsInteger(text) ==> parsed(text) == if |text| > 4300 then CheckRaises("ValueError") else NoError
  }

  function Ones(n: nat): string { seq(n, _ => '1') }

  /** For instance, a tool that returns 4301 ones. */
  lemma LongIntegerIsSpoiled(w: World, tool: string, kwargs: Kwargs) returns (es: seq<Event>)
    requires LimitsIntegers(w.parsed) && KeyError(w, tool, kwargs).None? && w.run(tool, kwargs) == Returns(Ones(4301))
    ensures Spoiled(w, tool, kwargs) && Runs(w, TTL, true, Idle(CB.CLOSED, 0.0), es)
    ensures Run(w, TTL, true, Idle(CB.CLOSED, 0.0), es).returned
         == [Returned(tool, kwargs, 0.0, Raises("ValueError"), 0.0, None)]
  {
    var text := Ones(4301);
    assert IsInteger(text) && |text| == 4301;
    assert !("ERROR:" <= text) by { assert text[0] == '1' != "ERROR:"[0]; }
    hide Ones, Step;
    es := UncheckableIsSpoiled(w, tool, kwargs);
  }

  /** A reply of any kind closes the breaker at all times; the fifth failure in a row opens it. */
  lemma ReplyCloses(s: CB.State, now: real, at: real)
    ensures !CB.IsOpen(AfterReply(s, false, now), CB.DEFAULTS, at)
    ensures s.failures >= 4 ==> (CB.IsOpen(AfterReply(s, true, now), CB.DEFAULTS, at) <==> at < now + 30.0)
    ensures s.failures < 4 ==> !CB.IsOpen(AfterReply(s, true, now), CB.DEFAULTS, at)
  {
  }

  /** A call whose key can be made asks Redis first, unless there is none or the breaker is open. */
  lemma CallStep(w: World, ttl: real, hasRedis: bool, s: System, id: nat, tool: string, kwargs: Kwargs, at: real)
    requires Enabled(s, Call(id, tool, kwargs, at)) && KeyError(w, tool, kwargs).None?
    ensures var t := Step(w, ttl, hasRedis, s, Call(id, tool, kwargs, at));
      var asks := hasRedis && (s.breaker.failures < 5 || at >= s.breaker.openUntil);
      id in t.active && t.active[id] == Active(tool, kwargs, at, if asks then Getting else Running)
      && t.breaker == s.breaker && t.returned == s.returned && t.store == s.store
  {
  }

  /** A failed GET counts and a miss closes the breaker, and the tool runs; a hit closes it and is returned. */
  lemma GotStep(w: World, ttl: real, hasRedis: bool, s: System, id: nat, failed: bool, at: real)
    requires Enabled(s, Got(id, failed, at))
    ensures var a, t := s.active[id], Step(w, ttl, hasRedis, s, Got(id, failed, at));
      && t.breaker.failures == (if failed then s.breaker.failures + 1 else 0)
      && if !failed && a.phase.read.Some? then
           id !in t.active && |t.returned| == |s.returned| + 1
           && t.returned[|s.returned|].result == Returns(a.phase.read.value.stored.value)
         else t.active == s.active[id := a.(phase := Running)] && t.returned == s.returned
  {
  }

  /** A result is sent to Redis exactly if it neither begins with "ERROR:" nor parses as an error, and Redis is
      asked. Every other result ends the call, and none is kept. */
  lemma OnlyCacheableIsSent(w: World, ttl: real, hasRedis: bool, s: System, id: nat, at: real)
    requires Enabled(s, Ran(id, at))
    ensures var t, a := Step(w, ttl, hasRedis, s, Ran(id, at)), s.active[id];
      var result := w.run(a.tool, a.kwargs);
      var asks := hasRedis && (s.breaker.failures < 5 || at >= s.breaker.openUntil);
      if result.Returns? && !("ERROR:" <= result.text) && w.parsed(result.text) == NoError && asks then
        t.writes == s.writes[id := Stored(result.text, at, a.tool, a.kwargs)] && t.returned == s.returned
      else t.writes == s.writes && |t.returned| == |s.returned| + 1 && id !in t.active
    ensures Step(w, ttl, hasRedis, s, Ran(id, at)).breaker == s.breaker
  {
  }

  /** The result is returned whether or not it could be stored; only the breaker knows. */
  lemma AckedStep(w: World, ttl: real, hasRedis: bool, s: System, id: nat, failed: bool, at: real)
    requires Enabled(s, Acked(id, failed, at))
    ensures var a, t := s.active[id], Step(w, ttl, hasRedis, s, Acked(id, failed, at));
      && t.breaker.failures == (if failed then s.breaker.failures + 1 else 0) && id !in t.active
      && |t.returned| == |s.returned| + 1 && t.returned[|s.returned|].result == Returns(a.phase.text)
  {
  }

  // ---- The load on a failing Redis ------------------------------------------

  /** A `get` or a `set` is a call of one request, if there is a Redis. */
  function AfterCommand(hasRedis: bool, s: CB.State, c: CB.Single): CB.State {
    if Asks(hasRedis, s, c.start) then AfterReply(s, true, c.end) else s
  }

  function CommandsSent(hasRedis: bool, s: CB.State, cs: seq<CB.Single>): nat
    decreases cs
  {
    if cs == [] then 0
    else
      (if Asks(hasRedis, s, cs[0].start) then 1 else 0)
      + CommandsSent(hasRedis, AfterCommand(hasRedis, s, cs[0]), cs[1..])
  }

  lemma {:induction false} CommandsAreSingles(hasRedis: bool, s: CB.State, cs: seq<CB.Single>)
    ensures CommandsSent(hasRedis, s, cs) == if hasRedis then CB.Sent(s, CB.DEFAULTS, cs) else 0
    decreases cs
  {
    if cs != [] {
      CommandsAreSingles(hasRedis, AfterCommand(hasRedis, s, cs[0]), cs[1..]);
    }
  }

  /** A dead Redis slows down few calls: commands made one after the other within a window of length
      `length`, all of which fail, are sent at most 5 times and once more for every 30 seconds. */
  lemma CommandBound(hasRedis: bool, s: CB.State, from: real, length: real, cs: seq<CB.Single>)
    requires length >= 0.0 && (hasRedis ==> CB.OneByOne(s, CB.DEFAULTS, from, from + length, cs))
    ensures CommandsSent(hasRedis, s, cs) <= if hasRedis then 5 + CB.Periods(length, 30.0) else 0
  {
    CommandsAreSingles(hasRedis, s, cs);
    if hasRedis {
      CB.SinglesBound(s, CB.DEFAULTS, from, length, cs);
    }
  }
}
