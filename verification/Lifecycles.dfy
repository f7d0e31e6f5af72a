/** `McpService.lifespan` with `_register` and `_deregister`: who creates, holds and closes the
    service's resources over repeated lifespans. A lifespan is split at its yield. */
module Lifecycles {
  import opened Text

  /** Resources, registry clients included, are numbered in the order of their creation. */
  type Id = nat

  datatype Config = Config(registryUrl: string, serviceUrl: string, enableToolCache: bool, redisHost: string,
                           requiresDatabase: bool)

  /** Around the service: the next number, the resources it created, how often each was closed, and the
      background tasks that are running, by client. */
  datatype World = World(next: Id, created: set<Id>, closes: multiset<Id>, heartbeats: multiset<Id>,
                         refreshers: multiset<Id>)

  /** A resource field with its ownership flag. */
  datatype Slot = Slot(held: Option<Id>, owned: bool)

  datatype Service = Service(authorizer: Slot, cache: Slot, pool: Slot, registry: Option<Id>, world: World)

  // ---- Steps on the world ----------------------------------------------------

  function Created(w: World): World { w.(next := w.next + 1, created := w.created + {w.next}) }

  function Closed(w: World, id: Id): World { w.(closes := w.closes + multiset{id}) }

  /** `start_heartbeat` and `start_refresh` do nothing if the client has such a task. */
  function TasksStarted(w: World, client: Id): World {
    w.(heartbeats := if client in w.heartbeats then w.heartbeats else w.heartbeats + multiset{client},
       refreshers := if client in w.refreshers then w.refreshers else w.refreshers + multiset{client})
  }

  function TasksStopped(w: World, client: Id): World {
    w.(heartbeats := w.heartbeats - multiset{client}, refreshers := w.refreshers - multiset{client})
  }

  datatype Filled = Filled(slot: Slot, world: World)

  /** A resource that is not there is created and owned. */
  function Fill(slot: Slot, w: World): Filled {
    if slot.held.Some? then Filled(slot, w) else Filled(Slot(Some(w.next), true), Created(w))
  }

  /** An owned resource is closed and dropped; the flag stays. */
  function Release(slot: Slot, w: World): Filled {
    if slot.owned && slot.held.Some? then Filled(slot.(held := None), Closed(w, slot.held.value)) else Filled(slot, w)
  }

  // ---- Registration ----------------------------------------------------------

  function StripSlashes(s: string): string {
    if s != "" && s[|s| - 1] == '/' then StripSlashes(s[..|s| - 1]) else s
  }

  predicate HasRegistry(c: Config) { StripSlashes(c.registryUrl) != "" }

  predicate LacksServiceUrl(c: Config) { HasRegistry(c) && StripSlashes(c.serviceUrl) == "" }

  /** Registration is attempted: there is a registry, and it is not this service. */
  predicate Registers(c: Config) {
    HasRegistry(c) && !LacksServiceUrl(c) && StripSlashes(c.registryUrl) != StripSlashes(c.serviceUrl)
  }

  /** Where entering a lifespan raises, if it does. */
  datatype EnterFault = EnterOk | RegisterSelfRaises | PoolRaises | StartupRaises

  /** The state, and whether an exception left. */
  datatype Outcome = Outcome(service: Service, raised: bool)

  function Registered(s: Service, c: Config, fault: EnterFault): Outcome {
    if LacksServiceUrl(c) then Outcome(s, true)
    else if !Registers(c) then Outcome(s, false)
    else
      var client := s.world.next;
      if fault.RegisterSelfRaises? then Outcome(s.(registry := Some(client), world := Created(s.world)), true)
      else Outcome(s.(registry := Some(client), world := TasksStarted(Created(s.world), client)), false)
  }

  /** `_deregister`: the client's tasks are stopped, and it is closed and dropped even if the DELETE raises. */
  function Deregistered(s: Service): Service {
    match s.registry
    case None => s
    case Some(client) => s.(registry := None, world := Closed(TasksStopped(s.world, client), client))
  }

  // ---- Entering and leaving --------------------------------------------------

  function WithAuthorizer(s: Service): Service {
    var f := Fill(s.authorizer, s.world);
    s.(authorizer := f.slot, world := f.world)
  }

  /** Without a Redis host no cache is created, but the service owns the absence. */
  function WithCache(s: Service, c: Config): Service {
    if !c.enableToolCache then s
    else if s.cache.held.None? && c.redisHost == "" then s.(cache := Slot(None, true))
    else var f := Fill(s.cache, s.world); s.(cache := f.slot, world := f.world)
  }

  function WithPool(s: Service, c: Config): Service {
    if !c.requiresDatabase then s else var f := Fill(s.pool, s.world); s.(pool := f.slot, world := f.world)
  }

  function Entered(s: Service, c: Config, fault: EnterFault): Outcome {
    var r := Registered(s, c, fault);
    if r.raised then r
    else
      var t := WithCache(WithAuthorizer(r.service), c);
      if t.pool.held.None? && c.requiresDatabase && fault.PoolRaises? then Outcome(t, true)
      else Outcome(WithPool(t, c), fault.StartupRaises?)
  }

  function TornDown(s: Service): Service {
    var a := Release(s.authorizer, s.world);
    var b := Release(s.cache, a.world);
    var d := Release(s.pool, b.world);
    s.(authorizer := a.slot, cache := b.slot, pool := d.slot, world := d.world)
  }

  /** Where leaving a lifespan raises, if it does. */
  datatype ExitFault = ExitOk | ShutdownRaises | DeregisterRaises

  function Left(s: Service, fault: ExitFault): Service {
    if fault.ShutdownRaises? then s
    else if fault.DeregisterRaises? && s.registry.Some? then Deregistered(s)
    else TornDown(Deregistered(s))
  }

  class McpService {
    const config: Config
    var authorizer: Option<Id>
    var cache: Option<Id>
    var pool: Option<Id>
    var ownsAuthorizer: bool
    var ownsCache: bool
    var ownsPool: bool
    var registry: Option<Id>
    var world: World

    ghost function Current(): Service
      reads this
    {
      Service(Slot(authorizer, ownsAuthorizer), Slot(cache, ownsCache), Slot(pool, ownsPool), registry, world)
    }

    constructor (config: Config, authorizer: Option<Id>, cache: Option<Id>, pool: Option<Id>, next: Id)
      ensures this.config == config && Current() == Injected(authorizer, cache, pool, next)
    {
      this.config := config;
      this.authorizer, this.cache, this.pool := authorizer, cache, pool;
      ownsAuthorizer, ownsCache, ownsPool := false, false, false;
      registry := None;
      world := World(next, {}, multiset{}, multiset{}, multiset{});
    }

    method Create() returns (id: Id)
      modifies this`world
      ensures id == old(world).next && world == Created(old(world))
    {
      id := world.next;
      world := world.(next := id + 1, created := world.created + {id});
    }

    method Close(id: Id)
      modifies this`world
      ensures world == Closed(old(world), id)
    {
      world := world.(closes := world.closes + multiset{id});
    }

    method Register(fault: EnterFault) returns (raised: bool)
      modifies this`registry, this`world
      ensures Outcome(Current(), raised) == Registered(old(Current()), config, fault)
    {
      var registryUrl := StripSlashes(config.registryUrl);
      if registryUrl == "" { return false; }
      var selfUrl := StripSlashes(config.serviceUrl);
      if selfUrl == "" { return true; }
      if registryUrl == selfUrl { return false; }
      var client := Create();
      registry := Some(client);
      if fault.RegisterSelfRaises? { return true; }
      world := TasksStarted(world, client);
      return false;
    }

    method Enter(fault: EnterFault) returns (raised: bool)
      modifies this
      ensures Outcome(Current(), raised) == Entered(old(Current()), config, fault)
    {
      raised := Register(fault);
      if raised { return; }
      ghost var r := Current();
      if authorizer.None? {
        var id := Create();
        authorizer, ownsAuthorizer := Some(id), true;
      }
      assert Current() == WithAuthorizer(r);
      if cache.None? && config.enableToolCache {
        if config.redisHost != "" {
          var id := Create();
          cache := Some(id);
        }
        ownsCache := true;
      }
      assert Current() == WithCache(WithAuthorizer(r), config);
      ghost var t := Current();
      if pool.None? && config.requiresDatabase {
        if fault.PoolRaises? { return true; }
        var id := Create();
        pool, ownsPool := Some(id), true;
      }
      assert Current() == WithPool(t, config);
      hide Fill, Registered, WithAuthorizer, WithCache, WithPool;
      return fault.StartupRaises?;
    }

    method Deregister()
      modifies this`registry, this`world
      ensures Current() == Deregistered(old(Current()))
    {
      if registry.None? { return; }
      var client := registry.value;
      world := TasksStopped(world, client);
      Close(client);
      registry := None;
    }

    method Leave(fault: ExitFault)
      modifies this
      ensures Current() == Left(old(Current()), fault)
    {
      if fault.ShutdownRaises? { return; }
      var raised := fault.DeregisterRaises? && registry.Some?;
      Deregister();
      if raised { return; }
      TearDown();
    }

    method TearDown()
      modifies this`authorizer, this`cache, this`pool, this`world
      ensures Current() == TornDown(old(Current()))
    {
      if ownsAuthorizer && authorizer.Some? {
        Close(authorizer.value);
        authorizer := None;
      }
      ghost var a := Release(old(Current()).authorizer, old(world));
      assert Slot(authorizer, ownsAuthorizer) == a.slot && world == a.world;
      if ownsCache && cache.Some? {
        Close(cache.value);
        cache := None;
      }
      ghost var b := Release(old(Current()).cache, a.world);
      assert Slot(cache, ownsCache) == b.slot && world == b.world;
      if ownsPool && pool.Some? {
        Close(pool.value);
        pool := None;
      }
      ghost var d := Release(old(Current()).pool, b.world);
      assert Slot(pool, ownsPool) == d.slot && world == d.world;
      hide Release;
    }
  }

  // ---- Conservation ----------------------------------------------------------

  /** A new service with what was injected; all their numbers are below `next`. */
  function Injected(authorizer: Option<Id>, cache: Option<Id>, pool: Option<Id>, next: Id): Service {
    Service(Slot(authorizer, false), Slot(cache, false), Slot(pool, false), None,
            World(next, {}, multiset{}, multiset{}, multiset{}))
  }

  function One(b: bool): nat { if b then 1 else 0 }

  /** How often a slot holds a resource that the service created. */
  function HeldBy(slot: Slot, id: Id): nat { One(slot.owned && slot.held == Some(id)) }

  function HeldCount(s: Service, id: Id): nat {
    HeldBy(s.authorizer, id) + HeldBy(s.cache, id) + HeldBy(s.pool, id) + One(s.registry == Some(id))
  }

  /** Closes not accounted for, on a world beside holders that count `held`. */
  function Balance(w: World, held: nat, id: Id): int { w.closes[id] + held - One(id in w.created) }

  /** Every resource the service created has been closed exactly once or is held exactly once; nothing
      else has been closed or is held as its own. */
  ghost predicate Conserved(s: Service) {
    forall id :: Balance(s.world, HeldCount(s, id), id) == 0
  }

  /** Running tasks belong to the current client, at most one of each kind. */
  ghost predicate TasksOk(s: Service) {
    forall id :: s.world.heartbeats[id] <= One(s.registry == Some(id))
      && s.world.refreshers[id] <= One(s.registry == Some(id))
  }

  /** An injected resource stays where it is and is not owned; anything else that is held is owned. */
  predicate Kept(slot: Slot, injected: Option<Id>) {
    if injected.Some? then slot == Slot(injected, false) else slot.held.Some? ==> slot.owned
  }

  predicate Keeps(s: Service, init: Service) {
    Kept(s.authorizer, init.authorizer.held) && Kept(s.cache, init.cache.held) && Kept(s.pool, init.pool.held)
  }

  predicate NumbersOk(w: World, first: Id) { forall id :: id in w.created ==> first <= id < w.next }

  ghost predicate Inv(s: Service, init: Service) {
    Conserved(s) && TasksOk(s) && Keeps(s, init) && NumbersOk(s.world, init.world.next)
      && init.world.next <= s.world.next
  }

  lemma ReleaseBalances(slot: Slot, w: World, others: nat, id: Id)
    ensures var f := Release(slot, w);
      f.world.next == w.next && f.world.created == w.created
      && Balance(f.world, others + HeldBy(f.slot, id), id) == Balance(w, others + HeldBy(slot, id), id)
  {
  }

  lemma RegisteredKeepsInv(s: Service, init: Service, c: Config, fault: EnterFault)
    requires Inv(s, init) && s.registry.None?
    ensures Inv(Registered(s, c, fault).service, init)
  {
    var t := Registered(s, c, fault).service;
    forall id: Id ensures Balance(t.world, HeldCount(t, id), id) == 0 {
      assert Balance(s.world, HeldCount(s, id), id) == 0;
    }
    forall id: Id
      ensures t.world.heartbeats[id] <= One(t.registry == Some(id))
        && t.world.refreshers[id] <= One(t.registry == Some(id))
    {
      assert s.world.heartbeats[id] == 0 && s.world.refreshers[id] == 0;
    }
  }

  lemma AuthorizerBalances(s: Service, id: Id)
    requires NumbersOk(s.world, 0)
    ensures var t := WithAuthorizer(s);
      NumbersOk(t.world, 0) && s.world.next <= t.world.next && t.registry == s.registry
      && Balance(t.world, HeldCount(t, id), id) == Balance(s.world, HeldCount(s, id), id)
  {
  }

  lemma FillAuthorizerKeepsInv(s: Service, init: Service)
    requires Inv(s, init)
    ensures Inv(WithAuthorizer(s), init)
  {
    var t := WithAuthorizer(s);
    forall id: Id ensures Balance(t.world, HeldCount(t, id), id) == 0 {
      assert Balance(s.world, HeldCount(s, id), id) == 0;
      AuthorizerBalances(s, id);
    }
  }

  lemma CacheBalances(s: Service, c: Config, id: Id)
    requires NumbersOk(s.world, 0)
    ensures var t := WithCache(s, c);
      NumbersOk(t.world, 0) && s.world.next <= t.world.next && t.registry == s.registry
      && Balance(t.world, HeldCount(t, id), id) == Balance(s.world, HeldCount(s, id), id)
  {
  }

  lemma FillCacheKeepsInv(s: Service, init: Service, c: Config)
    requires Inv(s, init)
    ensures Inv(WithCache(s, c), init)
  {
    var t := WithCache(s, c);
    forall id: Id ensures Balance(t.world, HeldCount(t, id), id) == 0 {
      assert Balance(s.world, HeldCount(s, id), id) == 0;
      CacheBalances(s, c, id);
    }
  }

  lemma PoolBalances(s: Service, c: Config, id: Id)
    requires NumbersOk(s.world, 0)
    ensures var t := WithPool(s, c);
      NumbersOk(t.world, 0) && s.world.next <= t.world.next && t.registry == s.registry
      && Balance(t.world, HeldCount(t, id), id) == Balance(s.world, HeldCount(s, id), id)
  {
  }

  lemma FillPoolKeepsInv(s: Service, init: Service, c: Config)
    requires Inv(s, init)
    ensures Inv(WithPool(s, c), init)
  {
    var t := WithPool(s, c);
    forall id: Id ensures Balance(t.world, HeldCount(t, id), id) == 0 {
      assert Balance(s.world, HeldCount(s, id), id) == 0;
      PoolBalances(s, c, id);
    }
  }

  lemma EnteredKeepsInv(s: Service, init: Service, c: Config, fault: EnterFault)
    requires Inv(s, init) && s.registry.None?
    ensures Inv(Entered(s, c, fault).service, init)
  {
    RegisteredKeepsInv(s, init, c, fault);
    var r := Registered(s, c, fault).service;
    FillAuthorizerKeepsInv(r, init);
    FillCacheKeepsInv(WithAuthorizer(r), init, c);
    FillPoolKeepsInv(WithCache(WithAuthorizer(r), c), init, c);
    hide Inv, Registered, WithAuthorizer, WithCache, WithPool;
  }

  lemma DeregisteredKeepsInv(s: Service, init: Service)
    requires Inv(s, init)
    ensures Inv(Deregistered(s), init) && Deregistered(s).registry.None?
  {
    var t := Deregistered(s);
    forall id: Id ensures Balance(t.world, HeldCount(t, id), id) == 0 {
      assert Balance(s.world, HeldCount(s, id), id) == 0;
    }
    forall id: Id ensures t.world.heartbeats[id] == 0 && t.world.refreshers[id] == 0 {
      assert s.world.heartbeats[id] <= One(s.registry == Some(id))
        && s.world.refreshers[id] <= One(s.registry == Some(id));
    }
  }

  /** Nothing the service created is left in its resource fields. */
  predicate Emptied(s: Service) {
    && (s.authorizer.held.Some? ==> !s.authorizer.owned)
    && (s.cache.held.Some? ==> !s.cache.owned)
    && (s.pool.held.Some? ==> !s.pool.owned)
  }

  lemma TornDownBalances(s: Service, id: Id)
    ensures var t := TornDown(s);
      Balance(t.world, HeldCount(t, id), id) == Balance(s.world, HeldCount(s, id), id)
      && t.world.next == s.world.next && t.world.created == s.world.created
  {
    var a := Release(s.authorizer, s.world);
    var b := Release(s.cache, a.world);
    ReleaseBalances(s.authorizer, s.world, HeldBy(s.cache, id) + HeldBy(s.pool, id) + One(s.registry == Some(id)), id);
    ReleaseBalances(s.cache, a.world, HeldBy(a.slot, id) + HeldBy(s.pool, id) + One(s.registry == Some(id)), id);
    ReleaseBalances(s.pool, b.world, HeldBy(a.slot, id) + HeldBy(b.slot, id) + One(s.registry == Some(id)), id);
    hide Release, Balance, HeldBy, One;
  }

  lemma TornDownKeepsInv(s: Service, init: Service)
    requires Inv(s, init)
    ensures Inv(TornDown(s), init) && TornDown(s).registry == s.registry && Emptied(TornDown(s))
  {
    var t := TornDown(s);
    forall id: Id ensures Balance(t.world, HeldCount(t, id), id) == 0 {
      assert Balance(s.world, HeldCount(s, id), id) == 0;
      TornDownBalances(s, id);
    }
    assert t.world.heartbeats == s.world.heartbeats && t.world.refreshers == s.world.refreshers;
  }

  /** One lifespan: what goes wrong on the way in and on the way out. */
  datatype Lifespan = Lifespan(enter: EnterFault, exit: ExitFault)

  function After(s: Service, c: Config, l: Lifespan): Service {
    var e := Entered(s, c, l.enter);
    if e.raised then e.service else Left(e.service, l.exit)
  }

  /** Lifespans one after the other; a failed entry has no exit. */
  function Run(s: Service, c: Config, ls: seq<Lifespan>): Service
    decreases ls
  {
    if ls == [] then s else Run(After(s, c, ls[0]), c, ls[1..])
  }

  /** Neither the startup nor the shutdown hook raises; deregistration may. */
  predicate Regular(l: Lifespan) { l.enter.EnterOk? && !l.exit.ShutdownRaises? }

  lemma AfterKeepsInv(s: Service, init: Service, c: Config, l: Lifespan)
    requires Inv(s, init) && s.registry.None? && !LacksServiceUrl(c) && Regular(l)
    ensures Inv(After(s, c, l), init) && After(s, c, l).registry.None?
    ensures l.exit.ExitOk? ==> Emptied(After(s, c, l))
  {
    var e := Entered(s, c, l.enter);
    assert !e.raised;
    EnteredKeepsInv(s, init, c, l.enter);
    DeregisteredKeepsInv(e.service, init);
    TornDownKeepsInv(Deregistered(e.service), init);
    hide Inv, Entered, Deregistered, TornDown;
  }

  lemma {:induction false} RunKeepsInv(s: Service, init: Service, c: Config, ls: seq<Lifespan>)
    requires Inv(s, init) && s.registry.None? && !LacksServiceUrl(c)
    requires forall i :: 0 <= i < |ls| ==> Regular(ls[i])
    ensures Inv(Run(s, c, ls), init) && Run(s, c, ls).registry.None?
    ensures ls != [] && ls[|ls| - 1].exit.ExitOk? ==> Emptied(Run(s, c, ls))
    decreases ls
  {
    if ls != [] {
      AfterKeepsInv(s, init, c, ls[0]);
      hide Inv, After, Emptied;
      RunKeepsInv(After(s, c, ls[0]), init, c, ls[1..]);
    }
  }

  predicate Numbered(o: Option<Id>, next: Id) { o.Some? ==> o.value < next }

  /** Over any number of lifespans whose hooks do not raise: every resource the service created has been
      closed exactly once, or, where a deregistration raised before the teardown, is still held once and
      not closed; nothing else has been closed; and no client and no background task is left, even where
      deregistration raised. */
  lemma Conservation(c: Config, authorizer: Option<Id>, cache: Option<Id>, pool: Option<Id>, next: Id,
                     ls: seq<Lifespan>)
    requires !LacksServiceUrl(c) && forall i :: 0 <= i < |ls| ==> Regular(ls[i])
    ensures var s := Run(Injected(authorizer, cache, pool, next), c, ls);
      && (forall id :: id in s.world.created ==> s.world.closes[id] + HeldCount(s, id) == 1)
      && (forall id :: id in s.world.closes ==> id in s.world.created)
      && s.registry.None? && s.world.heartbeats == multiset{} && s.world.refreshers == multiset{}
  {
    var init := Injected(authorizer, cache, pool, next);
    RunKeepsInv(init, init, c, ls);
    var s := Run(init, c, ls);
    forall id: Id
      ensures s.world.closes[id] + HeldCount(s, id) == One(id in s.world.created)
      ensures s.world.heartbeats[id] == 0 && s.world.refreshers[id] == 0
    {
      assert Balance(s.world, HeldCount(s, id), id) == 0;
      assert s.world.heartbeats[id] <= One(s.registry == Some(id))
        && s.world.refreshers[id] <= One(s.registry == Some(id));
    }
  }

  /** After a clean exit every resource the service ever created has been closed exactly once. */
  lemma AllClosedAfterCleanExit(c: Config, authorizer: Option<Id>, cache: Option<Id>, pool: Option<Id>, next: Id,
                                ls: seq<Lifespan>)
    requires !LacksServiceUrl(c) && forall i :: 0 <= i < |ls| ==> Regular(ls[i])
    requires ls != [] && ls[|ls| - 1].exit.ExitOk?
    ensures var s := Run(Injected(authorizer, cache, pool, next), c, ls);
      forall id :: s.world.closes[id] == One(id in s.world.created)
  {
    var init := Injected(authorizer, cache, pool, next);
    RunKeepsInv(init, init, c, ls);
    var s := Run(init, c, ls);
    forall id: Id ensures s.world.closes[id] == One(id in s.world.created) {
      assert Balance(s.world, HeldCount(s, id), id) == 0;
    }
  }

  /** Injected resources are neither replaced nor closed. */
  lemma InjectedAreKept(c: Config, authorizer: Option<Id>, cache: Option<Id>, pool: Option<Id>, next: Id,
                        ls: seq<Lifespan>)
    requires Numbered(authorizer, next) && Numbered(cache, next) && Numbered(pool, next)
    requires !LacksServiceUrl(c) && forall i :: 0 <= i < |ls| ==> Regular(ls[i])
    ensures var s := Run(Injected(authorizer, cache, pool, next), c, ls);
      && (authorizer.Some? ==> s.authorizer.held == authorizer && s.world.closes[authorizer.value] == 0)
      && (cache.Some? ==> s.cache.held == cache && s.world.closes[cache.value] == 0)
      && (pool.Some? ==> s.pool.held == pool && s.world.closes[pool.value] == 0)
  {
    var init := Injected(authorizer, cache, pool, next);
    RunKeepsInv(init, init, c, ls);
    var s := Run(init, c, ls);
    forall id: Id | id < next ensures s.world.closes[id] == 0 {
      assert Balance(s.world, HeldCount(s, id), id) == 0;
      assert id !in s.world.created;
    }
  }

  /** While a lifespan is open its client has at most one heartbeat and one refresh task, and no other
      client has any. */
  lemma OneTaskEach(c: Config, authorizer: Option<Id>, cache: Option<Id>, pool: Option<Id>, next: Id,
                    ls: seq<Lifespan>, fault: EnterFault)
    requires !LacksServiceUrl(c) && forall i :: 0 <= i < |ls| ==> Regular(ls[i])
    ensures var t := Entered(Run(Injected(authorizer, cache, pool, next), c, ls), c, fault).service;
      forall client :: t.world.heartbeats[client] <= One(t.registry == Some(client))
                    && t.world.refreshers[client] <= One(t.registry == Some(client))
  {
    var init := Injected(authorizer, cache, pool, next);
    RunKeepsInv(init, init, c, ls);
    EnteredKeepsInv(Run(init, c, ls), init, c, fault);
  }

  /** Entering raises exactly for these faults; otherwise everything configured is there, what was there
      is still the same, and the client, if there is to be one, is new and has both its tasks. */
  lemma EnteredProvides(s: Service, c: Config, fault: EnterFault)
    requires s.registry.None?
    ensures Entered(s, c, fault).raised <==>
      || LacksServiceUrl(c) || (Registers(c) && fault.RegisterSelfRaises?) || fault.StartupRaises?
      || (c.requiresDatabase && s.pool.held.None? && fault.PoolRaises?)
    ensures var t := Entered(s, c, fault).service;
      !Entered(s, c, fault).raised ==>
        && t.authorizer.held.Some? && (s.authorizer.held.Some? ==> t.authorizer == s.authorizer)
        && (t.cache.held.Some? <==> s.cache.held.Some? || (c.enableToolCache && c.redisHost != ""))
        && (s.cache.held.Some? ==> t.cache == s.cache) && (s.cache.held.None? && c.enableToolCache ==> t.cache.owned)
        && (t.pool.held.Some? <==> s.pool.held.Some? || c.requiresDatabase) && (s.pool.held.Some? ==> t.pool == s.pool)
        && (t.registry.Some? <==> Registers(c))
        && (t.registry.Some? ==>
              t.registry.value >= s.world.next
              && t.registry.value in t.world.heartbeats && t.registry.value in t.world.refreshers)
  {
    var r := Registered(s, c, fault).service;
    var t := WithCache(WithAuthorizer(r), c);
    assert t.registry == r.registry && t.world.heartbeats == r.world.heartbeats
      && t.world.refreshers == r.world.refreshers;
  }

  // ---- Where conservation ends -----------------------------------------------

  /** Registration loses a client if and only if one is still held when a new one is made. */
  lemma RegistrationLosesIff(s: Service, c: Config, fault: EnterFault)
    requires Conserved(s) && s.world.next !in s.world.created
    ensures Conserved(Registered(s, c, fault).service) <==> s.registry.None? || !Registers(c)
  {
    var t := Registered(s, c, fault).service;
    if s.registry.Some? && Registers(c) {
      var lost := s.registry.value;
      assert Balance(s.world, HeldCount(s, lost), lost) == 0;
      assert Balance(s.world, HeldCount(s, s.world.next), s.world.next) == 0;
      assert Balance(t.world, HeldCount(t, lost), lost) == -1;
    } else {
      forall id: Id ensures Balance(t.world, HeldCount(t, id), id) == 0 {
        assert Balance(s.world, HeldCount(s, id), id) == 0;
      }
    }
  }

  /** It makes a client, and then its entry or its shutdown hook raises. */
  predicate LeavesClient(s: Service, c: Config, l: Lifespan) {
    Registers(c) && (Entered(s, c, l.enter).raised || l.exit.ShutdownRaises?)
  }

  /** That is exactly when a lifespan ends with a client, for the next registration to lose. */
  lemma ClientLeftBehindIff(s: Service, c: Config, l: Lifespan)
    requires s.registry.None?
    ensures After(s, c, l).registry.Some? <==> LeavesClient(s, c, l)
  {
    var e := Entered(s, c, l.enter);
    assert e.service.registry == Registered(s, c, l.enter).service.registry;
    hide Fill, Release;
  }

  /** In some lifespan but the last a client is left behind. */
  predicate Strands(s: Service, c: Config, ls: seq<Lifespan>)
    decreases ls
  {
    |ls| > 1 && (LeavesClient(s, c, ls[0]) || Strands(After(s, c, ls[0]), c, ls[1..]))
  }

  /** No step raises the balance of a resource that is already there. */
  lemma AfterAddsNothing(s: Service, c: Config, l: Lifespan, id: Id)
    requires NumbersOk(s.world, 0) && id < s.world.next
    ensures var t := After(s, c, l);
      NumbersOk(t.world, 0) && s.world.next <= t.world.next
      && Balance(t.world, HeldCount(t, id), id) <= Balance(s.world, HeldCount(s, id), id)
  {
    EnteredAddsNothing(s, c, l.enter, id);
    LeftAddsNothing(Entered(s, c, l.enter).service, l.exit, id);
    hide Entered, Left, HeldCount, Balance;
  }

  lemma RegisteredAddsNothing(s: Service, c: Config, fault: EnterFault, id: Id)
    requires NumbersOk(s.world, 0) && id < s.world.next
    ensures var t := Registered(s, c, fault).service;
      NumbersOk(t.world, 0) && s.world.next <= t.world.next
      && Balance(t.world, HeldCount(t, id), id) <= Balance(s.world, HeldCount(s, id), id)
  {
  }

  lemma EnteredAddsNothing(s: Service, c: Config, fault: EnterFault, id: Id)
    requires NumbersOk(s.world, 0) && id < s.world.next
    ensures var t := Entered(s, c, fault).service;
      NumbersOk(t.world, 0) && s.world.next <= t.world.next
      && Balance(t.world, HeldCount(t, id), id) <= Balance(s.world, HeldCount(s, id), id)
  {
    RegisteredAddsNothing(s, c, fault, id);
    var r := Registered(s, c, fault).service;
    AuthorizerBalances(r, id);
    CacheBalances(WithAuthorizer(r), c, id);
    PoolBalances(WithCache(WithAuthorizer(r), c), c, id);
    hide Registered, WithAuthorizer, WithCache, WithPool, HeldCount, Balance, NumbersOk;
  }

  lemma DeregisteredBalances(s: Service, id: Id)
    ensures var t := Deregistered(s);
      t.world.next == s.world.next && t.world.created == s.world.created
      && Balance(t.world, HeldCount(t, id), id) == Balance(s.world, HeldCount(s, id), id)
  {
  }

  lemma LeftAddsNothing(s: Service, fault: ExitFault, id: Id)
    requires NumbersOk(s.world, 0)
    ensures var t := Left(s, fault);
      NumbersOk(t.world, 0) && s.world.next <= t.world.next
      && Balance(t.world, HeldCount(t, id), id) <= Balance(s.world, HeldCount(s, id), id)
  {
    DeregisteredBalances(s, id);
    TornDownBalances(Deregistered(s), id);
    hide Deregistered, TornDown, HeldCount, Balance;
  }

  lemma {:induction false} LossIsFinal(s: Service, c: Config, ls: seq<Lifespan>, id: Id)
    requires NumbersOk(s.world, 0) && id < s.world.next && Balance(s.world, HeldCount(s, id), id) < 0
    ensures !Conserved(Run(s, c, ls))
    decreases ls
  {
    if ls == [] {
      assert Balance(s.world, HeldCount(s, id), id) != 0;
    } else {
      AfterAddsNothing(s, c, ls[0], id);
      hide After, NumbersOk, Balance, HeldCount, Conserved;
      LossIsFinal(After(s, c, ls[0]), c, ls[1..], id);
    }
  }

  lemma LeftKeepsInv(s: Service, init: Service, fault: ExitFault)
    requires Inv(s, init)
    ensures Inv(Left(s, fault), init)
  {
    DeregisteredKeepsInv(s, init);
    TornDownKeepsInv(Deregistered(s), init);
    hide Inv, Deregistered, TornDown;
  }

  lemma AfterKeepsInvAlways(s: Service, init: Service, c: Config, l: Lifespan)
    requires Inv(s, init) && s.registry.None?
    ensures Inv(After(s, c, l), init)
  {
    EnteredKeepsInv(s, init, c, l.enter);
    LeftKeepsInv(Entered(s, c, l.enter).service, init, l.exit);
    hide Inv, Entered, Left;
  }

  /** Exactly when conservation holds, with hooks, registration and pool creation free to raise: in no
      lifespan but the last is a client left behind. */
  lemma {:induction false} ConservedIff(s: Service, init: Service, c: Config, ls: seq<Lifespan>)
    requires Inv(s, init) && s.registry.None?
    ensures Conserved(Run(s, c, ls)) <==> !Strands(s, c, ls)
    decreases ls
  {
    if ls != [] {
      var t := After(s, c, ls[0]);
      ClientLeftBehindIff(s, c, ls[0]);
      AfterKeepsInvAlways(s, init, c, ls[0]);
      if t.registry.None? {
        hide Inv, After, LeavesClient;
        ConservedIff(t, init, c, ls[1..]);
      } else if |ls| > 1 {
        NextEntryLoses(s, t, init, c, ls[0], ls[1]);
        var lost := t.registry.value;
        var u := After(t, c, ls[1]);
        hide After, Inv, Balance, Conserved, LeavesClient;
        LossIsFinal(u, c, ls[2..], lost);
        assert Run(t, c, ls[1..]) == Run(u, c, ls[2..]) by { assert ls[1..][1..] == ls[2..]; }
      }
    }
  }

  lemma NextEntryLoses(s: Service, t: Service, init: Service, c: Config, l: Lifespan, n: Lifespan)
    requires s.registry.None? && t == After(s, c, l) && t.registry.Some? && Inv(t, init)
    ensures var u := After(t, c, n); var id := t.registry.value;
      NumbersOk(u.world, 0) && id < u.world.next && Balance(u.world, HeldCount(u, id), id) < 0
  {
    ClientLeftBehindIff(s, c, l);
    var id := t.registry.value;
    var r := Registered(t, c, n.enter).service;
    assert Balance(t.world, HeldCount(t, id), id) == 0;
    assert id in t.world.created;
    assert Balance(r.world, HeldCount(r, id), id) == -1;
    RestAddsNothing(t, c, n, id);
    hide *;
  }

  lemma RestAddsNothing(t: Service, c: Config, n: Lifespan, id: Id)
    requires NumbersOk(t.world, 0) && id < t.world.next
    ensures var r := Registered(t, c, n.enter).service; var u := After(t, c, n);
      NumbersOk(u.world, 0) && id < u.world.next
      && Balance(u.world, HeldCount(u, id), id) <= Balance(r.world, HeldCount(r, id), id)
  {
    RegisteredAddsNothing(t, c, n.enter, id);
    var r := Registered(t, c, n.enter).service;
    AuthorizerBalances(r, id);
    CacheBalances(WithAuthorizer(r), c, id);
    PoolBalances(WithCache(WithAuthorizer(r), c), c, id);
    LeftAddsNothing(Entered(t, c, n.enter).service, n.exit, id);
    hide Registered, WithAuthorizer, WithCache, WithPool, HeldCount, Balance, NumbersOk, Left;
  }

  /** For instance, after a startup hook that raised, the next lifespan of a registering service loses the
      client of the first. */
  lemma RaisingStartupStrands(c: Config, authorizer: Option<Id>, cache: Option<Id>, pool: Option<Id>, next: Id)
    requires Registers(c)
    ensures var ls := [Lifespan(StartupRaises, ExitOk), Lifespan(EnterOk, ExitOk)];
      !Conserved(Run(Injected(authorizer, cache, pool, next), c, ls))
  {
    var init := Injected(authorizer, cache, pool, next);
    var ls := [Lifespan(StartupRaises, ExitOk), Lifespan(EnterOk, ExitOk)];
    assert Entered(init, c, StartupRaises).raised;
    assert LeavesClient(init, c, ls[0]);
    assert Strands(init, c, ls);
    assert Inv(init, init);
    hide *;
    ConservedIff(init, init, c, ls);
  }

  // ---- The hooks, step by step ------------------------------------------------

  /** `rstrip("/")` takes exactly the trailing slashes. */
  lemma {:induction false} StripSlashesIs(s: string, slashes: string)
    requires s != "" ==> s[|s| - 1] != '/'
    requires forall i :: 0 <= i < |slashes| ==> slashes[i] == '/'
    ensures StripSlashes(s + slashes) == s
    decreases |slashes|
  {
    var t := s + slashes;
    if slashes == "" {
      assert t == s;
    } else {
      var fewer := slashes[..|slashes| - 1];
      assert t[|t| - 1] == '/' && t[..|t| - 1] == s + fewer;
      StripSlashesIs(s, fewer);
    }
  }

  /** Which services register, in terms of their addresses without trailing slashes. */
  lemma RegistersIff(c: Config)
    ensures var registry, own := StripSlashes(c.registryUrl), StripSlashes(c.serviceUrl);
      (LacksServiceUrl(c) <==> registry != "" && own == "")
      && (Registers(c) <==> registry != "" && own != "" && registry != own)
  {
  }

  /** A failed registration keeps its client, without tasks; none closes anything. */
  lemma RegisteredBy(s: Service, c: Config, fault: EnterFault)
    ensures var o := Registered(s, c, fault);
      && (o.raised <==> LacksServiceUrl(c) || (Registers(c) && fault.RegisterSelfRaises?))
      && o.service.world.closes == s.world.closes
      && (!Registers(c) ==> o.service == s)
      && (Registers(c) ==> o.service.registry == Some(s.world.next) && s.world.next in o.service.world.created)
      && (Registers(c) && fault.RegisterSelfRaises? ==>
            o.service.world.heartbeats == s.world.heartbeats && o.service.world.refreshers == s.world.refreshers)
  {
  }

  /** Dropping the client: its tasks end, and it is closed once more; nothing else changes. */
  lemma DeregisteredIs(s: Service)
    ensures s.registry.None? ==> Deregistered(s) == s
    ensures s.registry.Some? ==>
      var client, t := s.registry.value, Deregistered(s);
      && t == s.(registry := None, world := t.world) && t.world.closes == s.world.closes + multiset{client}
      && t.world.created == s.world.created && t.world.next == s.world.next
      && t.world.heartbeats == s.world.heartbeats - multiset{client}
      && t.world.refreshers == s.world.refreshers - multiset{client}
  {
  }

  /** Closing the rest: nothing owned is held any more, everything else is, and the client is not touched. */
  lemma TornDownIs(s: Service)
    ensures var t := TornDown(s);
      && Emptied(t) && t.registry == s.registry && t.world.heartbeats == s.world.heartbeats
      && (!s.authorizer.owned ==> t.authorizer == s.authorizer) && (!s.cache.owned ==> t.cache == s.cache)
      && (!s.pool.owned ==> t.pool == s.pool)
  {
  }

  /** A raising shutdown hook skips everything that follows it. A raising deregistration still stops the
      tasks and closes and drops the client, and skips the teardown. Otherwise both are done. */
  lemma LeftByFault(s: Service, fault: ExitFault)
    ensures Left(s, fault) ==
      match fault
      case ShutdownRaises => s
      case DeregisterRaises => (if s.registry.Some? then Deregistered(s) else TornDown(s))
      case ExitOk => TornDown(Deregistered(s))
  {
    hide TornDown;
  }
}
