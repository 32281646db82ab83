/** The `Group` of package `common`: two independent get-or-create maps
    (key to Breaker, key to Cache), their factories ("templates"), and the
    subscribers' event queues, with the observable sequential semantics of
    every operation. Breaker and Cache instances are the opaque type
    parameters `B` and `C`. */
module Common {
  import opened Wrappers
  import opened EventQueue
  import opened Registry

  datatype EventType = BreakerAdded | CacheAdded

  /** The instance an event carries: the Go field is `interface{}`, here
      it is one of the two instance types. */
  datatype Member<B, C> = BreakerMember(breaker: B) | CacheMember(cache: C)

  datatype GroupEvent<B, C> = GroupEvent(event: EventType, member: Member<B, C>)

  /** A factory: builds the instance for a key, or returns nil. */
  type BreakerFunc<B> = string -> Option<B>
  type CacheFunc<C> = string -> Option<C>

  /** The registry. `eventReceivers[i]` is the buffered output channel of
      the `i`-th subscription, oldest event first. */
  datatype Group<B, C> = Group(
    breakerMap: map<string, B>,
    breakerTmpl: Option<BreakerFunc<B>>,
    cacheMap: map<string, C>,
    cacheTmpl: Option<CacheFunc<C>>,
    eventReceivers: seq<seq<GroupEvent<B, C>>>)

  /** Every subscriber queue is within the channel's capacity. Established
      by `NewGroup` and kept by every operation. */
  ghost predicate Valid<B, C>(g: Group<B, C>) {
    forall i :: 0 <= i < |g.eventReceivers| ==> Bounded(g.eventReceivers[i])
  }

  /** What a get-or-create call leaves behind: the group afterwards, the
      returned value, whether the factory ran, and the event handed to the
      `sendEvent` goroutine, if one was started. */
  datatype Reply<B, C, T> = Reply(group: Group<B, C>, result: Result<T, Error>, called: bool, sent: Option<GroupEvent<B, C>>)

  /** A group with empty maps, no factories and no subscribers. */
  function NewGroup<B, C>(): (g: Group<B, C>)
    ensures Valid(g)
    ensures g.breakerMap == map[] && g.cacheMap == map[]
    ensures g.breakerTmpl.None? && g.cacheTmpl.None?
    ensures g.eventReceivers == []
  {
    Group(map[], None, map[], None, [])
  }

  /** Sets the breaker factory; nothing else changes. */
  function WithBreaker<B, C>(g: Group<B, C>, f: BreakerFunc<B>): (r: Group<B, C>)
    ensures r.breakerTmpl == Some(f)
    ensures r.breakerMap == g.breakerMap && r.cacheMap == g.cacheMap
    ensures r.cacheTmpl == g.cacheTmpl && r.eventReceivers == g.eventReceivers
  {
    g.(breakerTmpl := Some(f))
  }

  /** Sets the cache factory; nothing else changes. */
  function WithCache<B, C>(g: Group<B, C>, f: CacheFunc<C>): (r: Group<B, C>)
    ensures r.cacheTmpl == Some(f)
    ensures r.breakerMap == g.breakerMap && r.cacheMap == g.cacheMap
    ensures r.breakerTmpl == g.breakerTmpl && r.eventReceivers == g.eventReceivers
  {
    g.(cacheTmpl := Some(f))
  }

  /** Feeds one event to every subscriber registered now, in registration
      order; each forwarder applies its drop-oldest step. */
  function SendEvent<B, C>(receivers: seq<seq<GroupEvent<B, C>>>, e: GroupEvent<B, C>): (r: seq<seq<GroupEvent<B, C>>>)
    requires forall i :: 0 <= i < |receivers| ==> Bounded(receivers[i])
    ensures |r| == |receivers|
    ensures forall i :: 0 <= i < |r| ==> r[i] == Forward(receivers[i], e)
  {
    if receivers == [] then []
    else [Forward(receivers[0], e)] + SendEvent(receivers[1..], e)
  }

  /** Get-or-create on the breaker map. It never reads or writes the cache
      map; an event is sent to every current subscriber exactly when a new
      key was stored. */
  function GetOrNewBreaker<B, C>(g: Group<B, C>, key: string): (r: Reply<B, C, B>)
    requires Valid(g)
    ensures Valid(r.group)
    ensures r.group.cacheMap == g.cacheMap
    ensures r.group.breakerTmpl == g.breakerTmpl && r.group.cacheTmpl == g.cacheTmpl
    ensures Extends(g.breakerMap, r.group.breakerMap) && r.group.breakerMap.Keys <= g.breakerMap.Keys + {key}
    ensures r.result.Ok? ==> key in r.group.breakerMap && r.group.breakerMap[key] == r.result.value
    ensures r.called <==> key !in g.breakerMap && g.breakerTmpl.Some?
    ensures r.sent.Some? <==> key !in g.breakerMap && key in r.group.breakerMap
    ensures r.sent.Some? ==> r.sent.value == GroupEvent(BreakerAdded, BreakerMember(r.group.breakerMap[key]))
    ensures r.group.eventReceivers == if r.sent.Some? then SendEvent(g.eventReceivers, r.sent.value) else g.eventReceivers
    ensures key in g.breakerMap ==> r == Reply(g, Ok(g.breakerMap[key]), false, None)
    ensures r.result.Err? ==> r.group == g && r.sent.None?
  {
    var s := GetOrNew(g.breakerMap, g.breakerTmpl, key);
    match s.added
    case None => Reply(g.(breakerMap := s.m), s.res, s.called, None)
    case Some(b) =>
      var e := GroupEvent(BreakerAdded, BreakerMember(b));
      Reply(g.(breakerMap := s.m, eventReceivers := SendEvent(g.eventReceivers, e)), s.res, s.called, Some(e))
  }

  /** Get-or-create on the cache map, symmetric to `GetOrNewBreaker`; it
      never reads or writes the breaker map. */
  function GetOrNewCache<B, C>(g: Group<B, C>, key: string): (r: Reply<B, C, C>)
    requires Valid(g)
    ensures Valid(r.group)
    ensures r.group.breakerMap == g.breakerMap
    ensures r.group.breakerTmpl == g.breakerTmpl && r.group.cacheTmpl == g.cacheTmpl
    ensures Extends(g.cacheMap, r.group.cacheMap) && r.group.cacheMap.Keys <= g.cacheMap.Keys + {key}
    ensures r.result.Ok? ==> key in r.group.cacheMap && r.group.cacheMap[key] == r.result.value
    ensures r.called <==> key !in g.cacheMap && g.cacheTmpl.Some?
    ensures r.sent.Some? <==> key !in g.cacheMap && key in r.group.cacheMap
    ensures r.sent.Some? ==> r.sent.value == GroupEvent(CacheAdded, CacheMember(r.group.cacheMap[key]))
    ensures r.group.eventReceivers == if r.sent.Some? then SendEvent(g.eventReceivers, r.sent.value) else g.eventReceivers
    ensures key in g.cacheMap ==> r == Reply(g, Ok(g.cacheMap[key]), false, None)
    ensures r.result.Err? ==> r.group == g && r.sent.None?
  {
    var s := GetOrNew(g.cacheMap, g.cacheTmpl, key);
    match s.added
    case None => Reply(g.(cacheMap := s.m), s.res, s.called, None)
    case Some(c) =>
      var e := GroupEvent(CacheAdded, CacheMember(c));
      Reply(g.(cacheMap := s.m, eventReceivers := SendEvent(g.eventReceivers, e)), s.res, s.called, Some(e))
  }

  /** Registers a new subscriber with an empty queue after all existing
      ones; returns its index, the model's handle for the channel. */
  function Subscribe<B, C>(g: Group<B, C>): (r: (Group<B, C>, nat))
    requires Valid(g)
    ensures Valid(r.0)
    ensures r.1 == |g.eventReceivers| && r.1 < |r.0.eventReceivers|
    ensures r.0.eventReceivers[r.1] == []
    ensures r.0.eventReceivers[..r.1] == g.eventReceivers
    ensures r.0 == g.(eventReceivers := r.0.eventReceivers)
  {
    (g.(eventReceivers := g.eventReceivers + [[]]), |g.eventReceivers|)
  }

  /** A configured breaker factory is what the first call for a key runs:
      after `WithBreaker(g, f)`, a key not yet stored gets `f`'s instance,
      or `ErrCreateUnavailable` when `f` returns nil. */
  lemma WithBreakerIsUsed<B, C>(g: Group<B, C>, f: BreakerFunc<B>, key: string)
    requires Valid(g) && key !in g.breakerMap
    ensures var r := GetOrNewBreaker(WithBreaker(g, f), key);
      && r.called
      && r.result == (if f(key).Some? then Ok(f(key).value) else Err(ErrCreateUnavailable))
  {
  }

  /** A configured cache factory is what the first call for a key runs. */
  lemma WithCacheIsUsed<B, C>(g: Group<B, C>, f: CacheFunc<C>, key: string)
    requires Valid(g) && key !in g.cacheMap
    ensures var r := GetOrNewCache(WithCache(g, f), key);
      && r.called
      && r.result == (if f(key).Some? then Ok(f(key).value) else Err(ErrCreateUnavailable))
  {
  }

  /** Namespace independence: a breaker call for a key has no effect on a
      later cache call for the same key string, in result, factory use or
      cache map. */
  lemma NamespaceIndependence<B, C>(g: Group<B, C>, key: string)
    requires Valid(g)
    ensures var g1 := GetOrNewBreaker(g, key).group;
      var direct := GetOrNewCache(g, key);
      var after := GetOrNewCache(g1, key);
      && after.result == direct.result
      && after.called == direct.called
      && after.group.cacheMap == direct.group.cacheMap
      && after.group.breakerMap == g1.breakerMap
  {
  }

  /** `GetOrNewBreaker` never reads the cache side: replacing the cache map
      and cache factory changes neither its answer, nor its factory use, nor
      the breaker map or the event it sends. */
  lemma BreakerIgnoresCaches<B, C>(g: Group<B, C>, cm: map<string, C>, ct: Option<CacheFunc<C>>, key: string)
    requires Valid(g)
    ensures var r := GetOrNewBreaker(g, key);
      var r' := GetOrNewBreaker(g.(cacheMap := cm, cacheTmpl := ct), key);
      && r'.result == r.result && r'.called == r.called && r'.sent == r.sent
      && r'.group.breakerMap == r.group.breakerMap
      && r'.group.cacheMap == cm
  {
  }

  /** `GetOrNewCache` never reads the breaker side. */
  lemma CacheIgnoresBreakers<B, C>(g: Group<B, C>, bm: map<string, B>, bt: Option<BreakerFunc<B>>, key: string)
    requires Valid(g)
    ensures var r := GetOrNewCache(g, key);
      var r' := GetOrNewCache(g.(breakerMap := bm, breakerTmpl := bt), key);
      && r'.result == r.result && r'.called == r.called && r'.sent == r.sent
      && r'.group.cacheMap == r.group.cacheMap
      && r'.group.breakerMap == bm
  {
  }

  /** Fan-out after a subscription: a breaker insertion right after
      `Subscribe` leaves the new subscriber's queue holding exactly that one
      event, and every earlier queue gets it through its forwarder. */
  lemma SubscriberSeesLaterEvent<B, C>(g: Group<B, C>, key: string, b: B)
    requires Valid(g) && key !in g.breakerMap && g.breakerTmpl.Some? && g.breakerTmpl.value(key) == Some(b)
    ensures var s := Subscribe(g);
      var r := GetOrNewBreaker(s.0, key);
      && r.group.eventReceivers[s.1] == [GroupEvent(BreakerAdded, BreakerMember(b))]
      && forall i :: 0 <= i < s.1 ==> r.group.eventReceivers[i] == Forward(g.eventReceivers[i], GroupEvent(BreakerAdded, BreakerMember(b)))
  {
    var s := Subscribe(g);
    var e := GroupEvent(BreakerAdded, BreakerMember(b));
    var r := GetOrNewBreaker(s.0, key);
    assert r.sent == Some(e);
    NewQueueGetsEvent(g.eventReceivers, s.0.eventReceivers, e);
  }

  /** Sending to the queues after a subscription: the new empty queue
      holds just the event, the older ones each take one forwarder step. */
  lemma NewQueueGetsEvent<B, C>(rs: seq<seq<GroupEvent<B, C>>>, rs': seq<seq<GroupEvent<B, C>>>, e: GroupEvent<B, C>)
    requires forall i :: 0 <= i < |rs| ==> Bounded(rs[i])
    requires |rs'| == |rs| + 1 && rs'[|rs|] == [] && rs'[..|rs|] == rs
    ensures SendEvent(rs', e)[|rs|] == [e]
    ensures forall i :: 0 <= i < |rs| ==> SendEvent(rs', e)[i] == Forward(rs[i], e)
  {
    assert forall i :: 0 <= i < |rs| ==> rs'[i] == rs'[..|rs|][i];
  }
}
