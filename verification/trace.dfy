/** Sequential runs of Group operations, and what they promise over many
    calls: entries are never removed or overwritten, every successful
    answer for a key is the one stored instance, events are emitted once
    per insertion, and each subscriber's queue is the drop-oldest window of
    the events emitted since it subscribed. */
module Trace {
  import opened Wrappers
  import opened EventQueue
  import opened Registry
  import opened Common

  datatype Op = GetBreaker(key: string) | GetCache(key: string) | Subscription

  /** What an operation returns to its caller; `Handle` is the index of the
      channel `Subscribe` returns. */
  datatype Answer<B, C> = BreakerAnswer(breaker: Result<B, Error>) | CacheAnswer(cache: Result<C, Error>) | Handle(index: nat)

  /** One operation's effect: the group afterwards, the answer, and the
      events it emitted (none or one). */
  datatype Outcome<B, C> = Outcome(group: Group<B, C>, answer: Answer<B, C>, sent: seq<GroupEvent<B, C>>)

  /** The events one call handed to `sendEvent`, as a sequence. */
  function SentSeq<B, C>(sent: Option<GroupEvent<B, C>>): (r: seq<GroupEvent<B, C>>)
    ensures |r| <= 1
    ensures sent.None? ==> r == []
    ensures sent.Some? ==> r == [sent.value]
  {
    match sent
    case None => []
    case Some(e) => [e]
  }

  /** One operation applied to the group. */
  function Apply<B, C>(g: Group<B, C>, op: Op): (o: Outcome<B, C>)
    requires Valid(g)
    ensures Valid(o.group)
  {
    match op
    case GetBreaker(k) =>
      var r := GetOrNewBreaker(g, k);
      Outcome(r.group, BreakerAnswer(r.result), SentSeq(r.sent))
    case GetCache(k) =>
      var r := GetOrNewCache(g, k);
      Outcome(r.group, CacheAnswer(r.result), SentSeq(r.sent))
    case Subscription =>
      var (g', h) := Subscribe(g);
      Outcome(g', Handle(h), [])
  }

  /** The group after a sequence of operations, applied in order. */
  function Run<B, C>(g: Group<B, C>, ops: seq<Op>): (r: Group<B, C>)
    requires Valid(g)
    ensures Valid(r)
    decreases |ops|
  {
    if ops == [] then g else Run(Apply(g, ops[0]).group, ops[1..])
  }

  /** The answers of a run, one per operation, in order. */
  function Answers<B, C>(g: Group<B, C>, ops: seq<Op>): (r: seq<Answer<B, C>>)
    requires Valid(g)
    ensures |r| == |ops|
    decreases |ops|
  {
    if ops == [] then [] else [Apply(g, ops[0]).answer] + Answers(Apply(g, ops[0]).group, ops[1..])
  }

  /** All events emitted during a run, in emission order. */
  function Emitted<B, C>(g: Group<B, C>, ops: seq<Op>): seq<GroupEvent<B, C>>
    requires Valid(g)
    decreases |ops|
  {
    if ops == [] then [] else Apply(g, ops[0]).sent + Emitted(Apply(g, ops[0]).group, ops[1..])
  }

  /** Both maps of `g'` keep every entry of `g`. */
  ghost predicate Grows<B, C>(g: Group<B, C>, g': Group<B, C>) {
    Extends(g.breakerMap, g'.breakerMap) && Extends(g.cacheMap, g'.cacheMap)
  }

  /** Keeping every entry is transitive. */
  lemma ExtendsTransitive<T>(m1: map<string, T>, m2: map<string, T>, m3: map<string, T>)
    requires Extends(m1, m2) && Extends(m2, m3)
    ensures Extends(m1, m3)
  {
  }

  /** Splitting a run into two consecutive runs. */
  lemma {:induction false} RunAppend<B, C>(g: Group<B, C>, a: seq<Op>, b: seq<Op>)
    requires Valid(g)
    ensures Run(g, a + b) == Run(Run(g, a), b)
    decreases |a|
  {
    if a == [] {
      assert a + b == b;
    } else {
      var g1 := Apply(g, a[0]).group;
      ConcatHead(a, b);
      RunAppend(g1, a[1..], b);
    }
  }

  /** Entries live for the group's lifetime: no run removes or replaces
      one. */
  lemma {:induction false} RunNeverOverwrites<B, C>(g: Group<B, C>, ops: seq<Op>)
    requires Valid(g)
    ensures Grows(g, Run(g, ops))
    decreases |ops|
  {
    if ops != [] {
      var g1 := Apply(g, ops[0]).group;
      RunNeverOverwrites(g1, ops[1..]);
      ExtendsTransitive(g.breakerMap, g1.breakerMap, Run(g, ops).breakerMap);
      ExtendsTransitive(g.cacheMap, g1.cacheMap, Run(g, ops).cacheMap);
    }
  }

  /** One operation: existing subscribers keep their place and each one's
      queue takes the emitted events through the drop-oldest window. */
  lemma ApplyQueues<B, C>(g: Group<B, C>, op: Op)
    requires Valid(g)
    ensures var o := Apply(g, op);
      && |g.eventReceivers| <= |o.group.eventReceivers|
      && forall i :: 0 <= i < |g.eventReceivers| ==> o.group.eventReceivers[i] == Window(g.eventReceivers[i] + o.sent)
  {
    var o := Apply(g, op);
    forall i | 0 <= i < |g.eventReceivers|
      ensures o.group.eventReceivers[i] == Window(g.eventReceivers[i] + o.sent)
    {
      var q := g.eventReceivers[i];
      if o.sent == [] {
        assert q + o.sent == q;
        WindowOfBounded(q);
        if op.Subscription? {
          assert o.group.eventReceivers[i] == o.group.eventReceivers[..|g.eventReceivers|][i];
        }
      } else {
        ForwardIsWindow(q, o.sent[0]);
        assert o.sent == [o.sent[0]];
      }
    }
  }

  /** Fan-out reach and order: after any run, a subscriber that existed at
      the start holds the most recent `Capacity` events of its old queue
      followed by everything emitted during the run, in emission order. */
  lemma {:induction false} QueuesAreWindows<B, C>(g: Group<B, C>, ops: seq<Op>)
    requires Valid(g)
    ensures |g.eventReceivers| <= |Run(g, ops).eventReceivers|
    ensures forall i :: 0 <= i < |g.eventReceivers| ==>
      Run(g, ops).eventReceivers[i] == Window(g.eventReceivers[i] + Emitted(g, ops))
    decreases |ops|
  {
    if ops == [] {
      forall i | 0 <= i < |g.eventReceivers|
        ensures g.eventReceivers[i] == Window(g.eventReceivers[i] + [])
      {
        assert g.eventReceivers[i] + [] == g.eventReceivers[i];
        WindowOfBounded(g.eventReceivers[i]);
      }
    } else {
      var o := Apply(g, ops[0]);
      ApplyQueues(g, ops[0]);
      QueuesAreWindows(o.group, ops[1..]);
      var rest := Emitted(o.group, ops[1..]);
      assert Emitted(g, ops) == o.sent + rest;
      assert Run(g, ops) == Run(o.group, ops[1..]);
      forall i | 0 <= i < |g.eventReceivers|
        ensures Run(g, ops).eventReceivers[i] == Window(g.eventReceivers[i] + Emitted(g, ops))
      {
        WindowChain(g.eventReceivers[i], o.sent, rest, o.group.eventReceivers[i], Run(g, ops).eventReceivers[i]);
      }
    }
  }

  /** Late subscriber isolation: a subscriber added after the run `pre`
      (its index is the number of subscribers then) receives only what is
      emitted after it subscribed, as the drop-oldest window of those
      events. */
  lemma LateSubscriber<B, C>(g: Group<B, C>, pre: seq<Op>, post: seq<Op>)
    requires Valid(g)
    ensures var n := |Run(g, pre).eventReceivers|;
      var ops := pre + [Subscription] + post;
      && n < |Run(g, ops).eventReceivers|
      && Run(g, ops).eventReceivers[n] == Window(Emitted(Run(g, pre + [Subscription]), post))
  {
    var sub := Run(g, pre);
    var g1 := Run(g, pre + [Subscription]);
    RunAppend(g, pre, [Subscription]);
    RunAppend(g, pre + [Subscription], post);
    SubscriptionStep(sub);
    SubscribedEmpty(g1, post, |sub.eventReceivers|);
  }

  /** A subscriber whose queue is empty at the start of a run ends with the
      window of the events emitted during it. */
  lemma SubscribedEmpty<B, C>(g: Group<B, C>, post: seq<Op>, n: nat)
    requires Valid(g) && n < |g.eventReceivers| && g.eventReceivers[n] == []
    ensures n < |Run(g, post).eventReceivers|
    ensures Run(g, post).eventReceivers[n] == Window(Emitted(g, post))
  {
    QueuesAreWindows(g, post);
    assert [] + Emitted(g, post) == Emitted(g, post);
  }

  /** A one-operation run that subscribes is `Subscribe`. */
  lemma SubscriptionStep<B, C>(g: Group<B, C>)
    requires Valid(g)
    ensures Run(g, [Subscription]) == Subscribe(g).0
  {
    assert [Subscription][1..] == [];
  }

  /** Emission happens exactly on insertion: over any run, the number of
      events equals the number of keys the two maps gained. */
  lemma {:induction false} EventsCountInsertions<B, C>(g: Group<B, C>, ops: seq<Op>)
    requires Valid(g)
    ensures |Emitted(g, ops)| == (|Run(g, ops).breakerMap| - |g.breakerMap|) + (|Run(g, ops).cacheMap| - |g.cacheMap|)
    decreases |ops|
  {
    if ops != [] {
      var o := Apply(g, ops[0]);
      EventsCountInsertions(o.group, ops[1..]);
      ApplyCountsInsertion(g, ops[0]);
    }
  }

  /** One operation emits one event exactly when one of the maps gained a
      key, and none otherwise. */
  lemma ApplyCountsInsertion<B, C>(g: Group<B, C>, op: Op)
    requires Valid(g)
    ensures var o := Apply(g, op);
      |o.sent| == (|o.group.breakerMap| - |g.breakerMap|) + (|o.group.cacheMap| - |g.cacheMap|)
  {
    var o := Apply(g, op);
    match op
    case GetBreaker(k) =>
      MapGrowth(g.breakerMap, o.group.breakerMap, k);
    case GetCache(k) =>
      MapGrowth(g.cacheMap, o.group.cacheMap, k);
    case Subscription =>
  }

  /** A map that keeps every old entry and may gain only `key` grows by one
      exactly when it gained `key`. */
  lemma MapGrowth<T>(m: map<string, T>, m': map<string, T>, key: string)
    requires Extends(m, m') && m'.Keys <= m.Keys + {key}
    ensures |m'| == |m| + (if key !in m && key in m' then 1 else 0)
  {
    if key !in m && key in m' {
      assert m' == m[key := m'[key]];
    } else {
      assert m'.Keys == m.Keys;
      assert m' == m;
    }
  }

  /** A successful answer names the instance `gf` stores for the key. */
  ghost predicate AnswerIsStored<B, C>(gf: Group<B, C>, op: Op, a: Answer<B, C>) {
    match op
    case GetBreaker(k) => a.BreakerAnswer? && (a.breaker.Ok? ==> k in gf.breakerMap && gf.breakerMap[k] == a.breaker.value)
    case GetCache(k) => a.CacheAnswer? && (a.cache.Ok? ==> k in gf.cacheMap && gf.cacheMap[k] == a.cache.value)
    case Subscription => a.Handle?
  }

  /** An answer that names the stored instance keeps naming it while the
      maps only grow. */
  lemma AnswerStaysStored<B, C>(g1: Group<B, C>, g2: Group<B, C>, op: Op, a: Answer<B, C>)
    requires AnswerIsStored(g1, op, a) && Grows(g1, g2)
    ensures AnswerIsStored(g2, op, a)
  {
  }

  /** One stored instance per key: after any run, every successful answer
      of a breaker or cache call is the instance the group finally stores
      for that key. */
  lemma {:induction false} AnswersAreStored<B, C>(g: Group<B, C>, ops: seq<Op>)
    requires Valid(g)
    ensures forall j :: 0 <= j < |ops| ==> AnswerIsStored(Run(g, ops), ops[j], Answers(g, ops)[j])
    decreases |ops|
  {
    if ops != [] {
      var o := Apply(g, ops[0]);
      var gf := Run(g, ops);
      AnswersAreStored(o.group, ops[1..]);
      RunNeverOverwrites(o.group, ops[1..]);
      AnswerStaysStored(o.group, gf, ops[0], o.answer);
      forall j | 0 <= j < |ops|
        ensures AnswerIsStored(gf, ops[j], Answers(g, ops)[j])
      {
        if j > 0 {
          assert ops[j] == ops[1..][j - 1];
          assert Answers(g, ops)[j] == Answers(o.group, ops[1..])[j - 1];
        }
      }
    }
  }
}
