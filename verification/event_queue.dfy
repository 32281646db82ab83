/** The per-subscriber output channel of `Subscribe`: a buffered channel of
    capacity 100 fed by a forwarding loop that, when the buffer is full,
    receives (drops) the oldest event and then sends the new one. */
module EventQueue {
  import opened Wrappers

  /** Buffer size of the output channel made by `Subscribe`. */
  const Capacity: nat := 100

  /** A buffered channel never holds more than its capacity. */
  predicate Bounded<E>(q: seq<E>) {
    |q| <= Capacity
  }

  /** Reference definition: the most recent `Capacity` events of a history,
      oldest first. */
  function Window<E>(h: seq<E>): (r: seq<E>)
    ensures Bounded(r)
  {
    if |h| <= Capacity then h else h[|h| - Capacity..]
  }

  /** A receive on the channel: the oldest buffered event and what remains,
      or None when the buffer is empty (the receiver would block). */
  function Receive<E>(q: seq<E>): (r: Option<(E, seq<E>)>)
    ensures r.None? <==> q == []
    ensures r.Some? ==> [r.value.0] + r.value.1 == q
  {
    if q == [] then None else Some((q[0], q[1..]))
  }

  /** One iteration of the forwarding loop: send when there is room,
      otherwise receive the oldest event and send the new one. */
  function Forward<E>(q: seq<E>, e: E): (r: seq<E>)
    requires Bounded(q)
    ensures Bounded(r)
    ensures |r| == if |q| < Capacity then |q| + 1 else Capacity
    ensures r[|r| - 1] == e
    ensures r[..|r| - 1] == q[|q| + 1 - |r|..]
  {
    if |q| < Capacity then q + [e]
    else
      var (_, rest) := Receive(q).value;
      rest + [e]
  }

  /** The forwarding loop run over a sequence of intake events, with no
      receives by the subscriber in between. */
  function ForwardAll<E>(q: seq<E>, es: seq<E>): (r: seq<E>)
    requires Bounded(q)
    ensures Bounded(r)
    decreases |es|
  {
    if es == [] then q else ForwardAll(Forward(q, es[0]), es[1..])
  }

  /** A bounded queue is its own window. */
  lemma WindowOfBounded<E>(q: seq<E>)
    requires Bounded(q)
    ensures Window(q) == q
  {
  }

  /** Taking the window early and again later is the same as taking it once. */
  lemma WindowAbsorb<E>(h: seq<E>, t: seq<E>)
    ensures Window(Window(h) + t) == Window(h + t)
  {
    if |h| > Capacity {
      var w := h[|h| - Capacity..];
      var a := (w + t)[|t|..];
      var b := (h + t)[|h| + |t| - Capacity..];
      assert |a| == |b| == Capacity;
      forall j | 0 <= j < Capacity
        ensures a[j] == b[j]
      {
        if |t| + j < Capacity {
          assert a[j] == w[|t| + j] == h[|h| - Capacity + |t| + j];
        } else {
          assert a[j] == t[|t| + j - Capacity];
        }
      }
    }
  }

  /** Two windows taken in succession, with more events in between, are
      one window of the whole history. */
  lemma WindowChain<E>(q: seq<E>, s: seq<E>, rest: seq<E>, q1: seq<E>, qf: seq<E>)
    requires q1 == Window(q + s) && qf == Window(q1 + rest)
    ensures qf == Window(q + (s + rest))
  {
    WindowAbsorb(q + s, rest);
    assert q + s + rest == q + (s + rest);
  }

  /** One step of the forwarding loop keeps exactly the newest window. */
  lemma ForwardIsWindow<E>(q: seq<E>, e: E)
    requires Bounded(q)
    ensures Forward(q, e) == Window(q + [e])
  {
    if |q| == Capacity {
      assert (q + [e])[1..] == q[1..] + [e];
    }
  }

  /** Drop-oldest buffering: after any number of events with no reads, the
      buffer holds exactly the most recent `Capacity` of everything it was
      ever given, in emission order. */
  lemma {:induction false} ForwardAllIsWindow<E>(q: seq<E>, es: seq<E>)
    requires Bounded(q)
    ensures ForwardAll(q, es) == Window(q + es)
    decreases |es|
  {
    if es == [] {
      assert q + es == q;
    } else {
      var e, t := es[0], es[1..];
      var q1 := Forward(q, e);
      ForwardIsWindow(q, e);
      ForwardAllIsWindow(q1, t);
      WindowChain(q, [e], t, q1, ForwardAll(q1, t));
      ConcatHead(es, []);
    }
  }

  /** Splitting off the head of a non-empty sequence, alone or in front
      of another sequence. */
  lemma ConcatHead<E>(a: seq<E>, b: seq<E>)
    requires a != []
    ensures [a[0]] + a[1..] == a
    ensures (a + b)[0] == a[0] && (a + b)[1..] == a[1..] + b
  {
  }

  /** With no reads, a queue that starts empty is the window of the events
      forwarded into it. */
  lemma FromEmpty<E>(es: seq<E>)
    ensures ForwardAll([], es) == Window(es)
  {
    ForwardAllIsWindow([], es);
    assert [] + es == es;
  }

  /** After more than `Capacity` events with no reads, the first receive
      yields the event `Capacity` places before the end: every older one
      was dropped. */
  lemma OverflowDropsOldest<E>(es: seq<E>)
    requires |es| > Capacity
    ensures Receive(ForwardAll([], es)).Some?
    ensures Receive(ForwardAll([], es)).value.0 == es[|es| - Capacity]
  {
    FromEmpty(es);
  }

  /** The 101-event case: the first read yields the second event. */
  lemma HundredAndOneEvents<E>(es: seq<E>)
    requires |es| == Capacity + 1
    ensures Receive(ForwardAll([], es)) == Some((es[1], es[2..]))
  {
    FromEmpty(es);
    assert ForwardAll([], es) == es[1..];
  }
}
