/** The event bus: per event kind, an ordered list of handlers. A handler is a
    function of the state it acts on and the event; it returns the new state
    and the (possibly changed) event, which is passed on to the next handler.
    A handler may have a precondition (a fatal `GetComponent`, for one). */
module EventBus {
  import opened Optional
  import opened Events

  type Callback<!S> = (S, Event) --> (S, Event)

  /** `map<type_index, unique_ptr<HandlerList>>`: a kind may map to a null
      pointer, which `EmitEvent`'s `operator[]` inserts. */
  type Subscribers<!S> = map<EventKind, Option<seq<Callback<S>>>>

  /** The handlers registered for a kind; none when the entry is missing or null. */
  function Handlers<S>(m: Subscribers<S>, kind: EventKind): seq<Callback<S>>
  {
    if kind in m && m[kind].Some? then m[kind].value else []
  }

  /** The subscriber table after `SubscribeToEvent`: the list is created when
      missing or null, then the handler is appended to it. */
  function Subscribed<S>(m: Subscribers<S>, kind: EventKind, callback: Callback<S>): (r: Subscribers<S>)
    ensures Handlers(r, kind) == Handlers(m, kind) + [callback]
    ensures forall k | k != kind :: Handlers(r, k) == Handlers(m, k)
    ensures r.Keys == m.Keys + {kind}
  {
    m[kind := Some(Handlers(m, kind) + [callback])]
  }

  /** The subscriber table after `EmitEvent` looked up `kind`: a missing entry
      becomes a null one. */
  function Touched<S>(m: Subscribers<S>, kind: EventKind): (r: Subscribers<S>)
    ensures forall k :: Handlers(r, k) == Handlers(m, k)
    ensures r.Keys == m.Keys + {kind}
  {
    if kind in m then m else m[kind := None]
  }

  /** Running the handlers in order does not stop at a failed precondition. */
  ghost predicate Runs<S>(handlers: seq<Callback<S>>, s: S, e: Event)
    decreases |handlers|
  {
    handlers == [] ||
    (handlers[0].requires(s, e) && Runs(handlers[1..], handlers[0](s, e).0, handlers[0](s, e).1))
  }

  /** The handlers run one after another on one event value. */
  function Dispatch<S>(handlers: seq<Callback<S>>, s: S, e: Event): (S, Event)
    requires Runs(handlers, s, e)
    decreases |handlers|
  {
    if handlers == [] then (s, e)
    else
      var (s1, e1) := handlers[0](s, e);
      Dispatch(handlers[1..], s1, e1)
  }

  /** Running a list of handlers is running its first part and then the rest
      on what the first part produced. */
  lemma {:induction false} DispatchAppend<S>(first: seq<Callback<S>>, rest: seq<Callback<S>>, s: S, e: Event)
    ensures Runs(first + rest, s, e) <==>
              Runs(first, s, e) && Runs(rest, Dispatch(first, s, e).0, Dispatch(first, s, e).1)
    ensures Runs(first + rest, s, e) ==>
              Dispatch(first + rest, s, e) == Dispatch(rest, Dispatch(first, s, e).0, Dispatch(first, s, e).1)
    decreases |first|
  {
    if first == [] {
      assert first + rest == rest;
    } else {
      assert (first + rest)[0] == first[0];
      assert (first + rest)[1..] == first[1..] + rest;
      if first[0].requires(s, e) {
        var (s1, e1) := first[0](s, e);
        DispatchAppend(first[1..], rest, s1, e1);
      }
    }
  }

  /** A handler that records its own number in a log kept as the state. */
  function Recorder(id: nat): Callback<seq<nat>>
  {
    (log: seq<nat>, e: Event) => (log + [id], e)
  }

  function Recorders(ids: seq<nat>): (r: seq<Callback<seq<nat>>>)
    ensures |r| == |ids|
    ensures forall i | 0 <= i < |ids| :: r[i] == Recorder(ids[i])
  {
    if ids == [] then [] else [Recorder(ids[0])] + Recorders(ids[1..])
  }

  /** Each handler of the list runs exactly once, in list order: recording
      handlers leave exactly their numbers in the log, a handler listed twice
      twice. */
  lemma {:induction false} DispatchRecords(ids: seq<nat>, log: seq<nat>, e: Event)
    ensures Runs(Recorders(ids), log, e)
    ensures Dispatch(Recorders(ids), log, e) == (log + ids, e)
  {
    if ids != [] {
      var rs := Recorders(ids);
      assert rs[1..] == Recorders(ids[1..]);
      assert rs[0](log, e) == (log + [ids[0]], e);
      DispatchRecords(ids[1..], log + [ids[0]], e);
      assert Dispatch(rs, log, e) == Dispatch(rs[1..], log + [ids[0]], e);
      assert log + [ids[0]] + ids[1..] == log + ids;
    } else {
      assert log + ids == log;
    }
  }

  /** `SubscribeToEvent` called once per handler, in order. */
  function SubscribedAll<S>(m: Subscribers<S>, kind: EventKind, callbacks: seq<Callback<S>>): Subscribers<S>
    decreases |callbacks|
  {
    if callbacks == [] then m
    else SubscribedAll(Subscribed(m, kind, callbacks[0]), kind, callbacks[1..])
  }

  /** Subscribing handlers one by one lists them in subscription order after
      the ones already there, and leaves the other kinds alone. */
  lemma {:induction false} SubscribedAllHandlers<S>(m: Subscribers<S>, kind: EventKind, callbacks: seq<Callback<S>>)
    ensures Handlers(SubscribedAll(m, kind, callbacks), kind) == Handlers(m, kind) + callbacks
    ensures forall k | k != kind :: Handlers(SubscribedAll(m, kind, callbacks), k) == Handlers(m, k)
    decreases |callbacks|
  {
    if callbacks != [] {
      SubscribedAllHandlers(Subscribed(m, kind, callbacks[0]), kind, callbacks[1..]);
      assert Handlers(m, kind) + [callbacks[0]] + callbacks[1..] == Handlers(m, kind) + callbacks;
    }
  }

  /** Subscribing recorders 0, 1, ... to a kind on an empty bus and emitting
      that kind runs them in subscription order, once each. */
  lemma {:induction false} EmitRunsSubscribersInOrder(kind: EventKind, ids: seq<nat>, e: Event)
    ensures Runs(Handlers(SubscribedAll(map[], kind, Recorders(ids)), kind), [], e)
    ensures Dispatch(Handlers(SubscribedAll(map[], kind, Recorders(ids)), kind), [], e) == (ids, e)
  {
    SubscribedAllHandlers(map[], kind, Recorders(ids));
    assert Handlers(map[], kind) + Recorders(ids) == Recorders(ids);
    DispatchRecords(ids, [], e);
    assert [] + ids == ids;
  }

  class EventBus<!S> {
    var subscribers: Subscribers<S>

    constructor ()
      ensures subscribers == map[]
    {
      subscribers := map[];
    }

    /** `Reset`: every subscription is dropped. */
    method Reset()
      modifies this
      ensures subscribers == map[]
      ensures forall k :: Handlers(subscribers, k) == []
    {
      subscribers := map[];
    }

    /** `SubscribeToEvent<TEvent>`: the handler goes last in TEvent's list. */
    method SubscribeToEvent(kind: EventKind, callback: Callback<S>)
      modifies this
      ensures subscribers == Subscribed(old(subscribers), kind, callback)
    {
      var list := if kind in subscribers && subscribers[kind].Some? then subscribers[kind].value else [];
      subscribers := subscribers[kind := Some(list + [callback])];
    }

    /** `EmitEvent<TEvent>(args...)`: `e` is the event built from the arguments;
        each handler of its kind, in order, receives the state and the event
        as the previous handler left them. */
    method EmitEvent(s: S, e: Event) returns (s': S, e': Event)
      requires Runs(Handlers(subscribers, KindOf(e)), s, e)
      modifies this
      ensures subscribers == Touched(old(subscribers), KindOf(e))
      ensures (s', e') == Dispatch(Handlers(old(subscribers), KindOf(e)), s, e)
    {
      var kind := KindOf(e);
      if kind !in subscribers {
        subscribers := subscribers[kind := None];
      }
      s', e' := s, e;
      var entry := subscribers[kind];
      if entry.Some? {
        var handlers := entry.value;
        var i := 0;
        while i < |handlers|
          invariant 0 <= i <= |handlers|
          invariant Runs(handlers[i..], s', e')
          invariant Dispatch(handlers, s, e) == Dispatch(handlers[i..], s', e')
        {
          assert handlers[i..][0] == handlers[i];
          assert handlers[i..][1..] == handlers[i + 1..];
          var next := handlers[i](s', e');
          s', e' := next.0, next.1;
          i := i + 1;
        }
      }
    }
  }
}
