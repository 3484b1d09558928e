/** The lifecycle system: an entity whose time to live has run out is killed. */
module LifecycleSystem {
  import opened Ticks
  import opened Ecs
  import opened Components
  import opened Scene

  /** The test of `Update`: the unsigned time since the start, compared in
      unsigned arithmetic with the time to live, which converts to unsigned. */
  predicate Expired(l: Lifecycle, now: Tick)
  {
    Elapsed(now, l.startTime) >= Wrap(l.timeToLive)
  }

  /** Within one wrap period, and for a non-negative time to live, the test is
      "at least timeToLive milliseconds have passed". */
  lemma ExpiredWithoutWrap(l: Lifecycle, now: Tick)
    requires l.startTime <= now
    requires 0 <= l.timeToLive < TICKS
    ensures Expired(l, now) <==> now - l.startTime >= l.timeToLive
  {
  }

  /** Within one wrap period, once expired stays expired. */
  lemma ExpiredStays(l: Lifecycle, now: Tick, later: Tick)
    requires l.startTime <= now <= later
    requires 0 <= l.timeToLive < TICKS
    ensures Expired(l, now) ==> Expired(l, later)
  {
    ExpiredWithoutWrap(l, now);
    ExpiredWithoutWrap(l, later);
  }

  /** A negative time to live converts to a huge unsigned value: such an
      entity is only killed 2^32 + timeToLive milliseconds after its start. */
  lemma NegativeTimeToLive(l: Lifecycle, now: Tick)
    requires -0x8000_0000 <= l.timeToLive < 0
    requires l.startTime <= now < l.startTime + TICKS + l.timeToLive
    ensures !Expired(l, now)
  {
    assert Wrap(l.timeToLive) == l.timeToLive + TICKS;
  }

  /** A lifecycle created now has not expired yet unless its time to live is 0
      (as an unsigned value). */
  lemma NewLifecycleNotExpired(now: Tick, timeToLive: int)
    ensures Expired(NewLifecycle(now, timeToLive), now) <==> Wrap(timeToLive) == 0
  {
    assert Elapsed(now, now) == 0;
  }

  ghost predicate Ready(w: World, es: seq<Entity>)
  {
    forall e | e in es :: e in w.lifecycles
  }

  /** The world after an update over `es`: kill requests are added for exactly
      the entities of `es` whose lifecycle has expired; nothing else changes. */
  ghost function Swept(w: World, es: seq<Entity>, now: Tick): World
    requires Ready(w, es)
  {
    w.(killed := w.killed + set e | e in es && Expired(w.lifecycles[e], now))
  }

  lemma SweptMeaning(w: World, es: seq<Entity>, now: Tick)
    requires Ready(w, es)
    ensures forall e :: e in Swept(w, es, now).killed <==> e in w.killed || (e in es && Expired(w.lifecycles[e], now))
    ensures Swept(w, es, now).(killed := w.killed) == w
  {
  }

  class LifecycleSystem {
    /** The `System` base part. */
    const system: System

    /** The constructor requires the lifecycle component. */
    constructor (table: ComponentIds)
      requires table.Valid()
      modifies table
      ensures table.Valid()
      ensures LifecycleKind in table.ids
      ensures (table.ids, table.nextId) == Draw(old((table.ids, table.nextId)), LifecycleKind)
      ensures fresh(system) && system.entities == []
      ensures Bits(system.componentSignature) == {table.ids[LifecycleKind]}
    {
      var s := new System();
      s.RequireComponent(table, LifecycleKind);
      assert Bits(EmptySignature) == {};
      SetBitBits(EmptySignature, table.ids[LifecycleKind]);
      system := s;
    }

    /** `Update`: visits the system's entities in order, reading a copy of
        each lifecycle. */
    method Update(w: World, now: Tick) returns (r: World)
      requires Ready(w, system.entities)
      ensures r == Swept(w, system.entities, now)
    {
      var es := system.entities;
      r := w;
      var i := 0;
      while i < |es|
        invariant 0 <= i <= |es|
        invariant r.(killed := w.killed) == w
        invariant r.killed == w.killed + set e | e in es[..i] && Expired(w.lifecycles[e], now)
      {
        var e := es[i];
        assert es[..i + 1] == es[..i] + [e];
        var lifecycle := r.lifecycles[e];
        if Elapsed(now, lifecycle.startTime) >= Wrap(lifecycle.timeToLive) {
          r := Kill(r, e);
        }
        i := i + 1;
      }
      assert es[..|es|] == es;
    }
  }
}
