/** The damage system: a collision between a projectile and a unit (the
    player, or an enemy) on different damage layers costs the unit health and
    removes the projectile. */
module DamageSystem {
  import opened Ecs
  import opened Components
  import opened Events
  import opened EventBus
  import opened Scene

  /** The test of `onCollision`: `p` is a projectile and `u` a unit it can hit. */
  predicate IsProjectileHit(w: World, p: Entity, u: Entity)
  {
    BelongsToGroup(w, p, "projectiles") && (HasTag(w, u, "player") || BelongsToGroup(w, u, "enemies"))
  }

  /** The components `onProjectileHit` fetches; a missing one is fatal. */
  predicate HitReady(w: World, p: Entity, u: Entity)
  {
    p in w.colliders && p in w.damages && u in w.colliders && u in w.healths
  }

  /** `onProjectileHit(p, u)`. The colliders and the damage are read by copy;
      only the unit's health is written, through a reference. */
  function OnProjectileHit(w: World, p: Entity, u: Entity): (r: World)
    requires HitReady(w, p, u)
    ensures w.colliders[p].damageLayer == w.colliders[u].damageLayer ==> r == w
    ensures w.colliders[p].damageLayer != w.colliders[u].damageLayer ==>
              var health := w.healths[u].healthPercentage - w.damages[p].damage;
              && r.healths == w.healths[u := Health(health)]
              && r.killed == w.killed + {p} + (if health <= 0 then {u} else {})
    ensures r.healths.Keys == w.healths.Keys
    ensures r == w.(healths := r.healths, killed := r.killed)
  {
    if w.colliders[p].damageLayer != w.colliders[u].damageLayer then
      var health := w.healths[u].healthPercentage - w.damages[p].damage;
      var unitKilled := if health <= 0 then {u} else {};
      w.(healths := w.healths[u := Health(health)], killed := w.killed + unitKilled + {p})
    else
      w
  }

  /** What `onCollision` fetches, for whichever of the two checks fires. */
  predicate CollisionReady(w: World, a: Entity, b: Entity)
  {
    (IsProjectileHit(w, a, b) ==> HitReady(w, a, b)) && (IsProjectileHit(w, b, a) ==> HitReady(w, b, a))
  }

  /** `onCollision`: the check with `a` as the projectile, then, independently
      and on the world it left, the check with `b` as the projectile. */
  function OnCollision(w: World, a: Entity, b: Entity): (r: World)
    requires CollisionReady(w, a, b)
    ensures !IsProjectileHit(w, a, b) && !IsProjectileHit(w, b, a) ==> r == w
    ensures IsProjectileHit(w, a, b) && !IsProjectileHit(w, b, a) ==> r == OnProjectileHit(w, a, b)
    ensures !IsProjectileHit(w, a, b) && IsProjectileHit(w, b, a) ==> r == OnProjectileHit(w, b, a)
    ensures r.(healths := w.healths, killed := w.killed) == w
  {
    var first := if IsProjectileHit(w, a, b) then OnProjectileHit(w, a, b) else w;
    if IsProjectileHit(first, b, a) then OnProjectileHit(first, b, a) else first
  }

  /** A hit across layers, as one update of the world. */
  lemma HitAcrossLayers(w: World, p: Entity, u: Entity)
    requires HitReady(w, p, u) && w.colliders[p].damageLayer != w.colliders[u].damageLayer
    ensures var health := w.healths[u].healthPercentage - w.damages[p].damage;
            OnProjectileHit(w, p, u) ==
              w.(healths := w.healths[u := Health(health)],
                 killed := w.killed + {p} + (if health <= 0 then {u} else {}))
  {
    var health := w.healths[u].healthPercentage - w.damages[p].damage;
    assert w.killed + (if health <= 0 then {u} else {}) + {p} == w.killed + {p} + (if health <= 0 then {u} else {});
  }

  /** A hit of `a` on `b` followed by a hit of `b` on `a`, on different
      layers: both lose health, both are killed. */
  lemma HitThenHit(w: World, a: Entity, b: Entity)
    requires a != b && HitReady(w, a, b) && HitReady(w, b, a)
    requires w.colliders[a].damageLayer != w.colliders[b].damageLayer
    ensures HitReady(OnProjectileHit(w, a, b), b, a)
    ensures OnProjectileHit(OnProjectileHit(w, a, b), b, a) ==
              w.(healths := w.healths[b := Health(w.healths[b].healthPercentage - w.damages[a].damage)]
                                     [a := Health(w.healths[a].healthPercentage - w.damages[b].damage)],
                 killed := w.killed + {a, b})
  {
    HitAcrossLayers(w, a, b);
    var hitA := OnProjectileHit(w, a, b);
    assert hitA.healths[a] == w.healths[a];
    HitAcrossLayers(hitA, b, a);
    var healthA := w.healths[a].healthPercentage - w.damages[b].damage;
    var healthB := w.healths[b].healthPercentage - w.damages[a].damage;
    assert w.killed + {a} + (if healthB <= 0 then {b} else {}) + {b} + (if healthA <= 0 then {a} else {})
        == w.killed + {a, b};
  }

  /** Two hits with the roles swapped touch different health entries, so
      their order does not matter. */
  lemma HitsCommute(w: World, a: Entity, b: Entity)
    requires a != b && HitReady(w, a, b) && HitReady(w, b, a)
    ensures HitReady(OnProjectileHit(w, a, b), b, a) && HitReady(OnProjectileHit(w, b, a), a, b)
    ensures OnProjectileHit(OnProjectileHit(w, a, b), b, a) == OnProjectileHit(OnProjectileHit(w, b, a), a, b)
  {
    if w.colliders[a].damageLayer != w.colliders[b].damageLayer {
      HitThenHit(w, a, b);
      HitThenHit(w, b, a);
      var healthA := Health(w.healths[a].healthPercentage - w.damages[b].damage);
      var healthB := Health(w.healths[b].healthPercentage - w.damages[a].damage);
      assert w.healths[b := healthB][a := healthA] == w.healths[a := healthA][b := healthB];
      assert w.killed + {a, b} == w.killed + {b, a};
    }
  }

  /** The two checks commute: swapping the entities of the event changes
      nothing. */
  lemma OnCollisionSymmetric(w: World, a: Entity, b: Entity)
    requires CollisionReady(w, a, b)
    ensures CollisionReady(w, b, a)
    ensures OnCollision(w, a, b) == OnCollision(w, b, a)
  {
    if IsProjectileHit(w, a, b) && IsProjectileHit(w, b, a) && a != b {
      var hitA := OnProjectileHit(w, a, b);
      var hitB := OnProjectileHit(w, b, a);
      assert IsProjectileHit(hitA, b, a) == IsProjectileHit(w, b, a);
      assert IsProjectileHit(hitB, a, b) == IsProjectileHit(w, a, b);
      HitsCommute(w, a, b);
    }
  }

  /** The two checks are not exclusive in the code: when both fire, both
      entities die and each loses the other's damage. An entity has one
      group, so both entities are in "projectiles" and both carry the tag
      "player". The registry's tag index holds one entity per tag, so a
      running game never reaches this configuration. */
  lemma MutualHit(w: World, a: Entity, b: Entity)
    requires a != b
    requires IsProjectileHit(w, a, b) && IsProjectileHit(w, b, a)
    requires HitReady(w, a, b) && HitReady(w, b, a)
    requires w.colliders[a].damageLayer != w.colliders[b].damageLayer
    ensures a in OnCollision(w, a, b).killed && b in OnCollision(w, a, b).killed
    ensures OnCollision(w, a, b).healths[a].healthPercentage == w.healths[a].healthPercentage - w.damages[b].damage
    ensures OnCollision(w, a, b).healths[b].healthPercentage == w.healths[b].healthPercentage - w.damages[a].damage
  {
  }

  /** The handler `SubscribeToEvents` registers: the event is a collision
      event (the bus delivers it by kind) and is passed on unchanged. */
  function CollisionHandler(): Callback<World>
  {
    (w: World, e: Event) requires e.CollisionEvent? && CollisionReady(w, e.a, e.b) =>
      (OnCollision(w, e.a, e.b), e)
  }

  /** A collision emitted on a bus whose only collision handler is the damage
      system's resolves the collision and leaves the event as it was. */
  lemma {:induction false} EmitCollision(m: Subscribers<World>, w: World, a: Entity, b: Entity)
    requires Handlers(m, CollisionKind) == [CollisionHandler()]
    requires CollisionReady(w, a, b)
    ensures Runs(Handlers(m, CollisionKind), w, CollisionEvent(a, b))
    ensures Dispatch(Handlers(m, CollisionKind), w, CollisionEvent(a, b)) == (OnCollision(w, a, b), CollisionEvent(a, b))
  {
    var hs := Handlers(m, CollisionKind);
    var e := CollisionEvent(a, b);
    assert hs[0](w, e) == (OnCollision(w, a, b), e);
    assert hs[1..] == [];
  }

  class DamageSystem {
    /** The `System` base part. */
    const system: System

    /** The constructor requires the box collider component. */
    constructor (table: ComponentIds)
      requires table.Valid()
      modifies table
      ensures table.Valid()
      ensures BoxColliderKind in table.ids && table.ids[BoxColliderKind] < MAX_COMPONENTS
      ensures (table.ids, table.nextId) == Draw(old((table.ids, table.nextId)), BoxColliderKind)
      ensures fresh(system) && system.entities == []
      ensures Bits(system.componentSignature) == {table.ids[BoxColliderKind]}
    {
      var s := new System();
      s.RequireComponent(table, BoxColliderKind);
      assert Bits(EmptySignature) == {};
      SetBitBits(EmptySignature, table.ids[BoxColliderKind]);
      system := s;
    }

    /** `SubscribeToEvents`: `onCollision` goes last in the collision list. */
    method SubscribeToEvents(bus: EventBus<World>)
      modifies bus
      ensures bus.subscribers == Subscribed(old(bus.subscribers), CollisionKind, CollisionHandler())
    {
      bus.SubscribeToEvent(CollisionKind, CollisionHandler());
    }

    /** `Update`: its body is empty; the damage rules run only as a handler. */
    method Update(w: World) returns (r: World)
      ensures r == w
    {
      r := w;
    }
  }
}
