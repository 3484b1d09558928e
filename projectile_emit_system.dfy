/** The projectile emitter system: an emitter whose firing interval has
    passed spawns one projectile and restarts its interval. */
module ProjectileEmitSystem {
  import opened Optional
  import opened Ticks
  import opened Ecs
  import opened Components
  import opened Scene

  /** The test of `Update`: the unsigned time since the last shot, compared in
      unsigned arithmetic, and strictly, with the firing interval. */
  predicate Fires(em: ProjectileEmitter, now: Tick)
  {
    Elapsed(now, em.lastFiredTime) > Wrap(em.projectileFrequency)
  }

  /** Within one wrap period, and for a non-negative interval, an emitter fires
      exactly when more than `projectileFrequency` milliseconds have passed. */
  lemma FiresWithoutWrap(em: ProjectileEmitter, now: Tick)
    requires em.lastFiredTime <= now < em.lastFiredTime + TICKS
    requires 0 <= em.projectileFrequency < TICKS
    ensures Fires(em, now) <==> now - em.lastFiredTime > em.projectileFrequency
  {
  }

  /** The stored shot time is the tick converted to `int`; an emitter that has
      just fired does not fire again in the same millisecond. */
  lemma {:induction false} NoSecondShot(em: ProjectileEmitter, now: Tick)
    ensures !Fires(em.(lastFiredTime := Signed(now)), now)
  {
    assert now - Signed(now) == 0 || now - Signed(now) == TICKS;
    assert Elapsed(now, Signed(now)) == 0;
  }

  /** Where the projectile starts: the emitter's position, moved by half the
      scaled sprite when the emitter has a sprite. */
  function SpawnPosition(t: Transform, sprite: Option<Sprite>): (p: Vec2)
    ensures sprite.None? ==> p == t.position
    ensures sprite.Some? ==>
              p == Vec2(t.position.x + t.scale.x * sprite.value.width as real / 2.0,
                        t.position.y + t.scale.y * sprite.value.height as real / 2.0)
  {
    match sprite
    case None => t.position
    case Some(s) =>
      Vec2(t.position.x + t.scale.x * s.width as real / 2.0, t.position.y + t.scale.y * s.height as real / 2.0)
  }

  /** The entity spawned for one shot. */
  function Projectile(em: ProjectileEmitter, t: Transform, sprite: Option<Sprite>): (p: Created)
    ensures p.group == None
    ensures |p.components| == 4
    ensures p.components[0] == TransformC(Transform(SpawnPosition(t, sprite), Vec2(1.0, 1.0), 0.0))
    ensures p.components[1] == RigidBodyC(RigidBody(em.projectileVelocity))
    ensures p.components[2].SpriteC? && p.components[2].sprite.assetId == "bullet-image"
    ensures p.components[2].sprite.width == 4 && p.components[2].sprite.height == 4
    ensures p.components[2].sprite.zIndex == 4
    ensures p.components[3].BoxColliderC? && p.components[3].collider.width == 4
    ensures p.components[3].collider.height == 4
    ensures forall c | c in p.components :: !c.LifecycleC? && !c.DamageC? && !c.HealthC?
  {
    Created(None, [TransformC(NewTransform(SpawnPosition(t, sprite), Vec2(1.0, 1.0), 0.0)),
                   RigidBodyC(RigidBody(em.projectileVelocity)),
                   SpriteC(NewSprite("bullet-image", 4, 4, 4)),
                   BoxColliderC(NewBoxCollider(4, 4))])
  }

  /** What `Update` fetches for every entity it visits. */
  ghost predicate Ready(w: World, es: seq<Entity>)
  {
    forall e | e in es :: e in w.emitters && e in w.transforms
  }

  /** The emitters that fire during an update over `es`, in the order of their
      first visit. An emitter met a second time has just fired, or did not fire
      the first time with the same stored shot time, so it appears at most once. */
  ghost function Shooters(w: World, es: seq<Entity>, now: Tick): (r: seq<Entity>)
    requires Ready(w, es)
    ensures forall i, j | 0 <= i < j < |r| :: r[i] != r[j]
    ensures forall e :: e in r <==> e in es && Fires(w.emitters[e], now)
    decreases |es|
  {
    if es == [] then []
    else
      var visited := es[..|es| - 1];
      var e := es[|es| - 1];
      assert forall x | x in visited :: x in es;
      Shooters(w, visited, now) + (if e !in visited && Fires(w.emitters[e], now) then [e] else [])
  }

  /** The projectiles of the shooters, in order. */
  ghost function Projectiles(w: World, shooters: seq<Entity>): (r: seq<Created>)
    requires forall e | e in shooters :: e in w.emitters && e in w.transforms
    ensures |r| == |shooters|
    ensures forall i | 0 <= i < |shooters| ::
              r[i] == Projectile(w.emitters[shooters[i]], w.transforms[shooters[i]], SpriteOf(w, shooters[i]))
    decreases |shooters|
  {
    if shooters == [] then []
    else
      var last := shooters[|shooters| - 1];
      Projectiles(w, shooters[..|shooters| - 1]) +
        [Projectile(w.emitters[last], w.transforms[last], SpriteOf(w, last))]
  }

  /** One visit of `Update`'s loop: the emitter fires, spawns a projectile,
      and restarts its interval, or nothing happens. */
  function Visit(r: World, e: Entity, now: Tick): (r': World)
    requires e in r.emitters && e in r.transforms
    ensures r'.emitters.Keys == r.emitters.Keys
    ensures r'.(emitters := r.emitters, created := r.created) == r
  {
    var em := r.emitters[e];
    if Fires(em, now) then
      r.(emitters := r.emitters[e := em.(lastFiredTime := Signed(now))],
         created := r.created + [Projectile(em, r.transforms[e], SpriteOf(r, e))])
    else r
  }

  /** The world after an update over `es`: the visits one after another. */
  ghost function Emitted(w: World, es: seq<Entity>, now: Tick): (r: World)
    requires Ready(w, es)
    ensures r.emitters.Keys == w.emitters.Keys
    ensures r.(emitters := w.emitters, created := w.created) == w
    decreases |es|
  {
    if es == [] then w
    else
      var visited := es[..|es| - 1];
      assert forall x | x in visited :: x in es;
      Visit(Emitted(w, visited, now), es[|es| - 1], now)
  }

  /** An emitter met again in the same update does not fire: it either fired
      at its first visit, which restarted it, or did not fire then. */
  lemma RevisitDoesNotFire(w: World, es: seq<Entity>, e: Entity, now: Tick)
    requires Ready(w, es) && e in es
    requires Emitted(w, es, now).emitters[e] ==
               if Fires(w.emitters[e], now) then w.emitters[e].(lastFiredTime := Signed(now)) else w.emitters[e]
    ensures !Fires(Emitted(w, es, now).emitters[e], now)
  {
    NoSecondShot(w.emitters[e], now);
  }

  /** What an update over `es` does to the emitters, stated without the loop:
      the shooters' shot times are set to now; every other emitter is as it
      was. */
  lemma {:induction false} EmittedEmitters(w: World, es: seq<Entity>, now: Tick)
    requires Ready(w, es)
    ensures forall x | x in w.emitters ::
              Emitted(w, es, now).emitters[x] ==
                if x in es && Fires(w.emitters[x], now) then w.emitters[x].(lastFiredTime := Signed(now))
                else w.emitters[x]
    decreases |es|
  {
    if es != [] {
      var visited := es[..|es| - 1];
      var e := es[|es| - 1];
      assert es == visited + [e];
      assert forall x | x in visited :: x in es;
      EmittedEmitters(w, visited, now);
      var before := Emitted(w, visited, now);
      var after := Emitted(w, es, now);
      assert after == Visit(before, e, now);
      if e in visited {
        RevisitDoesNotFire(w, visited, e, now);
        assert after == before;
      } else {
        assert before.emitters[e] == w.emitters[e];
      }
      forall x | x in w.emitters
        ensures after.emitters[x] ==
                  if x in es && Fires(w.emitters[x], now) then w.emitters[x].(lastFiredTime := Signed(now))
                  else w.emitters[x]
      {
        if x != e {
          assert x in es <==> x in visited;
          assert after.emitters[x] == before.emitters[x];
        }
      }
    }
  }

  /** The visit of one more entity creates its projectile when the entity is
      new to the list and fires, and nothing otherwise. */
  lemma {:induction false} CreatedStep(w: World, visited: seq<Entity>, e: Entity, now: Tick)
    requires Ready(w, visited + [e])
    ensures Ready(w, visited)
    ensures Emitted(w, visited + [e], now).created ==
              Emitted(w, visited, now).created +
                (if e !in visited && Fires(w.emitters[e], now)
                 then [Projectile(w.emitters[e], w.transforms[e], SpriteOf(w, e))] else [])
  {
    var es := visited + [e];
    assert es[..|es| - 1] == visited;
    assert forall x | x in visited :: x in es;
    EmittedEmitters(w, visited, now);
    var before := Emitted(w, visited, now);
    assert Emitted(w, es, now) == Visit(before, e, now);
    if e in visited {
      RevisitDoesNotFire(w, visited, e, now);
    } else {
      assert before.emitters[e] == w.emitters[e];
      assert SpriteOf(before, e) == SpriteOf(w, e);
    }
  }

  lemma AppendAssoc<T>(a: seq<T>, b: seq<T>, c: seq<T>)
    ensures a + b + c == a + (b + c)
  {
  }

  /** What an update over `es` creates, stated without the loop: the
      shooters' projectiles, appended in shooting order. */
  lemma {:induction false} EmittedCreated(w: World, es: seq<Entity>, now: Tick)
    requires Ready(w, es)
    ensures Emitted(w, es, now).created == w.created + Projectiles(w, Shooters(w, es, now))
    decreases |es|
  {
    if es == [] {
      assert w.created + [] == w.created;
    } else {
      var visited := es[..|es| - 1];
      var e := es[|es| - 1];
      assert es == visited + [e];
      CreatedStep(w, visited, e, now);
      EmittedCreated(w, visited, now);
      ShootersStep(w, visited, e, now);
      var shooters := Shooters(w, visited, now);
      if e !in visited && Fires(w.emitters[e], now) {
        ProjectilesStep(w, shooters, e);
        AppendAssoc(w.created, Projectiles(w, shooters), [Projectile(w.emitters[e], w.transforms[e], SpriteOf(w, e))]);
      } else {
        assert shooters + [] == shooters;
      }
    }
  }

  /** Each emitter in `es` spawns at most one projectile, and only one that fires. */
  lemma AtMostOneShot(w: World, es: seq<Entity>, now: Tick)
    requires Ready(w, es)
    ensures var r := Emitted(w, es, now);
      && |r.created| == |w.created| + |Shooters(w, es, now)| <= |w.created| + |es|
      && r.created[..|w.created|] == w.created
      && (forall e | e in es && !Fires(w.emitters[e], now) :: r.emitters[e] == w.emitters[e])
      && (forall e | e in es && Fires(w.emitters[e], now) :: r.emitters[e] == w.emitters[e].(lastFiredTime := Signed(now)))
  {
    EmittedCreated(w, es, now);
    EmittedEmitters(w, es, now);
    DistinctLength(Shooters(w, es, now), es);
  }

  /** A list without repetitions drawn from `s` is no longer than `s`. */
  lemma {:induction false} DistinctLength(r: seq<Entity>, s: seq<Entity>)
    requires forall i, j | 0 <= i < j < |r| :: r[i] != r[j]
    requires forall x | x in r :: x in s
    ensures |r| <= |s|
  {
    DistinctBound(r, set x | x in s);
    SeqSetBound(s);
  }

  lemma {:induction false} DistinctBound(r: seq<Entity>, bound: set<Entity>)
    requires forall i, j | 0 <= i < j < |r| :: r[i] != r[j]
    requires forall x | x in r :: x in bound
    ensures |r| <= |bound|
    decreases |r|
  {
    if r != [] {
      var last := r[|r| - 1];
      assert last !in r[..|r| - 1];
      DistinctBound(r[..|r| - 1], bound - {last});
    }
  }

  lemma {:induction false} SeqSetBound(s: seq<Entity>)
    ensures |set x | x in s| <= |s|
    decreases |s|
  {
    if s != [] {
      var init := s[..|s| - 1];
      SeqSetBound(init);
      assert (set x | x in s) == (set x | x in init) + {s[|s| - 1]};
    }
  }

  /** Visiting one more entity: it shoots when it is new to the list and
      fires. */
  lemma {:induction false} ShootersStep(w: World, es: seq<Entity>, e: Entity, now: Tick)
    requires Ready(w, es + [e])
    ensures Ready(w, es)
    ensures Shooters(w, es + [e], now) ==
              Shooters(w, es, now) + (if e !in es && Fires(w.emitters[e], now) then [e] else [])
  {
    var all := es + [e];
    assert all[..|all| - 1] == es;
  }

  lemma {:induction false} ProjectilesStep(w: World, shooters: seq<Entity>, e: Entity)
    requires forall x | x in shooters + [e] :: x in w.emitters && x in w.transforms
    ensures Projectiles(w, shooters + [e]) ==
              Projectiles(w, shooters) + [Projectile(w.emitters[e], w.transforms[e], SpriteOf(w, e))]
  {
    var more := shooters + [e];
    assert more[..|more| - 1] == shooters;
  }

  /** The update over one more entity of `es` is one more visit. */
  lemma EmittedPrefix(w: World, es: seq<Entity>, i: nat, now: Tick)
    requires Ready(w, es) && i < |es|
    ensures Ready(w, es[..i]) && Ready(w, es[..i + 1])
    ensures Emitted(w, es[..i + 1], now) == Visit(Emitted(w, es[..i], now), es[i], now)
  {
    assert forall x | x in es[..i + 1] :: x in es;
    assert es[..i + 1][..i] == es[..i];
  }

  class ProjectileEmitSystem {
    /** The `System` base part. */
    const system: System

    /** The constructor requires the emitter and transform components. */
    constructor (table: ComponentIds)
      requires table.Valid()
      modifies table
      ensures table.Valid()
      ensures ProjectileEmitterKind in table.ids && TransformKind in table.ids
      ensures (table.ids, table.nextId) == Draw(Draw(old((table.ids, table.nextId)), ProjectileEmitterKind), TransformKind)
      ensures fresh(system) && system.entities == []
      ensures Bits(system.componentSignature) == {table.ids[ProjectileEmitterKind], table.ids[TransformKind]}
    {
      var s := new System();
      s.RequireComponent(table, ProjectileEmitterKind);
      ghost var emitterId := table.ids[ProjectileEmitterKind];
      s.RequireComponent(table, TransformKind);
      BitsOfTwo(emitterId, table.ids[TransformKind]);
      system := s;
    }

    /** `Update`: visits the system's entities in order; the emitter is
        updated in place, the transform and the sprite are read by copy. */
    method Update(w: World, now: Tick) returns (r: World)
      requires Ready(w, system.entities)
      ensures r == Emitted(w, system.entities, now)
    {
      var es := system.entities;
      r := w;
      assert es[..0] == [];
      var i := 0;
      while i < |es|
        invariant 0 <= i <= |es|
        invariant r == Emitted(w, es[..i], now)
      {
        var e := es[i];
        EmittedPrefix(w, es, i, now);
        ghost var before := r;
        var emitter := r.emitters[e];
        var transform := r.transforms[e];
        if Elapsed(now, emitter.lastFiredTime) > Wrap(emitter.projectileFrequency) {
          var projectile := Projectile(emitter, transform, SpriteOf(r, e));
          r := r.(created := r.created + [projectile]);
          r := r.(emitters := r.emitters[e := emitter.(lastFiredTime := Signed(now))]);
        }
        assert r == Visit(before, e, now);
        i := i + 1;
      }
      assert es[..|es|] == es;
    }
  }
}
