/** The game: loading the level's tile map, and one frame of the game loop,
    which caps the frame rate, re-subscribes the systems' handlers on a fresh
    bus and runs the systems' updates in a fixed order. */
module Game {
  import opened Optional
  import opened Ticks
  import opened Ecs
  import RenderColliderSystem
  import opened Events
  import opened EventBus
  import opened Scene
  import opened TileMap
  import DamageSystem
  import KeyboardMovementSystem
  import AnimationSystem
  import LifecycleSystem
  import ProjectileEmitSystem

  const FPS: int := 60
  const MS_PER_FRAME: int := 1000 / FPS

  /** `timeToWait`: the frame's budget minus the time since the previous
      frame. `SDL_GetTicks()` is unsigned, so the difference and the
      subtraction from the budget are unsigned, and the result is stored in
      an `int`. When more than a frame's time has passed, the value is
      negative or beyond the budget, never a wait in range. */
  function TimeToWait(now: Tick, previous: int): (t: int)
    ensures -0x8000_0000 <= t < 0x8000_0000
    ensures Elapsed(now, previous) <= MS_PER_FRAME ==> t == MS_PER_FRAME - Elapsed(now, previous)
    ensures Elapsed(now, previous) > MS_PER_FRAME ==> t < 0 || t > MS_PER_FRAME
  {
    var x := Wrap(MS_PER_FRAME - Elapsed(now, previous));
    assert Elapsed(now, previous) > MS_PER_FRAME ==> x == TICKS + MS_PER_FRAME - Elapsed(now, previous);
    Signed(x)
  }

  /** The `SDL_Delay` of the frame cap, 0 when there is none: only a wait
      that is positive and at most a frame's budget is slept. */
  function Delay(now: Tick, previous: int): (d: nat)
    ensures d <= MS_PER_FRAME
  {
    var t := TimeToWait(now, previous);
    if 0 < t <= MS_PER_FRAME then t else 0
  }

  /** The cap: a frame that comes early sleeps exactly the rest of the
      budget; a frame that comes late does not sleep. The sleep brings every
      frame up to at least the budget. */
  lemma FrameCap(now: Tick, previous: int)
    ensures Elapsed(now, previous) < MS_PER_FRAME ==> Delay(now, previous) == MS_PER_FRAME - Elapsed(now, previous)
    ensures Elapsed(now, previous) >= MS_PER_FRAME ==> Delay(now, previous) == 0
    ensures Elapsed(now, previous) + Delay(now, previous) >= MS_PER_FRAME
  {
  }

  /** Without wrap-around of the tick counter: a frame started `e` ms after
      the previous one sleeps `16 - e` ms when `e < 16`. */
  lemma FrameCapWithoutWrap(now: Tick, previous: int)
    requires previous <= now < previous + MS_PER_FRAME
    ensures Delay(now, previous) == MS_PER_FRAME - (now - previous)
  {
  }

  /** The subscriber table each frame starts its updates with: the keyboard
      system's `onKeyPress`, then the damage system's `onCollision`, on an
      empty bus. */
  function FrameSubscribers(): Subscribers<World>
  {
    Subscribed(Subscribed(map[], KeyPressedKind, KeyboardMovementSystem.OnKeyPress()),
               CollisionKind, DamageSystem.CollisionHandler())
  }

  /** During a frame's updates, each subscribed handler is registered exactly
      once, and nothing listens to key releases. */
  lemma FrameHandlers()
    ensures Handlers(FrameSubscribers(), KeyPressedKind) == [KeyboardMovementSystem.OnKeyPress()]
    ensures Handlers(FrameSubscribers(), CollisionKind) == [DamageSystem.CollisionHandler()]
    ensures Handlers(FrameSubscribers(), KeyReleasedKind) == []
  {
  }

  /** What an event emitted during a frame does: a collision is resolved by
      the damage rules, a key press changes nothing, a key release reaches no
      handler. */
  lemma FrameEvents(w: World, e: Event)
    requires e.CollisionEvent? ==> DamageSystem.CollisionReady(w, e.a, e.b)
    ensures Runs(Handlers(FrameSubscribers(), KindOf(e)), w, e)
    ensures e.CollisionEvent? ==>
              Dispatch(Handlers(FrameSubscribers(), KindOf(e)), w, e) == (DamageSystem.OnCollision(w, e.a, e.b), e)
    ensures !e.CollisionEvent? ==> Dispatch(Handlers(FrameSubscribers(), KindOf(e)), w, e) == (w, e)
  {
    FrameHandlers();
    match e {
      case CollisionEvent(a, b) =>
        DamageSystem.EmitCollision(FrameSubscribers(), w, a, b);
      case KeyPressedEvent(key) =>
        KeyboardMovementSystem.EmitKeyPress(FrameSubscribers(), w, key);
      case KeyReleasedEvent(_) =>
    }
  }

  /** What the systems need of the world for the frame's updates. */
  ghost predicate UpdatesReady(w: World, emitters: seq<Entity>, lifecycles: seq<Entity>, animations: seq<Entity>)
  {
    && ProjectileEmitSystem.Ready(w, emitters)
    && LifecycleSystem.Ready(w, lifecycles)
    && AnimationSystem.Ready(w, animations)
  }

  /** The frame's updates as one function of the world: projectile emission,
      then expiry, then animation, each at its own reading of the clock. */
  ghost function Updated(w: World, emitters: seq<Entity>, lifecycles: seq<Entity>, animations: seq<Entity>,
                         emitTime: Tick, lifecycleTime: Tick, animationTime: Tick): (r: World)
    requires UpdatesReady(w, emitters, lifecycles, animations)
  {
    var emitted := ProjectileEmitSystem.Emitted(w, emitters, emitTime);
    LifecycleSystem.SweptMeaning(emitted, lifecycles, lifecycleTime);
    var swept := LifecycleSystem.Swept(emitted, lifecycles, lifecycleTime);
    AnimationSystem.Animated(swept, animations, animationTime)
  }

  /** Each system writes only its own part of the world: the emitters and the
      creations come from emission alone, the kill requests from expiry alone,
      the animations and sprites from animation alone. */
  lemma UpdatedParts(w: World, emitters: seq<Entity>, lifecycles: seq<Entity>, animations: seq<Entity>,
                     emitTime: Tick, lifecycleTime: Tick, animationTime: Tick)
    requires UpdatesReady(w, emitters, lifecycles, animations)
    ensures var r := Updated(w, emitters, lifecycles, animations, emitTime, lifecycleTime, animationTime);
            var emitted := ProjectileEmitSystem.Emitted(w, emitters, emitTime);
            && r.emitters == emitted.emitters && r.created == emitted.created
            && r.killed == LifecycleSystem.Swept(w, lifecycles, lifecycleTime).killed
            && r.animations == AnimationSystem.Animated(w, animations, animationTime).animations
            && r.sprites == AnimationSystem.Animated(w, animations, animationTime).sprites
            && r.(emitters := w.emitters, created := w.created, killed := w.killed,
                  animations := w.animations, sprites := w.sprites) == w
  {
    var emitted := ProjectileEmitSystem.Emitted(w, emitters, emitTime);
    LifecycleSystem.SweptMeaning(emitted, lifecycles, lifecycleTime);
    var swept := LifecycleSystem.Swept(emitted, lifecycles, lifecycleTime);
    assert swept.killed == LifecycleSystem.Swept(w, lifecycles, lifecycleTime).killed;
    var animatedW := AnimationSystem.Animated(w, animations, animationTime);
    var animatedS := AnimationSystem.Animated(swept, animations, animationTime);
    assert animatedS.animations == animatedW.animations;
    assert animatedS.sprites == animatedW.sprites;
  }

  /** The ids the `AddSystem` calls of `LoadLevel` draw from the fresh
      counter, system by system (`t1` .. `t6` are the table after the keyboard
      movement, projectile emit, render-collider, animation, lifecycle and
      damage systems): sprite 0, rigid body 1, projectile emitter 2,
      transform 3, box collider 4, animation 5, lifecycle 6, and the damage
      system draws nothing new. */
  lemma StartupIds(t1: (map<ComponentKind, nat>, nat), t2: (map<ComponentKind, nat>, nat),
                   t3: (map<ComponentKind, nat>, nat), t4: (map<ComponentKind, nat>, nat),
                   t5: (map<ComponentKind, nat>, nat), t6: (map<ComponentKind, nat>, nat))
    requires t1 == Draw(Draw((map[], 0), SpriteKind), RigidBodyKind)
    requires t2 == Draw(Draw(t1, ProjectileEmitterKind), TransformKind)
    requires t3 == Draw(Draw(t2, TransformKind), BoxColliderKind)
    requires t4 == Draw(Draw(t3, SpriteKind), AnimationKind)
    requires t5 == Draw(t4, LifecycleKind)
    requires t6 == Draw(t5, BoxColliderKind)
    ensures SpriteKind in t1.0 && RigidBodyKind in t1.0 && t1.0[SpriteKind] == 0 && t1.0[RigidBodyKind] == 1
    ensures ProjectileEmitterKind in t2.0 && TransformKind in t2.0
    ensures t2.0[ProjectileEmitterKind] == 2 && t2.0[TransformKind] == 3
    ensures SpriteKind in t4.0 && AnimationKind in t4.0 && t4.0[SpriteKind] == 0 && t4.0[AnimationKind] == 5
    ensures LifecycleKind in t5.0 && t5.0[LifecycleKind] == 6
    ensures BoxColliderKind in t6.0 && t6.0[BoxColliderKind] == 4 && t6.1 == 7
  {
  }

  /** The `AddSystem` calls of `LoadLevel`, in their order, on the component
      id counter the program starts with. The render-collider system is built
      for the ids it draws; the collision, movement and render systems built
      later require only kinds that already have ids. */
  method AddSystems()
    returns (keyboard: KeyboardMovementSystem.KeyboardMovementSystem,
             emitter: ProjectileEmitSystem.ProjectileEmitSystem,
             animation: AnimationSystem.AnimationSystem,
             lifecycle: LifecycleSystem.LifecycleSystem,
             damage: DamageSystem.DamageSystem)
    ensures Bits(keyboard.system.componentSignature) == {0, 1}
    ensures Bits(emitter.system.componentSignature) == {2, 3}
    ensures Bits(animation.system.componentSignature) == {0, 5}
    ensures Bits(lifecycle.system.componentSignature) == {6}
    ensures Bits(damage.system.componentSignature) == {4}
  {
    var table := new ComponentIds();
    keyboard := new KeyboardMovementSystem.KeyboardMovementSystem(table);
    ghost var t1 := (table.ids, table.nextId);
    emitter := new ProjectileEmitSystem.ProjectileEmitSystem(table);
    ghost var t2 := (table.ids, table.nextId);
    var renderCollider := new RenderColliderSystem.RenderColliderSystem(table);
    ghost var t3 := (table.ids, table.nextId);
    animation := new AnimationSystem.AnimationSystem(table);
    ghost var t4 := (table.ids, table.nextId);
    lifecycle := new LifecycleSystem.LifecycleSystem(table);
    ghost var t5 := (table.ids, table.nextId);
    damage := new DamageSystem.DamageSystem(table);
    StartupIds(t1, t2, t3, t4, t5, (table.ids, table.nextId));
  }

  class Game {
    /** `millisecsPreviousFrame`, an `int` holding a tick. */
    var millisecsPreviousFrame: int
    /** The registry's components, tags, groups, kills and creations. */
    var world: World
    /** `Game::mapWidth` and `Game::mapHeight`. */
    var mapWidth: int
    var mapHeight: int
    const eventBus: EventBus<World>
    const keyboardMovementSystem: KeyboardMovementSystem.KeyboardMovementSystem
    const projectileEmitSystem: ProjectileEmitSystem.ProjectileEmitSystem
    const animationSystem: AnimationSystem.AnimationSystem
    const lifecycleSystem: LifecycleSystem.LifecycleSystem
    const damageSystem: DamageSystem.DamageSystem

    /** The game with an empty registry and bus, and the systems `LoadLevel`
        adds. */
    constructor ()
      ensures (millisecsPreviousFrame, mapWidth, mapHeight) == (0, 0, 0)
      ensures world == EmptyWorld
      ensures fresh(eventBus) && eventBus.subscribers == map[]
    {
      var keyboard, emitter, animation, lifecycle, damage := AddSystems();
      keyboardMovementSystem, projectileEmitSystem, animationSystem := keyboard, emitter, animation;
      lifecycleSystem, damageSystem := lifecycle, damage;
      eventBus := new EventBus();
      millisecsPreviousFrame, mapWidth, mapHeight := 0, 0, 0;
      world := EmptyWorld;
    }

    /** The tile map part of `LoadLevel`, with the tiles drawn at z-index 1.
        A field `stoi` rejects ends the load before anything changes. */
    method LoadLevel(lines: seq<string>) returns (loaded: bool)
      requires |lines| > 0
      modifies this
      ensures loaded <==> MapParses(lines)
      ensures (world, mapWidth, mapHeight, millisecsPreviousFrame) ==
              if loaded then
                var m := ParsedMap(lines);
                (old(world).(created := old(world).created + Tiles(m, |m|, 1)), MapSize(m).0, MapSize(m).1,
                 old(millisecsPreviousFrame))
              else
                old((world, mapWidth, mapHeight, millisecsPreviousFrame))
    {
      var level := LoadTiles(world, lines, 1);
      if level.None? {
        return false;
      }
      world, mapWidth, mapHeight := level.value.world, level.value.mapWidth, level.value.mapHeight;
      return true;
    }

    /** The subscription phase of `Update`: every handler is dropped, then
        the keyboard and damage systems subscribe theirs. Whatever the bus
        held before, it ends up as every frame's table. */
    method SubscribeAll()
      modifies eventBus
      ensures eventBus.subscribers == FrameSubscribers()
    {
      eventBus.Reset();
      keyboardMovementSystem.SubscribeToEvents(eventBus);
      damageSystem.SubscribeToEvents(eventBus);
    }

    /** The update phase of `Update`: emission, expiry, animation. */
    method UpdateSystems(emitTime: Tick, lifecycleTime: Tick, animationTime: Tick)
      requires UpdatesReady(world, projectileEmitSystem.system.entities, lifecycleSystem.system.entities,
                            animationSystem.system.entities)
      modifies this
      ensures world == Updated(old(world), projectileEmitSystem.system.entities, lifecycleSystem.system.entities,
                               animationSystem.system.entities, emitTime, lifecycleTime, animationTime)
      ensures millisecsPreviousFrame == old(millisecsPreviousFrame)
      ensures mapWidth == old(mapWidth) && mapHeight == old(mapHeight)
    {
      var emitted := projectileEmitSystem.Update(world, emitTime);
      LifecycleSystem.SweptMeaning(emitted, lifecycleSystem.system.entities, lifecycleTime);
      var swept := lifecycleSystem.Update(emitted, lifecycleTime);
      world := animationSystem.Update(swept, animationTime);
    }

    /** `Update`: the frame cap (the clock read at `now`), the new frame mark
        (read at `frameTime`), the handlers re-subscribed on a reset bus, and
        the updates of the systems that have one, each reading the clock
        itself. `ProjectileEmitSystem` has no `SubscribeToEvents`, and the
        camera, collision and movement systems are not part of this model. */
    method Update(now: Tick, frameTime: Tick, emitTime: Tick, lifecycleTime: Tick, animationTime: Tick)
      returns (delay: nat)
      requires UpdatesReady(world, projectileEmitSystem.system.entities, lifecycleSystem.system.entities,
                            animationSystem.system.entities)
      modifies this, eventBus
      ensures delay == Delay(now, old(millisecsPreviousFrame))
      ensures millisecsPreviousFrame == Signed(frameTime)
      ensures eventBus.subscribers == FrameSubscribers()
      ensures world == Updated(old(world), projectileEmitSystem.system.entities, lifecycleSystem.system.entities,
                               animationSystem.system.entities, emitTime, lifecycleTime, animationTime)
      ensures mapWidth == old(mapWidth) && mapHeight == old(mapHeight)
    {
      var timeToWait := TimeToWait(now, millisecsPreviousFrame);
      delay := if timeToWait > 0 && timeToWait <= MS_PER_FRAME then timeToWait else 0;
      millisecsPreviousFrame := Signed(frameTime);
      SubscribeAll();
      UpdateSystems(emitTime, lifecycleTime, animationTime);
    }
  }
}
