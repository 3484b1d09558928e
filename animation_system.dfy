/** The animation system: each entity with a sprite and an animation shows the
    frame that corresponds to the time since its animation started. */
module AnimationSystem {
  import opened Ticks
  import opened Ecs
  import opened Components
  import opened Scene

  /** The largest `int` value plus one. */
  const INT_LIMIT: int := 0x8000_0000

  /** The frame expression of `Update`. `SDL_GetTicks()` is a `Uint32`, so the
      whole expression is evaluated in unsigned 32-bit arithmetic: the elapsed
      time and the product wrap, and the frame count is taken as unsigned. The
      result is stored back into an `int`. The remainder needs a divisor that
      is not zero. */
  function CurrentFrame(a: Animation, now: Tick): (f: int)
    requires Wrap(a.numFrames) != 0
    ensures 0 < a.numFrames < INT_LIMIT ==> 0 <= f < a.numFrames
  {
    Signed((Wrap(Elapsed(now, a.startTime) * Wrap(a.frameRateSpeed)) / 1000) % Wrap(a.numFrames))
  }

  /** Without wrap-around the frame is the plain formula
      `(elapsed * speed / 1000) % numFrames`. */
  lemma FrameFormula(a: Animation, now: Tick)
    requires 0 < a.numFrames < INT_LIMIT
    requires a.startTime <= now && 0 <= a.frameRateSpeed
    requires (now - a.startTime) * a.frameRateSpeed < TICKS
    ensures CurrentFrame(a, now) == ((now - a.startTime) * a.frameRateSpeed / 1000) % a.numFrames
  {
    var d := now - a.startTime;
    if a.frameRateSpeed == 0 {
      assert Wrap(Elapsed(now, a.startTime) * Wrap(a.frameRateSpeed)) == 0;
    } else {
      assert d <= d * a.frameRateSpeed;
      assert a.frameRateSpeed <= d * a.frameRateSpeed || d == 0;
      assert Elapsed(now, a.startTime) == d;
      if d == 0 {
        assert Wrap(Elapsed(now, a.startTime) * Wrap(a.frameRateSpeed)) == 0;
      } else {
        assert Wrap(a.frameRateSpeed) == a.frameRateSpeed;
      }
    }
  }

  /** The frame depends on neither the stored frame nor the loop flag: `isLoop`
      is never read, so every animation loops. */
  lemma FrameIgnoresStoredState(a: Animation, now: Tick, currentFrame: int, isLoop: bool)
    requires Wrap(a.numFrames) != 0
    ensures CurrentFrame(a.(currentFrame := currentFrame, isLoop := isLoop), now) == CurrentFrame(a, now)
  {
  }

  /** A freshly constructed animation stores frame 1, but the first update in
      the same millisecond shows frame 0. */
  lemma {:induction false} NewAnimationStartsAtFrameZero(now: Tick, numFrames: int, frameRateSpeed: int, isLoop: bool)
    requires 0 < numFrames < INT_LIMIT
    ensures NewAnimation(now, numFrames, frameRateSpeed, isLoop).currentFrame == 1
    ensures CurrentFrame(NewAnimation(now, numFrames, frameRateSpeed, isLoop), now) == 0
  {
    var a := NewAnimation(now, numFrames, frameRateSpeed, isLoop);
    assert a.startTime == Signed(now);
    assert now - a.startTime == 0 || now - a.startTime == TICKS;
    assert Elapsed(now, a.startTime) == 0;
    var speed := Wrap(a.frameRateSpeed);
    assert 0 * speed == 0;
    assert Wrap(0) / 1000 == 0;
    assert 0 % Wrap(a.numFrames) == 0;
  }

  /** What `Update` needs of every entity it visits: both components, and a
      frame count that is not zero as an unsigned value. */
  ghost predicate Ready(w: World, es: seq<Entity>)
  {
    forall e | e in es :: e in w.animations && e in w.sprites && Wrap(w.animations[e].numFrames) != 0
  }

  /** One entity's animation after the update. */
  function Advanced(a: Animation, now: Tick): (r: Animation)
    requires Wrap(a.numFrames) != 0
    ensures r.(currentFrame := a.currentFrame) == a
    ensures r.currentFrame == CurrentFrame(a, now)
  {
    a.(currentFrame := CurrentFrame(a, now))
  }

  /** One entity's sprite after the update: the source rectangle moves to the
      column of the shown frame. */
  function Framed(s: Sprite, frame: int): (r: Sprite)
    ensures r.(srcRect := s.srcRect) == s
    ensures r.srcRect == s.srcRect.(x := frame * s.width)
  {
    s.(srcRect := s.srcRect.(x := frame * s.width))
  }

  /** The world after an update over `es`: every entity in `es` shows its
      current frame; all other entities, and all other components, are as
      they were (`AnimatedMeaning`). */
  ghost function Animated(w: World, es: seq<Entity>, now: Tick): World
    requires Ready(w, es)
  {
    w.(animations := map e | e in w.animations ::
                       if e in es then Advanced(w.animations[e], now) else w.animations[e],
       sprites := map e | e in w.sprites ::
                    if e in es then Framed(w.sprites[e], CurrentFrame(w.animations[e], now)) else w.sprites[e])
  }

  lemma AnimatedMeaning(w: World, es: seq<Entity>, now: Tick)
    requires Ready(w, es)
    ensures var r := Animated(w, es, now);
      && r.animations.Keys == w.animations.Keys && r.sprites.Keys == w.sprites.Keys
      && (forall e | e in es ::
            r.animations[e] == Advanced(w.animations[e], now) &&
            r.sprites[e] == Framed(w.sprites[e], CurrentFrame(w.animations[e], now)))
      && (forall e | e in w.animations && e !in es :: r.animations[e] == w.animations[e])
      && (forall e | e in w.sprites && e !in es :: r.sprites[e] == w.sprites[e])
      && r.(animations := w.animations, sprites := w.sprites) == w
  {
  }

  /** Every visited animation with a positive frame count shows a frame in range. */
  lemma AnimatedFramesInRange(w: World, es: seq<Entity>, now: Tick, e: Entity)
    requires Ready(w, es) && e in es
    requires 0 < w.animations[e].numFrames < INT_LIMIT
    ensures 0 <= Animated(w, es, now).animations[e].currentFrame < w.animations[e].numFrames
  {
    AnimatedMeaning(w, es, now);
  }

  /** Updating twice at the same time is updating once. */
  lemma {:induction false} AnimatedIdempotent(w: World, es: seq<Entity>, now: Tick)
    requires Ready(w, es)
    ensures Ready(Animated(w, es, now), es)
    ensures Animated(Animated(w, es, now), es, now) == Animated(w, es, now)
  {
    var r := Animated(w, es, now);
    AnimatedMeaning(w, es, now);
    var rr := Animated(r, es, now);
    AnimatedMeaning(r, es, now);
    assert rr.animations == r.animations;
    assert rr.sprites == r.sprites;
  }

  /** Visiting one more entity: the entity's animation and sprite are updated
      from their current values. */
  lemma {:induction false} AnimatedStep(w: World, es: seq<Entity>, e: Entity, now: Tick)
    requires Ready(w, es + [e])
    ensures Ready(w, es)
    ensures var r := Animated(w, es, now);
            var a := Advanced(r.animations[e], now);
            Animated(w, es + [e], now) ==
              r.(animations := r.animations[e := a], sprites := r.sprites[e := Framed(r.sprites[e], a.currentFrame)])
  {
    var r := Animated(w, es, now);
    AnimatedMeaning(w, es, now);
    var next := Animated(w, es + [e], now);
    AnimatedMeaning(w, es + [e], now);
    var a := Advanced(r.animations[e], now);
    FrameIgnoresStoredState(w.animations[e], now, r.animations[e].currentFrame, r.animations[e].isLoop);
    assert a == Advanced(w.animations[e], now);
    assert r.sprites[e].width == w.sprites[e].width;
    assert next.animations == r.animations[e := a];
    assert next.sprites == r.sprites[e := Framed(r.sprites[e], a.currentFrame)];
  }

  lemma AnimatedPrefix(w: World, es: seq<Entity>, i: nat, now: Tick)
    requires Ready(w, es) && i < |es|
    ensures Ready(w, es[..i])
    ensures var r := Animated(w, es[..i], now);
            var a := Advanced(r.animations[es[i]], now);
            Animated(w, es[..i + 1], now) ==
              r.(animations := r.animations[es[i] := a],
                 sprites := r.sprites[es[i] := Framed(r.sprites[es[i]], a.currentFrame)])
  {
    assert forall x | x in es[..i + 1] :: x in es;
    assert es[..i + 1] == es[..i] + [es[i]];
    AnimatedStep(w, es[..i], es[i], now);
  }

  class AnimationSystem {
    /** The `System` base part. */
    const system: System

    /** The constructor requires the sprite and animation components. */
    constructor (table: ComponentIds)
      requires table.Valid()
      modifies table
      ensures table.Valid()
      ensures SpriteKind in table.ids && AnimationKind in table.ids
      ensures (table.ids, table.nextId) == Draw(Draw(old((table.ids, table.nextId)), SpriteKind), AnimationKind)
      ensures fresh(system) && system.entities == []
      ensures Bits(system.componentSignature) == {table.ids[SpriteKind], table.ids[AnimationKind]}
    {
      var s := new System();
      s.RequireComponent(table, SpriteKind);
      ghost var spriteId := table.ids[SpriteKind];
      s.RequireComponent(table, AnimationKind);
      BitsOfTwo(spriteId, table.ids[AnimationKind]);
      system := s;
    }

    /** `Update`: visits the system's entities in order. */
    method Update(w: World, now: Tick) returns (r: World)
      requires Ready(w, system.entities)
      ensures r == Animated(w, system.entities, now)
    {
      var es := system.entities;
      r := w;
      assert es[..0] == [];
      var i := 0;
      while i < |es|
        invariant 0 <= i <= |es|
        invariant r == Animated(w, es[..i], now)
      {
        var e := es[i];
        AnimatedPrefix(w, es, i, now);
        var animation := r.animations[e];
        var sprite := r.sprites[e];
        animation := animation.(currentFrame := CurrentFrame(animation, now));
        sprite := sprite.(srcRect := sprite.srcRect.(x := animation.currentFrame * sprite.width));
        r := r.(animations := r.animations[e := animation], sprites := r.sprites[e := sprite]);
        i := i + 1;
      }
      assert es[..|es|] == es;
    }
  }
}
