/** The component records. Floating-point vectors are modelled as pairs of
    reals; constructors with default arguments become functions with
    default parameter values. */
module Components {
  import opened Ticks

  datatype Vec2 = Vec2(x: real, y: real)

  /** `SDL_Rect`. */
  datatype Rect = Rect(x: int, y: int, w: int, h: int)

  /** `SDL_RendererFlip`. */
  datatype Flip = FlipNone | FlipHorizontal | FlipVertical

  datatype Transform = Transform(position: Vec2, scale: Vec2, rotation: real)

  function NewTransform(position: Vec2 := Vec2(0.0, 0.0), scale: Vec2 := Vec2(1.0, 1.0),
                        rotation: real := 0.0): Transform
  {
    Transform(position, scale, rotation)
  }

  datatype RigidBody = RigidBody(velocity: Vec2)

  datatype Sprite = Sprite(assetId: string, width: int, height: int, zIndex: int, flip: Flip,
                           isFixed: bool, srcRect: Rect, direction: string)

  /** The sprite constructor: the source rectangle starts at (srcRectX, srcRectY)
      and is as large as the sprite. */
  function NewSprite(assetId: string := "", width: int := 0, height: int := 0, zIndex: int := 0,
                     isFixed: bool := false, srcRectX: int := 0, srcRectY: int := 0,
                     direction: string := "Right"): Sprite
  {
    Sprite(assetId, width, height, zIndex, FlipNone, isFixed,
           Rect(srcRectX, srcRectY, width, height), direction)
  }

  datatype Animation = Animation(numFrames: int, currentFrame: int, frameRateSpeed: int,
                                 startTime: int, isLoop: bool)

  /** The animation constructor; `now` stands for the `SDL_GetTicks()` it reads,
      which is stored in a signed field. */
  function NewAnimation(now: Tick, numFrames: int := 1, frameRateSpeed: int := 1,
                        isLoop: bool := true): Animation
  {
    Animation(numFrames, 1, frameRateSpeed, Signed(now), isLoop)
  }

  /** The collider, with the damage layer that the damage rule compares. */
  datatype BoxCollider = BoxCollider(width: int, height: int, isColliding: bool, offset: Vec2,
                                     damageLayer: int)

  function NewBoxCollider(width: int := 0, height: int := 0, damageLayer: int := 0): BoxCollider
  {
    BoxCollider(width, height, false, Vec2(0.0, 0.0), damageLayer)
  }

  datatype Lifecycle = Lifecycle(timeToLive: int, startTime: Tick)

  function NewLifecycle(now: Tick, timeToLive: int := 1000): Lifecycle
  {
    Lifecycle(timeToLive, now)
  }

  datatype ProjectileEmitter = ProjectileEmitter(projectileVelocity: Vec2, projectileFrequency: int,
                                                 projectileDuration: int, hitPercentDamage: int,
                                                 isFriendly: bool, lastFiredTime: int)

  /** The emitter constructor; `now` stands for the `SDL_GetTicks()` it reads,
      which is stored in a signed field. */
  function NewProjectileEmitter(now: Tick, projectileVelocity: Vec2 := Vec2(0.0, 0.0),
                                projectileFrequency: int := 0, projectileDuration: int := 10000,
                                hitPercentDamage: int := 10, isFriendly: bool := false): ProjectileEmitter
  {
    ProjectileEmitter(projectileVelocity, projectileFrequency, projectileDuration, hitPercentDamage,
                      isFriendly, Signed(now))
  }

  datatype Health = Health(healthPercentage: int)

  datatype Damage = Damage(damage: int)

  /** One component value of any kind, as handed to `AddComponent`. */
  datatype Component =
    | TransformC(transform: Transform)
    | RigidBodyC(rigidBody: RigidBody)
    | SpriteC(sprite: Sprite)
    | AnimationC(animation: Animation)
    | BoxColliderC(collider: BoxCollider)
    | ProjectileEmitterC(emitter: ProjectileEmitter)
    | HealthC(health: Health)
    | DamageC(damage: Damage)
    | LifecycleC(lifecycle: Lifecycle)
}
