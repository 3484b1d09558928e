# Engine core: ECS base, event bus, gameplay systems and tile-map loading

A Dafny model of the core of a small C++ 2D game engine built on an
entity-component-system (ECS) design. The model covers:

- **ECS base** (`Ecs`): the 32-bit component `Signature`, the per-kind
  component ids handed out by a shared counter (`ComponentIds`), `Entity`
  handles and their equality, `System` with its required signature and its
  ordered entity list, `Pool<T>` as a vector addressed by index, and the
  two stored fields of the `Registry`.
- **Event bus** (`EventBus`): a table from event kind to an ordered list of
  handlers. Subscribing appends, `Reset` clears the table, and emitting runs
  the kind's handlers in order on one event value (`Dispatch`, a left fold).
  A handler is a partial function from (state, event) to (state, event). The
  emitter proves that each handler runs exactly once and in subscription
  order, that a handler subscribed twice runs twice, and that an emission
  adds or removes no handler.
- **Gameplay systems**, each a class whose `Update` loop is proved equal to a
  declarative specification function:
  - `AnimationSystem`: frame selection from the animation's start time.
  - `LifecycleSystem`: time-to-live expiry and kill requests.
  - `ProjectileEmitSystem`: rate-limited firing, the spawned projectile,
    and the restart of the interval.
  - `DamageSystem`: collision resolution by groups, tags and damage layers.
  - `KeyboardMovementSystem`: logs key presses only.
- **Tile-map loading** (`TileMap`, shared by `Game.Game.LoadLevel` and
  `LevelLoader.LevelLoader.LoadLevel`):
  - `getline` splitting at commas and `std::stoi` conversion, with its
    white-space, sign, range and error rules.
  - Decoding tile values with C++ truncating division.
  - Creating one tile entity per value, in row-major order.
  - The map's size in pixels.
- **The frame** (`Game`): the frame-rate cap, re-subscription on a reset
  bus, and the update order emission, expiry, animation.

Registry features that the shown ECS code does not define are modelled as
one value, `Scene.World`:
- component lookup by entity;
- tags and groups;
- `Kill`, as a set of kill requests;
- `CreateEntity` with `AddComponent`, as a list of created entities with
  their group and components.

The clock is a parameter, a `Tick`: a natural number below 2^32. The
program reads `SDL_GetTicks()` afresh for each entity a system visits, and
twice for an emitter that fires. Each system's `Update` takes one tick for
its whole pass, and `Game.Game.Update` takes one tick per system (see
"Left out"). The program subtracts stored times from the
tick in unsigned 32-bit arithmetic. The model writes that wrap-around out
(`Ticks.Wrap`, `Ticks.Signed`, `Ticks.Elapsed`). Separate lemmas recover the
plain formulas when nothing wraps (`FrameFormula`, `ExpiredWithoutWrap`,
`FiresWithoutWrap`, `FrameCapWithoutWrap`).

Design choices and places where the code is followed over the engine's
design description:

- **Pool.** The design description has a packed sparse-set pool with
  swap-remove. The code's `Pool<T>` is a plain vector indexed by position,
  and the model follows the code.
- **Component ids.** `IComponent::nextId` is declared but never defined or
  initialised; the model starts it at 0. Each `Component<T>::GetId` latches
  its id in a function-local static, which the model keeps as a map from
  component kind to id. The program has 12 component kinds, so every id is
  below 32 and `bitset::set` never throws.
- **Damage layer.** `BoxColliderComponent.h` has no `damageLayer` field,
  although `DamageSystem.h:39` compares it. The model adds the field, as
  the collider's third constructor argument, which is how `Game.cpp:184`
  passes it.
- **Tile values.** A tile value is divided by 10 with C++ truncation toward
  zero, so negative values are modelled too (`TileDecode`).
- **Failed conversion.** A field that `stoi` rejects throws before any tile
  is created, and nothing in the code catches the exception. The model
  returns `false` from `LoadLevel`, with the game unchanged.
- **Empty map.** The map size reads the first row, which is undefined for
  an empty map. The load therefore requires at least one line.
- **Quirks proved about the code as written:**
  - A new animation stores frame 1, but its first update shows frame 0
    (`NewAnimationStartsAtFrameZero`).
  - `isLoop` is never read, so every animation loops
    (`FrameIgnoresStoredState`).
  - A negative time to live expires only after about 2^32 ms
    (`NegativeTimeToLive`).
  - The two damage checks are not exclusive (`MutualHit`): both fire when two
    projectiles tagged "player" collide on different layers. The tag index
    holds one entity per tag, so a running game never reaches this.

## Model

| member | source | states |
|---|---|---|
| Ticks.Signed | src/Components/AnimationComponent.h:17 | storing a tick in an `int` gives a 32-bit value whose unsigned reading is the tick again |
| Ticks.Elapsed | src/Systems/LifecycleSystem.h:17 | the unsigned difference `now - since` is below 2^32 and is the plain difference when no wrap-around occurs |
| Ticks.SignedWrap | src/Systems/ProjectileEmitSystem.h:40 | converting an `int` to unsigned and back gives the same `int` |
| Ecs.SetBit | src/ECS/ECS.h:121-125 | setting bit k (k below 32) sets it and leaves every other bit unchanged |
| Ecs.Bits | src/ECS/ECS.h:10 | the set positions of a signature are exactly the positions below 32 whose bit is on |
| Ecs.SetBitIdempotent | src/ECS/ECS.h:124 | requiring a kind twice gives the same signature as requiring it once |
| Ecs.SetBitBits | src/ECS/ECS.h:124 | setting bit k adds exactly k to the set positions |
| Ecs.NextIdValid | src/ECS/ECS.h:21-24 | handing a new kind the next counter value keeps the ids distinct and consecutive from 0, and that value is below 32 |
| Ecs.ComponentIds.constructor | src/ECS/ECS.h:12-15 | the counter starts at 0 with no kind numbered |
| Ecs.ComponentIds.GetId | src/ECS/ECS.h:21-24 | the first call for a kind returns the counter and increments it; every later call returns the same id and changes nothing; ids stay distinct and below 32 |
| Ecs.Entity.GetId | src/ECS/ECS.cpp:4-6 | the id is the one the entity was constructed with |
| Ecs.Same | src/ECS/ECS.h:32-35 | two handles compare equal iff they are the same entity, that is iff their ids are equal |
| Ecs.Erased | src/ECS/ECS.cpp:10-12 | erasing leaves no occurrence of the entity, and keeps only elements of the original list |
| Ecs.ErasedAppend | src/ECS/ECS.cpp:11 | erasing distributes over concatenation, so the survivors keep their relative order |
| Ecs.ErasedAbsent | src/ECS/ECS.cpp:11 | erasing an entity that is not in the list leaves the list unchanged |
| Ecs.ErasedCounts | src/ECS/ECS.cpp:11 | every other entity keeps its number of occurrences; the erased one has none |
| Ecs.System.constructor | src/ECS/ECS.h:42-45 | a new system has the empty signature and no entities |
| Ecs.System.AddEntityToSystem | src/ECS/ECS.cpp:7-9 | the entity is appended with no duplicate check; the signature is unchanged |
| Ecs.System.RemoveEntityFromSystem | src/ECS/ECS.cpp:10-12 | every occurrence of the entity is removed and the rest keep their order; the entity is absent afterwards; the signature is unchanged |
| Ecs.System.GetSystemEntities | src/ECS/ECS.h:50 | the entity list as stored |
| Ecs.System.GetComponentSignature | src/ECS/ECS.cpp:13-15 | the required signature as stored |
| Ecs.System.RequireComponent | src/ECS/ECS.h:121-125 | the kind gets an id (a new one only on first use), exactly that bit is set, and the entity list is unchanged |
| Ecs.Pool.constructor | src/ECS/ECS.h:70-72 | a pool of `size` default values, 100 unless given |
| Ecs.Pool.GetSize | src/ECS/ECS.h:79-81 | the number of stored values |
| Ecs.Pool.IsEmpty | src/ECS/ECS.h:75-77 | empty iff the size is 0 |
| Ecs.Pool.Resize | src/ECS/ECS.h:83-85 | the size becomes n, the first min(old size, n) values are kept, and new slots hold the default value |
| Ecs.Pool.Clear | src/ECS/ECS.h:87-89 | the pool becomes empty |
| Ecs.Pool.Add | src/ECS/ECS.h:91-93 | the size grows by one, the value is last, and the earlier values are unchanged |
| Ecs.Pool.Set | src/ECS/ECS.h:95-97 | for an index in range: that index then holds the value, every other index is unchanged, and the size is unchanged |
| Ecs.Pool.Get | src/ECS/ECS.h:99-105 | `Get(i)` and `operator[]`: the value stored at index i, for i in range |
| Ecs.Registry.constructor | src/ECS/ECS.h:110-119 | no entities counted and no pools |
| EventBus.Subscribed | src/EventBus/EventBus.h:81-91 | the kind's list, created when missing or null, gains the handler at its end; every other kind's list is unchanged |
| EventBus.Touched | src/EventBus/EventBus.h:100 | looking up a kind at emission may add a null entry, but no kind's handler list changes |
| EventBus.DispatchAppend | src/EventBus/EventBus.h:102-108 | running a list of handlers is running its first part, then the rest on the state and event that the first part left |
| EventBus.DispatchRecords | src/EventBus/EventBus.h:105-108 | each listed handler runs exactly once in list order, and a handler listed twice runs twice |
| EventBus.SubscribedAllHandlers | src/EventBus/EventBus.h:87-90 | subscribing handlers one by one lists them in subscription order after those already there, and leaves the other kinds alone |
| EventBus.EmitRunsSubscribersInOrder | src/EventBus/EventBus.h:99-110 | handlers H1..Hn subscribed on an empty bus and emitted run as H1, ..., Hn |
| EventBus.EventBus.constructor | src/EventBus/EventBus.h:63-65 | a new bus has no subscribers |
| EventBus.EventBus.Reset | src/EventBus/EventBus.h:72-74 | afterwards every kind has no handlers |
| EventBus.EventBus.SubscribeToEvent | src/EventBus/EventBus.h:81-91 | the table becomes `Subscribed(old, kind, handler)` |
| EventBus.EventBus.EmitEvent | src/EventBus/EventBus.h:99-110 | the result is that of the kind's handlers run in order on one event value, each receiving the state and event the previous one left; the handler lists are unchanged |
| Scene.Kill | src/Systems/LifecycleSystem.h:18 | a kill request is recorded; nothing else changes |
| Scene.SpriteOf | src/Systems/ProjectileEmitSystem.h:27-28 | the sprite when the entity has one, `None` otherwise |
| AnimationSystem.CurrentFrame | src/Systems/AnimationSystem.h:21 | the frame, computed in unsigned 32-bit arithmetic, lies in [0, numFrames) for a positive frame count |
| AnimationSystem.FrameFormula | src/Systems/AnimationSystem.h:21 | without wrap-around the frame is `((now - startTime) * frameRateSpeed / 1000) % numFrames` |
| AnimationSystem.FrameIgnoresStoredState | src/Systems/AnimationSystem.h:21 | the frame depends on neither the stored frame nor `isLoop` |
| AnimationSystem.NewAnimationStartsAtFrameZero | src/Components/AnimationComponent.h:12-18 | a new animation stores frame 1, but an update in the same millisecond computes frame 0 |
| AnimationSystem.Advanced | src/Systems/AnimationSystem.h:21 | only `currentFrame` changes, and it becomes the computed frame |
| AnimationSystem.Framed | src/Systems/AnimationSystem.h:23 | only `srcRect.x` changes, and it becomes frame times width |
| AnimationSystem.AnimatedMeaning | src/Systems/AnimationSystem.h:15-25 | every visited entity shows its current frame; other entities and all other components are unchanged |
| AnimationSystem.AnimatedFramesInRange | src/Systems/AnimationSystem.h:21 | every visited animation with a positive frame count shows a frame in range |
| AnimationSystem.AnimatedIdempotent | src/Systems/AnimationSystem.h:15-25 | two updates at the same tick give the same world as one |
| AnimationSystem.AnimationSystem.constructor | src/Systems/AnimationSystem.h:10-13 | the required signature is exactly {Sprite, Animation} |
| AnimationSystem.AnimationSystem.Update | src/Systems/AnimationSystem.h:15-25 | the loop gives `Animated(w, entities, now)` |
| LifecycleSystem.ExpiredWithoutWrap | src/Systems/LifecycleSystem.h:17 | without wrap-around an entity expires iff `now - startTime >= timeToLive` |
| LifecycleSystem.ExpiredStays | src/Systems/LifecycleSystem.h:17 | within one wrap period, expiry is monotone in time |
| LifecycleSystem.NegativeTimeToLive | src/Systems/LifecycleSystem.h:17 | a negative time to live does not expire until 2^32 + timeToLive ms after the start |
| LifecycleSystem.NewLifecycleNotExpired | src/Components/LifecycleComponent.h:9-12 | a lifecycle made now has expired iff its time to live is 0 as an unsigned value |
| LifecycleSystem.SweptMeaning | src/Systems/LifecycleSystem.h:14-21 | an entity is killed afterwards iff it was already, or it is in the list and expired; nothing else changes |
| LifecycleSystem.LifecycleSystem.constructor | src/Systems/LifecycleSystem.h:10-12 | the required signature is exactly {Lifecycle} |
| LifecycleSystem.LifecycleSystem.Update | src/Systems/LifecycleSystem.h:14-21 | the loop gives `Swept(w, entities, now)` |
| DamageSystem.OnProjectileHit | src/Systems/DamageSystem.h:33-44 | on equal layers nothing changes. On different layers the unit loses the projectile's damage, the projectile is killed, and the unit is killed iff its health is now at most 0. Only the unit's health and the kill set change |
| DamageSystem.OnCollision | src/Systems/DamageSystem.h:20-31 | no test holds: nothing changes; one holds: that hit; only health and kills change |
| DamageSystem.HitAcrossLayers | src/Systems/DamageSystem.h:39-43 | a hit across layers is one update of health and kills |
| DamageSystem.HitThenHit | src/Systems/DamageSystem.h:24-30 | two hits with swapped roles across layers cost each entity the other's damage and kill both |
| DamageSystem.HitsCommute | src/Systems/DamageSystem.h:24-30 | two hits with swapped roles give the same world in either order |
| DamageSystem.OnCollisionSymmetric | src/Systems/DamageSystem.h:20-31 | swapping the two entities of a collision event changes nothing |
| DamageSystem.MutualHit | src/Systems/DamageSystem.h:24-30 | the checks are not exclusive: when both fire, both entities are killed and each loses the other's damage (only reachable with two entities tagged "player") |
| DamageSystem.EmitCollision | src/Systems/DamageSystem.h:16-31 | a collision emitted with `onCollision` as the only handler is resolved by the damage rules and the event is unchanged |
| DamageSystem.DamageSystem.constructor | src/Systems/DamageSystem.h:12-14 | the required signature is exactly {BoxCollider} |
| DamageSystem.DamageSystem.SubscribeToEvents | src/Systems/DamageSystem.h:16-18 | `onCollision` is appended to the collision handlers |
| DamageSystem.DamageSystem.Update | src/Systems/DamageSystem.h:46-47 | the world is unchanged |
| ProjectileEmitSystem.FiresWithoutWrap | src/Systems/ProjectileEmitSystem.h:25 | without wrap-around an emitter fires iff strictly more than `projectileFrequency` ms have passed |
| ProjectileEmitSystem.NoSecondShot | src/Systems/ProjectileEmitSystem.h:40 | an emitter that has just fired does not fire again at the same tick |
| ProjectileEmitSystem.SpawnPosition | src/Systems/ProjectileEmitSystem.h:26-32 | the emitter's position, moved by half the scaled sprite size when it has a sprite |
| ProjectileEmitSystem.Projectile | src/Systems/ProjectileEmitSystem.h:34-38 | the projectile has exactly four components: transform (scale 1, rotation 0), the emitter's velocity, a 4x4 "bullet-image" sprite at z 4, and a 4x4 collider. It has no group and no lifecycle, damage or health |
| ProjectileEmitSystem.Shooters | src/Systems/ProjectileEmitSystem.h:20-42 | the emitters that fire, each once: exactly the listed entities whose emitter fires |
| ProjectileEmitSystem.Projectiles | src/Systems/ProjectileEmitSystem.h:34-38 | one projectile per shooter, in order, together with that shooter's components |
| ProjectileEmitSystem.Visit | src/Systems/ProjectileEmitSystem.h:21-41 | one visit changes only the emitters and the creations |
| ProjectileEmitSystem.Emitted | src/Systems/ProjectileEmitSystem.h:19-43 | an update changes only the emitters and the creations |
| ProjectileEmitSystem.RevisitDoesNotFire | src/Systems/ProjectileEmitSystem.h:25-40 | an emitter listed twice does not fire at its second visit |
| ProjectileEmitSystem.EmittedEmitters | src/Systems/ProjectileEmitSystem.h:19-43 | the firing emitters get `lastFiredTime = now`; every other emitter is unchanged |
| ProjectileEmitSystem.EmittedCreated | src/Systems/ProjectileEmitSystem.h:19-43 | the creations are the previous ones followed by one projectile per shooter, in visit order |
| ProjectileEmitSystem.AtMostOneShot | src/Systems/ProjectileEmitSystem.h:20-42 | at most one projectile per listed entity; earlier creations stay; an emitter that does not fire is unchanged |
| ProjectileEmitSystem.ProjectileEmitSystem.constructor | src/Systems/ProjectileEmitSystem.h:14-17 | the required signature is exactly {ProjectileEmitter, Transform} |
| ProjectileEmitSystem.ProjectileEmitSystem.Update | src/Systems/ProjectileEmitSystem.h:19-43 | the loop gives `Emitted(w, entities, now)` |
| KeyboardMovementSystem.EmitKeyPress | src/Systems/KeyboardMovementSystem.h:22-24 | a key press emitted with `onKeyPress` as the only handler changes neither the world nor the event |
| KeyboardMovementSystem.KeyboardMovementSystem.constructor | src/Systems/KeyboardMovementSystem.h:13-16 | the required signature is exactly {Sprite, RigidBody} |
| RenderColliderSystem.RenderColliderSystem.constructor | src/Systems/RenderColliderSystem.h:12-15 | the required signature is exactly {Transform, BoxCollider}, drawn in that order |
| KeyboardMovementSystem.KeyboardMovementSystem.SubscribeToEvents | src/Systems/KeyboardMovementSystem.h:18-20 | `onKeyPress` is appended to the key-press handlers |
| KeyboardMovementSystem.KeyboardMovementSystem.Update | src/Systems/KeyboardMovementSystem.h:26-27 | the world is unchanged |
| TileMap.FirstComma | src/Game/Game.cpp:142 | the end of the next field: a comma or the end of the line, with no comma before it |
| TileMap.Fields | src/Game/Game.cpp:142 | the fields `getline` reads contain no comma |
| TileMap.FieldsOfJoin | src/Game/Game.cpp:142 | splitting comma-joined fields without commas, the last one not empty, gives back the fields |
| TileMap.Stoi | src/Game/Game.cpp:143 | a converted value fits in a 32-bit `int` |
| TileMap.StoiOfDecimal | src/Game/Game.cpp:143 | `stoi` reads back every 32-bit `int` written in decimal |
| TileMap.StoiNeedsADigit | src/Game/Game.cpp:143 | a field without a digit, such as the empty field, is rejected |
| TileMap.ConvertedMeaning | src/Game/Game.cpp:142-144 | a row converts iff each of its fields does, and then holds their values in field order |
| TileMap.RowOfJoin | src/Game/Game.cpp:138-144 | a line of 32-bit `int`s written in decimal and joined by commas gives back those values |
| TileMap.RowOfRejects | src/Game/Game.cpp:143 | a line with a field `stoi` rejects gives no row |
| TileMap.ParseRow | src/Game/Game.cpp:138-144 | the inner loop gives `RowOf(line)`: the line's fields converted in order, or `None` at the first rejected field |
| TileMap.ParseTileMap | src/Game/Game.cpp:136-147 | a map iff every line gives a row, and then one row per line in file order |
| TileMap.TruncDiv | src/Game/Game.cpp:159 | C++ integer division truncates toward zero: the remainder `a - b*q` has the sign of `a` and magnitude below `b`, and `q` has the sign of `a` |
| TileMap.TileDecode | src/Game/Game.cpp:159-160 | a value is 10 times its tileset row plus its column. For a non-negative value these are v/10 and v mod 10; for a negative value the column lies in (-10, 0] |
| TileMap.TilePlacement | src/Game/Game.cpp:153-168 | a tile of value v at (i, j): group "tiles", position (64j, 64i), scale 2, rotation 0. Its sprite is "tileset", 32x32, not fixed, unflipped, at the given z-index, with source origin (32·(v mod 10), 32·(v/10)) |
| TileMap.RowTiles | src/Game/Game.cpp:154-168 | the first j tiles of row i, one per value, left to right |
| TileMap.Tiles | src/Game/Game.cpp:153-169 | as many tiles as map values |
| TileMap.TileAt | src/Game/Game.cpp:153-169 | the tile of row i', column j is entity number `Offset(i') + j` |
| TileMap.TilesLayout | src/Game/Game.cpp:153-169 | exactly one entity per value, in row-major order |
| TileMap.CreateTiles | src/Game/Game.cpp:153-169 | the nested loops append `Tiles(m)` to the creations and change nothing else |
| TileMap.MapSize | src/Game/Game.cpp:172-173 | width is 64 times the first row's length, height 64 times the number of rows |
| TileMap.TilesInsideMap | src/Game/Game.cpp:156-173 | in a rectangular map every tile lies inside the map's area |
| TileMap.LoadTiles | src/Game/Game.cpp:136-173 | with at least one line: a level iff every line parses, and then the tiles are created and the size is the map's |
| Game.TimeToWait | src/Game/Game.cpp:221 | computed in unsigned arithmetic: when the frame is early, the rest of the budget; when late, negative or beyond the budget |
| Game.Delay | src/Game/Game.cpp:221-222 | the slept time never exceeds the 16 ms budget |
| Game.FrameCap | src/Game/Game.cpp:221-222 | an early frame sleeps exactly the rest of the budget, a late one not at all, and every frame lasts at least the budget |
| Game.FrameCapWithoutWrap | src/Game/Game.cpp:221-222 | without wrap-around, a frame `e` ms after the previous one, with `e < 16`, sleeps `16 - e` ms |
| Game.FrameHandlers | src/Game/Game.cpp:230-235 | during the updates each subscribing system has exactly one handler per kind, and nobody listens to key releases |
| Game.FrameEvents | src/Game/Game.cpp:230-240 | an event emitted during the updates: a collision is resolved by the damage rules, anything else changes nothing |
| Game.UpdatedParts | src/Game/Game.cpp:238-243 | each system writes only its own part of the world, with the same effect as on the world before the frame |
| Game.StartupIds | src/Game/Game.cpp:109-118 | on the fresh counter the systems' draws give sprite 0, rigid body 1, projectile emitter 2, transform 3, box collider 4, animation 5, lifecycle 6 |
| Game.AddSystems | src/Game/Game.cpp:109-118 | the systems' signatures: keyboard movement {0, 1}, projectile emit {2, 3}, animation {0, 5}, lifecycle {6}, damage {4} |
| Game.Game.constructor | src/Game/Game.cpp:39-49 | an empty registry, a fresh empty bus, and the previous-frame mark at 0 |
| Game.Game.LoadLevel | src/Game/Game.cpp:136-173 | loaded iff every line parses; then tiles at z-index 1 are created and the map size is set; otherwise nothing changes |
| Game.Game.SubscribeAll | src/Game/Game.cpp:230-235 | whatever the bus held, it ends with exactly the frame's handlers |
| Game.Game.UpdateSystems | src/Game/Game.cpp:238-243 | the world becomes emission, then expiry, then animation of the previous world |
| Game.Game.Update | src/Game/Game.cpp:219-247 | the frame cap's delay, the new frame mark, the frame's handlers, and the updated world |
| LevelLoader.LevelLoader.LoadLevel | src/Game/LevelLoader.cpp:43-80 | loaded iff every line parses; then tiles at z-index 0 are created and the game's map size is set; otherwise nothing changes |

## Left out

- Windowing, rendering, input polling, assets, fonts and logging are I/O and
  are not modelled. This covers `Initialize`, `ProcessInput`, `Render`,
  `Run`, `Destroy`, the render systems, the asset store and the logger.
  What an emitted key event does is stated by `Game.FrameEvents`.
- The camera, collision, movement and render systems are not part of this
  model, nor is the frame's `deltaTime`, which is floating point. Of the
  render-collider system only the constructor is modelled, for the ids it
  draws. `CameraMovementSystem.h` is not part of this model.
- The registry's reconciliation pass (`registry->Update()`) and
  `CreateEntity`, `AddComponent`, `GetComponent`, `Tag` and `Group` are not
  in the ECS code shown. They appear only as recorded effects on
  `Scene.World`.
- The fixed entities of `LoadLevel` are literal data and are left out: the
  chopper, the radar, the tank and the truck. So are its texture and font
  registrations.
- `ProjectileEmitSystem::SubscribeToEvents`, called in `Game::Update`, is
  not defined by the system, so nothing is subscribed for it.
- Game.AddSystems: the systems are built when the game is constructed, not
  in `LoadLevel`, in the order of `Game.cpp:109-118`. The camera movement
  system is skipped, so the stated ids assume it draws no new one. If it
  requires the camera-follow component, that kind takes id 5 and the
  animation and lifecycle ids become 6 and 7. The collision, movement and
  render systems require only kinds that already have ids, so skipping
  them changes nothing.
- Game.StartupIds: the same assumption about the camera movement system.
- Event handlers are functions, not owner/member-pointer pairs. C++ type
  erasure (`type_index`, `static_cast`) and `unique_ptr` ownership are not
  modelled.
- Floating point: positions, scales and the projectile spawn offset are
  computed exactly in reals. Float rounding is not modelled.
- Ecs.Pool.constructor and Ecs.Pool.Resize take a natural size. A negative
  `int` size, which makes `vector::resize` throw, is not modelled.
- Ecs.Pool.Set and Ecs.Pool.Get require an index in range, because
  out-of-range vector indexing is undefined behaviour.
- Ecs.Pool.Resize: the new slots hold the pool's `blank` value, which
  stands for a default-constructed `T`.
- TileMap.Stoi: only decimal ASCII digits are read.
- TileMap.Stoi: the locale-dependent white-space set is taken to be the
  C locale's.
- ProjectileEmitSystem.ProjectileEmitSystem.Update: one tick stands for
  every `SDL_GetTicks()` read in the pass. The program reads the clock
  again for each emitter, so later emitters can see a later time.
- ProjectileEmitSystem.Visit: the stored `lastFiredTime` is the tick the
  firing test used. The program reads the clock a second time to store it
  (`ProjectileEmitSystem.h:25` and `:40`), so the stored time can be later.
  `RevisitDoesNotFire` and `AtMostOneShot` rely on this single tick.
- AnimationSystem.AnimationSystem.Update: one tick stands for the clock
  read of every entity in the pass (`AnimationSystem.h:21`).
- LifecycleSystem.LifecycleSystem.Update: one tick stands for the clock
  read of every entity in the pass (`LifecycleSystem.h:17`).
- AnimationSystem.Framed: `currentFrame * sprite.width` is signed `int`
  arithmetic. The model's product is unbounded. Signed overflow, which is
  undefined behaviour in C++, is not modelled.
- DamageSystem.OnProjectileHit: `healthPercentage -= damage` is unbounded,
  so signed overflow is not modelled.
- TileMap.TilePlacement: the tile position and source-rectangle products
  are unbounded, so signed overflow is not modelled. `TileMap.TileEntity`
  and `TileMap.CreateTiles` compute the same products.
- TileMap.MapSize: the map's width and height products are unbounded, so
  signed overflow is not modelled.
- EventBus.EventBus.EmitEvent: the handlers run from a snapshot of the
  kind's list. Handlers that subscribe or emit on the same bus while the
  dispatch runs are not modelled; every modelled handler is a function of
  the state and the event only.
- Game.Game.Update: each `SDL_GetTicks()` read is a separate parameter,
  because the calls happen at different times. The sleep is returned as
  `delay` rather than performed.
