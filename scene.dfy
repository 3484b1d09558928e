/** What the gameplay systems see of the registry: component values keyed by
    entity, the tag and group indices, the entities whose kill has been
    requested, and the entities created, in creation order. Nothing here is
    reconciled: kills and creations are only recorded. */
module Scene {
  import opened Optional
  import opened Ecs
  import opened Components

  /** An entity made with `CreateEntity`: its group, if `Group` was called, and
      the components added to it, in the order they were added. */
  datatype Created = Created(group: Option<string>, components: seq<Component>)

  datatype World = World(
    transforms: map<Entity, Transform>,
    sprites: map<Entity, Sprite>,
    animations: map<Entity, Animation>,
    colliders: map<Entity, BoxCollider>,
    emitters: map<Entity, ProjectileEmitter>,
    healths: map<Entity, Health>,
    damages: map<Entity, Damage>,
    lifecycles: map<Entity, Lifecycle>,
    tags: map<Entity, string>,
    groups: map<Entity, string>,
    killed: set<Entity>,
    created: seq<Created>)

  /** The registry of a new game: no components, tags, groups, kills or
      creations. */
  const EmptyWorld: World := World(map[], map[], map[], map[], map[], map[], map[], map[], map[], map[], {}, [])

  /** `entity.HasTag(tag)`. */
  predicate HasTag(w: World, e: Entity, tag: string)
  {
    e in w.tags && w.tags[e] == tag
  }

  /** `entity.BelongsToGroup(group)`. */
  predicate BelongsToGroup(w: World, e: Entity, group: string)
  {
    e in w.groups && w.groups[e] == group
  }

  /** `entity.Kill()`: the request is recorded; repeating it changes nothing. */
  function Kill(w: World, e: Entity): (r: World)
    ensures e in r.killed
    ensures r.killed == w.killed + {e}
    ensures r.(killed := w.killed) == w
  {
    w.(killed := w.killed + {e})
  }

  /** `HasComponent<SpriteComponent>` followed by `GetComponent`. */
  function SpriteOf(w: World, e: Entity): (r: Option<Sprite>)
    ensures r.Some? <==> e in w.sprites
    ensures r.Some? ==> r.value == w.sprites[e]
  {
    if e in w.sprites then Some(w.sprites[e]) else None
  }
}
