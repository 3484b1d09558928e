/** The event records carried by the event bus. */
module Events {
  import opened Ecs

  datatype EventKind = CollisionKind | KeyPressedKind | KeyReleasedKind

  datatype Event =
    | CollisionEvent(a: Entity, b: Entity)
    | KeyPressedEvent(key: string)
    | KeyReleasedEvent(key: string)

  /** The event type, which the C++ code takes from the template argument. */
  function KindOf(e: Event): EventKind
  {
    match e
    case CollisionEvent(_, _) => CollisionKind
    case KeyPressedEvent(_) => KeyPressedKind
    case KeyReleasedEvent(_) => KeyReleasedKind
  }
}
