/** The keyboard movement system: it listens to key presses and only logs
    them. */
module KeyboardMovementSystem {
  import opened Ecs
  import opened Events
  import opened EventBus
  import opened Scene

  /** `onKeyPress`: the log line is its only effect, so neither the world nor
      the event changes. */
  function OnKeyPress(): Callback<World>
  {
    (w: World, e: Event) => (w, e)
  }

  /** A key press emitted on a bus whose only key-press handler is this one
      leaves the world and the event as they were. */
  lemma {:induction false} EmitKeyPress(m: Subscribers<World>, w: World, key: string)
    requires Handlers(m, KeyPressedKind) == [OnKeyPress()]
    ensures Runs(Handlers(m, KeyPressedKind), w, KeyPressedEvent(key))
    ensures Dispatch(Handlers(m, KeyPressedKind), w, KeyPressedEvent(key)) == (w, KeyPressedEvent(key))
  {
    var hs := Handlers(m, KeyPressedKind);
    assert hs[0](w, KeyPressedEvent(key)) == (w, KeyPressedEvent(key));
    assert hs[1..] == [];
  }

  class KeyboardMovementSystem {
    /** The `System` base part. */
    const system: System

    /** The constructor requires the sprite and rigid body components. */
    constructor (table: ComponentIds)
      requires table.Valid()
      modifies table
      ensures table.Valid()
      ensures SpriteKind in table.ids && RigidBodyKind in table.ids
      ensures (table.ids, table.nextId) == Draw(Draw(old((table.ids, table.nextId)), SpriteKind), RigidBodyKind)
      ensures fresh(system) && system.entities == []
      ensures Bits(system.componentSignature) == {table.ids[SpriteKind], table.ids[RigidBodyKind]}
    {
      var s := new System();
      s.RequireComponent(table, SpriteKind);
      ghost var spriteId := table.ids[SpriteKind];
      s.RequireComponent(table, RigidBodyKind);
      BitsOfTwo(spriteId, table.ids[RigidBodyKind]);
      system := s;
    }

    /** `SubscribeToEvents`: `onKeyPress` goes last in the key-press list. */
    method SubscribeToEvents(bus: EventBus<World>)
      modifies bus
      ensures bus.subscribers == Subscribed(old(bus.subscribers), KeyPressedKind, OnKeyPress())
    {
      bus.SubscribeToEvent(KeyPressedKind, OnKeyPress());
    }

    /** `Update`: its body is empty, so the system moves nothing. */
    method Update(w: World) returns (r: World)
      ensures r == w
    {
      r := w;
    }
  }
}
