/** The render-collider system, for the component ids its constructor draws;
    its drawing of collider outlines is not part of this model. */
module RenderColliderSystem {
  import opened Ecs

  class RenderColliderSystem {
    /** The `System` base part. */
    const system: System

    /** The constructor requires the transform and box collider components. */
    constructor (table: ComponentIds)
      requires table.Valid()
      modifies table
      ensures table.Valid()
      ensures TransformKind in table.ids && BoxColliderKind in table.ids
      ensures (table.ids, table.nextId) == Draw(Draw(old((table.ids, table.nextId)), TransformKind), BoxColliderKind)
      ensures fresh(system) && system.entities == []
      ensures Bits(system.componentSignature) == {table.ids[TransformKind], table.ids[BoxColliderKind]}
    {
      var s := new System();
      s.RequireComponent(table, TransformKind);
      ghost var transformId := table.ids[TransformKind];
      s.RequireComponent(table, BoxColliderKind);
      BitsOfTwo(transformId, table.ids[BoxColliderKind]);
      system := s;
    }
  }
}
