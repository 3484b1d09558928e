/** The entity-component-system base: signatures, component-kind ids,
    entities, systems with their entity lists, component pools and the
    registry's stored state. */
module Ecs {

  /** Width of a signature: the number of component kinds it can record. */
  const MAX_COMPONENTS: nat := 32

  /** A `std::bitset<32>`: bit k set means "component kind k". */
  type Signature = s: seq<bool> | |s| == MAX_COMPONENTS witness seq(32, _ => false)

  /** The signature with no bit set, as a default-constructed bitset. */
  const EmptySignature: Signature := seq(32, _ => false)

  /** `bitset::set(k)`; a position at or beyond the width throws
      `out_of_range`, so the position must be in range. */
  function SetBit(s: Signature, k: nat): (r: Signature)
    requires k < MAX_COMPONENTS
    ensures r[k]
    ensures forall j | 0 <= j < MAX_COMPONENTS && j != k :: r[j] == s[j]
  {
    s[k := true]
  }

  /** The set of bit positions that are set. */
  function Bits(s: Signature): (r: set<nat>)
    ensures forall k: nat :: k in r <==> k < MAX_COMPONENTS && s[k]
  {
    set k: nat | k < MAX_COMPONENTS && s[k]
  }

  lemma SetBitIdempotent(s: Signature, k: nat)
    requires k < MAX_COMPONENTS
    ensures SetBit(SetBit(s, k), k) == SetBit(s, k)
  {
  }

  lemma {:induction false} SetBitBits(s: Signature, k: nat)
    requires k < MAX_COMPONENTS
    ensures Bits(SetBit(s, k)) == Bits(s) + {k}
  {
    var r := SetBit(s, k);
    forall j: nat ensures j in Bits(r) <==> j in Bits(s) + {k} {
      if j < MAX_COMPONENTS && j != k {
        assert r[j] == s[j];
      }
    }
  }

  /** A signature built from the empty one by setting two bits. */
  lemma BitsOfTwo(j: nat, k: nat)
    requires j < MAX_COMPONENTS && k < MAX_COMPONENTS
    ensures Bits(SetBit(SetBit(EmptySignature, j), k)) == {j, k}
  {
    assert Bits(EmptySignature) == {};
    SetBitBits(EmptySignature, j);
    SetBitBits(SetBit(EmptySignature, j), k);
  }

  /** The component structs of the program; each `Component<T>` instantiation
      is one kind. */
  datatype ComponentKind =
    | TransformKind | RigidBodyKind | SpriteKind | AnimationKind
    | BoxColliderKind | KeyboardControlKind | CameraFollowKind
    | ProjectileEmitterKind | HealthKind | DamageKind | LifecycleKind
    | TextLabelKind

  const AllKinds: set<ComponentKind> :=
    {TransformKind, RigidBodyKind, SpriteKind, AnimationKind,
     BoxColliderKind, KeyboardControlKind, CameraFollowKind,
     ProjectileEmitterKind, HealthKind, DamageKind, LifecycleKind,
     TextLabelKind}

  lemma InAllKinds(k: ComponentKind)
    ensures k in AllKinds
  {
    match k
    case TransformKind =>
    case RigidBodyKind =>
    case SpriteKind =>
    case AnimationKind =>
    case BoxColliderKind =>
    case KeyboardControlKind =>
    case CameraFollowKind =>
    case ProjectileEmitterKind =>
    case HealthKind =>
    case DamageKind =>
    case LifecycleKind =>
    case TextLabelKind =>
  }

  lemma AllKindsSize()
    ensures |AllKinds| == 12
  {
  }

  lemma {:induction false} SubsetSize<T>(a: set<T>, b: set<T>)
    requires a <= b
    ensures |a| <= |b|
  {
    if a != {} {
      var x :| x in a;
      SubsetSize(a - {x}, b - {x});
    }
  }

  /** A table that leaves out `missing` has fewer entries than there are kinds. */
  lemma {:induction false} TableMissesAKind(m: map<ComponentKind, nat>, missing: ComponentKind)
    requires missing !in m
    ensures |m| < 12
  {
    forall k | k in m.Keys ensures k in AllKinds - {missing} {
      InAllKinds(k);
    }
    InAllKinds(missing);
    AllKindsSize();
    SubsetSize(m.Keys, AllKinds - {missing});
  }

  lemma {:induction false} TableSize(m: map<ComponentKind, nat>)
    ensures |m| <= 12
  {
    forall k | k in m.Keys ensures k in AllKinds {
      InAllKinds(k);
    }
    AllKindsSize();
    SubsetSize(m.Keys, AllKinds);
  }

  /** The table `t`, ids and counter, after one `Component<T>::GetId` call
      for `kind`: an unseen kind takes the counter's value and the counter
      moves on. */
  ghost function Draw(t: (map<ComponentKind, nat>, nat), kind: ComponentKind): (map<ComponentKind, nat>, nat)
  {
    if kind in t.0 then t else (t.0[kind := t.1], t.1 + 1)
  }

  /** Ids handed out so far, `ids`, are exactly 0 .. n-1, one per kind. */
  ghost predicate TableValid(ids: map<ComponentKind, nat>, n: nat)
  {
    && |ids| == n
    && (forall k | k in ids :: ids[k] < n)
    && (forall k, k' | k in ids && k' in ids && ids[k] == ids[k'] :: k == k')
  }

  /** Giving a kind without an id the next value of the counter keeps the
      table valid, and that value is below `MAX_COMPONENTS`. */
  lemma NextIdValid(ids: map<ComponentKind, nat>, n: nat, kind: ComponentKind)
    requires TableValid(ids, n) && kind !in ids
    ensures n < MAX_COMPONENTS
    ensures TableValid(ids[kind := n], n + 1)
  {
    TableMissesAKind(ids, kind);
    var after := ids[kind := n];
    assert after.Keys == ids.Keys + {kind};
    assert forall k | k in ids :: after[k] == ids[k] < n;
  }

  /** The process-wide id counter of `IComponent::nextId` together with the
      id each `Component<T>::GetId` has latched in its function-local static. */
  class ComponentIds {
    var nextId: nat
    var ids: map<ComponentKind, nat>

    /** Ids handed out so far are exactly 0 .. nextId-1, one per kind. */
    ghost predicate Valid()
      reads this
    {
      TableValid(ids, nextId)
    }

    constructor ()
      ensures Valid() && ids == map[] && nextId == 0
    {
      nextId := 0;
      ids := map[];
    }

    /** `Component<T>::GetId`: the first call for a kind takes the next value of
        the counter; every later call returns the same id. */
    method GetId(kind: ComponentKind) returns (id: nat)
      requires Valid()
      modifies this
      ensures Valid()
      ensures kind in ids && ids[kind] == id
      ensures id < MAX_COMPONENTS
      ensures kind in old(ids) ==> id == old(ids[kind]) && ids == old(ids) && nextId == old(nextId)
      ensures kind !in old(ids) ==>
                id == old(nextId) && nextId == old(nextId) + 1 && ids == old(ids)[kind := id]
    {
      TableSize(ids);
      if kind in ids {
        id := ids[kind];
      } else {
        NextIdValid(ids, nextId, kind);
        id := nextId;
        ids, nextId := ids[kind := id], nextId + 1;
      }
    }
  }

  /** An entity is its integer id. */
  datatype Entity = Entity(id: int) {

    /** `Entity::GetId`: the id the entity was constructed with. */
    function GetId(): (r: int)
      ensures Entity(r) == this
    {
      id
    }
  }

  /** `Entity::operator==`: two handles are equal when their ids are. */
  function Same(a: Entity, b: Entity): (r: bool)
    ensures r <==> a == b
  {
    a.GetId() == b.GetId()
  }

  /** `std::erase(v, e)`: every element equal to e removed, the rest kept in order. */
  function Erased(s: seq<Entity>, e: Entity): (r: seq<Entity>)
    ensures |r| <= |s|
    ensures e !in r
    ensures forall x | x in r :: x in s
  {
    if s == [] then []
    else (if Same(s[0], e) then [] else [s[0]]) + Erased(s[1..], e)
  }

  /** Erasing distributes over concatenation: the relative order of the
      survivors is kept. */
  lemma {:induction false} ErasedAppend(s: seq<Entity>, t: seq<Entity>, e: Entity)
    ensures Erased(s + t, e) == Erased(s, e) + Erased(t, e)
  {
    if s == [] {
      assert s + t == t;
    } else {
      assert (s + t)[1..] == s[1..] + t;
      ErasedAppend(s[1..], t, e);
    }
  }

  /** Erasing an entity that is not in the list changes nothing. */
  lemma {:induction false} ErasedAbsent(s: seq<Entity>, e: Entity)
    requires e !in s
    ensures Erased(s, e) == s
  {
    if s != [] {
      ErasedAbsent(s[1..], e);
    }
  }

  /** Every other entity keeps its number of occurrences. */
  lemma {:induction false} ErasedCounts(s: seq<Entity>, e: Entity, x: Entity)
    ensures multiset(Erased(s, e))[x] == if x == e then 0 else multiset(s)[x]
  {
    if s != [] {
      assert s == [s[0]] + s[1..];
      ErasedCounts(s[1..], e, x);
    }
  }

  /** A system: the signature its entities must have, and the entities it
      currently processes, in insertion order. */
  class System {
    var componentSignature: Signature
    var entities: seq<Entity>

    constructor ()
      ensures componentSignature == EmptySignature && entities == []
    {
      componentSignature := EmptySignature;
      entities := [];
    }

    /** `AddEntityToSystem`: append, with no check for duplicates. */
    method AddEntityToSystem(entity: Entity)
      modifies this
      ensures entities == old(entities) + [entity]
      ensures componentSignature == old(componentSignature)
    {
      entities := entities + [entity];
    }

    /** `RemoveEntityFromSystem`: drop every occurrence of the entity. */
    method RemoveEntityFromSystem(entity: Entity)
      modifies this
      ensures entities == Erased(old(entities), entity)
      ensures entity !in entities
      ensures componentSignature == old(componentSignature)
    {
      entities := Erased(entities, entity);
    }

    function GetSystemEntities(): (r: seq<Entity>)
      reads this
      ensures r == entities
    {
      entities
    }

    /** `GetComponentSignature`: the required signature, as stored. */
    function GetComponentSignature(): (r: Signature)
      reads this
      ensures r == componentSignature
    {
      componentSignature
    }

    /** `RequireComponent<T>`: sets the bit of T's id, numbering T first if
        this is its first use. */
    method RequireComponent(table: ComponentIds, kind: ComponentKind)
      requires table.Valid()
      modifies this, table
      ensures table.Valid()
      ensures kind in table.ids
      ensures kind in old(table.ids) ==> table.ids == old(table.ids) && table.nextId == old(table.nextId)
      ensures kind !in old(table.ids) ==>
                table.ids == old(table.ids)[kind := old(table.nextId)] && table.nextId == old(table.nextId) + 1
      ensures (table.ids, table.nextId) == Draw(old((table.ids, table.nextId)), kind)
      ensures table.ids[kind] < MAX_COMPONENTS
      ensures componentSignature == SetBit(old(componentSignature), table.ids[kind])
      ensures entities == old(entities)
    {
      var id := table.GetId(kind);
      componentSignature := SetBit(componentSignature, id);
    }
  }

  /** `Pool<T>`: a vector of component values addressed by index. */
  class Pool<T> {
    var data: seq<T>
    /** The value a default-constructed `T` has; `resize` fills with it. */
    const blank: T

    /** `Pool(size = 100)`: `size` default values. */
    constructor (blank: T, size: nat := 100)
      ensures this.blank == blank
      ensures |data| == size
      ensures forall i | 0 <= i < size :: data[i] == blank
    {
      this.blank := blank;
      data := seq(size, _ => blank);
    }

    function GetSize(): (n: nat)
      reads this
      ensures n == |data|
    {
      |data|
    }

    function IsEmpty(): (r: bool)
      reads this
      ensures r <==> GetSize() == 0
    {
      |data| == 0
    }

    /** `Resize(n)`: the first min(old, n) values are kept, new slots are blank. */
    method Resize(n: nat)
      modifies this
      ensures GetSize() == n
      ensures forall i | 0 <= i < n && i < old(GetSize()) :: data[i] == old(data[i])
      ensures forall i | old(GetSize()) <= i < n :: data[i] == blank
    {
      if n <= |data| {
        data := data[..n];
      } else {
        data := data + seq(n - |data|, _ => blank);
      }
    }

    method Clear()
      modifies this
      ensures IsEmpty()
    {
      data := [];
    }

    /** `Add(x)`: `push_back`. */
    method Add(value: T)
      modifies this
      ensures GetSize() == old(GetSize()) + 1
      ensures Get(GetSize() - 1) == value
      ensures forall i | 0 <= i < old(GetSize()) :: Get(i) == old(Get(i))
    {
      data := data + [value];
    }

    /** `Set(i, x)`: vector indexing is unchecked, so i must be in range. */
    method Set(index: int, value: T)
      requires 0 <= index < GetSize()
      modifies this
      ensures GetSize() == old(GetSize())
      ensures Get(index) == value
      ensures forall i | 0 <= i < GetSize() && i != index :: Get(i) == old(Get(i))
    {
      data := data[index := value];
    }

    /** `Get(i)` and `operator[]`: the value stored at i. */
    function Get(index: int): (r: T)
      reads this
      requires 0 <= index < GetSize()
      ensures r == data[index]
    {
      data[index]
    }
  }

  /** The registry as far as it is written: an entity counter and a vector of
      type-erased pool pointers, indexed by component id. */
  class Registry {
    var numEntities: int
    var componentPools: seq<object?>

    constructor ()
      ensures numEntities == 0 && componentPools == []
    {
      numEntities := 0;
      componentPools := [];
    }
  }
}
