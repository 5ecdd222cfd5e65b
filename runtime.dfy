/**
 * The part of the .NET/Unity runtime the loader observes, reduced to values:
 * types, member descriptors, asset references and the host component.
 */
module Runtime {
  import opened Wrappers
  import opened ResourceAttributes

  /** A runtime type: a named class, or an array type with its element type. */
  datatype Ty = Class(name: string) | ArrayOf(element: Ty)

  /** `typeof(UnityEngine.Object)`, the base type of every asset. */
  const UnityObject: Ty := Class("UnityEngine.Object")

  /** The `MemberTypes` cases that `CanWrite`, `GetMemberType` and `SetValue` switch on; a property carries its own `CanWrite`. */
  datatype MemberKind =
    | Constructor
    | Event
    | Field
    | Method
    | Property(writable: bool)
    | TypeInfo
    | Custom
    | NestedType
    | All

  /**
   * A member descriptor. `declaredType` is the field or property type (for an
   * event its handler type, for a method its return type); `attributes` are the
   * `ResourceAttribute`s declared on the member itself (not inherited).
   */
  datatype Member = Member(kind: MemberKind, name: string, declaredType: Ty, attributes: seq<ResourceAttribute>)

  predicate IsFieldOrProperty(m: Member)
  {
    m.kind.Field? || m.kind.Property?
  }

  /** An asset handle returned by the store; identity is all the loader uses. */
  datatype Obj = Obj(id: nat)

  /** What a member slot of the host can hold: null, one asset, or an array of assets with its element type. */
  datatype Value = Null | Ref(obj: Obj) | Arr(elementType: Ty, items: seq<Obj>)

  /** A possibly-null `UnityEngine.Object` as a slot value. */
  function AsValue(o: Option<Obj>): (v: Value)
    ensures v.Null? <==> o.None?
    ensures o.Some? ==> v == Ref(o.value)
  {
    match o
    case None => Null
    case Some(x) => Ref(x)
  }

  /** The value of slot `n`, if the host has one. */
  function Lookup(slots: map<string, Value>, n: string): Option<Value>
  {
    if n in slots then Some(slots[n]) else None
  }

  /**
   * The host component (a `MonoBehaviour`): its runtime type and the current
   * values of its member slots, keyed by member name.
   */
  class Behaviour {
    const runtimeType: Ty
    var slots: map<string, Value>

    constructor (t: Ty, initial: map<string, Value>)
      ensures runtimeType == t && slots == initial
    {
      runtimeType := t;
      slots := initial;
    }
  }
}
