/**
 * The `MemberInfoExtensions` helpers: total dispatch over the member kind for
 * "may this member be written", "what type does it hold" and "write it".
 */
module MemberInfoExtensions {
  import opened Wrappers
  import opened Runtime

  /** Every field is writable, a property exactly when it has a setter, nothing else is. */
  function CanWrite(info: Member): (r: bool)
    ensures info.kind.Field? ==> r
    ensures info.kind.Property? ==> r == info.kind.writable
    ensures !IsFieldOrProperty(info) ==> !r
  {
    match info.kind
    case Field => true
    case Property(writable) => writable
    case _ => false
  }

  /** The element type of an array type, anything else itself. */
  function ElementOrSelf(t: Ty): Ty
  {
    if t.ArrayOf? then t.element else t
  }

  /**
   * The type a member holds. With `includeArrays`, an array-typed field or
   * property yields its element type; constructors, type infos, custom and
   * nested-type members yield null. Events and methods yield their handler or
   * return type, kept abstract as the member's `declaredType`.
   */
  function GetMemberType(info: Member, includeArrays: bool): (r: Option<Ty>)
    ensures r.None? <==> info.kind in {Constructor, TypeInfo, Custom, NestedType, All}
    ensures IsFieldOrProperty(info) && includeArrays ==> r == Some(ElementOrSelf(info.declaredType))
    ensures IsFieldOrProperty(info) && !includeArrays ==> r == Some(info.declaredType)
  {
    match info.kind
    case Event => Some(info.declaredType)
    case Field =>
      Some(if info.declaredType.ArrayOf? && includeArrays then info.declaredType.element else info.declaredType)
    case Method => Some(info.declaredType)
    case Property(_) =>
      Some(if info.declaredType.ArrayOf? && includeArrays then info.declaredType.element else info.declaredType)
    case _ => None
  }

  /**
   * For a field or property, the type with arrays included is the element type
   * of the type without, and the two agree exactly when the member is not an array.
   */
  lemma ElementTypeOfMemberType(info: Member)
    requires IsFieldOrProperty(info)
    ensures GetMemberType(info, false).Some? && GetMemberType(info, true).Some?
    ensures GetMemberType(info, true).value == ElementOrSelf(GetMemberType(info, false).value)
    ensures (GetMemberType(info, true) == GetMemberType(info, false)) <==> !info.declaredType.ArrayOf?
  {
  }

  /** The slots of `obj` after `SetValue(info, obj, value)`: only fields and properties are written. */
  function AfterSetValue(slots: map<string, Value>, info: Member, value: Value): (r: map<string, Value>)
    ensures forall n :: n != info.name ==> Lookup(r, n) == Lookup(slots, n)
    ensures IsFieldOrProperty(info) ==> Lookup(r, info.name) == Some(value)
    ensures !IsFieldOrProperty(info) ==> r == slots
  {
    match info.kind
    case Field => slots[info.name := value]
    case Property(_) => slots[info.name := value]
    case _ => slots
  }

  /** Every member `CanWrite` admits is one that `SetValue` actually assigns; the model also writes a property without a setter, where the C# write throws (README, Left out). */
  lemma WritableMembersAreAssigned(slots: map<string, Value>, info: Member, value: Value)
    ensures CanWrite(info) ==> Lookup(AfterSetValue(slots, info, value), info.name) == Some(value)
    ensures !CanWrite(info) && !info.kind.Property? ==> AfterSetValue(slots, info, value) == slots
  {
  }

  /** Reflective write of `value` into member `info` of `obj`. */
  method SetValue(info: Member, obj: Behaviour, value: Value)
    modifies obj
    ensures obj.slots == AfterSetValue(old(obj.slots), info, value)
  {
    match info.kind {
      case Field =>
        obj.slots := obj.slots[info.name := value];
      case Property(_) =>
        obj.slots := obj.slots[info.name := value];
      case _ =>
    }
  }
}
