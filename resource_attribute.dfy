/**
 * The `ResourceAttribute` marker: an immutable record of a resource path and a
 * force-type flag, attached to a field or property of a behaviour component.
 */
module ResourceAttributes {

  /** `Name` is the resource path (empty or ending in "/" means a folder);
      `ForceType` asks the store for the member's declared type. */
  datatype ResourceAttribute = ResourceAttribute(name: string, forceType: bool)

  /** The one-argument constructor `ResourceAttribute(string name)`. */
  function FromName(name: string): (a: ResourceAttribute)
    ensures a.name == name
    ensures !a.forceType
  {
    ResourceAttribute(name, false)
  }

  /** The two-argument constructor `ResourceAttribute(string name, bool forceType)`. */
  function FromNameAndForceType(name: string, forceType: bool): (a: ResourceAttribute)
    ensures a.name == name
    ensures a.forceType == forceType
  {
    ResourceAttribute(name, forceType)
  }

  /** Omitting the flag is the same as passing `false`, and both constructors keep the name. */
  lemma OneArgumentIsForceTypeFalse(name: string, forceType: bool)
    ensures FromName(name) == FromNameAndForceType(name, false)
    ensures FromNameAndForceType(name, forceType).forceType ==> FromName(name) != FromNameAndForceType(name, forceType)
  {
  }
}
