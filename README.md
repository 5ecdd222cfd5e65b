# ResourceAttribute loader, modelled in Dafny

This project models the Unity `ResourceAttribute` library. A component marks some of
its fields or properties with `[Resource(name)]` or `[Resource(name, forceType)]`.
Calling `behaviour.LoadResources()` then fills those members with assets from Unity's
resource store.

The loader has two parts:

- **Discovery.** It lists the members of the component's type that are fields or
  properties, hold `UnityEngine.Object` or a subclass of it (or an array of such), and
  carry exactly one `ResourceAttribute`. The list is computed once per type and kept in
  a static dictionary.
- **Population.** For each discovered member:
  - A *folder* path (empty, or ending in `/`) calls `Resources.LoadAll`. An empty result
    is skipped. Only array members are assigned; element types narrower than
    `UnityEngine.Object` get a freshly copied array.
  - Any other path calls `Resources.Load`, with the declared type only when `ForceType`
    is set. The result is always assigned.

Modules, in dependency order:

- `Wrappers` (`wrappers.dfy`): `Option`, which stands for a nullable reference.
- `ResourceAttributes` (`resource_attribute.dfy`): the attribute record and its two
  constructors.
- `Runtime` (`runtime.dfy`): the runtime as values. It holds types (`Class`, `ArrayOf`),
  member kinds, member descriptors, asset handles and slot values. It also holds the host
  component, a class `Behaviour` with a runtime type and a name-keyed map of slot values.
- `MemberInfoExtensions` (`member_info_extensions.dfy`): `CanWrite`, `GetMemberType`
  and `SetValue`. `SetValue` is a method that writes the host and is specified by the
  function `AfterSetValue`.
- `RAExtensions` (`ra_extensions.dfy`):
  - the discovery filter `Discover`;
  - the per-member decision: `RequestFor` (which store call is made) and `Assignment`
    (what is written, if anything);
  - the loop's effect as the fold `Populate`;
  - the imperative code: `LoadMember` (the loop body), `CopyToNewArray` (the copying
    `for` loop), `PopulateMembers` (the `foreach`);
  - the class `ResourceLoader`, which holds the `TypeMembers` cache and has
    `ScanMembers` (the counted reflective scan), `ResolveMembers` and `LoadResources`.

Reflection and the store are inputs:

- `Reflection` holds the member list of each type and the subclass test, which stands
  for `Type.IsSubclassOf`; nothing is assumed about it.
- `Store` holds `load` and `loadAll`. They are total functions and nothing is assumed
  about what they return. A type argument of `None` stands for the overload without a
  type.

The ghost counter `ResourceLoader.scans` counts how often discovery ran. The class
invariant `Valid()` says two things: every cached entry equals what discovery gives for
its type, and `scans` equals the number of cached types.

Two behaviours of the code are easy to misread:

- **Order.** The line at `ResourceAttribute.cs:99` builds `OrderBy(kind).ThenBy(name)`
  and throws the result away. No sort happens, so the cached list keeps reflection's
  order. The model does not sort. `DiscoveredListIsNotSorted` exhibits a cached list of
  fields `z`, `a` that stays unsorted.
- **Read-only properties.** The filter at lines 94-97 never consults `CanWrite`.
  Properties without a setter are therefore discovered, and `SetValue` is applied to
  them.

## Model

| member | source | states |
|---|---|---|
| `ResourceAttributes.FromName` | ResourceAttribute/Assets/ResourceAttribute/ResourceAttribute.cs:153-156 | the one-argument constructor keeps the name and sets `ForceType` to false |
| `ResourceAttributes.FromNameAndForceType` | ResourceAttribute/Assets/ResourceAttribute/ResourceAttribute.cs:158-161 | the two-argument constructor keeps the name and the flag as given |
| `ResourceAttributes.OneArgumentIsForceTypeFalse` | ResourceAttribute/Assets/ResourceAttribute/ResourceAttribute.cs:153-161 | the one-argument form equals the two-argument form with `false`, and differs from it when the flag is true |
| `MemberInfoExtensions.CanWrite` | ResourceAttribute/Assets/ResourceAttribute/ResourceAttribute.cs:13-30 | true for every field, the property's own `CanWrite` for a property, false for every other kind |
| `MemberInfoExtensions.GetMemberType` | ResourceAttribute/Assets/ResourceAttribute/ResourceAttribute.cs:32-54 | null exactly for constructor, type-info, custom, nested-type and `All`; for a field or property, the element type of an array when arrays are included, the declared type otherwise |
| `MemberInfoExtensions.ElementTypeOfMemberType` | ResourceAttribute/Assets/ResourceAttribute/ResourceAttribute.cs:37-45 | for a field or property, the type with arrays included is the element type of the type without; the two agree exactly for non-arrays |
| `MemberInfoExtensions.AfterSetValue` | ResourceAttribute/Assets/ResourceAttribute/ResourceAttribute.cs:56-76 | a field or property slot receives the value; for other kinds the host is unchanged; no other slot changes; for properties, under the plain-store abstraction (see Left out) |
| `MemberInfoExtensions.WritableMembersAreAssigned` | ResourceAttribute/Assets/ResourceAttribute/ResourceAttribute.cs:13-76 | every member `CanWrite` admits is assigned by `SetValue`; a non-writable member that is not a property is left alone |
| `MemberInfoExtensions.SetValue` | ResourceAttribute/Assets/ResourceAttribute/ResourceAttribute.cs:56-76 | the reflective write leaves the host's slots as `AfterSetValue` describes |
| `RAExtensions.IsLoadable` | ResourceAttribute/Assets/ResourceAttribute/ResourceAttribute.cs:94-97 | the `Where` predicate; every member it admits is a field or property with exactly one attribute |
| `RAExtensions.LoadableByElementType` | ResourceAttribute/Assets/ResourceAttribute/ResourceAttribute.cs:94-97 | a member passes the filter iff it is a field or property, its element-or-declared type is `UnityEngine.Object` or a subclass, and it has exactly one attribute |
| `RAExtensions.Discover` | ResourceAttribute/Assets/ResourceAttribute/ResourceAttribute.cs:93-97 | the discovered list holds exactly the listed members that pass the filter, and is no longer than the listing |
| `RAExtensions.DiscoverCounts` | ResourceAttribute/Assets/ResourceAttribute/ResourceAttribute.cs:93-97 | each passing member occurs as often as in the listing; every other member does not occur |
| `RAExtensions.DiscoverAppend` | ResourceAttribute/Assets/ResourceAttribute/ResourceAttribute.cs:93-97 | the filter keeps relative order: filtering a concatenation concatenates the filtered parts |
| `RAExtensions.DiscoverIdempotent` | ResourceAttribute/Assets/ResourceAttribute/ResourceAttribute.cs:93-97 | filtering an already discovered list returns it unchanged |
| `RAExtensions.DiscoveredListIsNotSorted` | ResourceAttribute/Assets/ResourceAttribute/ResourceAttribute.cs:99-100 | the discarded sort leaves the stored list in listing order: fields `z`, `a` are stored as `[z, a]`, which is not sorted by kind then name |
| `RAExtensions.DiscoveredAreCandidates` | ResourceAttribute/Assets/ResourceAttribute/ResourceAttribute.cs:95-106 | every discovered member is a field or property with exactly one attribute, so reading `[0]` and the member types in the loop is safe |
| `RAExtensions.IsFolderPath` | ResourceAttribute/Assets/ResourceAttribute/ResourceAttribute.cs:108 | folder mode is chosen exactly when the name is empty or its last character is `/` |
| `RAExtensions.RequestFor` | ResourceAttribute/Assets/ResourceAttribute/ResourceAttribute.cs:104-139 | one call per member, on the attribute's path. `LoadAll` iff folder path, typed with the element type unless that is exactly `UnityEngine.Object`. Otherwise `Load`, typed with the declared type iff `ForceType` |
| `RAExtensions.OneArgumentAttributeLoadsUntyped` | ResourceAttribute/Assets/ResourceAttribute/ResourceAttribute.cs:135-156 | a member annotated with the one-argument constructor and a non-folder path calls `Load` without a type |
| `RAExtensions.Assignment` | ResourceAttribute/Assets/ResourceAttribute/ResourceAttribute.cs:119-141 | the write decision for one member. Single mode always writes the `Load` result, null included. Folder mode writes iff the member is an array and `LoadAll` returned something, and then writes the loaded sequence with the element type |
| `RAExtensions.Step` | ResourceAttribute/Assets/ResourceAttribute/ResourceAttribute.cs:119-141 | one loop iteration changes at most the member's own slot, and that slot ends up holding the member's assignment when there is one, else its previous value; for properties, under the plain-store abstraction (see Left out) |
| `RAExtensions.Populate` | ResourceAttribute/Assets/ResourceAttribute/ResourceAttribute.cs:103-143 | the effect of the `foreach` over the member list: no slot is removed, and the only slots added are named by members |
| `RAExtensions.Requests` | ResourceAttribute/Assets/ResourceAttribute/ResourceAttribute.cs:103-143 | the store calls of the `foreach`, one per member |
| `RAExtensions.OneRequestPerMember` | ResourceAttribute/Assets/ResourceAttribute/ResourceAttribute.cs:103-143 | the loop makes exactly one store call per cached member, in cached order |
| `RAExtensions.PopulateUntouched` | ResourceAttribute/Assets/ResourceAttribute/ResourceAttribute.cs:103-143 | a slot named by no cached member keeps its value; for properties, under the plain-store abstraction (see Left out) |
| `RAExtensions.PopulateFrame` | ResourceAttribute/Assets/ResourceAttribute/ResourceAttribute.cs:103-143 | all slots named by no cached member keep their values; for properties, under the plain-store abstraction (see Left out) |
| `RAExtensions.PopulateAt` | ResourceAttribute/Assets/ResourceAttribute/ResourceAttribute.cs:103-143 | with distinct member names, each member's slot ends up as its own iteration alone would leave it |
| `RAExtensions.SingleModeOverwrites` | ResourceAttribute/Assets/ResourceAttribute/ResourceAttribute.cs:132-141 | single mode leaves the member holding `Load(name, ForceType ? declaredType : none)`, null when not found, whatever it held before |
| `RAExtensions.FolderModeAssignsArrays` | ResourceAttribute/Assets/ResourceAttribute/ResourceAttribute.cs:108-131 | in folder mode, an empty `LoadAll` result or a non-array member keeps the previous value. Otherwise the array member holds the loaded sequence with the element type, same length, elements and order |
| `RAExtensions.CopyToNewArray` | ResourceAttribute/Assets/ResourceAttribute/ResourceAttribute.cs:125-128 | the new array has the loaded sequence's length and holds its elements in order |
| `RAExtensions.LoadMember` | ResourceAttribute/Assets/ResourceAttribute/ResourceAttribute.cs:104-142 | the loop body makes the store call `RequestFor` names and leaves the host as `Step` describes |
| `RAExtensions.PopulateMembers` | ResourceAttribute/Assets/ResourceAttribute/ResourceAttribute.cs:103-143 | the `foreach` leaves the host as `Populate` over the member list and makes the calls `Requests` lists |
| `Runtime.Behaviour.constructor` | ResourceAttribute/Assets/ResourceAttribute/ResourceAttribute.cs:84-85 | the host component: its runtime type, as `GetType` gives it, and its member slots as given |
| `RAExtensions.ResourceLoader.constructor` | ResourceAttribute/Assets/ResourceAttribute/ResourceAttribute.cs:82 | the cache starts empty and valid |
| `RAExtensions.ResourceLoader.ScanMembers` | ResourceAttribute/Assets/ResourceAttribute/ResourceAttribute.cs:93-97 | the reflective scan returns the discovered list, counts one discovery and leaves the cache unchanged |
| `RAExtensions.ResourceLoader.ResolveMembers` | ResourceAttribute/Assets/ResourceAttribute/ResourceAttribute.cs:88-101 | afterwards the type is cached with the discovered list. A hit returns the stored list with no new discovery and no change to the cache. A miss discovers once and adds only that entry. No entry is ever removed or replaced |
| `RAExtensions.ResourceLoader.LoadResources` | ResourceAttribute/Assets/ResourceAttribute/ResourceAttribute.cs:84-144 | the cache behaves as in `ResolveMembers`, and the host ends up as `Populate` over the cached list for its runtime type |

## Left out

- .NET reflection (`GetMembers`, `GetCustomAttributes`, `IsSubclassOf`, `Array.CreateInstance`) is replaced by the `Reflection` input and by member descriptors. Which members reflection lists, including hidden or inherited ones, is not modelled.
- `Resources.Load` and `Resources.LoadAll` are foreign engine calls. They are the uninterpreted `Store` functions, and what they return is not modelled. Exceptions they raise, which would propagate out of `LoadResources` part-way through, are not modelled.
- Runtime checks of .NET's own reflective write are not modelled. Writing a property that has no setter raises an exception; so does writing an asset whose runtime type does not fit the member. The model treats every field and property write as succeeding.
- Property setter code is not modelled. A property write runs the property's setter, which may change other members; an auto-property's setter stores into its compiler-generated backing field, which reflection also lists as a field. The model writes a property as a plain store into the property's own slot.
- `MemberInfoExtensions.AfterSetValue`: its "no other slot changes" frame holds for properties only under the plain-store abstraction above.
- `RAExtensions.Step`: its frame over the other slots holds for properties only under the plain-store abstraction above.
- `RAExtensions.PopulateUntouched`: holds for properties only under the plain-store abstraction above; a backing field keeps its value here but not in the C# code.
- `RAExtensions.PopulateFrame`: holds for properties only under the plain-store abstraction above.
- Array identity is not modelled. A slot holds an array's element type and contents, so the model does not show that the `UnityEngine.Object[]` case stores the store's own array while the other case stores a fresh copy.
- Slots are keyed by member name. Two discovered members with the same name, as with `new`-hidden fields, share one slot: the later write wins.
- The static dictionary is modelled as one `ResourceLoader` object. Its process-wide lifetime and its lack of thread safety are not modelled.
- A null attribute name is modelled as the empty string. `string.IsNullOrEmpty` treats the two alike; the store would see null instead of `""`.
- `String.EndsWith("/")` is culture-sensitive in .NET and is modelled as an ordinal suffix test.
- The handler type of an event and the return type of a method are kept abstract as the descriptor's declared type. Such members never pass the discovery filter.
- The `MonoBehaviour` host and the engine lifecycle are left out. `Assets/Tester.cs` is a demonstration component with no logic of its own and is not part of this model.
- `RAExtensions.PopulateAt` requires distinct member names, because slots are keyed by name and members that share a name share one slot.
- `RAExtensions.SingleModeOverwrites` requires distinct member names, for the same reason.
- `RAExtensions.FolderModeAssignsArrays` requires distinct member names, for the same reason. Without distinct names, the final slot value is the one the last member of that name writes, as `Populate` defines.
