/**
 * `RAExtensions.LoadResources`: discover the annotated asset members of a
 * component's type (memoised per type), then fill each one from the resource
 * store, as a batch for folder paths and as a single asset otherwise.
 */
module RAExtensions {
  import opened Wrappers
  import opened ResourceAttributes
  import opened Runtime
  import opened MemberInfoExtensions

  /**
   * The reflection the loader relies on: the instance members (public and
   * non-public) of a type, and the strict subclass test `Type.IsSubclassOf`.
   * Both are fixed for the lifetime of the process.
   */
  datatype Reflection = Reflection(getMembers: Ty -> seq<Member>, isSubclassOf: (Ty, Ty) -> bool)

  /**
   * The resource store: `Resources.Load` and `Resources.LoadAll`, where a type
   * argument of `None` stands for the overload that takes no type.
   */
  datatype Store = Store(load: (string, Option<Ty>) -> Option<Obj>, loadAll: (string, Option<Ty>) -> seq<Obj>)

  // ---------------------------------------------------------------------------
  // Member discovery
  // ---------------------------------------------------------------------------

  /** The condition of the `Where` clause: a field or property holding (arrays of) `UnityEngine.Object` with exactly one attribute. */
  predicate IsLoadable(m: Member, isSubclassOf: (Ty, Ty) -> bool)
    ensures IsLoadable(m, isSubclassOf) ==> IsCandidate(m)
  {
    && IsFieldOrProperty(m)
    && (var t := GetMemberType(m, true); t.Some? && (isSubclassOf(t.value, UnityObject) || t.value == UnityObject))
    && |m.attributes| == 1
  }

  /** The filter stated without `GetMemberType`: on the element type of arrays and the declared type otherwise. */
  lemma LoadableByElementType(m: Member, isSubclassOf: (Ty, Ty) -> bool)
    ensures IsLoadable(m, isSubclassOf) <==>
      && IsFieldOrProperty(m)
      && (ElementOrSelf(m.declaredType) == UnityObject || isSubclassOf(ElementOrSelf(m.declaredType), UnityObject))
      && |m.attributes| == 1
  {
  }

  /**
   * `GetMembers(...).Where(IsLoadable).ToList()`: the loadable members, in the
   * order reflection lists them, each as often as it occurs there.
   */
  function Discover(members: seq<Member>, isSubclassOf: (Ty, Ty) -> bool): (r: seq<Member>)
    ensures |r| <= |members|
    ensures forall m :: m in r <==> m in members && IsLoadable(m, isSubclassOf)
  {
    if members == [] then []
    else
      assert members == [members[0]] + members[1..];
      (if IsLoadable(members[0], isSubclassOf) then [members[0]] else []) + Discover(members[1..], isSubclassOf)
  }

  /** Each loadable member is kept as often as reflection lists it, every other member not at all. */
  lemma {:induction false} DiscoverCounts(members: seq<Member>, isSubclassOf: (Ty, Ty) -> bool, m: Member)
    ensures multiset(Discover(members, isSubclassOf))[m] == if IsLoadable(m, isSubclassOf) then multiset(members)[m] else 0
  {
    if members != [] {
      assert members == [members[0]] + members[1..];
      DiscoverCounts(members[1..], isSubclassOf, m);
    }
  }

  /** The filter keeps relative order: discovering a concatenation concatenates the discoveries. */
  lemma {:induction false} DiscoverAppend(a: seq<Member>, b: seq<Member>, isSubclassOf: (Ty, Ty) -> bool)
    ensures Discover(a + b, isSubclassOf) == Discover(a, isSubclassOf) + Discover(b, isSubclassOf)
  {
    if a == [] {
      assert a + b == b;
    } else {
      assert (a + b)[0] == a[0];
      assert (a + b)[1..] == a[1..] + b;
      DiscoverAppend(a[1..], b, isSubclassOf);
    }
  }

  /** Discovering an already discovered list changes nothing. */
  lemma {:induction false} DiscoverIdempotent(members: seq<Member>, isSubclassOf: (Ty, Ty) -> bool)
    ensures Discover(Discover(members, isSubclassOf), isSubclassOf) == Discover(members, isSubclassOf)
  {
    if members != [] {
      var head := if IsLoadable(members[0], isSubclassOf) then [members[0]] else [];
      var tail := Discover(members[1..], isSubclassOf);
      DiscoverAppend(head, tail, isSubclassOf);
      if head != [] {
        assert head[1..] == [];
      }
      DiscoverIdempotent(members[1..], isSubclassOf);
    }
  }

  /** The numeric values of `MemberTypes`, the first key of the sort `LoadResources` builds. */
  function KindCode(k: MemberKind): nat
  {
    match k
    case Constructor => 1
    case Event => 2
    case Field => 4
    case Method => 8
    case Property(_) => 16
    case TypeInfo => 32
    case Custom => 64
    case NestedType => 128
    case All => 191
  }

  /**
   * Ordinal lexicographic order on names. The second key of that sort uses .NET's
   * culture-dependent default string comparer; this is an ordinal stand-in that
   * agrees with it on the names "z" and "a" used below.
   */
  predicate NameAtMost(a: string, b: string)
  {
    a == [] || (b != [] && (a[0] < b[0] || (a[0] == b[0] && NameAtMost(a[1..], b[1..]))))
  }

  /** Ordered by member kind, then by name. */
  predicate SortedByKindThenName(ms: seq<Member>)
  {
    forall i, j :: 0 <= i < j < |ms| ==>
      KindCode(ms[i].kind) < KindCode(ms[j].kind)
      || (KindCode(ms[i].kind) == KindCode(ms[j].kind) && NameAtMost(ms[i].name, ms[j].name))
  }

  /**
   * The sort at the discovery step is computed and discarded, so the cached
   * list is not sorted: two annotated fields listed as "z", "a" stay in that order.
   */
  lemma DiscoveredListIsNotSorted(isSubclassOf: (Ty, Ty) -> bool)
    ensures
      var z := Member(Field, "z", UnityObject, [FromName("Z")]);
      var a := Member(Field, "a", UnityObject, [FromName("A")]);
      Discover([z, a], isSubclassOf) == [z, a] && !SortedByKindThenName([z, a])
  {
    var z := Member(Field, "z", UnityObject, [FromName("Z")]);
    var a := Member(Field, "a", UnityObject, [FromName("A")]);
    assert [z, a][1..] == [a];
    assert [a][1..] == [];
    assert !NameAtMost("z", "a");
  }

  // ---------------------------------------------------------------------------
  // What one member causes
  // ---------------------------------------------------------------------------

  /** Ordinal `String.EndsWith`. */
  predicate EndsWith(s: string, suffix: string)
  {
    |suffix| <= |s| && s[|s| - |suffix|..] == suffix
  }

  /**
   * `string.IsNullOrEmpty(name) || name.EndsWith("/")`: the path names a folder,
   * exactly for the empty name and for names whose last character is a slash.
   */
  predicate IsFolderPath(name: string)
    ensures IsFolderPath(name) <==> |name| == 0 || name[|name| - 1] == '/'
  {
    name == "" || EndsWith(name, "/")
  }

  /** A member that reaches the population loop: a field or property with its one attribute. */
  predicate IsCandidate(m: Member)
  {
    IsFieldOrProperty(m) && |m.attributes| == 1
  }

  predicate AllCandidates(ms: seq<Member>)
  {
    forall i :: 0 <= i < |ms| ==> IsCandidate(ms[i])
  }

  /** Every discovered member reaches the population loop. */
  lemma DiscoveredAreCandidates(members: seq<Member>, isSubclassOf: (Ty, Ty) -> bool)
    ensures AllCandidates(Discover(members, isSubclassOf))
  {
    var r := Discover(members, isSubclassOf);
    forall i | 0 <= i < |r| ensures IsCandidate(r[i]) {
      assert r[i] in r;
    }
  }

  /** One call into the store. */
  datatype Request =
    | LoadRequest(path: string, typeArg: Option<Ty>)
    | LoadAllRequest(path: string, typeArg: Option<Ty>)

  /** The store call made for member `m`. */
  function RequestFor(m: Member): (r: Request)
    requires IsCandidate(m)
    ensures r.path == m.attributes[0].name
    ensures r.LoadAllRequest? <==> IsFolderPath(m.attributes[0].name)
    ensures r.LoadAllRequest? ==>
      r.typeArg == if ElementOrSelf(m.declaredType) == UnityObject then None else Some(ElementOrSelf(m.declaredType))
    ensures r.LoadRequest? ==>
      (r.typeArg.Some? <==> m.attributes[0].forceType) && (r.typeArg.Some? ==> r.typeArg.value == m.declaredType)
  {
    var attribute := m.attributes[0];
    var memberType := GetMemberType(m, false).value;
    var elementType := GetMemberType(m, true).value;
    if IsFolderPath(attribute.name) then
      LoadAllRequest(attribute.name, if elementType == UnityObject then None else Some(elementType))
    else
      LoadRequest(attribute.name, if attribute.forceType then Some(memberType) else None)
  }

  /** A member annotated with the one-argument constructor and a non-folder path asks the store untyped. */
  lemma OneArgumentAttributeLoadsUntyped(m: Member, name: string)
    requires IsCandidate(m) && m.attributes[0] == FromName(name) && !IsFolderPath(name)
    ensures RequestFor(m) == LoadRequest(name, None)
  {
  }

  /**
   * The value written into member `m`, or `None` when the member is left as it
   * is: single mode always writes what `Load` returned; folder mode writes only
   * an array member, and only when `LoadAll` returned something.
   */
  function Assignment(m: Member, store: Store): (r: Option<Value>)
    requires IsCandidate(m)
    ensures
      var call := RequestFor(m);
      && (r.Some? <==> !IsFolderPath(m.attributes[0].name) || (m.declaredType.ArrayOf? && |store.loadAll(call.path, call.typeArg)| > 0))
      && (!IsFolderPath(m.attributes[0].name) ==> r == Some(AsValue(store.load(call.path, call.typeArg))))
      && (IsFolderPath(m.attributes[0].name) && r.Some? ==> r.value == Arr(m.declaredType.element, store.loadAll(call.path, call.typeArg)))
  {
    var memberType := GetMemberType(m, false).value;
    var elementType := GetMemberType(m, true).value;
    match RequestFor(m)
    case LoadAllRequest(path, typeArg) =>
      var resources := store.loadAll(path, typeArg);
      if |resources| == 0 then None
      else if memberType.ArrayOf? then Some(Arr(elementType, resources))
      else None
    case LoadRequest(path, typeArg) =>
      Some(AsValue(store.load(path, typeArg)))
  }

  /** The host's slots after the loop body has run for member `m`. */
  function Step(slots: map<string, Value>, m: Member, store: Store): (r: map<string, Value>)
    requires IsCandidate(m)
    ensures forall n :: n != m.name ==> Lookup(r, n) == Lookup(slots, n)
    ensures Lookup(r, m.name) == if Assignment(m, store).Some? then Assignment(m, store) else Lookup(slots, m.name)
  {
    match Assignment(m, store)
    case None => slots
    case Some(v) => AfterSetValue(slots, m, v)
  }

  // ---------------------------------------------------------------------------
  // The population loop over a member list
  // ---------------------------------------------------------------------------

  /** The host's slots after the loop has run over `ms` in order: no slot is removed, and only member names are added. */
  function Populate(slots: map<string, Value>, ms: seq<Member>, store: Store): (r: map<string, Value>)
    requires AllCandidates(ms)
    ensures slots.Keys <= r.Keys
    ensures r.Keys <= slots.Keys + (set i | 0 <= i < |ms| :: ms[i].name)
    decreases |ms|
  {
    if ms == [] then slots
    else Step(Populate(slots, ms[..|ms| - 1], store), ms[|ms| - 1], store)
  }

  /** The store calls made by the loop over `ms`, in order. */
  function Requests(ms: seq<Member>): (r: seq<Request>)
    requires AllCandidates(ms)
    ensures |r| == |ms|
    decreases |ms|
  {
    if ms == [] then [] else Requests(ms[..|ms| - 1]) + [RequestFor(ms[|ms| - 1])]
  }

  /** Exactly one store call per member, in the member order. */
  lemma {:induction false} OneRequestPerMember(ms: seq<Member>)
    requires AllCandidates(ms)
    ensures forall i :: 0 <= i < |ms| ==> Requests(ms)[i] == RequestFor(ms[i])
  {
    if ms != [] {
      var init := ms[..|ms| - 1];
      OneRequestPerMember(init);
      assert forall i :: 0 <= i < |init| ==> init[i] == ms[i];
    }
  }

  predicate DistinctNames(ms: seq<Member>)
  {
    forall i, j :: 0 <= i < j < |ms| ==> ms[i].name != ms[j].name
  }

  /** A slot that belongs to no member of the list keeps its value. */
  lemma {:induction false} PopulateUntouched(slots: map<string, Value>, ms: seq<Member>, store: Store, n: string)
    requires AllCandidates(ms)
    requires forall i :: 0 <= i < |ms| ==> ms[i].name != n
    ensures Lookup(Populate(slots, ms, store), n) == Lookup(slots, n)
  {
    if ms != [] {
      PopulateUntouched(slots, ms[..|ms| - 1], store, n);
    }
  }

  /** With distinct names, each member's slot ends up as its own step alone would leave it. */
  lemma {:induction false} PopulateAt(slots: map<string, Value>, ms: seq<Member>, store: Store, k: nat)
    requires AllCandidates(ms) && DistinctNames(ms) && k < |ms|
    ensures Lookup(Populate(slots, ms, store), ms[k].name) == Lookup(Step(slots, ms[k], store), ms[k].name)
  {
    var init := ms[..|ms| - 1];
    assert forall i :: 0 <= i < |init| ==> init[i] == ms[i];
    if k == |ms| - 1 {
      PopulateUntouched(slots, init, store, ms[k].name);
    } else {
      PopulateAt(slots, init, store, k);
    }
  }

  /**
   * Single mode: the member is overwritten with what `Load` returned, a missing
   * asset included; the declared type is passed exactly when `ForceType` is set.
   */
  lemma SingleModeOverwrites(slots: map<string, Value>, ms: seq<Member>, store: Store, k: nat)
    requires AllCandidates(ms) && DistinctNames(ms) && k < |ms|
    requires !IsFolderPath(ms[k].attributes[0].name)
    ensures
      var a := ms[k].attributes[0];
      Lookup(Populate(slots, ms, store), ms[k].name)
        == Some(AsValue(store.load(a.name, if a.forceType then Some(ms[k].declaredType) else None)))
  {
    PopulateAt(slots, ms, store, k);
  }

  /**
   * Folder mode: `LoadAll` is given the element type unless it is exactly
   * `UnityEngine.Object`. An empty result or a non-array member leaves the slot
   * as it was; otherwise an array member receives the loaded sequence, same
   * length, same elements, same order.
   */
  lemma FolderModeAssignsArrays(slots: map<string, Value>, ms: seq<Member>, store: Store, k: nat)
    requires AllCandidates(ms) && DistinctNames(ms) && k < |ms|
    requires IsFolderPath(ms[k].attributes[0].name)
    ensures
      var t := ms[k].declaredType;
      var e := ElementOrSelf(t);
      var loaded := store.loadAll(ms[k].attributes[0].name, if e == UnityObject then None else Some(e));
      var after := Lookup(Populate(slots, ms, store), ms[k].name);
      && (|loaded| == 0 || !t.ArrayOf? ==> after == Lookup(slots, ms[k].name))
      && (|loaded| > 0 && t.ArrayOf? ==> after == Some(Arr(t.element, loaded)))
  {
    PopulateAt(slots, ms, store, k);
  }

  /** Slots that belong to no member of the list are never written. */
  lemma PopulateFrame(slots: map<string, Value>, ms: seq<Member>, store: Store)
    requires AllCandidates(ms)
    ensures forall n :: (forall i :: 0 <= i < |ms| ==> ms[i].name != n) ==>
      Lookup(Populate(slots, ms, store), n) == Lookup(slots, n)
  {
    forall n | forall i :: 0 <= i < |ms| ==> ms[i].name != n
      ensures Lookup(Populate(slots, ms, store), n) == Lookup(slots, n)
    {
      PopulateUntouched(slots, ms, store, n);
    }
  }

  /** `Array.CreateInstance` followed by the copying loop: a new array holding `resources` in order. */
  method CopyToNewArray(resources: seq<Obj>) returns (copy: array<Obj>)
    ensures fresh(copy)
    ensures copy.Length == |resources|
    ensures forall i :: 0 <= i < copy.Length ==> copy[i] == resources[i]
  {
    copy := new Obj[|resources|];
    for i := 0 to |resources|
      invariant forall k :: 0 <= k < i ==> copy[k] == resources[k]
    {
      copy[i] := resources[i];
    }
  }

  /** The body of the population loop for one member `item` of `behaviour`. */
  method LoadMember(item: Member, behaviour: Behaviour, store: Store) returns (ghost request: Request)
    requires IsCandidate(item)
    modifies behaviour
    ensures behaviour.slots == Step(old(behaviour.slots), item, store)
    ensures request == RequestFor(item)
  {
    var attribute := item.attributes[0];
    var memberType := GetMemberType(item, false).value;
    var elementType := GetMemberType(item, true).value;

    if attribute.name == "" || EndsWith(attribute.name, "/") {
      var isUObject := elementType == UnityObject;
      var call: Request;
      if isUObject {
        call := LoadAllRequest(attribute.name, None);
      } else {
        call := LoadAllRequest(attribute.name, Some(elementType));
      }
      var resources := store.loadAll(call.path, call.typeArg);
      request := call;

      if |resources| == 0 {
        return;
      }

      if memberType.ArrayOf? {
        if isUObject {
          SetValue(item, behaviour, Arr(UnityObject, resources));
        } else {
          var copy := CopyToNewArray(resources);
          assert copy[..] == resources;
          SetValue(item, behaviour, Arr(elementType, copy[..]));
        }
      }
    } else {
      var call: Request;
      if attribute.forceType {
        call := LoadRequest(attribute.name, Some(memberType));
      } else {
        call := LoadRequest(attribute.name, None);
      }
      var resource := store.load(call.path, call.typeArg);
      request := call;
      SetValue(item, behaviour, AsValue(resource));
    }
  }

  /** The `foreach` over the member list: run the loop body for each member in order. */
  method PopulateMembers(members: seq<Member>, behaviour: Behaviour, store: Store) returns (ghost requests: seq<Request>)
    requires AllCandidates(members)
    modifies behaviour
    ensures behaviour.slots == Populate(old(behaviour.slots), members, store)
    ensures requests == Requests(members)
  {
    ghost var initial := behaviour.slots;
    requests := [];
    for i := 0 to |members|
      invariant behaviour.slots == Populate(initial, members[..i], store)
      invariant requests == Requests(members[..i])
    {
      assert members[..i + 1][..i] == members[..i];
      ghost var request := LoadMember(members[i], behaviour, store);
      requests := requests + [request];
    }
    assert members[..|members|] == members;
  }

  // ---------------------------------------------------------------------------
  // The loader with its per-type cache
  // ---------------------------------------------------------------------------

  /**
   * The static `TypeMembers` dictionary and the operations that use it. The
   * ghost `scans` counts how often reflection was asked to discover members.
   */
  class ResourceLoader {
    const reflection: Reflection
    var typeMembers: map<Ty, seq<Member>>
    ghost var scans: nat

    /** Every cached list is what discovery yields for its type, and discovery ran once per cached type. */
    ghost predicate Valid()
      reads this
    {
      && (forall t :: t in typeMembers ==> typeMembers[t] == Discover(reflection.getMembers(t), reflection.isSubclassOf))
      && scans == |typeMembers|
    }

    constructor (r: Reflection)
      ensures Valid()
      ensures reflection == r && typeMembers == map[]
    {
      reflection := r;
      typeMembers := map[];
      scans := 0;
    }

    /** The reflective scan and the `Where` filter; each scan is counted in `scans`. */
    method ScanMembers(bType: Ty) returns (members: seq<Member>)
      modifies this
      ensures members == Discover(reflection.getMembers(bType), reflection.isSubclassOf)
      ensures typeMembers == old(typeMembers) && scans == old(scans) + 1
    {
      members := Discover(reflection.getMembers(bType), reflection.isSubclassOf);
      scans := scans + 1;
    }

    /**
     * The member list of `bType`: the stored one if there is one, otherwise
     * discovered, stored and returned. No entry is removed or replaced.
     */
    method ResolveMembers(bType: Ty) returns (members: seq<Member>)
      requires Valid()
      modifies this
      ensures Valid()
      ensures bType in typeMembers && members == typeMembers[bType]
      ensures members == Discover(reflection.getMembers(bType), reflection.isSubclassOf)
      ensures AllCandidates(members)
      ensures old(bType in typeMembers) ==>
        typeMembers == old(typeMembers) && scans == old(scans) && members == old(typeMembers[bType])
      ensures old(bType !in typeMembers) ==>
        typeMembers == old(typeMembers)[bType := members] && scans == old(scans) + 1
    {
      if bType in typeMembers {
        members := typeMembers[bType];
      } else {
        members := ScanMembers(bType);
        // `LoadResources` builds a sort by kind and name here but discards it.
        typeMembers := typeMembers[bType := members];
      }
      DiscoveredAreCandidates(reflection.getMembers(bType), reflection.isSubclassOf);
    }

    /**
     * `behaviour.LoadResources()`: resolve the member list of the behaviour's
     * type, then run the population step for each member in that order.
     */
    method LoadResources(behaviour: Behaviour, store: Store) returns (ghost requests: seq<Request>)
      requires Valid()
      modifies this, behaviour
      ensures Valid()
      ensures behaviour.runtimeType in typeMembers
      ensures old(behaviour.runtimeType in typeMembers) ==> typeMembers == old(typeMembers) && scans == old(scans)
      ensures old(behaviour.runtimeType !in typeMembers) ==>
        typeMembers == old(typeMembers)[behaviour.runtimeType := typeMembers[behaviour.runtimeType]]
        && scans == old(scans) + 1
      ensures typeMembers[behaviour.runtimeType]
        == Discover(reflection.getMembers(behaviour.runtimeType), reflection.isSubclassOf)
      ensures AllCandidates(typeMembers[behaviour.runtimeType])
      ensures behaviour.slots == Populate(old(behaviour.slots), typeMembers[behaviour.runtimeType], store)
      ensures requests == Requests(typeMembers[behaviour.runtimeType])
    {
      var bType := behaviour.runtimeType;
      var members := ResolveMembers(bType);
      requests := PopulateMembers(members, behaviour, store);
    }
  }
}
