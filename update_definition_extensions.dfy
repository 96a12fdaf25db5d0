/**
 * UpdateDefinitionExtensions: an update that sets (or sets on insert) every mapped member
 * of an entity, minus excluded members. Which public properties are mapped is decided by
 * the BSON class maps of the type and of its base types below `object`, and the answer is
 * memoised per type in a dictionary that only grows.
 */
module UpdateDefinitionExtensions {
  import opened Wrappers
  import opened Entity
  import opened ExpressionTree
  import opened DriverModel
  import ExpressionReflection

  /** A CLR type as reflection sees it: its name, its public properties (inherited ones
      included) in enumeration order, and its base type. */
  datatype TypeDescriptor = TypeDescriptor(name: string, properties: seq<string>, baseType: Option<TypeDescriptor>)

  const ObjectTypeName: string := "System.Object"

  const ObjectType: TypeDescriptor := TypeDescriptor(ObjectTypeName, [], None)

  /** `typeof(Post)`. */
  const PostTypeInfo: TypeDescriptor := TypeDescriptor("Sanatana.MongoDbSpecs.Samples.Post", PostProperties, Some(ObjectType))

  function Depth(t: TypeDescriptor): nat
    decreases t
  {
    if t.baseType.Some? then 1 + Depth(t.baseType.value) else 0
  }

  /** The types whose class maps are consulted: the type itself, then each base type, stopping
      before `object` or when there is no base type. */
  function Ancestry(t: TypeDescriptor): seq<TypeDescriptor>
    decreases t
  {
    if t.baseType.Some? && t.baseType.value.name != ObjectTypeName then [t] + Ancestry(t.baseType.value) else [t]
  }

  /** The chain starts at the type, each later type is the base of the one before it, none of
      them is `object`, and the walk stops exactly when the next base is missing or `object`. */
  lemma {:induction false} AncestryIsBaseChain(t: TypeDescriptor)
    ensures var chain := Ancestry(t);
            |chain| >= 1 && chain[0] == t
            && (forall k :: 0 < k < |chain| ==> chain[k - 1].baseType == Some(chain[k]) && chain[k].name != ObjectTypeName)
            && (chain[|chain| - 1].baseType.None? || chain[|chain| - 1].baseType.value.name == ObjectTypeName)
    decreases t
  {
    if t.baseType.Some? && t.baseType.value.name != ObjectTypeName {
      AncestryIsBaseChain(t.baseType.value);
    }
  }

  /** Some class map of the chain has a member map named `name`; `memberMaps(typeName)` is
      the set of member names the class map registered for that type has. */
  predicate IsMapped(name: string, chain: seq<TypeDescriptor>, memberMaps: string -> set<string>)
  {
    exists k :: 0 <= k < |chain| && name in memberMaps(chain[k].name)
  }

  /** The properties, in order, that some class map of the chain maps. */
  function KeepMapped(properties: seq<string>, chain: seq<TypeDescriptor>, memberMaps: string -> set<string>): seq<string>
    decreases |properties|
  {
    if properties == [] then []
    else
      var last := properties[|properties| - 1];
      KeepMapped(properties[..|properties| - 1], chain, memberMaps)
        + (if IsMapped(last, chain, memberMaps) then [last] else [])
  }

  /** What `GetMappedMembers(itemType)` returns. */
  function MappedMembersOf(t: TypeDescriptor, memberMaps: string -> set<string>): seq<string>
  {
    KeepMapped(t.properties, Ancestry(t), memberMaps)
  }

  /** A property is selected exactly when it is a public property of the type and is mapped
      by the class map of the type or of a base type below `object`. */
  lemma {:induction false} KeepMappedMembership(properties: seq<string>, chain: seq<TypeDescriptor>,
                                               memberMaps: string -> set<string>, name: string)
    ensures name in KeepMapped(properties, chain, memberMaps) <==>
              name in properties && IsMapped(name, chain, memberMaps)
    decreases |properties|
  {
    if properties != [] {
      var init := properties[..|properties| - 1];
      KeepMappedMembership(init, chain, memberMaps, name);
      assert properties == init + [properties[|properties| - 1]];
    }
  }

  /** The selection keeps the property enumeration order: selecting from two runs of
      properties is selecting from each run in turn. */
  lemma {:induction false} KeepMappedAppend(a: seq<string>, b: seq<string>, chain: seq<TypeDescriptor>,
                                           memberMaps: string -> set<string>)
    ensures KeepMapped(a + b, chain, memberMaps) == KeepMapped(a, chain, memberMaps) + KeepMapped(b, chain, memberMaps)
    decreases |b|
  {
    if b == [] {
      assert a + b == a;
    } else {
      var init := b[..|b| - 1];
      KeepMappedAppend(a, init, chain, memberMaps);
      assert (a + b)[..|a + b| - 1] == a + init;
    }
  }

  /** When every property is mapped, all are selected, in enumeration order. */
  lemma {:induction false} AllMappedKeepsAll(properties: seq<string>, chain: seq<TypeDescriptor>,
                                            memberMaps: string -> set<string>)
    requires forall k :: 0 <= k < |properties| ==> IsMapped(properties[k], chain, memberMaps)
    ensures KeepMapped(properties, chain, memberMaps) == properties
    decreases |properties|
  {
    if properties != [] {
      AllMappedKeepsAll(properties[..|properties| - 1], chain, memberMaps);
    }
  }

  /** The do-while walk over the type and its base types. */
  method WalkAncestry(itemType: TypeDescriptor) returns (classMaps: seq<TypeDescriptor>)
    ensures classMaps == Ancestry(itemType)
  {
    classMaps := [];
    var baseType := itemType;
    var more := true;
    while more
      invariant more ==> classMaps + Ancestry(baseType) == Ancestry(itemType)
      invariant !more ==> classMaps == Ancestry(itemType)
      decreases more, Depth(baseType)
    {
      classMaps := classMaps + [baseType];
      if baseType.baseType.Some? && baseType.baseType.value.name != ObjectTypeName {
        assert Ancestry(baseType) == [baseType] + Ancestry(baseType.baseType.value);
        baseType := baseType.baseType.value;
      } else {
        more := false;
      }
    }
  }

  /** The loop keeping each property some class map maps. */
  method SelectMapped(itemProps: seq<string>, classMaps: seq<TypeDescriptor>, memberMaps: string -> set<string>)
    returns (mapped: seq<string>)
    ensures mapped == KeepMapped(itemProps, classMaps, memberMaps)
  {
    mapped := [];
    var i := 0;
    while i < |itemProps|
      invariant 0 <= i <= |itemProps|
      invariant mapped == KeepMapped(itemProps[..i], classMaps, memberMaps)
    {
      assert itemProps[..i + 1][..i] == itemProps[..i];
      if exists k :: 0 <= k < |classMaps| && itemProps[i] in memberMaps(classMaps[k].name) {
        mapped := mapped + [itemProps[i]];
      }
      i := i + 1;
    }
    assert itemProps[..i] == itemProps;
  }

  /** The loop appending one operator per member that is not excluded. */
  method AppendMappedOps(kind: OpKind, update: seq<UpdateOp>, item: Post, mapped: seq<string>, excluded: seq<string>)
    returns (ops: seq<UpdateOp>)
    requires MappedAreProperties(mapped)
    ensures ops == update + MappedOps(kind, item, mapped, excluded)
  {
    ops := update;
    var i := 0;
    while i < |mapped|
      invariant 0 <= i <= |mapped|
      invariant ops == update + MappedOps(kind, item, mapped[..i], excluded)
    {
      assert mapped[..i + 1][..i] == mapped[..i];
      if mapped[i] !in excluded {
        ops := ops + [UpdateOp(kind, FieldName(mapped[i]), GetValue(item, mapped[i]).value)];
      }
      i := i + 1;
    }
    assert mapped[..i] == mapped;
  }

  /** The memoised mapped members of each type seen so far (`_mappedProperties`), under a
      fixed class-map registry. */
  class MappedPropertiesCache {
    const memberMaps: string -> set<string>
    var entries: map<TypeDescriptor, seq<string>>

    /** Every cached list is the one a fresh computation would give. */
    ghost predicate Valid()
      reads this
    {
      forall t :: t in entries ==> entries[t] == MappedMembersOf(t, memberMaps)
    }

    /** The static constructor: an empty dictionary. */
    constructor(memberMaps: string -> set<string>)
      ensures this.memberMaps == memberMaps && entries == map[] && Valid()
    {
      this.memberMaps := memberMaps;
      entries := map[];
    }

    /** `GetMappedMembers(itemType)`: the cached list when there is one; otherwise walk the
        type and its base types, keep the mapped properties, and store the result. */
    method GetMappedMembers(itemType: TypeDescriptor) returns (members: seq<string>)
      requires Valid()
      modifies this
      ensures Valid()
      ensures members == MappedMembersOf(itemType, memberMaps)
      ensures entries == old(entries)[itemType := members]
      ensures itemType in old(entries) ==> entries == old(entries)
    {
      if itemType in entries {
        return entries[itemType];
      }
      var classMaps := WalkAncestry(itemType);
      var mapped := SelectMapped(itemType.properties, classMaps, memberMaps);
      entries := entries[itemType := mapped];
      members := mapped;
    }

    /** The update after `SetAllMappedMembers` (`kind` = Set) or `SetOnInsertAllMappedMembers`
        (`kind` = SetOnInsert) on `update`: excluded names are resolved first, then one
        operator per mapped member of Post that is not excluded, carrying the item's current
        value. The builder overloads start from an empty `Combine()`. */
    method AddAllMappedMembers(kind: OpKind, update: seq<UpdateOp>, item: Post, excludeMembers: Option<seq<Expr>>)
      returns (r: Result<seq<UpdateOp>>)
      requires Valid()
      modifies this
      ensures Valid()
      ensures r.Ok? <==> ExcludedNames(excludeMembers).Ok?
      ensures r.Err? ==> r.error == ExcludedNames(excludeMembers).error && entries == old(entries)
      ensures r.Ok? ==> MappedAreProperties(MappedMembersOf(PostTypeInfo, memberMaps))
      ensures r.Ok? ==> r.value == update + MappedOps(kind, item, MappedMembersOf(PostTypeInfo, memberMaps),
                                                     ExcludedNames(excludeMembers).value)
      ensures r.Ok? ==> entries == old(entries)[PostTypeInfo := MappedMembersOf(PostTypeInfo, memberMaps)]
    {
      var excluded :- ExcludedNames(excludeMembers);
      var mapped := GetMappedMembers(PostTypeInfo);
      PostMappedAreProperties(memberMaps);
      var ops := AppendMappedOps(kind, update, item, mapped, excluded);
      r := Ok(ops);
    }

    /** `SetAllMappedMembers(update, item, excludeMembers)`. */
    method SetAllMappedMembers(update: seq<UpdateOp>, item: Post, excludeMembers: Option<seq<Expr>>)
      returns (r: Result<seq<UpdateOp>>)
      requires Valid()
      modifies this
      ensures Valid()
      ensures r.Ok? <==> ExcludedNames(excludeMembers).Ok?
      ensures r.Err? ==> r.error == ExcludedNames(excludeMembers).error && entries == old(entries)
      ensures r.Ok? ==> MappedAreProperties(MappedMembersOf(PostTypeInfo, memberMaps))
      ensures r.Ok? ==> r.value == update + MappedOps(SetOp, item, MappedMembersOf(PostTypeInfo, memberMaps),
                                                     ExcludedNames(excludeMembers).value)
      ensures r.Ok? ==> entries == old(entries)[PostTypeInfo := MappedMembersOf(PostTypeInfo, memberMaps)]
    {
      r := AddAllMappedMembers(SetOp, update, item, excludeMembers);
    }

    /** `SetOnInsertAllMappedMembers(update, item, excludeMembers)`. */
    method SetOnInsertAllMappedMembers(update: seq<UpdateOp>, item: Post, excludeMembers: Option<seq<Expr>>)
      returns (r: Result<seq<UpdateOp>>)
      requires Valid()
      modifies this
      ensures Valid()
      ensures r.Ok? <==> ExcludedNames(excludeMembers).Ok?
      ensures r.Err? ==> r.error == ExcludedNames(excludeMembers).error && entries == old(entries)
      ensures r.Ok? ==> MappedAreProperties(MappedMembersOf(PostTypeInfo, memberMaps))
      ensures r.Ok? ==> r.value == update + MappedOps(SetOnInsertOp, item, MappedMembersOf(PostTypeInfo, memberMaps),
                                                     ExcludedNames(excludeMembers).value)
      ensures r.Ok? ==> entries == old(entries)[PostTypeInfo := MappedMembersOf(PostTypeInfo, memberMaps)]
    {
      r := AddAllMappedMembers(SetOnInsertOp, update, item, excludeMembers);
    }
  }

  predicate MappedAreProperties(members: seq<string>)
  {
    forall k :: 0 <= k < |members| ==> members[k] in PostProperties
  }

  lemma PostMappedAreProperties(memberMaps: string -> set<string>)
    ensures MappedAreProperties(MappedMembersOf(PostTypeInfo, memberMaps))
  {
    var members := MappedMembersOf(PostTypeInfo, memberMaps);
    forall k | 0 <= k < |members| ensures members[k] in PostProperties {
      KeepMappedMembership(PostTypeInfo.properties, Ancestry(PostTypeInfo), memberMaps, members[k]);
    }
  }

  /** One operator per member not excluded, in member order. */
  function MappedOps(kind: OpKind, item: Post, members: seq<string>, excluded: seq<string>): seq<UpdateOp>
    requires MappedAreProperties(members)
    decreases |members|
  {
    if members == [] then []
    else
      var last := members[|members| - 1];
      MappedOps(kind, item, members[..|members| - 1], excluded)
        + (if last !in excluded then [UpdateOp(kind, FieldName(last), GetValue(item, last).value)] else [])
  }

  const MemberLambdaMessage: string :=
    "The parameter selectMemberLambda must be a member accessing labda such as x => x.Id"

  /** `GetMemberName(selectMemberLambda)` on the lambda's body: a member access, or any unary
      node over a member access, names the member. */
  function GetMemberName(body: Expr): (r: Result<string>)
    ensures body.MemberAccess? ==> r == Ok(body.member)
    ensures body.Unary? && body.operand.MemberAccess? ==> r == Ok(body.operand.member)
    ensures body.Unary? && !body.operand.MemberAccess? ==> r == Err(ArgumentException(MemberLambdaMessage))
    ensures !body.MemberAccess? && !body.Unary? ==> r == Err(NullReferenceException)
  {
    if body.MemberAccess? then Ok(body.member)
    else if !body.Unary? then Err(NullReferenceException)   // `unaryExpression.Operand` on null
    else if body.operand.MemberAccess? then Ok(body.operand.member)
    else Err(ArgumentException(MemberLambdaMessage))
  }

  /** The excluded names, resolved in order; the first failure is thrown. */
  function MemberNames(excludeMembers: seq<Expr>): (r: Result<seq<string>>)
    ensures r.Ok? <==> forall k :: 0 <= k < |excludeMembers| ==> GetMemberName(excludeMembers[k]).Ok?
    ensures r.Ok? ==> |r.value| == |excludeMembers|
                      && forall k :: 0 <= k < |excludeMembers| ==> r.value[k] == GetMemberName(excludeMembers[k]).value
    decreases |excludeMembers|
  {
    if excludeMembers == [] then Ok([])
    else
      var first :- GetMemberName(excludeMembers[0]);
      var rest :- MemberNames(excludeMembers[1..]);
      Ok([first] + rest)
  }

  /** `excludeMembers ?? new Expression[0]`, then the names. */
  function ExcludedNames(excludeMembers: Option<seq<Expr>>): (r: Result<seq<string>>)
    ensures excludeMembers.None? ==> r == Ok([])
  {
    MemberNames(Entries(excludeMembers))
  }

  /** Every operator has the given kind and names a member that is not excluded, carrying
      the item's current value of that member. */
  lemma {:induction false} MappedOpsAreSelected(kind: OpKind, item: Post, members: seq<string>, excluded: seq<string>)
    requires MappedAreProperties(members)
    ensures forall op :: op in MappedOps(kind, item, members, excluded) ==>
              op.kind == kind && op.field.FieldName? && op.field.name in members && op.field.name !in excluded
              && op.value == GetValue(item, op.field.name).value
    decreases |members|
  {
    if members != [] {
      var init := members[..|members| - 1];
      assert members == init + [members[|members| - 1]];
      MappedOpsAreSelected(kind, item, init, excluded);
    }
  }

  /** Every member that is not excluded gets an operator. */
  lemma {:induction false} MappedOpsCoverMembers(kind: OpKind, item: Post, members: seq<string>, excluded: seq<string>,
                                                name: string)
    requires MappedAreProperties(members)
    requires name in members && name !in excluded
    ensures UpdateOp(kind, FieldName(name), GetValue(item, name).value) in MappedOps(kind, item, members, excluded)
    decreases |members|
  {
    var init := members[..|members| - 1];
    var last := members[|members| - 1];
    assert members == init + [last];
    if name != last {
      assert name in init;
      MappedOpsCoverMembers(kind, item, init, excluded, name);
    }
  }

  /** With no exclusions every mapped member is set, the identifier included when it is
      mapped, one operator each and in mapped order. */
  lemma {:induction false} NoExclusionsSetsEveryMember(kind: OpKind, item: Post, members: seq<string>)
    requires MappedAreProperties(members)
    ensures |MappedOps(kind, item, members, [])| == |members|
    ensures forall k :: 0 <= k < |members| ==>
              MappedOps(kind, item, members, [])[k] == UpdateOp(kind, FieldName(members[k]), GetValue(item, members[k]).value)
    decreases |members|
  {
    if members != [] {
      NoExclusionsSetsEveryMember(kind, item, members[..|members| - 1]);
    }
  }

  /** Wherever the reflection helper finds a property, GetMemberName names the same member.
      GetMemberName accepts more: a field, and a member under any unary node, not only
      under `Convert`. */
  lemma MemberNameAgreesWithPropertyInfo(body: Expr, target: Expr, member: string)
    ensures ExpressionReflection.GetPropertyInfo(body).Ok? ==> GetMemberName(body) == ExpressionReflection.GetPropertyInfo(body)
    ensures GetMemberName(Unary(Not, MemberAccess(target, member, PropertyMember))) == Ok(member)
    ensures ExpressionReflection.GetPropertyInfo(Unary(Not, MemberAccess(target, member, PropertyMember))).Err?
    ensures GetMemberName(MemberAccess(target, member, FieldMember)) == Ok(member)
    ensures ExpressionReflection.GetPropertyInfo(MemberAccess(target, member, FieldMember)).Err?
  {
  }
}
