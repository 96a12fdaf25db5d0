/**
 * MongoDbRepository: the live backend of IRepository. Each operation turns its arguments
 * into one driver call: the predicate is passed through the Equals rewrite and wrapped in a
 * `Where` filter (except by `UpdateOne(filter, updates)`), an update descriptor is flattened
 * into update operators, and entity-wise updates become one unordered bulk write of
 * identifier-filtered requests.
 */
module MongoDbBackend {
  import opened Wrappers
  import opened ClrInt
  import opened Entity
  import opened ExpressionTree
  import opened UpdateDescriptors
  import opened DriverModel
  import opened Repository
  import opened EqualityExpressionVisitor
  import opened UpdateDefinitionExtensions
  import PageNumbersValidation
  import MemoryUpdate

  /** `ToFilter`: the predicate with its `Equals` calls rewritten, as a `Where` filter. */
  function ToFilter(filterConditions: Expr): (r: Result<Filter>)
    ensures r.Ok? <==> Rewrite(filterConditions).Ok?
    ensures r.Ok? ==> r.value == Where(Rewrite(filterConditions).value)
    ensures r.Err? ==> r.error == Rewrite(filterConditions).error
  {
    var visitedCondition :- Rewrite(filterConditions);
    Ok(Where(visitedCondition))
  }

  /** The filter sent to the server selects the documents the caller's predicate selects,
      whenever each `Equals` call in it is a two-argument value comparison; a predicate
      without `Equals` calls is sent as it is. */
  lemma ToFilterKeepsMeaning(filterConditions: Expr, x: Post, calls: CallSemantics)
    requires EqualsMeansEquality(calls) && EqualsCallsAreBinary(filterConditions)
    ensures ToFilter(filterConditions).Ok?
    ensures Eval(filterConditions, x, calls).Some? ==>
              Eval(ToFilter(filterConditions).value.condition, x, calls) == Eval(filterConditions, x, calls)
    ensures NoEqualsCall(filterConditions) ==> ToFilter(filterConditions) == Ok(Where(filterConditions))
  {
    RewritePreservesMeaning(filterConditions, x, calls);
    if NoEqualsCall(filterConditions) {
      RewriteWithoutEqualsIsIdentity(filterConditions);
    }
  }

  function ScalarOps(kind: OpKind, updates: seq<Update>): (ops: seq<UpdateOp>)
    ensures |ops| == |updates|
  {
    seq(|updates|, k requires 0 <= k < |updates| =>
      UpdateOp(kind, FieldExpression(updates[k].propertyExpression), updates[k].value))
  }

  function CollectionOps(kind: OpKind, updates: seq<UpdateCollection>): (ops: seq<UpdateOp>)
    ensures |ops| == |updates|
  {
    seq(|updates|, k requires 0 <= k < |updates| =>
      UpdateOp(kind, FieldExpression(updates[k].propertyExpression), updates[k].value))
  }

  /** The combined update a descriptor stands for: Sets, Increments, SetOnInserts, Pushes,
      Pulls, each list in order, a null list contributing nothing. */
  function Flatten(updates: Updates): seq<UpdateOp>
  {
    ScalarOps(SetOp, Entries(updates.sets))
    + ScalarOps(IncOp, Entries(updates.increments))
    + ScalarOps(SetOnInsertOp, Entries(updates.setOnInserts))
    + CollectionOps(PushOp, Entries(updates.pushes))
    + CollectionOps(PullOp, Entries(updates.pulls))
  }

  /** The position of an operator kind in the emitted order. */
  function KindRank(kind: OpKind): nat
  {
    match kind
    case SetOp => 0
    case IncOp => 1
    case SetOnInsertOp => 2
    case PushOp => 3
    case PullOp => 4
  }

  /** One operator per descriptor entry, none for an empty descriptor, and the kinds in the
      order Set, Inc, SetOnInsert, Push, Pull. */
  lemma FlattenShape(updates: Updates)
    ensures |Flatten(updates)| == updates.EntryCount()
    ensures Flatten(updates) == [] <==> updates.IsEmpty()
    ensures forall i, j :: 0 <= i < j < |Flatten(updates)| ==>
              KindRank(Flatten(updates)[i].kind) <= KindRank(Flatten(updates)[j].kind)
  {
    var ops := Flatten(updates);
    var n1 := |Entries(updates.sets)|;
    var n2 := n1 + |Entries(updates.increments)|;
    var n3 := n2 + |Entries(updates.setOnInserts)|;
    var n4 := n3 + |Entries(updates.pushes)|;
    forall k | 0 <= k < |ops|
      ensures KindRank(ops[k].kind) == if k < n1 then 0 else if k < n2 then 1 else if k < n3 then 2 else if k < n4 then 3 else 4
    {
    }
  }

  /** The memory backend visits the entries in the order the live backend emits them; the
      only difference is that it skips SetOnInserts unless the entity was just inserted. */
  lemma BackendsVisitInSameOrder(updates: Updates)
    ensures |MemoryUpdate.Steps(updates, true)| == |Flatten(updates)|
    ensures forall k :: 0 <= k < |Flatten(updates)| ==>
              Flatten(updates)[k].field == FieldExpression(MemoryUpdate.Steps(updates, true)[k].target)
              && Flatten(updates)[k].value == MemoryUpdate.Steps(updates, true)[k].value
              && StepKindOf(Flatten(updates)[k].kind) == MemoryUpdate.Steps(updates, true)[k].kind
  {
  }

  function StepKindOf(kind: OpKind): MemoryUpdate.StepKind
  {
    match kind
    case SetOp => MemoryUpdate.SetStep
    case IncOp => MemoryUpdate.IncrementStep
    case SetOnInsertOp => MemoryUpdate.SetStep
    case PushOp => MemoryUpdate.PushStep
    case PullOp => MemoryUpdate.PullStep
  }

  /** One `foreach` of ToUpdateDefinition over an `Update` list. */
  method AppendScalarOps(updateDefinition: seq<UpdateOp>, kind: OpKind, updates: seq<Update>)
    returns (result: seq<UpdateOp>)
    ensures result == updateDefinition + ScalarOps(kind, updates)
  {
    result := updateDefinition;
    var i := 0;
    while i < |updates|
      invariant 0 <= i <= |updates|
      invariant result == updateDefinition + ScalarOps(kind, updates[..i])
    {
      assert ScalarOps(kind, updates[..i + 1]) == ScalarOps(kind, updates[..i]) + ScalarOps(kind, [updates[i]]);
      result := result + [UpdateOp(kind, FieldExpression(updates[i].propertyExpression), updates[i].value)];
      i := i + 1;
    }
    assert updates[..i] == updates;
  }

  /** One `foreach` of ToUpdateDefinition over an `UpdateCollection` list. */
  method AppendCollectionOps(updateDefinition: seq<UpdateOp>, kind: OpKind, updates: seq<UpdateCollection>)
    returns (result: seq<UpdateOp>)
    ensures result == updateDefinition + CollectionOps(kind, updates)
  {
    result := updateDefinition;
    var i := 0;
    while i < |updates|
      invariant 0 <= i <= |updates|
      invariant result == updateDefinition + CollectionOps(kind, updates[..i])
    {
      assert CollectionOps(kind, updates[..i + 1]) == CollectionOps(kind, updates[..i]) + CollectionOps(kind, [updates[i]]);
      result := result + [UpdateOp(kind, FieldExpression(updates[i].propertyExpression), updates[i].value)];
      i := i + 1;
    }
    assert updates[..i] == updates;
  }

  /** `ToUpdateDefinition`: starting from an empty `Combine()`, the five lists in order. */
  method ToUpdateDefinition(updates: Updates) returns (updateDefinition: seq<UpdateOp>)
    ensures updateDefinition == Flatten(updates)
  {
    updateDefinition := [];
    updateDefinition := AppendScalarOps(updateDefinition, SetOp, Entries(updates.sets));
    updateDefinition := AppendScalarOps(updateDefinition, IncOp, Entries(updates.increments));
    updateDefinition := AppendScalarOps(updateDefinition, SetOnInsertOp, Entries(updates.setOnInserts));
    updateDefinition := AppendCollectionOps(updateDefinition, PushOp, Entries(updates.pushes));
    updateDefinition := AppendCollectionOps(updateDefinition, PullOp, Entries(updates.pulls));
  }

  /** `InsertOne`: the entity is handed to the driver as it is. */
  function InsertOne(entity: Post): (d: Dispatch)
    ensures d.Send? && d.call.InsertOneCall? && d.call.document == entity
  {
    Send(InsertOneCall(entity))
  }

  /** `InsertMany`: the entities are handed to the driver as they are, in order. */
  function InsertMany(entities: seq<Post>): (d: Dispatch)
    ensures d.Send? && d.call.InsertManyCall? && d.call.documents == entities
  {
    Send(InsertManyCall(entities))
  }

  /** `Count`: the server counts the documents the rewritten filter selects. */
  function Count(filterConditions: Expr): (r: Result<Dispatch>)
    ensures r.Ok? <==> ToFilter(filterConditions).Ok?
    ensures r.Ok? ==> r.value == Send(CountDocumentsCall(ToFilter(filterConditions).value))
  {
    var filter :- ToFilter(filterConditions);
    Ok(Send(CountDocumentsCall(filter)))
  }

  /** `FindOne`: a find with the rewritten filter, limited to one document. */
  function FindOne(filterConditions: Expr): (r: Result<Dispatch>)
    ensures r.Ok? <==> ToFilter(filterConditions).Ok?
    ensures r.Ok? ==> r.value == Send(FindCall(ToFilter(filterConditions).value, None, None, Some(1)))
  {
    var filter :- ToFilter(filterConditions);
    Ok(Send(FindCall(filter, None, None, Some(1))))
  }

  function FindOneAndDelete(filterConditions: Expr): (r: Result<Dispatch>)
    ensures r.Ok? <==> ToFilter(filterConditions).Ok?
    ensures r.Ok? ==> r.value == Send(FindOneAndDeleteCall(ToFilter(filterConditions).value))
  {
    var filter :- ToFilter(filterConditions);
    Ok(Send(FindOneAndDeleteCall(filter)))
  }

  function DeleteOne(filterConditions: Expr): (r: Result<Dispatch>)
    ensures r.Ok? <==> ToFilter(filterConditions).Ok?
    ensures r.Ok? ==> r.value == Send(DeleteOneCall(ToFilter(filterConditions).value))
  {
    var filter :- ToFilter(filterConditions);
    Ok(Send(DeleteOneCall(filter)))
  }

  function DeleteMany(filterConditions: Expr): (r: Result<Dispatch>)
    ensures r.Ok? <==> ToFilter(filterConditions).Ok?
    ensures r.Ok? ==> r.value == Send(DeleteManyCall(ToFilter(filterConditions).value))
  {
    var filter :- ToFilter(filterConditions);
    Ok(Send(DeleteManyCall(filter)))
  }

  /** `FindMany`: the rewritten filter, a sort only when an order expression is given (its
      direction from the flag), then the validated skip and a limit of `pageSize`. Invalid
      paging throws before any query is sent. */
  function FindMany(filterConditions: Expr, pageIndex: Int32, pageSize: Int32,
                    orderDescending: bool := DefaultOrderDescending,
                    orderExpression: Option<Expr> := None): (r: Result<Dispatch>)
    ensures r.Ok? <==> ToFilter(filterConditions).Ok? && pageSize >= 1 && pageIndex >= 0
    ensures ToFilter(filterConditions).Err? ==> r == Err(ToFilter(filterConditions).error)
    ensures ToFilter(filterConditions).Ok? && r.Err? ==> r == Err(PageNumbersValidation.ToSkipNumber(pageIndex, pageSize).error)
    ensures r.Ok? ==> r.value.Send? && r.value.call.FindCall?
    ensures r.Ok? ==> var call := r.value.call;
                      call.filter == ToFilter(filterConditions).value
                      && call.skip == Some(PageNumbersValidation.ToSkipNumber(pageIndex, pageSize).value)
                      && call.limit == Some(pageSize)
                      && (call.sort.None? <==> orderExpression.None?)
                      && (orderExpression.Some? ==>
                            call.sort == if orderDescending then Some(SortByDescending(orderExpression.value))
                                         else Some(SortBy(orderExpression.value)))
  {
    var filter :- ToFilter(filterConditions);
    var sort := if orderExpression.None? then None
                else if orderDescending then Some(SortByDescending(orderExpression.value))
                else Some(SortBy(orderExpression.value));
    var skipItems :- PageNumbersValidation.ToSkipNumber(pageIndex, pageSize);
    Ok(Send(FindCall(filter, sort, Some(skipItems), Some(pageSize))))
  }

  /** `FindOneAndUpdate`: the rewritten filter, the flattened update, and the requested
      returned document (the pre-update one by default). */
  method FindOneAndUpdate(filterConditions: Expr, updates: Updates,
                          returnDocument: ReturnDocument := DefaultReturnDocument)
    returns (r: Result<Dispatch>)
    ensures r.Ok? <==> ToFilter(filterConditions).Ok?
    ensures r.Err? ==> r.error == ToFilter(filterConditions).error
    ensures r.Ok? ==> r.value == Send(FindOneAndUpdateCall(ToFilter(filterConditions).value, Flatten(updates), returnDocument))
  {
    var filter :- ToFilter(filterConditions);
    var updateDefinition := ToUpdateDefinition(updates);
    r := Ok(Send(FindOneAndUpdateCall(filter, updateDefinition, returnDocument)));
  }

  /** `UpdateOne(filter, updates)`: unlike the other operations, the predicate is wrapped as
      it is, without the Equals rewrite. */
  method UpdateOne(filterConditions: Expr, updates: Updates) returns (d: Dispatch)
    ensures d == Send(UpdateOneCall(Where(filterConditions), Flatten(updates)))
  {
    var updateDefinition := ToUpdateDefinition(updates);
    d := Send(UpdateOneCall(Where(filterConditions), updateDefinition));
  }

  /** `UpdateMany(filter, updates)`: the rewritten filter and the flattened update. */
  method UpdateMany(filterConditions: Expr, updates: Updates) returns (r: Result<Dispatch>)
    ensures r.Ok? <==> ToFilter(filterConditions).Ok?
    ensures r.Err? ==> r.error == ToFilter(filterConditions).error
    ensures r.Ok? ==> r.value == Send(UpdateManyCall(ToFilter(filterConditions).value, Flatten(updates)))
  {
    var filter :- ToFilter(filterConditions);
    var updateDefinition := ToUpdateDefinition(updates);
    r := Ok(Send(UpdateManyCall(filter, updateDefinition)));
  }

  /** A predicate holding an `Equals` call reaches the server differently through
      `UpdateOne(filter, updates)` and through `UpdateMany(filter, updates)`: the first sends
      the call itself, the second the rewritten `==`. */
  lemma UpdateOneSkipsRewrite(a: Expr, b: Expr)
    ensures var condition := MethodCall("System.Object", EqualsName, None, [a, b]);
            ToFilter(condition) == Ok(Where(Binary(Equal, a, b)))
            && Where(condition) != Where(Binary(Equal, a, b))
  {
  }

  /** The update every entity-wise request carries: `Combine().SetAllMappedMembers(entity)`
      with no exclusions, i.e. one Set per mapped member, the identifier included. */
  function EntityUpdate(entity: Post, memberMaps: string -> set<string>): seq<UpdateOp>
  {
    PostMappedAreProperties(memberMaps);
    MappedOps(SetOp, entity, MappedMembersOf(PostTypeInfo, memberMaps), [])
  }

  /** The request `UpsertMany` (isUpsert) or `UpdateMany(entities)` builds for one entity. */
  function EntityRequest(entity: Post, memberMaps: string -> set<string>, isUpsert: bool): WriteModel
  {
    UpdateOneModel(IdEquals(entity.id), EntityUpdate(entity, memberMaps), isUpsert)
  }

  /** One iteration of the loop filling `requests`: the entity's identifier filter and
      `Combine().SetAllMappedMembers(entity)`. */
  method BuildRequest(cache: MappedPropertiesCache, entity: Post, isUpsert: bool) returns (request: WriteModel)
    requires cache.Valid()
    modifies cache
    ensures cache.Valid()
    ensures request == EntityRequest(entity, cache.memberMaps, isUpsert)
  {
    var update := cache.SetAllMappedMembers([], entity, Some([]));
    assert ExcludedNames(Some([])) == Ok([]);
    var ops := MappedOps(SetOp, entity, MappedMembersOf(PostTypeInfo, cache.memberMaps), []);
    assert update.value == [] + ops == ops;
    request := UpdateOneModel(IdEquals(entity.id), update.value, isUpsert);
  }

  /** The loop filling `requests`: one identifier-filtered request per entity, in order. */
  method BuildRequests(cache: MappedPropertiesCache, entities: seq<Post>, isUpsert: bool)
    returns (requests: seq<WriteModel>)
    requires cache.Valid()
    modifies cache
    ensures cache.Valid()
    ensures |requests| == |entities|
    ensures forall k :: 0 <= k < |entities| ==> requests[k] == EntityRequest(entities[k], cache.memberMaps, isUpsert)
  {
    requests := [];
    var i := 0;
    while i < |entities|
      invariant 0 <= i <= |entities|
      invariant cache.Valid()
      invariant |requests| == i
      invariant forall k :: 0 <= k < i ==> requests[k] == EntityRequest(entities[k], cache.memberMaps, isUpsert)
    {
      var request := BuildRequest(cache, entities[i], isUpsert);
      requests := requests + [request];
      i := i + 1;
    }
  }

  /** `UpsertMany`: 0 at once for no entities; otherwise one unordered bulk write of upsert
      requests, one per entity. */
  method UpsertMany(cache: MappedPropertiesCache, entities: seq<Post>) returns (d: Dispatch)
    requires cache.Valid()
    modifies cache
    ensures cache.Valid()
    ensures entities == [] <==> d == Immediate(0)
    ensures entities != [] ==> d.Send? && d.call.BulkWriteCall? && !d.call.isOrdered
    ensures entities != [] ==> |d.call.requests| == |entities|
    ensures entities != [] ==> forall k :: 0 <= k < |entities| ==>
              d.call.requests[k] == EntityRequest(entities[k], cache.memberMaps, true)
  {
    if |entities| == 0 {
      return Immediate(0);
    }
    var requests := BuildRequests(cache, entities, true);
    d := Send(BulkWriteCall(requests, false));
  }

  /** `UpdateMany(entities)`: as UpsertMany, but the requests do not insert. */
  method UpdateManyEntities(cache: MappedPropertiesCache, entities: seq<Post>) returns (d: Dispatch)
    requires cache.Valid()
    modifies cache
    ensures cache.Valid()
    ensures entities == [] <==> d == Immediate(0)
    ensures entities != [] ==> d.Send? && d.call.BulkWriteCall? && !d.call.isOrdered
    ensures entities != [] ==> |d.call.requests| == |entities|
    ensures entities != [] ==> forall k :: 0 <= k < |entities| ==>
              d.call.requests[k] == EntityRequest(entities[k], cache.memberMaps, false)
  {
    if |entities| == 0 {
      return Immediate(0);
    }
    var requests := BuildRequests(cache, entities, false);
    d := Send(BulkWriteCall(requests, false));
  }

  /** `UpdateOne(entity)`: one update of the document with the entity's identifier, setting
      every mapped member. */
  method UpdateOneEntity(cache: MappedPropertiesCache, entity: Post) returns (d: Dispatch)
    requires cache.Valid()
    modifies cache
    ensures cache.Valid()
    ensures d == Send(UpdateOneCall(IdEquals(entity.id), EntityUpdate(entity, cache.memberMaps)))
  {
    var update := cache.SetAllMappedMembers([], entity, Some([]));
    assert ExcludedNames(Some([])) == Ok([]);
    assert update.value == EntityUpdate(entity, cache.memberMaps);
    d := Send(UpdateOneCall(IdEquals(entity.id), update.value));
  }

  /** Each entity-wise request targets its entity's identifier and sets every mapped member
      to the entity's current value, the identifier included. */
  lemma EntityRequestSetsEveryMember(entity: Post, memberMaps: string -> set<string>, isUpsert: bool)
    ensures var request := EntityRequest(entity, memberMaps, isUpsert);
            var members := MappedMembersOf(PostTypeInfo, memberMaps);
            request.filter == IdEquals(entity.id) && request.isUpsert == isUpsert
            && |request.update| == |members|
            && forall k :: 0 <= k < |members| ==>
                 members[k] in PostProperties && request.update[k] == UpdateOp(SetOp, FieldName(members[k]), GetValue(entity, members[k]).value)
  {
    PostMappedAreProperties(memberMaps);
    NoExclusionsSetsEveryMember(SetOp, entity, MappedMembersOf(PostTypeInfo, memberMaps));
  }
}
