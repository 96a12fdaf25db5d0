# Sanatana.MongoDb repository layer, modelled in Dafny

Sanatana.MongoDb gives applications one data-access contract, `IRepository<T>`, with two
backends:

- `MongoDbRepository<T>` turns every call into a request to the MongoDB driver.
- `MemoryRepository<T>` keeps an ordered `List<T>` in process memory, for tests.

Both backends take the same inputs:

- **Predicates** are LINQ expression trees. The live backend first rewrites every `Equals`
  call to `==` so that the driver can translate it.
- **Update descriptors** (`Updates<T>`) hold five lists: Sets, Increments, SetOnInserts, Pushes
  and Pulls. The live backend flattens them into one combined update definition. The memory
  backend applies them to the stored entity through reflection.
- **Entity-wise updates and upserts** set every BSON-mapped member of the entity. The mapped
  members of a type are memoised in a cache.

Small helpers complete the layer:

- three copies of the skip-count computation for paging;
- two classifiers that recognise duplicate-key errors (`E11000 duplicate`).

The model uses one concrete entity shaped like the sample `Post` document: ID, Text, Counter,
History, CreatedTimeUtc and Duration. The modules, in dependency order, are:

- `Wrappers`, `ClrInt`, `ClrString`: Option and Result, the CLR exception types, unchecked
  32-bit arithmetic, and `string.Contains`.
- `ClrList`: `List<int>.Remove` as "drop the first equal element", and a `List<int>` object
  with `Add` and `Remove`.
- `Entity`: the Post datatype, boxed values, and reflection's `GetValue`/`SetValue` with its
  argument conversion.
- `ExpressionTree`: a tagged-variant model of the lambda bodies and their meaning.
- `EqualityExpressionVisitor`: the `Equals` rewrite.
- `ExpressionReflection`: property lookup, element types, and in-place list `Add`/`Remove`
  through reflection.
- `UpdateDescriptors`: the `Update`, `UpdateCollection` and `Updates` builders.
- `PageNumbersValidation`, `MongoDbPageNumbers`, `MongoDbUtility`,
  `MongoDbExceptionInspector`: paging arithmetic and duplicate-key checks.
- `DriverModel`: the operators, filters, sorts, write models and collection calls that are
  handed to the driver.
- `Repository`: the defaults of the `IRepository` contract.
- `UpdateDefinitionExtensions`: the class-map walk, the memo cache, and
  `SetAllMappedMembers`/`SetOnInsertAllMappedMembers`.
- `MemoryUpdate`: `UpdateField`, the entries applied in order until one throws.
- `MemoryQuery`: `Where`, `FirstOrDefault`, a stable `OrderBy`, and `Skip`/`Take`.
- `MemoryBackend`: the `MemoryRepository` class over `seq<Post>`.
- `MongoDbBackend`: the live repository's request building.

### Behaviour that may be unexpected

The model follows the code in each of these cases:

- One might expect the identifier to be left out of "set all mapped members".
  `UpsertMany`, `UpdateMany(entities)` and `UpdateOne(entity)` pass no exclusions, so the
  identifier is set like every other mapped member (`EntityRequestSetsEveryMember`).
- One might expect a Pull to remove every occurrence, as MongoDB's `$pull` does. The memory
  backend's Pull uses `List.Remove`, which removes only the first one
  (`PullRemovesFirstOccurrenceOnly`).
- One might expect the update builder to be immutable and an update to be atomic. The
  builders append to the receiver's lists. In memory, an entry that throws leaves the changes
  of the entries before it in the stored entity (`FailureKeepsEarlierChanges`).

## Model

| member | source | states |
|---|---|---|
| ClrInt.Wrap | Sanatana.MongoDb/Repository/MemoryRepository.cs:51-53 | an unchecked int32 result equals the mathematical value when it fits, and is congruent to it modulo 2^32 otherwise |
| ClrInt.WrapAdd | Sanatana.MongoDb/Repository/MemoryRepository.cs:51-53 | wrapping an intermediate sum does not change the wrapped final sum |
| ClrString.ContainsIff | Sanatana.MongoDb/MongoDbExceptionInspector.cs:25 | `s.Contains(sub)` holds exactly when `sub` occurs at some index of `s` |
| ClrList.RemoveFirstAbsent | Sanatana.MongoDb/Repository/Expressions/ExpressionReflection.cs:50-57 | `List.Remove` of an absent item leaves the list unchanged |
| ClrList.RemoveFirstAt | Sanatana.MongoDb/Repository/Expressions/ExpressionReflection.cs:50-57 | `List.Remove` drops exactly the first occurrence and keeps the order of the rest |
| ClrList.RemoveFirstPresent | Sanatana.MongoDb/Repository/Expressions/ExpressionReflection.cs:50-57 | removing a present item shortens the list by one and removes one copy from its multiset |
| ClrList.AppendThenRemove | Sanatana.MongoDb/Repository/Expressions/ExpressionReflection.cs:41-57 | adding an absent item and then removing it restores the list |
| ClrList.Int32List.Add | Sanatana.MongoDb/Repository/Expressions/ExpressionReflection.cs:46-47 | the list object gains the item at its end, in place |
| ClrList.Int32List.Remove | Sanatana.MongoDb/Repository/Expressions/ExpressionReflection.cs:55-56 | the search loop removes the first equal element in place and reports whether one was found |
| Entity.DefaultOf | Sanatana.MongoDb/Repository/MemoryRepository.cs:45 | the default of a value type is a non-null value of that type, and the default of a reference type is null |
| Entity.Coerce | Sanatana.MongoDb/Repository/MemoryRepository.cs:45 | reflection accepts null, which becomes the type's default, or a value of exactly the parameter type; anything else throws ArgumentException |
| Entity.PropertyType | Sanatana.MongoDbSpecs/Samples/Post.cs:8-16 | exactly the six Post properties have a type |
| Entity.GetValue | Sanatana.MongoDb/Repository/MemoryRepository.cs:51 | reading succeeds exactly for a Post property and yields null or a value of that property's type |
| Entity.SetThenGet | Sanatana.MongoDb/Repository/MemoryRepository.cs:44-45 | a write fails exactly on an unknown property or a value of the wrong type; reading back gives the converted value, and every other property is unchanged |
| Entity.GetThenSet | Sanatana.MongoDb/Repository/MemoryRepository.cs:44-45 | writing back the value just read leaves the entity unchanged |
| ExpressionReflection.GetPropertyInfo | Sanatana.MongoDb/Repository/Expressions/ExpressionReflection.cs:14-25 | succeeds exactly on a property access, or on one Convert around one, and names that property; a field access or any other node throws InvalidCastException |
| ExpressionReflection.DoubleConvertIsRejected | Sanatana.MongoDb/Repository/Expressions/ExpressionReflection.cs:16-20 | only one Convert is stripped |
| ExpressionReflection.FieldAccessIsRejected | Sanatana.MongoDb/Repository/Expressions/ExpressionReflection.cs:22-23 | a captured local, a field of the closure object, fails the cast to `PropertyInfo`, boxed or not |
| ExpressionReflection.GetElementType | Sanatana.MongoDb/Repository/Expressions/ExpressionReflection.cs:27-39 | an array gives its element type, a generic type its first argument, anything else null |
| ExpressionReflection.InvokeArgument | Sanatana.MongoDb/Repository/Expressions/ExpressionReflection.cs:41-57 | `List<element>.Add`/`Remove` can be invoked exactly when the source is a non-null `List<element>` and the item converts to `element` |
| ExpressionReflection.Int32ListArgument | Sanatana.MongoDb/Repository/Expressions/ExpressionReflection.cs:41-57 | on a `List<int>` the argument is the int item, or 0 for null, and every other item is rejected |
| ExpressionReflection.StringSourceIsRejected | Sanatana.MongoDb/Repository/Expressions/ExpressionReflection.cs:27-44 | a string is enumerable but has no element type, so the list method cannot be found |
| ExpressionReflection.AddToEnumerable | Sanatana.MongoDb/Repository/Expressions/ExpressionReflection.cs:41-48 | the list grows by the converted item at its end, in place; otherwise the call throws the reflection error and the list is unchanged |
| ExpressionReflection.RemoveFromEnumerable | Sanatana.MongoDb/Repository/Expressions/ExpressionReflection.cs:50-57 | the first element equal to the converted item is removed in place, or the list stays as it was |
| EqualityExpressionVisitor.EqualsCallReplaced | Sanatana.MongoDb/Repository/Expressions/EqualityExpressionVisitor.cs:12-18 | any call named Equals, whatever its declaring type, becomes `arguments[0] == arguments[1]` |
| EqualityExpressionVisitor.InstanceEqualsThrows | Sanatana.MongoDb/Repository/Expressions/EqualityExpressionVisitor.cs:15-17 | the one-argument instance form `a.Equals(b)` makes the rewrite throw |
| EqualityExpressionVisitor.NonCallNodesKeepShape | Sanatana.MongoDb/Repository/Expressions/EqualityExpressionVisitor.cs:8-21 | nodes that are not method calls keep their kind, operator and member |
| EqualityExpressionVisitor.NestedEqualsSurvivesOnePass | Sanatana.MongoDb/Repository/Expressions/EqualityExpressionVisitor.cs:15-17 | the arguments of a replaced call are not visited, so an inner Equals survives |
| EqualityExpressionVisitor.RewriteWithoutEqualsIsIdentity | Sanatana.MongoDb/Repository/Expressions/EqualityExpressionVisitor.cs:20 | a tree without Equals calls is rebuilt unchanged |
| EqualityExpressionVisitor.RewritePreservesMeaning | Sanatana.MongoDb/Repository/Expressions/EqualityExpressionVisitor.cs:10-21 | when every Equals call has two arguments and compares values, the rewrite succeeds and the predicate keeps its value on every entity |
| EqualityExpressionVisitor.ThreeArgumentEqualsChangesMeaning | Sanatana.MongoDb/Repository/Expressions/EqualityExpressionVisitor.cs:12-18 | matching by name alone drops a third argument (a case-insensitive comparison), which changes the predicate's value |
| UpdateDescriptors.Update.Property | Sanatana.MongoDb/Repository/Updates/Update.cs:14-21 | the record holds exactly the given accessor and value, with no validation |
| UpdateDescriptors.UpdateCollection.Property | Sanatana.MongoDb/Repository/Updates/UpdateCollection.cs:14-21 | the record holds exactly the given list accessor and element, with no validation |
| UpdateDescriptors.Updates.IsEmpty | Sanatana.MongoDb/Repository/Updates/Updates.cs:16-26 | the descriptor is empty exactly when its five lists hold no entry |
| UpdateDescriptors.Updates.Empty | Sanatana.MongoDb/Repository/Updates/Updates.cs:30-34 | all five lists are null and the descriptor is empty |
| UpdateDescriptors.Updates.Set | Sanatana.MongoDb/Repository/Updates/Updates.cs:38-44 | one entry is appended to Sets, which is created if null; the other lists are untouched and the result is not empty |
| UpdateDescriptors.Updates.Increment | Sanatana.MongoDb/Repository/Updates/Updates.cs:46-52 | as Set, on Increments |
| UpdateDescriptors.Updates.SetOnInsert | Sanatana.MongoDb/Repository/Updates/Updates.cs:54-60 | as Set, on SetOnInserts |
| UpdateDescriptors.Updates.Push | Sanatana.MongoDb/Repository/Updates/Updates.cs:62-68 | as Set, on Pushes |
| UpdateDescriptors.Updates.Pull | Sanatana.MongoDb/Repository/Updates/Updates.cs:70-76 | as Set, on Pulls |
| UpdateDescriptors.BuildersKeepCallOrder | Sanatana.MongoDb/Repository/Updates/Updates.cs:38-76 | successive calls on one list keep call order |
| PageNumbersValidation.ToSkipNumber | Sanatana.MongoDb/Validators/PageNumbersValidation.cs:9-22 | `pageSize < 1` throws first, then `pageIndex < 0` throws; otherwise the result is `pageIndex * pageSize` modulo 2^32, which is the exact non-negative product when it fits |
| PageNumbersValidation.ConsecutivePages | Sanatana.MongoDb/Validators/PageNumbersValidation.cs:21 | page 0 skips nothing, and consecutive pages are `pageSize` apart while the product fits |
| PageNumbersValidation.ProductWrapsAround | Sanatana.MongoDb/Validators/PageNumbersValidation.cs:21 | the product is unchecked: large valid pages wrap to 0 or to a negative skip |
| MongoDbPageNumbers.ToSkipNumber | Sanatana.MongoDb/MongoDbPageNumbers.cs:15-28 | the same two checks, in the same order, with the same messages, and the same unchecked product |
| MongoDbPageNumbers.AgreesWithValidation | Sanatana.MongoDb/MongoDbPageNumbers.cs:15-28 | both 0-based copies give the same skip or throw the same exception on every input |
| MongoDbUtility.ToSkipNumber | Sanatana.MongoDb/MongoDbUtility.cs:11-20 | `pageSize < 1` throws, and pages up to 1 skip nothing |
| MongoDbUtility.OneBasedMatchesZeroBased | Sanatana.MongoDb/MongoDbUtility.cs:16-19 | for `page >= 1` the 1-based skip equals the 0-based skip of `page - 1` |
| MongoDbUtility.IsDuplicateException | Sanatana.MongoDb/MongoDbUtility.cs:22-36 | true only for a non-empty field name |
| MongoDbUtility.AgreesWithInspector | Sanatana.MongoDb/MongoDbUtility.cs:22-36 | agrees with the inspector's per-field check on every input, and is never true with its default field name |
| MongoDbExceptionInspector.IsDuplicateException | Sanatana.MongoDb/MongoDbExceptionInspector.cs:17-27 | true only when there is an inner exception |
| MongoDbExceptionInspector.IsDuplicateExceptionOnField | Sanatana.MongoDb/MongoDbExceptionInspector.cs:35-49 | true only for a non-empty field name |
| MongoDbExceptionInspector.IsDuplicateExceptionOnProperty | Sanatana.MongoDb/MongoDbExceptionInspector.cs:58-62 | the typed overload implies the general duplicate check |
| MongoDbExceptionInspector.FieldImpliesGeneral | Sanatana.MongoDb/MongoDbExceptionInspector.cs:35-49 | the field check holds exactly when the general check holds, the name is non-empty, and the inner message contains `.$` plus the name |
| MongoDbExceptionInspector.OuterMessageIgnored | Sanatana.MongoDb/MongoDbExceptionInspector.cs:25-46 | replacing the outer message changes neither answer |
| MongoDbExceptionInspector.DuplicateKeyExample | Sanatana.MongoDb/MongoDbExceptionInspector.cs:17-49 | an E11000 error on the Email index is recognised by both checks, and an exception without an inner exception by neither |
| DriverModel.BulkWriteCount | Sanatana.MongoDb/Repository/MongoDbRepository.cs:208 | upserted plus modified is the number of requests minus those that changed nothing |
| DriverModel.CountsAddUp | Sanatana.MongoDb/Repository/MongoDbRepository.cs:204-208 | every request is counted once, as upserted, modified or unmodified |
| DriverModel.EveryRequestCounted | Sanatana.MongoDb/Repository/MongoDbRepository.cs:204-208 | when every request inserts or changes its document, the count is the number of entities |
| UpdateDefinitionExtensions.AncestryIsBaseChain | Sanatana.MongoDb/Extensions/UpdateDefinitionExtensions.cs:116-129 | the class maps consulted are the type's own, then each base type's, stopping before `object` |
| UpdateDefinitionExtensions.KeepMappedMembership | Sanatana.MongoDb/Extensions/UpdateDefinitionExtensions.cs:131-140 | a property is selected exactly when it is public and some class map of the chain maps it |
| UpdateDefinitionExtensions.KeepMappedAppend | Sanatana.MongoDb/Extensions/UpdateDefinitionExtensions.cs:133-140 | the selection keeps the property enumeration order |
| UpdateDefinitionExtensions.AllMappedKeepsAll | Sanatana.MongoDb/Extensions/UpdateDefinitionExtensions.cs:133-140 | when every property is mapped, all are selected, in order |
| UpdateDefinitionExtensions.WalkAncestry | Sanatana.MongoDb/Extensions/UpdateDefinitionExtensions.cs:116-129 | the do-while loop collects exactly the base-type chain |
| UpdateDefinitionExtensions.SelectMapped | Sanatana.MongoDb/Extensions/UpdateDefinitionExtensions.cs:131-140 | the loop keeps exactly the mapped properties, in order |
| UpdateDefinitionExtensions.AppendMappedOps | Sanatana.MongoDb/Extensions/UpdateDefinitionExtensions.cs:77-84 | the loop appends one operator per member that is not excluded, in member order |
| UpdateDefinitionExtensions.MappedPropertiesCache.constructor | Sanatana.MongoDb/Extensions/UpdateDefinitionExtensions.cs:22-25 | the cache starts empty and consistent |
| UpdateDefinitionExtensions.MappedPropertiesCache.GetMappedMembers | Sanatana.MongoDb/Extensions/UpdateDefinitionExtensions.cs:107-144 | returns the type's mapped members, served from the cache on a repeat call; the cache only gains this type's entry and every cached list stays correct |
| UpdateDefinitionExtensions.MappedPropertiesCache.AddAllMappedMembers | Sanatana.MongoDb/Extensions/UpdateDefinitionExtensions.cs:37-87 | excluded names are resolved first and their error thrown; otherwise one operator per mapped, non-excluded member, carrying the item's value, is appended to the update |
| UpdateDefinitionExtensions.MappedPropertiesCache.SetAllMappedMembers | Sanatana.MongoDb/Extensions/UpdateDefinitionExtensions.cs:59-87 | as above, with Set operators |
| UpdateDefinitionExtensions.MappedPropertiesCache.SetOnInsertAllMappedMembers | Sanatana.MongoDb/Extensions/UpdateDefinitionExtensions.cs:29-57 | as above, with SetOnInsert operators |
| UpdateDefinitionExtensions.PostMappedAreProperties | Sanatana.MongoDb/Extensions/UpdateDefinitionExtensions.cs:114-140 | every mapped member of Post is a Post property, so reading its value succeeds |
| UpdateDefinitionExtensions.GetMemberName | Sanatana.MongoDb/Extensions/UpdateDefinitionExtensions.cs:89-105 | a member access, or a unary node over one, names the member; a unary node over anything else throws ArgumentException; any other body fails on a null dereference |
| UpdateDefinitionExtensions.MemberNames | Sanatana.MongoDb/Extensions/UpdateDefinitionExtensions.cs:72 | succeeds exactly when every excluded lambda names a member, and gives the names in order |
| UpdateDefinitionExtensions.ExcludedNames | Sanatana.MongoDb/Extensions/UpdateDefinitionExtensions.cs:71-72 | a null exclusion array counts as empty |
| UpdateDefinitionExtensions.MappedOpsAreSelected | Sanatana.MongoDb/Extensions/UpdateDefinitionExtensions.cs:77-84 | every operator has the requested kind and names a mapped, non-excluded member, with the item's value |
| UpdateDefinitionExtensions.MappedOpsCoverMembers | Sanatana.MongoDb/Extensions/UpdateDefinitionExtensions.cs:77-84 | every mapped, non-excluded member gets its operator |
| UpdateDefinitionExtensions.NoExclusionsSetsEveryMember | Sanatana.MongoDb/Extensions/UpdateDefinitionExtensions.cs:71-84 | with no exclusions, every mapped member, the identifier included, gets exactly one operator, in mapped order |
| UpdateDefinitionExtensions.MemberNameAgreesWithPropertyInfo | Sanatana.MongoDb/Extensions/UpdateDefinitionExtensions.cs:89-105 | wherever the reflection helper finds a property, GetMemberName gives the same name; it also accepts a field and a member under a unary node other than Convert, which the helper rejects |
| MemoryUpdate.Unbox | Sanatana.MongoDb/Repository/MemoryRepository.cs:51-52 | `(int)value` succeeds exactly on a boxed int; null throws NullReferenceException, any other type InvalidCastException |
| MemoryUpdate.ApplyStepsAppend | Sanatana.MongoDb/Repository/MemoryRepository.cs:39-75 | running two runs of entries is running the first and, unless it threw, the second |
| MemoryUpdate.AsEnumerable | Sanatana.MongoDb/Repository/MemoryRepository.cs:65 | `(IEnumerable)value` succeeds exactly for null, a string or a list, and keeps the runtime type |
| MemoryUpdate.ApplyStepInPlace | Sanatana.MongoDb/Repository/MemoryRepository.cs:42-73 | one loop iteration, with the list changed in place, gives exactly the specified effect of that entry |
| MemoryUpdate.ApplyEach | Sanatana.MongoDb/Repository/MemoryRepository.cs:42-46 | a `foreach` applies its entries in order and stops at the first that throws |
| MemoryUpdate.UpdateField | Sanatana.MongoDb/Repository/MemoryRepository.cs:39-75 | the five loops apply Sets, Increments, SetOnInserts (only if `wasInserted`), Pushes and Pulls in order, until an entry throws |
| MemoryUpdate.SetOnInsertsNeedInsertion | Sanatana.MongoDb/Repository/MemoryRepository.cs:55-60 | SetOnInserts have no effect unless the entity was just inserted |
| MemoryUpdate.FailureKeepsEarlierChanges | Sanatana.MongoDb/Repository/MemoryRepository.cs:39-75 | when an entry throws, the entity keeps exactly the changes of the entries before it |
| MemoryUpdate.IncrementCounter | Sanatana.MongoDb/Repository/MemoryRepository.cs:48-54 | an increment of Counter adds the value modulo 2^32 |
| MemoryUpdate.PushHistory | Sanatana.MongoDb/Repository/MemoryRepository.cs:61-67 | a push onto History appends the value |
| MemoryUpdate.PullHistory | Sanatana.MongoDb/Repository/MemoryRepository.cs:68-74 | a pull from History removes the first equal element |
| MemoryUpdate.SetText | Sanatana.MongoDb/Repository/MemoryRepository.cs:41-46 | a set of Text stores the string |
| MemoryUpdate.IncrementsAccumulate | Sanatana.MongoDb/Repository/MemoryRepository.cs:48-54 | two increments add up, modulo 2^32 |
| MemoryUpdate.PushThenPullRestores | Sanatana.MongoDb/Repository/MemoryRepository.cs:61-74 | pushing an absent element and then pulling it restores the entity |
| MemoryUpdate.PullRemovesFirstOccurrenceOnly | Sanatana.MongoDb/Repository/MemoryRepository.cs:68-74 | pulling 1 from [1, 1] leaves [1] |
| MemoryUpdate.UpdateWithPushScenario | Sanatana.MongoDbSpecs/MongoDbRepositorySpecs.cs:200-234 | Set Text, Increment Counter by 2 and Push 3 give Text "updated", Counter 3 and History [1, 2, 3] |
| MemoryUpdate.UpdateWithPullScenario | Sanatana.MongoDbSpecs/MongoDbRepositorySpecs.cs:239-273 | with Pull 1 instead of the push, History becomes [2] |
| MemoryQuery.Select | Sanatana.MongoDb/Repository/MemoryRepository.cs:98 | `Where` keeps only elements of the collection that the filter accepts, never more than there were |
| MemoryQuery.SelectPartitions | Sanatana.MongoDb/Repository/MemoryRepository.cs:189-198 | matches and non-matches together are the collection, as a multiset and in number |
| MemoryQuery.FirstMatch | Sanatana.MongoDb/Repository/MemoryRepository.cs:121 | the index found is a match with no match before it; none is found exactly when nothing matches |
| MemoryQuery.FirstMatchHeadsSelection | Sanatana.MongoDb/Repository/MemoryRepository.cs:121 | `FirstOrDefault` of `Where` is the head of the selection |
| MemoryQuery.RemoveFirstMatch | Sanatana.MongoDb/Repository/MemoryRepository.cs:127-128 | `Remove` of the first match removes exactly that position |
| MemoryQuery.RemoveSelectedHead | Sanatana.MongoDb/Repository/MemoryRepository.cs:191-195 | removing the first match drops it from the matches and leaves the non-matches alone |
| MemoryQuery.Skip | Sanatana.MongoDb/Repository/MemoryRepository.cs:113 | `Skip(n)` skips nothing for `n <= 0` and everything for `n` at least the length |
| MemoryQuery.Take | Sanatana.MongoDb/Repository/MemoryRepository.cs:114 | `Take(n)` takes nothing for `n <= 0` and everything for `n` at least the length |
| MemoryQuery.PageIsWindow | Sanatana.MongoDb/Repository/MemoryRepository.cs:112-115 | a page is a contiguous run of the query, at most `pageSize` long |
| MemoryQuery.SortByKeyIsStableSort | Sanatana.MongoDb/Repository/MemoryRepository.cs:99-110 | the sort orders by key in the chosen direction, is a permutation, and keeps the collection order of equal keys |
| MemoryBackend.UpdateMatches | Sanatana.MongoDb/Repository/MemoryRepository.cs:164-172 | updating the matches never changes the length of the collection |
| MemoryBackend.UpdateMatchesPointwise | Sanatana.MongoDb/Repository/MemoryRepository.cs:164-172 | non-matches are untouched; without a failure every match holds its updated entity; a failure occurs exactly when some match's update throws |
| MemoryBackend.UpdateEachMatch | Sanatana.MongoDb/Repository/MemoryRepository.cs:166-171 | the loop updates the matches in collection order and returns their number, or stops at the first failure |
| MemoryBackend.NullEntityUpdate | Sanatana.MongoDb/Repository/MemoryRepository.cs:149 | updating a missing entity succeeds only with no entries; otherwise the first entry throws a cast or target error |
| MemoryBackend.MemoryRepository.constructor | Sanatana.MongoDb/Repository/MemoryRepository.cs:24-31 | a new repository is empty |
| MemoryBackend.MemoryRepository.FromCollection | Sanatana.MongoDb/Repository/MemoryRepository.cs:32-35 | the repository starts with the given collection |
| MemoryBackend.MemoryRepository.InsertOne | Sanatana.MongoDb/Repository/MemoryRepository.cs:85-89 | the entity is appended at the end, with no identifier or duplicate check |
| MemoryBackend.MemoryRepository.InsertMany | Sanatana.MongoDb/Repository/MemoryRepository.cs:79-83 | the entities are appended in order |
| MemoryBackend.MemoryRepository.Count | Sanatana.MongoDb/Repository/MemoryRepository.cs:91-94 | the length of the whole collection, whatever the filter, changing nothing |
| MemoryBackend.MemoryRepository.FindMany | Sanatana.MongoDb/Repository/MemoryRepository.cs:96-117 | the matches, stably sorted if an order key is given, with the unchecked `pageIndex * pageSize` skipped and `pageSize` taken; at most `pageSize` items, each a match from the collection |
| MemoryBackend.MemoryRepository.FindOne | Sanatana.MongoDb/Repository/MemoryRepository.cs:119-123 | the first match in collection order, or none exactly when nothing matches |
| MemoryBackend.MemoryRepository.FindOneAndDelete | Sanatana.MongoDb/Repository/MemoryRepository.cs:125-130 | the first match is returned and removed, the rest keeping their order; with no match, nothing is returned or changed |
| MemoryBackend.MemoryRepository.FindOneAndUpdate | Sanatana.MongoDb/Repository/MemoryRepository.cs:132-151 | the first match is updated in place; Before returns the snapshot and After the updated entity; with no match, Before throws ArgumentNullException and After fails as updating null does |
| MemoryBackend.MemoryRepository.UpdateOne | Sanatana.MongoDb/Repository/MemoryRepository.cs:153-162 | only the first match is updated and 1 returned, or 0 with nothing changed; the length never changes |
| MemoryBackend.MemoryRepository.UpdateMany | Sanatana.MongoDb/Repository/MemoryRepository.cs:164-172 | every match is updated in collection order and the number of matches returned |
| MemoryBackend.MemoryRepository.UpdateOneEntity | Sanatana.MongoDb/Repository/MemoryRepository.cs:174-177 | throws NotImplementedException |
| MemoryBackend.MemoryRepository.UpdateManyEntities | Sanatana.MongoDb/Repository/MemoryRepository.cs:179-182 | throws NotImplementedException |
| MemoryBackend.MemoryRepository.UpsertMany | Sanatana.MongoDb/Repository/MemoryRepository.cs:184-187 | throws NotImplementedException |
| MemoryBackend.MemoryRepository.DeleteMany | Sanatana.MongoDb/Repository/MemoryRepository.cs:189-198 | exactly the non-matches remain, in order, and the number of matches is returned |
| MemoryBackend.MemoryRepository.DeleteOne | Sanatana.MongoDb/Repository/MemoryRepository.cs:200-209 | only the first match is removed and 1 returned, or 0 with nothing changed |
| MemoryBackend.DeleteManyPartitions | Sanatana.MongoDb/Repository/MemoryRepository.cs:189-198 | the kept and the deleted entities together are the old collection, and no kept entity matches |
| MemoryBackend.DeleteThenFindNothing | Sanatana.MongoDbSpecs/MongoDbRepositorySpecs.cs:148-168 | after FindOneAndDelete of the only match, FindOne finds nothing |
| MemoryBackend.InsertThenFind | Sanatana.MongoDb/Repository/MemoryRepository.cs:85-123 | an inserted entity that is the only match is what FindOne finds |
| MongoDbBackend.ToFilter | Sanatana.MongoDb/Repository/MongoDbRepository.cs:33-38 | the filter is `Where` over the rewritten predicate, or the rewrite's error |
| MongoDbBackend.ToFilterKeepsMeaning | Sanatana.MongoDb/Repository/MongoDbRepository.cs:33-38 | the filter sent selects what the caller's predicate selects; a predicate without Equals is sent unchanged |
| MongoDbBackend.FlattenShape | Sanatana.MongoDb/Repository/MongoDbRepository.cs:40-72 | one operator per entry, none for an empty descriptor, in the kind order Set, Inc, SetOnInsert, Push, Pull |
| MongoDbBackend.BackendsVisitInSameOrder | Sanatana.MongoDb/Repository/MongoDbRepository.cs:40-72 | the live backend emits the entries in the order the memory backend applies them |
| MongoDbBackend.AppendScalarOps | Sanatana.MongoDb/Repository/MongoDbRepository.cs:43-57 | one `foreach` appends one operator per entry, in list order |
| MongoDbBackend.AppendCollectionOps | Sanatana.MongoDb/Repository/MongoDbRepository.cs:58-69 | one `foreach` appends one Push or Pull operator per entry, in list order |
| MongoDbBackend.ToUpdateDefinition | Sanatana.MongoDb/Repository/MongoDbRepository.cs:40-72 | the five loops build exactly the flattened descriptor |
| MongoDbBackend.InsertOne | Sanatana.MongoDb/Repository/MongoDbRepository.cs:77-81 | the entity is sent as it is |
| MongoDbBackend.InsertMany | Sanatana.MongoDb/Repository/MongoDbRepository.cs:83-86 | the entities are sent as they are, in order |
| MongoDbBackend.Count | Sanatana.MongoDb/Repository/MongoDbRepository.cs:88-93 | a count with the rewritten filter |
| MongoDbBackend.FindOne | Sanatana.MongoDb/Repository/MongoDbRepository.cs:95-101 | a find with the rewritten filter, limited to one document |
| MongoDbBackend.FindOneAndDelete | Sanatana.MongoDb/Repository/MongoDbRepository.cs:115-119 | a find-and-delete with the rewritten filter |
| MongoDbBackend.FindMany | Sanatana.MongoDb/Repository/MongoDbRepository.cs:131-154 | the rewritten filter, a sort exactly when an order expression is given (direction from the flag), and the validated skip with a limit of `pageSize`; invalid paging throws before any call |
| MongoDbBackend.FindOneAndUpdate | Sanatana.MongoDb/Repository/MongoDbRepository.cs:103-113 | the rewritten filter, the flattened update and the requested returned document |
| MongoDbBackend.UpdateOne | Sanatana.MongoDb/Repository/MongoDbRepository.cs:168-175 | the raw predicate, not rewritten, with the flattened update |
| MongoDbBackend.UpdateMany | Sanatana.MongoDb/Repository/MongoDbRepository.cs:245-254 | the rewritten filter with the flattened update |
| MongoDbBackend.UpdateOneSkipsRewrite | Sanatana.MongoDb/Repository/MongoDbRepository.cs:168-171 | a predicate with an Equals call reaches the server differently through UpdateOne and UpdateMany |
| MongoDbBackend.DeleteOne | Sanatana.MongoDb/Repository/MongoDbRepository.cs:256-262 | a delete-one with the rewritten filter |
| MongoDbBackend.DeleteMany | Sanatana.MongoDb/Repository/MongoDbRepository.cs:264-270 | a delete-many with the rewritten filter |
| MongoDbBackend.BuildRequest | Sanatana.MongoDb/Repository/MongoDbRepository.cs:186-195 | one entity's request: filtered on its identifier, with the requested upsert flag, setting every mapped member through the cache, which stays consistent |
| MongoDbBackend.BuildRequests | Sanatana.MongoDb/Repository/MongoDbRepository.cs:184-196 | the loop builds one identifier-filtered request per entity, in order, through the mapped-members cache |
| MongoDbBackend.UpsertMany | Sanatana.MongoDb/Repository/MongoDbRepository.cs:177-209 | 0 at once exactly for no entities; otherwise one unordered bulk write with one upsert request per entity |
| MongoDbBackend.UpdateManyEntities | Sanatana.MongoDb/Repository/MongoDbRepository.cs:211-243 | as UpsertMany, with requests that do not insert |
| MongoDbBackend.UpdateOneEntity | Sanatana.MongoDb/Repository/MongoDbRepository.cs:156-166 | one update filtered on the entity's identifier, setting every mapped member |
| MongoDbBackend.EntityRequestSetsEveryMember | Sanatana.MongoDb/Repository/MongoDbRepository.cs:186-195 | each request filters on its entity's identifier, has the requested upsert flag, and sets every mapped member, the identifier included, to the entity's value |

## Left out

- Asynchrony: `Task`, `CancellationToken` and `ConfigureAwait` are left out, and every operation is synchronous.
- Server execution: the live backend is modelled up to the driver call it makes. What the server returns, such as `ModifiedCount` and `DeletedCount`, is not modelled. The one exception is the bulk-write count arithmetic.
- `IRepository<T>` is not a Dafny trait. Each backend declares every operation under the interface's name, with the interface's defaults taken from the `Repository` module: `Before` and ascending order. Counts are unbounded integers, not `long`.
- Generic `T` is left out. The model uses one concrete entity, Post. `DateTime`, `TimeSpan` and `ObjectId` are held as integers.
- Reference identity is left out, because entities are values. Consequences:
  - aliasing between a caller's object and the stored one is not modelled;
  - the same object inserted twice is not modelled;
  - `FindOneAndUpdate(After)` handing back the stored reference is not modelled;
  - `List.Remove` compares by value, where the code compares by reference.
- `FindOneAndUpdate(Before)` in memory: the `BinaryFormatter` round trip is modelled as a value snapshot. The formatter would reject a Post type that is not marked `[Serializable]`; that error is not modelled. Its rejection of null is modelled.
- Update descriptors are values. The builders append to the receiver's lists and return a copy that shares them; this mutation and sharing are not modelled.
- `UpdateCollection<T>.Property` constrains its value to the list's element type at compile time. The model leaves the value untyped, and a mismatch surfaces at run time as the reflection error.
- Predicates in memory are Dafny functions standing for the compiled lambdas. Not modelled: a lambda that throws, a null predicate, and null elements in the collection.
- In-memory order keys are `Post -> int` functions. Other `IComparable` keys and comparer exceptions are left out.
- Evaluation of the live backend's predicates: method calls other than `Equals` are interpreted by a caller-supplied function. `Expression.Equal` rejecting operand types without an equality operator is not modelled.
- GetPropertyInfo: a property is identified by its name only, not by the type that declares it. In memory, a property of another object, such as `x => x.Text.Length`, is looked up on the Post and fails with TargetException. The code would throw ArgumentException from `SetValue` on that read-only property. The failing entry and the stored entity are the same either way.
- `GetIdFieldGetter` is left out: the identifier is the Post's `id`, so the `(ObjectId)` cast cannot fail.
- BSON class maps are a fixed function from a type name to its mapped member names. `BsonClassMap.LookupClassMap`'s automatic registration is not modelled.
- The mapped-members cache is modelled for the Post type and for sequential access only. Concurrent access is left out.
- `Render` is left out; it is a pass-through to the driver's serializer.
- `FieldDefinitions.GetFieldMappedName`, used by the typed duplicate check, is a parameter of the model.
