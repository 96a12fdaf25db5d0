/**
 * ExpressionReflection: the reflection primitives behind the in-memory Set, Increment, Push
 * and Pull. A property is found from an accessor body with one `Convert` stripped; a list is
 * changed through `List<element>.Add` / `Remove`, found from the list's runtime type and
 * invoked on the list object.
 */
module ExpressionReflection {
  import opened Wrappers
  import opened ClrInt
  import opened Entity
  import opened ExpressionTree
  import opened ClrList

  /** `GetPropertyInfo(expression)`: the name of the accessed property. Both casts in it,
      to `MemberExpression` and then to `PropertyInfo`, throw InvalidCastException. */
  function GetPropertyInfo(expression: Expr): (r: Result<string>)
    ensures r.Ok? <==> IsPropertyAccess(expression)
                       || (expression.Unary? && expression.unaryOp == Convert && IsPropertyAccess(expression.operand))
    ensures r.Ok? && expression.MemberAccess? ==> r.value == expression.member
    ensures r.Ok? && expression.Unary? ==> r.value == expression.operand.member
    ensures r.Err? ==> r.error == InvalidCastException
  {
    var body := if expression.Unary? && expression.unaryOp == Convert then expression.operand else expression;
    if body.MemberAccess? && body.memberKind == PropertyMember then Ok(body.member)
    else Err(InvalidCastException)
  }

  predicate IsPropertyAccess(e: Expr)
  {
    e.MemberAccess? && e.memberKind == PropertyMember
  }

  /** Only one conversion is stripped: `(object)(object)x.P` is not an accessor. */
  lemma DoubleConvertIsRejected(target: Expr, member: string)
    ensures GetPropertyInfo(Unary(Convert, Unary(Convert, MemberAccess(target, member, PropertyMember))))
              == Err(InvalidCastException)
  {
  }

  /** A field is not a property: `x => local`, a captured local read from its closure, is
      rejected by the cast to `PropertyInfo`, boxed or not. */
  lemma FieldAccessIsRejected(closure: Value, name: string)
    ensures GetPropertyInfo(MemberAccess(Constant(closure), name, FieldMember)) == Err(InvalidCastException)
    ensures GetPropertyInfo(Unary(Convert, MemberAccess(Constant(closure), name, FieldMember))) == Err(InvalidCastException)
  {
  }

  /** `GetElementType(source)` on the source's runtime type: an array's element type, a generic
      type's first argument, otherwise null. */
  function GetElementType(t: ClrType): (r: Option<ClrType>)
    ensures r.Some? <==> t.ArrayOf? || t.GenericOf?
    ensures t.ArrayOf? ==> r == Some(t.element)
    ensures t.GenericOf? ==> r == Some(t.first)
  {
    match t
    case ArrayOf(element) => Some(element)
    case GenericOf(_, first, _) => Some(first)
    case _ => None
  }

  /** The argument that `List<element>.Add` / `Remove` receives when invoked by reflection on
      a source of runtime type `sourceType` (None: the source is null), or what is thrown:
      `source.GetType()` on null, `MakeGenericType(null)` when no element type is found, a
      target that is not a `List<element>`, or an item reflection cannot convert. */
  function InvokeArgument(sourceType: Option<ClrType>, item: Value): (r: Result<Value>)
    ensures r.Ok? <==> sourceType.Some? && sourceType.value.GenericOf?
                       && sourceType.value == ListOf(sourceType.value.first)
                       && Coerce(item, sourceType.value.first).Ok?
    ensures r.Ok? ==> r == Coerce(item, sourceType.value.first)
  {
    match sourceType
    case None => Err(NullReferenceException)
    case Some(t) =>
      match GetElementType(t)
      case None => Err(ArgumentNullException)
      case Some(element) =>
        if t != ListOf(element) then Err(TargetException)
        else Coerce(item, element)
  }

  /** For the `List<int>` that backs an int list property, the argument is the item, or 0
      for null; any other item is rejected. */
  lemma Int32ListArgument(item: Value)
    ensures InvokeArgument(Some(ListOf(Int32Type)), item).Ok? <==> item == VNull || item.VInt?
    ensures InvokeArgument(Some(ListOf(Int32Type)), item).Ok? ==>
              InvokeArgument(Some(ListOf(Int32Type)), item) == Ok(VInt(if item.VInt? then item.i else 0))
  {
  }

  /** A string is enumerable but not generic, so no list method is found for it. */
  lemma StringSourceIsRejected(item: Value)
    ensures InvokeArgument(Some(StringType), item) == Err(ArgumentNullException)
  {
  }

  /** What `(IEnumerable)property` can be in the entity: null, a string or a list object. */
  datatype Enumerable = NullSource | TextSource(text: string) | ListSource(list: Int32List)

  function TypeOfSource(source: Enumerable): Option<ClrType>
  {
    match source
    case NullSource => None
    case TextSource(_) => Some(StringType)
    case ListSource(_) => Some(ListOf(Int32Type))
  }

  /** `AddToEnumerable(source, newItemToAdd)`: appends the converted item to the list in place. */
  method AddToEnumerable(source: Enumerable, newItemToAdd: Value) returns (r: Result<()>)
    modifies if source.ListSource? then {source.list} else {}
    ensures r.Ok? <==> InvokeArgument(TypeOfSource(source), newItemToAdd).Ok?
    ensures r.Err? ==> r.error == InvokeArgument(TypeOfSource(source), newItemToAdd).error
    ensures source.ListSource? ==>
              source.list.items == old(source.list.items)
                + (if r.Ok? then [InvokeArgument(TypeOfSource(source), newItemToAdd).value.i] else [])
  {
    var argument := InvokeArgument(TypeOfSource(source), newItemToAdd);
    if argument.Err? {
      return Err(argument.error);
    }
    Int32ListArgument(newItemToAdd);
    source.list.Add(argument.value.i);
    r := Ok(());
  }

  /** `RemoveFromEnumerable(source, itemToRemove)`: removes the first element equal to the
      converted item from the list in place; an absent item leaves the list as it was. */
  method RemoveFromEnumerable(source: Enumerable, itemToRemove: Value) returns (r: Result<()>)
    modifies if source.ListSource? then {source.list} else {}
    ensures r.Ok? <==> InvokeArgument(TypeOfSource(source), itemToRemove).Ok?
    ensures r.Err? ==> r.error == InvokeArgument(TypeOfSource(source), itemToRemove).error
    ensures source.ListSource? ==>
              source.list.items ==
                if r.Ok? then RemoveFirst(old(source.list.items), InvokeArgument(TypeOfSource(source), itemToRemove).value.i)
                else old(source.list.items)
  {
    var argument := InvokeArgument(TypeOfSource(source), itemToRemove);
    if argument.Err? {
      return Err(argument.error);
    }
    Int32ListArgument(itemToRemove);
    var _ := source.list.Remove(argument.value.i);
    r := Ok(());
  }
}
