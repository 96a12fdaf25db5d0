/**
 * The entity the repositories store, shaped like the sample `Post` document, and the
 * reflection calls (`PropertyInfo.GetValue` / `SetValue`) that read and write its properties
 * by name. Values are the boxed `object`s that flow through update descriptors.
 */
module Entity {
  import opened Wrappers
  import opened ClrInt

  /** A 12-byte MongoDB ObjectId, kept abstract. `ObjectId.Empty` is 0. */
  type ObjectId = nat

  /** The runtime types a boxed value or a property can have. */
  datatype ClrType =
    | BooleanType
    | Int32Type
    | StringType
    | ObjectIdType
    | DateTimeType
    | TimeSpanType
    | PostType
    | ArrayOf(element: ClrType)
    | GenericOf(definition: string, first: ClrType, rest: seq<ClrType>)

  const ListDefinition: string := "System.Collections.Generic.List`1"

  function ListOf(element: ClrType): ClrType
  {
    GenericOf(ListDefinition, element, [])
  }

  /** Value types are never null: reflection substitutes their zero value for a null argument. */
  predicate IsValueType(t: ClrType)
  {
    t.BooleanType? || t.Int32Type? || t.ObjectIdType? || t.DateTimeType? || t.TimeSpanType?
  }

  /** The document: Post's ID, Text, Counter, History, CreatedTimeUtc and Duration.
      Text and History are references and may be null; dates and spans are held as ticks. */
  datatype Post = Post(
    id: ObjectId,
    text: Option<string>,
    counter: Int32,
    history: Option<seq<Int32>>,
    createdTimeUtc: int,
    duration: int)

  /** A boxed `object`. */
  datatype Value =
    | VNull
    | VBool(b: bool)
    | VInt(i: Int32)
    | VText(s: string)
    | VId(oid: ObjectId)
    | VDateTime(dateTicks: int)
    | VTimeSpan(spanTicks: int)
    | VIntList(items: seq<Int32>)
    | VEntity(post: Post)

  /** `value.GetType()`; None for null. */
  function RuntimeTypeOf(v: Value): Option<ClrType>
  {
    match v
    case VNull => None
    case VBool(_) => Some(BooleanType)
    case VInt(_) => Some(Int32Type)
    case VText(_) => Some(StringType)
    case VId(_) => Some(ObjectIdType)
    case VDateTime(_) => Some(DateTimeType)
    case VTimeSpan(_) => Some(TimeSpanType)
    case VIntList(_) => Some(ListOf(Int32Type))
    case VEntity(_) => Some(PostType)
  }

  /** `default(T)`: zero for a value type, null for a reference type. */
  function DefaultOf(t: ClrType): (v: Value)
    ensures IsValueType(t) <==> v != VNull
    ensures v != VNull ==> RuntimeTypeOf(v) == Some(t)
  {
    match t
    case BooleanType => VBool(false)
    case Int32Type => VInt(0)
    case ObjectIdType => VId(0)
    case DateTimeType => VDateTime(0)
    case TimeSpanType => VTimeSpan(0)
    case _ => VNull
  }

  const ConversionMessage: string := "Object cannot be converted to the parameter type."

  /** How reflection passes `v` to a parameter of type `t`: null becomes `default(t)`;
      any other value must already have type `t`. */
  function Coerce(v: Value, t: ClrType): (r: Result<Value>)
    ensures r.Ok? <==> v == VNull || RuntimeTypeOf(v) == Some(t)
    ensures r.Ok? ==> r.value == VNull || RuntimeTypeOf(r.value) == Some(t)
    ensures r.Ok? && v != VNull ==> r.value == v
    ensures r.Ok? && IsValueType(t) ==> r.value != VNull
    ensures r.Err? ==> r.error == ArgumentException(ConversionMessage)
  {
    if v == VNull then Ok(DefaultOf(t))
    else if RuntimeTypeOf(v) == Some(t) then Ok(v)
    else Err(ArgumentException(ConversionMessage))
  }

  /** The public properties of Post, in declaration order. */
  const PostProperties: seq<string> := ["ID", "Text", "Counter", "History", "CreatedTimeUtc", "Duration"]

  /** The declared type of a Post property; None for a name that is not one. */
  function PropertyType(name: string): (t: Option<ClrType>)
    ensures t.Some? <==> name in PostProperties
  {
    if name == "ID" then Some(ObjectIdType)
    else if name == "Text" then Some(StringType)
    else if name == "Counter" then Some(Int32Type)
    else if name == "History" then Some(ListOf(Int32Type))
    else if name == "CreatedTimeUtc" then Some(DateTimeType)
    else if name == "Duration" then Some(TimeSpanType)
    else None
  }

  /** `propertyInfo.GetValue(entity)`. A property of another type does not match the
      target and throws TargetException. */
  function GetValue(p: Post, name: string): (r: Result<Value>)
    ensures r.Ok? <==> name in PostProperties
    ensures r.Ok? ==> r.value == VNull || RuntimeTypeOf(r.value) == PropertyType(name)
  {
    if name == "ID" then Ok(VId(p.id))
    else if name == "Text" then Ok(if p.text.Some? then VText(p.text.value) else VNull)
    else if name == "Counter" then Ok(VInt(p.counter))
    else if name == "History" then Ok(if p.history.Some? then VIntList(p.history.value) else VNull)
    else if name == "CreatedTimeUtc" then Ok(VDateTime(p.createdTimeUtc))
    else if name == "Duration" then Ok(VTimeSpan(p.duration))
    else Err(TargetException)
  }

  /** `propertyInfo.SetValue(entity, value)`: the value is converted to the property type
      as reflection does, then stored. */
  function SetValue(p: Post, name: string, v: Value): (r: Result<Post>)
  {
    match PropertyType(name)
    case None => Err(TargetException)
    case Some(t) =>
      var c :- Coerce(v, t);
      if name == "ID" then Ok(p.(id := c.oid))
      else if name == "Text" then Ok(p.(text := if c.VText? then Some(c.s) else None))
      else if name == "Counter" then Ok(p.(counter := c.i))
      else if name == "History" then Ok(p.(history := if c.VIntList? then Some(c.items) else None))
      else if name == "CreatedTimeUtc" then Ok(p.(createdTimeUtc := c.dateTicks))
      else Ok(p.(duration := c.spanTicks))
  }

  /** SetValue fails exactly when the name is not a Post property or the value has the
      wrong type; reading the property back gives the converted value, and every other
      property keeps its value. */
  lemma SetThenGet(p: Post, name: string, v: Value)
    ensures SetValue(p, name, v).Ok? <==>
              name in PostProperties && Coerce(v, PropertyType(name).value).Ok?
    ensures SetValue(p, name, v).Ok? ==>
              GetValue(SetValue(p, name, v).value, name) == Coerce(v, PropertyType(name).value)
    ensures SetValue(p, name, v).Ok? ==>
              forall other :: other != name ==>
                GetValue(SetValue(p, name, v).value, other) == GetValue(p, other)
  {
  }

  /** Writing back a value just read leaves the entity as it was. */
  lemma GetThenSet(p: Post, name: string)
    requires name in PostProperties
    ensures SetValue(p, name, GetValue(p, name).value) == Ok(p)
  {
  }
}
