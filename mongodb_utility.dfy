/**
 * Duplicate-key classification: a write that violates a unique index surfaces as an
 * exception whose inner exception's message carries the server's E11000 error text, and on
 * older servers names the index as `<db>.<collection>.$<index>`.
 */
module MongoDbExceptionInspector {
  import opened Wrappers
  import opened ClrString
  import opened ExpressionTree

  /** A thrown exception: its message and its inner exception, if any. */
  datatype ThrownException = ThrownException(message: string, innerException: Option<ThrownException>)

  const DuplicateMarker: string := "E11000 duplicate"

  /** `string.IsNullOrEmpty(fieldName)`. */
  predicate IsNullOrEmpty(fieldName: Option<string>)
  {
    fieldName.None? || fieldName.value == ""
  }

  /** `IsDuplicateException(exception)`: the inner message contains the duplicate-key marker. */
  predicate IsDuplicateException(exception: Option<ThrownException>)
    ensures IsDuplicateException(exception) ==> exception.Some? && exception.value.innerException.Some?
  {
    exception.Some? && exception.value.innerException.Some?
    && Contains(exception.value.innerException.value.message, DuplicateMarker)
  }

  /** `IsDuplicateException(exception, fieldName)`: additionally the inner message names the
      field as `.$fieldName`. */
  predicate IsDuplicateExceptionOnField(exception: Option<ThrownException>, fieldName: Option<string>)
    ensures IsDuplicateExceptionOnField(exception, fieldName) ==> !IsNullOrEmpty(fieldName)
  {
    if exception.None? || exception.value.innerException.None? then false
    else
      var message := exception.value.innerException.value.message;
      var isDup := Contains(message, DuplicateMarker);
      var fieldMatched := !IsNullOrEmpty(fieldName) && Contains(message, ".$" + fieldName.value);
      isDup && fieldMatched
  }

  /** `IsDuplicateException<T>(exception, property)`: the property accessor is rendered to its
      mapped element name (by the class maps, not modelled here) and checked as above. */
  predicate IsDuplicateExceptionOnProperty(exception: Option<ThrownException>, property: Expr,
                                           mappedName: Expr -> Option<string>)
    ensures IsDuplicateExceptionOnProperty(exception, property, mappedName) ==> IsDuplicateException(exception)
  {
    FieldImpliesGeneral(exception, mappedName(property));
    IsDuplicateExceptionOnField(exception, mappedName(property))
  }

  /** A duplicate on a given field is a duplicate: the field check implies the general one,
      and the field check is the general one plus the `.$fieldName` test. */
  lemma FieldImpliesGeneral(exception: Option<ThrownException>, fieldName: Option<string>)
    ensures IsDuplicateExceptionOnField(exception, fieldName) ==> IsDuplicateException(exception)
    ensures IsDuplicateExceptionOnField(exception, fieldName) <==>
              IsDuplicateException(exception) && !IsNullOrEmpty(fieldName)
              && Contains(exception.value.innerException.value.message, ".$" + fieldName.value)
  {
  }

  /** Only the inner exception's message is inspected: replacing the outer message changes
      neither answer. */
  lemma OuterMessageIgnored(message: string, otherMessage: string, inner: Option<ThrownException>, fieldName: Option<string>)
    ensures IsDuplicateException(Some(ThrownException(message, inner)))
              == IsDuplicateException(Some(ThrownException(otherMessage, inner)))
    ensures IsDuplicateExceptionOnField(Some(ThrownException(message, inner)), fieldName)
              == IsDuplicateExceptionOnField(Some(ThrownException(otherMessage, inner)), fieldName)
  {
  }

  /** A duplicate-key error on the `Email` index is recognised by both checks, and an
      exception without an inner exception is not, whatever its own message says. */
  lemma DuplicateKeyExample()
    ensures var inner := ThrownException(DuplicateMarker + " key error index: db.users" + ".$Email" + "_1", None);
            var e := Some(ThrownException("A write operation resulted in an error.", Some(inner)));
            IsDuplicateException(e) && IsDuplicateExceptionOnField(e, Some("Email"))
    ensures !IsDuplicateException(Some(ThrownException(DuplicateMarker, None)))
  {
    var head := DuplicateMarker + " key error index: db.users";
    var message := head + ".$Email" + "_1";
    assert message[..|DuplicateMarker|] == DuplicateMarker;
    ContainsAt(message, DuplicateMarker, 0);
    assert message[|head|..|head| + 7] == ".$Email";
    ContainsAt(message, ".$" + "Email", |head|);
  }
}

/**
 * MongoDbUtility: the 1-based skip count, which clamps low pages instead of rejecting them,
 * and a copy of the per-field duplicate check with an optional field name.
 */
module MongoDbUtility {
  import opened Wrappers
  import opened ClrInt
  import opened ClrString
  import MongoDbExceptionInspector
  import PageNumbersValidation

  const PageSizeMessage: string := "Number of items per page must be greater then 0."

  /** `ToSkipNumber(page, pageSize)`: pages below 1 count as page 1. */
  function ToSkipNumber(page: Int32, pageSize: Int32): (r: Result<Int32>)
    ensures r.Ok? <==> pageSize >= 1
    ensures r.Err? ==> r.error == PlainException(PageSizeMessage)
    ensures r.Ok? && page <= 1 ==> r.value == 0
  {
    if pageSize < 1 then Err(PlainException(PageSizeMessage))
    else
      var clamped := if page < 1 then 1 else page;
      Ok(Wrap((clamped - 1) * pageSize))
  }

  /** 1-based paging: page `p` (p >= 1) skips what the 0-based count skips for page `p - 1`. */
  lemma OneBasedMatchesZeroBased(page: Int32, pageSize: Int32)
    requires page >= 1 && pageSize >= 1
    ensures ToSkipNumber(page, pageSize) == PageNumbersValidation.ToSkipNumber(page - 1, pageSize)
  {
  }

  /** `IsDuplicateException(exception, fieldName = null)`. */
  predicate IsDuplicateException(exception: Option<MongoDbExceptionInspector.ThrownException>,
                                 fieldName: Option<string> := None)
    ensures IsDuplicateException(exception, fieldName) ==> !MongoDbExceptionInspector.IsNullOrEmpty(fieldName)
  {
    if exception.None? || exception.value.innerException.None? then false
    else
      var message := exception.value.innerException.value.message;
      var isDup := Contains(message, MongoDbExceptionInspector.DuplicateMarker);
      var fieldMatched := !MongoDbExceptionInspector.IsNullOrEmpty(fieldName) && Contains(message, ".$" + fieldName.value);
      isDup && fieldMatched
  }

  /** This copy answers as the inspector's per-field check on every input; with its default
      field name it never reports a duplicate. */
  lemma AgreesWithInspector(exception: Option<MongoDbExceptionInspector.ThrownException>, fieldName: Option<string>)
    ensures IsDuplicateException(exception, fieldName)
              == MongoDbExceptionInspector.IsDuplicateExceptionOnField(exception, fieldName)
    ensures !IsDuplicateException(exception)
  {
  }
}
