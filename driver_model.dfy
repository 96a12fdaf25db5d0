/**
 * What the live repository hands to the MongoDB driver: update operators, filters, sort
 * specifications, bulk write requests and collection calls. The server that executes them
 * is not modelled; only the requests are.
 */
module DriverModel {
  import opened Wrappers
  import opened ClrInt
  import opened Entity
  import opened ExpressionTree

  /** A returned-document option of `FindOneAndUpdate`, as in IRepository. */
  datatype ReturnDocument = Before | After

  /** The update operators the repository layer emits. */
  datatype OpKind = SetOp | IncOp | SetOnInsertOp | PushOp | PullOp

  /** A field named by an accessor expression or by its element name. */
  datatype FieldRef = FieldExpression(accessor: Expr) | FieldName(name: string)

  /** One operator of a combined update definition. */
  datatype UpdateOp = UpdateOp(kind: OpKind, field: FieldRef, value: Value)

  datatype Filter =
    | Where(condition: Expr)       // `Builders<T>.Filter.Where(condition)`
    | IdEquals(id: ObjectId)       // `Builders<T>.Filter.Eq("_id", id)`

  datatype Sort = SortBy(key: Expr) | SortByDescending(key: Expr)

  /** `new UpdateOneModel<T>(filter, update) { IsUpsert = isUpsert }`. */
  datatype WriteModel = UpdateOneModel(filter: Filter, update: seq<UpdateOp>, isUpsert: bool)

  /** The collection calls the repository makes. */
  datatype DriverCall =
    | InsertOneCall(document: Post)
    | InsertManyCall(documents: seq<Post>)
    | CountDocumentsCall(filter: Filter)
    | FindCall(filter: Filter, sort: Option<Sort>, skip: Option<Int32>, limit: Option<Int32>)
    | FindOneAndUpdateCall(filter: Filter, update: seq<UpdateOp>, returnDocument: ReturnDocument)
    | FindOneAndDeleteCall(filter: Filter)
    | UpdateOneCall(filter: Filter, update: seq<UpdateOp>)
    | UpdateManyCall(filter: Filter, update: seq<UpdateOp>)
    | DeleteOneCall(filter: Filter)
    | DeleteManyCall(filter: Filter)
    | BulkWriteCall(requests: seq<WriteModel>, isOrdered: bool)

  /** An operation either answers at once without contacting the server, or issues a call. */
  datatype Dispatch = Immediate(count: int) | Send(call: DriverCall)

  /** What the server reports for one request of a bulk write. */
  datatype RequestOutcome = Upserted | Modified | Unmodified

  function UpsertCount(outcomes: seq<RequestOutcome>): nat
  {
    if outcomes == [] then 0 else (if outcomes[0] == Upserted then 1 else 0) + UpsertCount(outcomes[1..])
  }

  function ModifiedCount(outcomes: seq<RequestOutcome>): nat
  {
    if outcomes == [] then 0 else (if outcomes[0] == Modified then 1 else 0) + ModifiedCount(outcomes[1..])
  }

  /** `bulkResult.Upserts.Count + bulkResult.ModifiedCount`. */
  function BulkWriteCount(outcomes: seq<RequestOutcome>): (count: nat)
    ensures count <= |outcomes|
    ensures count == |outcomes| - |Unmodifieds(outcomes)|
  {
    CountsAddUp(outcomes);
    UpsertCount(outcomes) + ModifiedCount(outcomes)
  }

  function Unmodifieds(outcomes: seq<RequestOutcome>): seq<RequestOutcome>
  {
    if outcomes == [] then []
    else (if outcomes[0] == Unmodified then [outcomes[0]] else []) + Unmodifieds(outcomes[1..])
  }

  lemma {:induction false} CountsAddUp(outcomes: seq<RequestOutcome>)
    ensures UpsertCount(outcomes) + ModifiedCount(outcomes) + |Unmodifieds(outcomes)| == |outcomes|
    decreases |outcomes|
  {
    if outcomes != [] {
      CountsAddUp(outcomes[1..]);
    }
  }

  /** When every request either inserts or changes its document, the reported count is the
      number of entities, as the upsert test expects of three entities one of which already
      existed. */
  lemma EveryRequestCounted(outcomes: seq<RequestOutcome>)
    requires forall k :: 0 <= k < |outcomes| ==> outcomes[k] != Unmodified
    ensures BulkWriteCount(outcomes) == |outcomes|
  {
    NoUnmodified(outcomes);
  }

  lemma {:induction false} NoUnmodified(outcomes: seq<RequestOutcome>)
    requires forall k :: 0 <= k < |outcomes| ==> outcomes[k] != Unmodified
    ensures Unmodifieds(outcomes) == []
    decreases |outcomes|
  {
    if outcomes != [] {
      NoUnmodified(outcomes[1..]);
    }
  }
}

/**
 * IRepository: the contract both repositories implement. Each backend declares every
 * operation under the same name with these defaults.
 */
module Repository {
  import opened DriverModel

  /** `FindOneAndUpdate` returns the document as it was before the update unless told otherwise. */
  const DefaultReturnDocument: ReturnDocument := Before

  /** `FindMany` sorts ascending unless told otherwise (and only when given an order key). */
  const DefaultOrderDescending: bool := false
}
