/**
 * MemoryRepository: the in-memory backend of IRepository, a list of entities changed in
 * place. Filters are the compiled predicates, evaluated against each stored entity.
 */
module MemoryBackend {
  import opened Wrappers
  import opened ClrInt
  import opened Entity
  import opened ClrList
  import opened ExpressionReflection
  import opened UpdateDescriptors
  import opened DriverModel
  import opened Repository
  import opened MemoryUpdate
  import opened MemoryQuery

  /** The collection after an update of every match, and the exception that stopped it. */
  datatype Outcome = Outcome(posts: seq<Post>, failure: Option<Exception>)

  function Prepend(prefix: seq<Post>, o: Outcome): Outcome
  {
    Outcome(prefix + o.posts, o.failure)
  }

  /** UpdateMany's loop: each match, in collection order, gets the steps; the first failure
      stops the loop and leaves the later matches as they were. */
  function UpdateMatches(c: seq<Post>, filter: Post -> bool, steps: seq<Step>): (o: Outcome)
    ensures |o.posts| == |c|
    decreases |c|
  {
    if c == [] then Outcome([], None)
    else if !filter(c[0]) then Prepend([c[0]], UpdateMatches(c[1..], filter, steps))
    else
      var a := ApplySteps(c[0], steps);
      if a.failure.Some? then Outcome([a.post] + c[1..], a.failure)
      else Prepend([a.post], UpdateMatches(c[1..], filter, steps))
  }

  /** The entity UpdateMany leaves at the head of `c` and what the rest of the loop does. */
  lemma UpdateMatchesHead(c: seq<Post>, filter: Post -> bool, steps: seq<Step>)
    requires c != []
    ensures var o := UpdateMatches(c, filter, steps);
            var a := ApplySteps(c[0], steps);
            if filter(c[0]) && a.failure.Some? then o == Outcome([a.post] + c[1..], a.failure)
            else o == Prepend([if filter(c[0]) then a.post else c[0]], UpdateMatches(c[1..], filter, steps))
  {
  }

  /** Entities the filter rejects are never touched. */
  lemma {:induction false} UnmatchedUntouched(c: seq<Post>, filter: Post -> bool, steps: seq<Step>)
    ensures forall k :: 0 <= k < |c| && !filter(c[k]) ==> UpdateMatches(c, filter, steps).posts[k] == c[k]
    decreases |c|
  {
    if c != [] {
      UnmatchedUntouched(c[1..], filter, steps);
      UpdateMatchesHead(c, filter, steps);
      var o := UpdateMatches(c, filter, steps);
      var rest := UpdateMatches(c[1..], filter, steps);
      forall k | 1 <= k < |c| && !filter(c[k]) ensures o.posts[k] == c[k] {
        assert c[1..][k - 1] == c[k];
        if !(filter(c[0]) && ApplySteps(c[0], steps).failure.Some?) {
          assert o.posts[k] == rest.posts[k - 1];
        }
      }
    }
  }

  /** When no update fails, every match holds its updated entity. */
  lemma {:induction false} MatchesUpdated(c: seq<Post>, filter: Post -> bool, steps: seq<Step>)
    requires UpdateMatches(c, filter, steps).failure.None?
    ensures forall k :: 0 <= k < |c| && filter(c[k]) ==>
              UpdateMatches(c, filter, steps).posts[k] == ApplySteps(c[k], steps).post
    decreases |c|
  {
    if c != [] {
      UpdateMatchesHead(c, filter, steps);
      MatchesUpdated(c[1..], filter, steps);
      var o := UpdateMatches(c, filter, steps);
      var rest := UpdateMatches(c[1..], filter, steps);
      forall k | 1 <= k < |c| && filter(c[k]) ensures o.posts[k] == ApplySteps(c[k], steps).post {
        assert c[1..][k - 1] == c[k];
        assert o.posts[k] == rest.posts[k - 1];
      }
    }
  }

  /** The loop fails exactly when some match's update throws. */
  lemma {:induction false} FailsIffSomeMatchFails(c: seq<Post>, filter: Post -> bool, steps: seq<Step>)
    ensures UpdateMatches(c, filter, steps).failure.None? <==>
              forall k :: 0 <= k < |c| && filter(c[k]) ==> ApplySteps(c[k], steps).failure.None?
    decreases |c|
  {
    if c != [] {
      UpdateMatchesHead(c, filter, steps);
      FailsIffSomeMatchFails(c[1..], filter, steps);
      assert forall k :: 1 <= k < |c| ==> c[1..][k - 1] == c[k];
      if !(filter(c[0]) && ApplySteps(c[0], steps).failure.Some?) {
        forall k | 0 <= k < |c[1..]| && filter(c[1..][k])
          ensures ApplySteps(c[1..][k], steps).failure == ApplySteps(c[k + 1], steps).failure
        {
        }
      }
    }
  }

  /** Entities the filter rejects are never touched; when no update fails, every match holds
      the updated entity; and the loop fails exactly when some match's update throws. */
  lemma UpdateMatchesPointwise(c: seq<Post>, filter: Post -> bool, steps: seq<Step>)
    ensures forall k :: 0 <= k < |c| && !filter(c[k]) ==> UpdateMatches(c, filter, steps).posts[k] == c[k]
    ensures UpdateMatches(c, filter, steps).failure.None? ==>
              forall k :: 0 <= k < |c| && filter(c[k]) ==>
                UpdateMatches(c, filter, steps).posts[k] == ApplySteps(c[k], steps).post
    ensures UpdateMatches(c, filter, steps).failure.None? <==>
              forall k :: 0 <= k < |c| && filter(c[k]) ==> ApplySteps(c[k], steps).failure.None?
  {
    UnmatchedUntouched(c, filter, steps);
    if UpdateMatches(c, filter, steps).failure.None? {
      MatchesUpdated(c, filter, steps);
    }
    FailsIffSomeMatchFails(c, filter, steps);
  }

  /** One turn of UpdateMany's loop, seen from position `i` of the original collection. */
  lemma UpdateMatchesUnfold(c: seq<Post>, i: nat, filter: Post -> bool, steps: seq<Step>)
    requires i < |c|
    ensures UpdateMatches(c[i..], filter, steps) ==
              if !filter(c[i]) then Prepend([c[i]], UpdateMatches(c[i + 1..], filter, steps))
              else if ApplySteps(c[i], steps).failure.Some?
              then Outcome([ApplySteps(c[i], steps).post] + c[i + 1..], ApplySteps(c[i], steps).failure)
              else Prepend([ApplySteps(c[i], steps).post], UpdateMatches(c[i + 1..], filter, steps))
    ensures |Select(c[i..], filter, true)| == (if filter(c[i]) then 1 else 0) + |Select(c[i + 1..], filter, true)|
  {
    assert c[i..][0] == c[i] && c[i..][1..] == c[i + 1..];
  }

  /** UpdateMany's `foreach` over the matches, each entity updated where it is stored: the
      entities before position `i` are `done`, the rest are as they were. */
  method UpdateEachMatch(original: seq<Post>, filter: Post -> bool, updates: Updates)
    returns (posts: seq<Post>, r: Result<int>)
    ensures var o := UpdateMatches(original, filter, Steps(updates, false));
            posts == o.posts
            && r == if o.failure.Some? then Err(o.failure.value) else Ok(|Select(original, filter, true)|)
  {
    ghost var steps := Steps(updates, false);
    var done: seq<Post> := [];
    var count := 0;
    var i := 0;
    while i < |original|
      invariant 0 <= i <= |original| && |done| == i
      invariant UpdateMatches(original, filter, steps) == Prepend(done, UpdateMatches(original[i..], filter, steps))
      invariant count + |Select(original[i..], filter, true)| == |Select(original, filter, true)|
    {
      UpdateMatchesUnfold(original, i, filter, steps);
      var next := original[i];
      if filter(next) {
        var a := UpdateField(updates, next, false);
        if a.failure.Some? {
          return done + ([a.post] + original[i + 1..]), Err(a.failure.value);
        }
        next := a.post;
        count := count + 1;
      }
      assert done + ([next] + UpdateMatches(original[i + 1..], filter, steps).posts)
          == (done + [next]) + UpdateMatches(original[i + 1..], filter, steps).posts;
      done := done + [next];
      i := i + 1;
    }
    assert original[i..] == [];
    posts, r := done, Ok(count);
  }

  /** `FindOneAndUpdate` on a missing entity: `UpdateField` on null fails at its first entry,
      with a cast error when the accessor is not a property, otherwise because reflection
      has no target. With no entries nothing happens. */
  function NullEntityUpdate(steps: seq<Step>): (failure: Option<Exception>)
    ensures failure.None? <==> steps == []
    ensures failure.Some? ==> failure.value == InvalidCastException || failure.value == TargetException
  {
    if steps == [] then None
    else
      match GetPropertyInfo(steps[0].target)
      case Err(e) => Some(e)
      case Ok(_) => Some(TargetException)
  }

  class MemoryRepository {
    /** `Collection`. */
    var collection: seq<Post>

    constructor()
      ensures collection == []
    {
      collection := [];
    }

    constructor FromCollection(collection: seq<Post>)
      ensures this.collection == collection
    {
      this.collection := collection;
    }

    /** `InsertOne`: appended at the end, without any identifier or duplicate check. */
    method InsertOne(entity: Post)
      modifies this
      ensures collection == old(collection) + [entity]
    {
      collection := collection + [entity];
    }

    /** `InsertMany`: all appended in order (`AddRange`). */
    method InsertMany(entities: seq<Post>)
      modifies this
      ensures collection == old(collection) + entities
    {
      collection := collection + entities;
    }

    /** `Count`: the size of the whole collection; the filter is not consulted. */
    method Count(filter: Post -> bool) returns (count: int)
      ensures count == |collection|
    {
      count := |collection|;
    }

    /** `FindMany`: the matches in collection order, stably sorted when an order key is given,
        then `pageIndex * pageSize` (32-bit) skipped and `pageSize` taken, without checking
        either number. */
    method FindMany(filter: Post -> bool, pageIndex: Int32, pageSize: Int32,
                    orderDescending: bool := DefaultOrderDescending,
                    orderKey: Option<Post -> int> := None)
      returns (list: seq<Post>)
      ensures list == Take(Skip(Ordered(Select(collection, filter, true), orderDescending, orderKey),
                                Wrap(pageIndex as int * pageSize)), pageSize)
      ensures |list| <= if pageSize < 0 then 0 else pageSize
      ensures forall x :: x in list ==> x in collection && filter(x)
    {
      var query := Select(collection, filter, true);
      if orderKey.Some? {
        SortByKeyIsStableSort(query, orderKey.value, orderDescending);
        query := SortByKey(query, orderKey.value, orderDescending);
      }
      var skip := Wrap(pageIndex as int * pageSize);
      list := Take(Skip(query, skip), pageSize);
      PageIsWindow(query, skip, pageSize);
      forall x | x in list ensures x in collection && filter(x) {
        assert x in multiset(query);
      }
    }

    /** `FindOne`: the first match, or null. */
    method FindOne(filter: Post -> bool) returns (entity: Option<Post>)
      ensures entity.None? <==> forall x :: x in collection ==> !filter(x)
      ensures entity.Some? ==> exists i :: 0 <= i < |collection| && collection[i] == entity.value
                                           && filter(entity.value)
                                           && forall k :: 0 <= k < i ==> !filter(collection[k])
    {
      var i := FirstMatch(collection, filter);
      entity := if i.Some? then Some(collection[i.value]) else None;
    }

    /** `FindOneAndDelete`: the first match is returned and removed; with none, null is
        returned and `Remove(null)` finds nothing to remove. */
    method FindOneAndDelete(filter: Post -> bool) returns (entity: Option<Post>)
      modifies this
      ensures match FirstMatch(old(collection), filter)
              case None => entity.None? && collection == old(collection)
              case Some(i) => entity == Some(old(collection)[i])
                              && collection == old(collection)[..i] + old(collection)[i + 1..]
    {
      var i := FirstMatch(collection, filter);
      if i.Some? {
        entity := Some(collection[i.value]);
        RemoveFirstMatch(collection, filter);
        collection := RemoveFirst(collection, entity.value);
      } else {
        entity := None;
      }
    }

    /** `FindOneAndUpdate`: the first match is updated in place. `Before` returns a snapshot
        taken before the update, `After` the updated entity. A missing entity cannot be
        snapshotted (the formatter rejects null) and cannot be updated (see NullEntityUpdate);
        when an update entry throws, the stored entity keeps the earlier entries' changes. */
    method FindOneAndUpdate(filter: Post -> bool, updates: Updates,
                            returnDocument: ReturnDocument := DefaultReturnDocument)
      returns (r: Result<Option<Post>>)
      modifies this
      ensures match FirstMatch(old(collection), filter)
              case None =>
                collection == old(collection)
                && (returnDocument == Before ==> r == Err(ArgumentNullException))
                && (returnDocument == After ==>
                      var failure := NullEntityUpdate(Steps(updates, false));
                      r == if failure.Some? then Err(failure.value) else Ok(None))
              case Some(i) =>
                var a := ApplySteps(old(collection)[i], Steps(updates, false));
                collection == old(collection)[i := a.post]
                && r == if a.failure.Some? then Err(a.failure.value)
                        else Ok(Some(if returnDocument == Before then old(collection)[i] else a.post))
    {
      var i := FirstMatch(collection, filter);
      if i.None? {
        if returnDocument == Before {
          return Err(ArgumentNullException);
        }
        var failure := NullEntityUpdate(Steps(updates, false));
        r := if failure.Some? then Err(failure.value) else Ok(None);
        return;
      }
      var entity := collection[i.value];
      var returnedEntity := entity;
      var a := UpdateField(updates, entity, false);
      collection := collection[i.value := a.post];
      if a.failure.Some? {
        return Err(a.failure.value);
      }
      if returnDocument == After {
        returnedEntity := a.post;
      }
      r := Ok(Some(returnedEntity));
    }

    /** `UpdateOne(filter, updates)`: the first match is updated and 1 returned; with no match
        0 is returned and nothing changes. */
    method UpdateOne(filter: Post -> bool, updates: Updates) returns (r: Result<int>)
      modifies this
      ensures |collection| == |old(collection)|
      ensures match FirstMatch(old(collection), filter)
              case None => r == Ok(0) && collection == old(collection)
              case Some(i) =>
                var a := ApplySteps(old(collection)[i], Steps(updates, false));
                collection == old(collection)[i := a.post]
                && r == if a.failure.Some? then Err(a.failure.value) else Ok(1)
    {
      var i := FirstMatch(collection, filter);
      if i.None? {
        return Ok(0);
      }
      var a := UpdateField(updates, collection[i.value], false);
      collection := collection[i.value := a.post];
      r := if a.failure.Some? then Err(a.failure.value) else Ok(1);
    }

    /** `UpdateMany(filter, updates)`: every match, chosen before any is changed, is updated
        in collection order and their number returned. */
    method UpdateMany(filter: Post -> bool, updates: Updates) returns (r: Result<int>)
      modifies this
      ensures var o := UpdateMatches(old(collection), filter, Steps(updates, false));
              collection == o.posts
              && r == if o.failure.Some? then Err(o.failure.value) else Ok(|Select(old(collection), filter, true)|)
    {
      var posts;
      posts, r := UpdateEachMatch(collection, filter, updates);
      collection := posts;
    }

    /** `UpdateOne(entity)`: not implemented. */
    method UpdateOneEntity(entity: Post) returns (r: Result<int>)
      ensures r == Err(NotImplementedException)
    {
      r := Err(NotImplementedException);
    }

    /** `UpdateMany(entities)`: not implemented. */
    method UpdateManyEntities(entities: seq<Post>) returns (r: Result<int>)
      ensures r == Err(NotImplementedException)
    {
      r := Err(NotImplementedException);
    }

    /** `UpsertMany`: not implemented. */
    method UpsertMany(entities: seq<Post>) returns (r: Result<int>)
      ensures r == Err(NotImplementedException)
    {
      r := Err(NotImplementedException);
    }

    /** `DeleteMany`: every match is removed (one `Remove` per match, in collection order);
        the others stay in order, and the number of matches is returned. */
    method DeleteMany(filter: Post -> bool) returns (count: int)
      modifies this
      ensures collection == Select(old(collection), filter, false)
      ensures count == |Select(old(collection), filter, true)|
    {
      var entitiesToDelete := Select(collection, filter, true);
      ghost var kept := Select(collection, filter, false);
      var i := 0;
      while i < |entitiesToDelete|
        invariant 0 <= i <= |entitiesToDelete|
        invariant Select(collection, filter, true) == entitiesToDelete[i..]
        invariant Select(collection, filter, false) == kept
      {
        RemoveSelectedHead(collection, filter);
        assert entitiesToDelete[i..][1..] == entitiesToDelete[i + 1..];
        collection := RemoveFirst(collection, entitiesToDelete[i]);
        i := i + 1;
      }
      NothingSelected(collection, filter);
      count := |entitiesToDelete|;
    }

    /** `DeleteOne`: the first match is removed and 1 returned; otherwise 0. */
    method DeleteOne(filter: Post -> bool) returns (count: int)
      modifies this
      ensures match FirstMatch(old(collection), filter)
              case None => count == 0 && collection == old(collection)
              case Some(i) => count == 1 && collection == old(collection)[..i] + old(collection)[i + 1..]
    {
      var i := FirstMatch(collection, filter);
      if i.None? {
        return 0;
      }
      RemoveFirstMatch(collection, filter);
      collection := RemoveFirst(collection, collection[i.value]);
      count := 1;
    }
  }

  /** DeleteMany's result: the kept entities and the deleted ones together are the old
      collection, and exactly the matches were deleted. */
  lemma DeleteManyPartitions(c: seq<Post>, filter: Post -> bool)
    ensures multiset(Select(c, filter, false)) + multiset(Select(c, filter, true)) == multiset(c)
    ensures forall x :: x in Select(c, filter, false) ==> !filter(x)
  {
    SelectPartitions(c, filter);
  }

  /** After `FindOneAndDelete` of the only match, `FindOne` with the same filter finds
      nothing, as the repository tests expect when deleting by identifier. */
  lemma DeleteThenFindNothing(c: seq<Post>, filter: Post -> bool)
    requires |Select(c, filter, true)| == 1
    ensures FirstMatch(c, filter).Some?
    ensures var i := FirstMatch(c, filter).value;
            FirstMatch(c[..i] + c[i + 1..], filter).None?
  {
    FirstMatchHeadsSelection(c, filter);
    var i := FirstMatch(c, filter).value;
    RemoveFirstMatch(c, filter);
    RemoveSelectedHead(c, filter);
    FirstMatchHeadsSelection(c[..i] + c[i + 1..], filter);
  }

  /** An inserted entity that is the only one matching is what FindOne then finds. */
  lemma InsertThenFind(c: seq<Post>, entity: Post, filter: Post -> bool)
    requires forall x :: x in c ==> !filter(x)
    requires filter(entity)
    ensures FirstMatch(c + [entity], filter) == Some(|c|)
  {
    assert (c + [entity])[|c|] == entity;
  }
}
