/**
 * The update descriptor: `Update` and `UpdateCollection` pair a property accessor with a
 * boxed value; `Updates` accumulates five lists of them (Sets, Increments, SetOnInserts,
 * Pushes, Pulls), each null until its first entry. The builders return the descriptor with
 * one entry appended to their own list.
 */
module UpdateDescriptors {
  import opened Wrappers
  import opened Entity
  import opened ExpressionTree

  /** A scalar update: the accessor `x => x.Property` (its body) and the new or added value. */
  datatype Update = Update(propertyExpression: Expr, value: Value) {
    /** `Update<T>.Property(propertyExpression, value)`: no validation of either part. */
    static function Property(propertyExpression: Expr, value: Value): (u: Update)
      ensures u.propertyExpression == propertyExpression && u.value == value
    {
      Update(propertyExpression, value)
    }
  }

  /** A list update: the accessor of a list property and the element to push or pull. */
  datatype UpdateCollection = UpdateCollection(propertyExpression: Expr, value: Value) {
    /** `UpdateCollection<T>.Property(propertyExpression, value)`: no validation of either part. */
    static function Property(propertyExpression: Expr, value: Value): (u: UpdateCollection)
      ensures u.propertyExpression == propertyExpression && u.value == value
    {
      UpdateCollection(propertyExpression, value)
    }
  }

  datatype Updates = Updates(
    sets: Option<seq<Update>>,
    increments: Option<seq<Update>>,
    setOnInserts: Option<seq<Update>>,
    pushes: Option<seq<UpdateCollection>>,
    pulls: Option<seq<UpdateCollection>>)
  {
    /** The number of entries over the five lists, a null list counting as none. */
    function EntryCount(): nat
    {
      |Entries(sets)| + |Entries(increments)| + |Entries(setOnInserts)| + |Entries(pushes)| + |Entries(pulls)|
    }

    /** `IsEmpty`: every list is null or empty. */
    predicate IsEmpty()
      ensures IsEmpty() <==> EntryCount() == 0
    {
      (sets.None? || |sets.value| == 0)
      && (increments.None? || |increments.value| == 0)
      && (setOnInserts.None? || |setOnInserts.value| == 0)
      && (pushes.None? || |pushes.value| == 0)
      && (pulls.None? || |pulls.value| == 0)
    }

    /** `Updates<T>.Empty()`: the default struct, every list null. */
    static function Empty(): (u: Updates)
      ensures u.sets.None? && u.increments.None? && u.setOnInserts.None? && u.pushes.None? && u.pulls.None?
      ensures u.IsEmpty()
    {
      Updates(None, None, None, None, None)
    }

    /** `Set(propertyExpression, value)`. */
    function Set(propertyExpression: Expr, value: Value): (r: Updates)
      ensures r.sets == Some(Entries(sets) + [Update.Property(propertyExpression, value)])
      ensures r.increments == increments && r.setOnInserts == setOnInserts
      ensures r.pushes == pushes && r.pulls == pulls
      ensures !r.IsEmpty() && r.EntryCount() == EntryCount() + 1
    {
      this.(sets := Some(Entries(sets) + [Update.Property(propertyExpression, value)]))
    }

    /** `Increment(propertyExpression, value)`. */
    function Increment(propertyExpression: Expr, value: Value): (r: Updates)
      ensures r.increments == Some(Entries(increments) + [Update.Property(propertyExpression, value)])
      ensures r.sets == sets && r.setOnInserts == setOnInserts
      ensures r.pushes == pushes && r.pulls == pulls
      ensures !r.IsEmpty() && r.EntryCount() == EntryCount() + 1
    {
      this.(increments := Some(Entries(increments) + [Update.Property(propertyExpression, value)]))
    }

    /** `SetOnInsert(propertyExpression, value)`. */
    function SetOnInsert(propertyExpression: Expr, value: Value): (r: Updates)
      ensures r.setOnInserts == Some(Entries(setOnInserts) + [Update.Property(propertyExpression, value)])
      ensures r.sets == sets && r.increments == increments
      ensures r.pushes == pushes && r.pulls == pulls
      ensures !r.IsEmpty() && r.EntryCount() == EntryCount() + 1
    {
      this.(setOnInserts := Some(Entries(setOnInserts) + [Update.Property(propertyExpression, value)]))
    }

    /** `Push(propertyExpression, value)`. */
    function Push(propertyExpression: Expr, value: Value): (r: Updates)
      ensures r.pushes == Some(Entries(pushes) + [UpdateCollection.Property(propertyExpression, value)])
      ensures r.sets == sets && r.increments == increments
      ensures r.setOnInserts == setOnInserts && r.pulls == pulls
      ensures !r.IsEmpty() && r.EntryCount() == EntryCount() + 1
    {
      this.(pushes := Some(Entries(pushes) + [UpdateCollection.Property(propertyExpression, value)]))
    }

    /** `Pull(propertyExpression, value)`. */
    function Pull(propertyExpression: Expr, value: Value): (r: Updates)
      ensures r.pulls == Some(Entries(pulls) + [UpdateCollection.Property(propertyExpression, value)])
      ensures r.sets == sets && r.increments == increments
      ensures r.setOnInserts == setOnInserts && r.pushes == pushes
      ensures !r.IsEmpty() && r.EntryCount() == EntryCount() + 1
    {
      this.(pulls := Some(Entries(pulls) + [UpdateCollection.Property(propertyExpression, value)]))
    }
  }

  /** Successive builder calls keep call order: after `Set(a, v).Set(b, w)` the Sets list
      ends with the entry for `a` followed by the entry for `b`. */
  lemma BuildersKeepCallOrder(u: Updates, a: Expr, v: Value, b: Expr, w: Value)
    ensures var r := u.Set(a, v).Set(b, w);
            Entries(r.sets) == Entries(u.sets) + [Update(a, v), Update(b, w)]
    ensures var r := u.Push(a, v).Push(b, w);
            Entries(r.pushes) == Entries(u.pushes) + [UpdateCollection(a, v), UpdateCollection(b, w)]
  {
  }
}
