/**
 * How the in-memory repository applies an update descriptor to a stored entity: Sets, then
 * Increments (32-bit add), then SetOnInserts (only for an entity that was just inserted),
 * then Pushes (append), then Pulls (remove the first equal element), each list in order,
 * each entry through reflection on the accessed property. The first entry that throws stops
 * the update, and the entity keeps the changes made before it.
 */
module MemoryUpdate {
  import opened Wrappers
  import opened ClrInt
  import opened Entity
  import opened ExpressionTree
  import opened ClrList
  import opened ExpressionReflection
  import opened UpdateDescriptors

  datatype StepKind = SetStep | IncrementStep | PushStep | PullStep

  /** One descriptor entry as UpdateField performs it. */
  datatype Step = Step(kind: StepKind, target: Expr, value: Value)

  function ScalarSteps(kind: StepKind, updates: seq<Update>): (steps: seq<Step>)
    ensures |steps| == |updates|
  {
    seq(|updates|, k requires 0 <= k < |updates| => Step(kind, updates[k].propertyExpression, updates[k].value))
  }

  function CollectionSteps(kind: StepKind, updates: seq<UpdateCollection>): (steps: seq<Step>)
    ensures |steps| == |updates|
  {
    seq(|updates|, k requires 0 <= k < |updates| => Step(kind, updates[k].propertyExpression, updates[k].value))
  }

  /** The entries UpdateField visits, in visiting order. */
  function Steps(updates: Updates, wasInserted: bool): seq<Step>
  {
    ScalarSteps(SetStep, Entries(updates.sets))
    + ScalarSteps(IncrementStep, Entries(updates.increments))
    + (if wasInserted then ScalarSteps(SetStep, Entries(updates.setOnInserts)) else [])
    + CollectionSteps(PushStep, Entries(updates.pushes))
    + CollectionSteps(PullStep, Entries(updates.pulls))
  }

  /** `(int)value`: unboxing null dereferences it; any other type is an invalid cast. */
  function Unbox(v: Value): (r: Result<Int32>)
    ensures r.Ok? <==> v.VInt?
    ensures r.Ok? ==> r.value == v.i
    ensures v == VNull ==> r == Err(NullReferenceException)
    ensures !v.VInt? && v != VNull ==> r == Err(InvalidCastException)
  {
    match v
    case VInt(i) => Ok(i)
    case VNull => Err(NullReferenceException)
    case _ => Err(InvalidCastException)
  }

  /** `(IEnumerable)value` succeeds for null, strings and lists. */
  predicate IsEnumerable(v: Value)
  {
    v.VNull? || v.VText? || v.VIntList?
  }

  /** One entry applied to the entity, or the exception it throws. */
  function ApplyStep(p: Post, step: Step): Result<Post>
  {
    var name :- GetPropertyInfo(step.target);
    match step.kind
    case SetStep => SetValue(p, name, step.value)
    case IncrementStep =>
      var current :- GetValue(p, name);
      var a :- Unbox(current);
      var b :- Unbox(step.value);
      SetValue(p, name, VInt(Wrap(a + b)))
    case PushStep =>
      var current :- GetValue(p, name);
      var enumerable :- if IsEnumerable(current) then Ok(current) else Err(InvalidCastException);
      var item :- InvokeArgument(RuntimeTypeOf(current), step.value);
      Int32ListArgument(step.value);
      SetValue(p, name, VIntList(current.items + [item.i]))
    case PullStep =>
      var current :- GetValue(p, name);
      var enumerable :- if IsEnumerable(current) then Ok(current) else Err(InvalidCastException);
      var item :- InvokeArgument(RuntimeTypeOf(current), step.value);
      Int32ListArgument(step.value);
      SetValue(p, name, VIntList(RemoveFirst(current.items, item.i)))
  }

  /** The entity after an update, and the exception that stopped it, if any. */
  datatype Applied = Applied(post: Post, failure: Option<Exception>)

  /** The steps applied in order until one throws. */
  function ApplySteps(p: Post, steps: seq<Step>): Applied
    decreases |steps|
  {
    if steps == [] then Applied(p, None)
    else
      match ApplyStep(p, steps[0])
      case Err(e) => Applied(p, Some(e))
      case Ok(q) => ApplySteps(q, steps[1..])
  }

  /** Applying two runs of steps is applying the first, then, unless it failed, the second. */
  lemma {:induction false} ApplyStepsAppend(p: Post, a: seq<Step>, b: seq<Step>)
    ensures ApplySteps(p, a + b) ==
              (var first := ApplySteps(p, a); if first.failure.Some? then first else ApplySteps(first.post, b))
    decreases |a|
  {
    if a == [] {
      assert a + b == b;
    } else {
      assert (a + b)[0] == a[0] && (a + b)[1..] == a[1..] + b;
      match ApplyStep(p, a[0])
      case Err(_) =>
      case Ok(q) => ApplyStepsAppend(q, a[1..], b);
    }
  }

  /** The cast `(IEnumerable)value`. Entities are values here, so a list value becomes a new
      list object holding a copy of the entity's list; the caller stores it back. */
  method AsEnumerable(v: Value) returns (r: Result<Enumerable>)
    ensures r.Ok? <==> IsEnumerable(v)
    ensures r.Ok? ==> TypeOfSource(r.value) == RuntimeTypeOf(v)
    ensures r.Ok? && r.value.ListSource? ==> fresh(r.value.list) && v.VIntList? && r.value.list.items == v.items
    ensures r.Err? ==> r.error == InvalidCastException
  {
    match v
    case VNull => r := Ok(NullSource);
    case VText(s) => r := Ok(TextSource(s));
    case VIntList(items) =>
      var list := new Int32List(items);
      r := Ok(ListSource(list));
    case _ => r := Err(InvalidCastException);
  }

  /** One iteration of UpdateField's loops. A Push or Pull changes a copy of the entity's
      list in place and stores the copy back into the property. The code itself writes
      nothing back: it changes the list the entity refers to, which has the same effect. */
  method ApplyStepInPlace(p: Post, step: Step) returns (r: Result<Post>)
    ensures r == ApplyStep(p, step)
  {
    var name :- GetPropertyInfo(step.target);
    match step.kind {
      case SetStep =>
        r := SetValue(p, name, step.value);
      case IncrementStep =>
        var current :- GetValue(p, name);
        var a :- Unbox(current);
        var b :- Unbox(step.value);
        r := SetValue(p, name, VInt(Wrap(a as int + b)));
      case PushStep =>
        var current :- GetValue(p, name);
        var source :- AsEnumerable(current);
        var added :- AddToEnumerable(source, step.value);
        r := SetValue(p, name, VIntList(source.list.items));
      case PullStep =>
        var current :- GetValue(p, name);
        var source :- AsEnumerable(current);
        var removed :- RemoveFromEnumerable(source, step.value);
        r := SetValue(p, name, VIntList(source.list.items));
    }
  }

  /** A `foreach` over one list of entries. */
  method ApplyEach(p: Post, steps: seq<Step>) returns (a: Applied)
    ensures a == ApplySteps(p, steps)
  {
    var current := p;
    var i := 0;
    while i < |steps|
      invariant 0 <= i <= |steps|
      invariant ApplySteps(p, steps) == ApplySteps(current, steps[i..])
    {
      assert steps[i..][0] == steps[i] && steps[i..][1..] == steps[i + 1..];
      var r := ApplyStepInPlace(current, steps[i]);
      if r.Err? {
        return Applied(current, Some(r.error));
      }
      current := r.value;
      i := i + 1;
    }
    a := Applied(current, None);
  }

  /** The visiting order, grouped the way UpdateField's loops consume it. */
  lemma StepsByList(updates: Updates, wasInserted: bool)
    ensures Steps(updates, wasInserted)
              == ScalarSteps(SetStep, Entries(updates.sets))
                 + (ScalarSteps(IncrementStep, Entries(updates.increments))
                 + ((if wasInserted then ScalarSteps(SetStep, Entries(updates.setOnInserts)) else [])
                 + (CollectionSteps(PushStep, Entries(updates.pushes))
                 + CollectionSteps(PullStep, Entries(updates.pulls)))))
  {
  }

  /** `UpdateField(updates, entity, wasInserted)`: the five loops in order. */
  method UpdateField(updates: Updates, entity: Post, wasInserted: bool) returns (a: Applied)
    ensures a == ApplySteps(entity, Steps(updates, wasInserted))
  {
    var sets := ScalarSteps(SetStep, Entries(updates.sets));
    var increments := ScalarSteps(IncrementStep, Entries(updates.increments));
    var setOnInserts := if wasInserted then ScalarSteps(SetStep, Entries(updates.setOnInserts)) else [];
    var pushes := CollectionSteps(PushStep, Entries(updates.pushes));
    var pulls := CollectionSteps(PullStep, Entries(updates.pulls));
    StepsByList(updates, wasInserted);
    ApplyStepsAppend(entity, sets, increments + (setOnInserts + (pushes + pulls)));
    a := ApplyEach(entity, sets);
    if a.failure.Some? {
      return;
    }
    ApplyStepsAppend(a.post, increments, setOnInserts + (pushes + pulls));
    a := ApplyEach(a.post, increments);
    if a.failure.Some? {
      return;
    }
    ApplyStepsAppend(a.post, setOnInserts, pushes + pulls);
    a := ApplyEach(a.post, setOnInserts);
    if a.failure.Some? {
      return;
    }
    ApplyStepsAppend(a.post, pushes, pulls);
    a := ApplyEach(a.post, pushes);
    if a.failure.Some? {
      return;
    }
    a := ApplyEach(a.post, pulls);
  }

  /** SetOnInserts are skipped unless the entity was just inserted. */
  lemma SetOnInsertsNeedInsertion(updates: Updates)
    ensures Steps(updates, false) == Steps(updates.(setOnInserts := None), false)
    ensures |Steps(updates, true)| == |Steps(updates, false)| + |Entries(updates.setOnInserts)|
  {
  }

  /** When an entry throws, the entity keeps exactly the changes of the entries before it. */
  lemma FailureKeepsEarlierChanges(p: Post, before: seq<Step>, failing: Step, after: seq<Step>)
    requires ApplySteps(p, before).failure.None?
    requires ApplyStep(ApplySteps(p, before).post, failing).Err?
    ensures ApplySteps(p, before + [failing] + after)
              == Applied(ApplySteps(p, before).post, Some(ApplyStep(ApplySteps(p, before).post, failing).error))
  {
    ApplyStepsAppend(p, before, [failing] + after);
    assert before + [failing] + after == before + ([failing] + after);
  }

  function Accessor(property: string): Expr
  {
    MemberAccess(Parameter, property, PropertyMember)
  }

  /** `x => x.Counter` as an `Expression<Func<Post, object>>`: the int is boxed by a Convert. */
  function BoxedAccessor(property: string): Expr
  {
    Unary(Convert, MemberAccess(Parameter, property, PropertyMember))
  }

  /** A step that succeeds hands its result to the rest of the steps. */
  lemma StepThenRest(p: Post, step: Step, rest: seq<Step>)
    requires ApplyStep(p, step).Ok?
    ensures ApplySteps(p, [step] + rest) == ApplySteps(ApplyStep(p, step).value, rest)
  {
    assert ([step] + rest)[1..] == rest;
  }

  /** Incrementing Counter adds to it, modulo 2^32. */
  lemma IncrementCounter(p: Post, a: Int32)
    ensures ApplyStep(p, Step(IncrementStep, BoxedAccessor("Counter"), VInt(a))) == Ok(p.(counter := Wrap(p.counter + a)))
  {
    assert GetPropertyInfo(BoxedAccessor("Counter")) == Ok("Counter");
    assert GetValue(p, "Counter") == Ok(VInt(p.counter));
    assert SetValue(p, "Counter", VInt(Wrap(p.counter + a))) == Ok(p.(counter := Wrap(p.counter + a)));
  }

  /** Pushing onto History appends to it. */
  lemma PushHistory(p: Post, x: Int32)
    requires p.history.Some?
    ensures ApplyStep(p, Step(PushStep, Accessor("History"), VInt(x))) == Ok(p.(history := Some(p.history.value + [x])))
  {
    assert GetPropertyInfo(Accessor("History")) == Ok("History");
    assert GetValue(p, "History") == Ok(VIntList(p.history.value));
    Int32ListArgument(VInt(x));
    assert SetValue(p, "History", VIntList(p.history.value + [x])) == Ok(p.(history := Some(p.history.value + [x])));
  }

  /** Pulling from History removes the first equal element. */
  lemma PullHistory(p: Post, x: Int32)
    requires p.history.Some?
    ensures ApplyStep(p, Step(PullStep, Accessor("History"), VInt(x)))
              == Ok(p.(history := Some(RemoveFirst(p.history.value, x))))
  {
    assert GetPropertyInfo(Accessor("History")) == Ok("History");
    assert GetValue(p, "History") == Ok(VIntList(p.history.value));
    Int32ListArgument(VInt(x));
    assert SetValue(p, "History", VIntList(RemoveFirst(p.history.value, x)))
             == Ok(p.(history := Some(RemoveFirst(p.history.value, x))));
  }

  /** Setting Text stores the string. */
  lemma SetText(p: Post, text: string)
    ensures ApplyStep(p, Step(SetStep, Accessor("Text"), VText(text))) == Ok(p.(text := Some(text)))
  {
    assert GetPropertyInfo(Accessor("Text")) == Ok("Text");
    assert SetValue(p, "Text", VText(text)) == Ok(p.(text := Some(text)));
  }

  /** Two steps that each succeed leave the entity the second produces. */
  lemma TwoSteps(p: Post, first: Step, second: Step)
    requires ApplyStep(p, first).Ok?
    requires ApplyStep(ApplyStep(p, first).value, second).Ok?
    ensures ApplySteps(p, [first, second]) == Applied(ApplyStep(ApplyStep(p, first).value, second).value, None)
  {
    var q := ApplyStep(p, first).value;
    StepThenRest(p, first, [second]);
    StepThenRest(q, second, []);
    assert [first, second] == [first] + [second];
    assert [second] == [second] + [];
  }

  /** Two increments add up, modulo 2^32. */
  lemma IncrementsAccumulate(p: Post, a: Int32, b: Int32)
    ensures ApplySteps(p, [Step(IncrementStep, BoxedAccessor("Counter"), VInt(a)),
                           Step(IncrementStep, BoxedAccessor("Counter"), VInt(b))])
              == Applied(p.(counter := Wrap(p.counter + a + b)), None)
  {
    var q := p.(counter := Wrap(p.counter + a));
    IncrementCounter(p, a);
    IncrementCounter(q, b);
    WrapAdd(p.counter + a, b);
    TwoSteps(p, Step(IncrementStep, BoxedAccessor("Counter"), VInt(a)), Step(IncrementStep, BoxedAccessor("Counter"), VInt(b)));
  }

  /** Pushing an element the list lacks and then pulling it restores the entity. */
  lemma PushThenPullRestores(p: Post, x: Int32)
    requires p.history.Some? && x !in p.history.value
    ensures ApplySteps(p, [Step(PushStep, Accessor("History"), VInt(x)), Step(PullStep, Accessor("History"), VInt(x))])
              == Applied(p, None)
  {
    var push := Step(PushStep, Accessor("History"), VInt(x));
    var pull := Step(PullStep, Accessor("History"), VInt(x));
    var h := p.history.value;
    var q := p.(history := Some(h + [x]));
    PushHistory(p, x);
    PullHistory(q, x);
    AppendThenRemove(h, x);
    assert q.(history := Some(RemoveFirst(h + [x], x))) == p;
    TwoSteps(p, push, pull);
  }

  /** A pull removes one occurrence only: pulling 1 from [1, 1] leaves [1] (the server's
      `$pull` would remove both). */
  lemma PullRemovesFirstOccurrenceOnly(p: Post)
    requires p.history == Some([1, 1])
    ensures ApplySteps(p, [Step(PullStep, Accessor("History"), VInt(1))]) == Applied(p.(history := Some([1])), None)
  {
    var pull := Step(PullStep, Accessor("History"), VInt(1));
    PullHistory(p, 1);
    RemoveFirstAt([1, 1], 1, 0);
    assert [1, 1][..0] + [1, 1][1..] == [1];
    StepThenRest(p, pull, []);
    assert [pull] == [pull] + [];
  }

  /** Three steps that each succeed leave the entity the third produces. */
  lemma ThreeSteps(p: Post, first: Step, second: Step, third: Step)
    requires ApplyStep(p, first).Ok?
    requires ApplyStep(ApplyStep(p, first).value, second).Ok?
    requires ApplyStep(ApplyStep(ApplyStep(p, first).value, second).value, third).Ok?
    ensures ApplySteps(p, [first, second, third])
              == Applied(ApplyStep(ApplyStep(ApplyStep(p, first).value, second).value, third).value, None)
  {
    var q := ApplyStep(p, first).value;
    var r := ApplyStep(q, second).value;
    StepThenRest(p, first, [second, third]);
    StepThenRest(q, second, [third]);
    StepThenRest(r, third, []);
    assert [first, second, third] == [first] + [second, third];
    assert [second, third] == [second] + [third];
    assert [third] == [third] + [];
  }

  /** The descriptor of the update test: Set(Text, "updated"), Increment(Counter, 2), then
      one push or one pull on History. */
  function TestDescriptor(last: StepKind, item: Int32): Updates
  {
    var base := Updates.Empty().Set(Accessor("Text"), VText("updated")).Increment(BoxedAccessor("Counter"), VInt(2));
    if last == PushStep then base.Push(Accessor("History"), VInt(item)) else base.Pull(Accessor("History"), VInt(item))
  }

  lemma TestDescriptorSteps(last: StepKind, item: Int32)
    requires last == PushStep || last == PullStep
    ensures Steps(TestDescriptor(last, item), false)
              == [Step(SetStep, Accessor("Text"), VText("updated")),
                  Step(IncrementStep, BoxedAccessor("Counter"), VInt(2)),
                  Step(last, Accessor("History"), VInt(item))]
  {
    var setEntry := Update.Property(Accessor("Text"), VText("updated"));
    var incrementEntry := Update.Property(BoxedAccessor("Counter"), VInt(2));
    var listEntry := UpdateCollection.Property(Accessor("History"), VInt(item));
    var u0 := Updates.Empty();
    var u1 := u0.Set(Accessor("Text"), VText("updated"));
    assert [] + [setEntry] == [setEntry];
    assert u1.sets == Some([setEntry]);
    var u2 := u1.Increment(BoxedAccessor("Counter"), VInt(2));
    assert [] + [incrementEntry] == [incrementEntry];
    assert u2.increments == Some([incrementEntry]);
    assert [] + [listEntry] == [listEntry];
    var u := TestDescriptor(last, item);
    if last == PushStep {
      assert u == u2.(pushes := Some([listEntry]));
    } else {
      assert u == u2.(pulls := Some([listEntry]));
    }
  }

  /** Set(Text, "updated"), Increment(Counter, 2) and Push(History, 3) on a post with Counter 1
      and History [1, 2]. */
  lemma PushScenarioSteps(p: Post)
    requires p.counter == 1 && p.history == Some([1, 2])
    ensures ApplySteps(p, [Step(SetStep, Accessor("Text"), VText("updated")),
                           Step(IncrementStep, BoxedAccessor("Counter"), VInt(2)),
                           Step(PushStep, Accessor("History"), VInt(3))])
              == Applied(p.(text := Some("updated"), counter := 3, history := Some([1, 2, 3])), None)
  {
    var p1 := p.(text := Some("updated"));
    var p2 := p1.(counter := 3);
    SetText(p, "updated");
    IncrementCounter(p1, 2);
    PushHistory(p2, 3);
    assert [1, 2] + [3] == [1, 2, 3];
    ThreeSteps(p, Step(SetStep, Accessor("Text"), VText("updated")),
               Step(IncrementStep, BoxedAccessor("Counter"), VInt(2)), Step(PushStep, Accessor("History"), VInt(3)));
  }

  /** The same with Pull(History, 1) in place of the push. */
  lemma PullScenarioSteps(p: Post)
    requires p.counter == 1 && p.history == Some([1, 2])
    ensures ApplySteps(p, [Step(SetStep, Accessor("Text"), VText("updated")),
                           Step(IncrementStep, BoxedAccessor("Counter"), VInt(2)),
                           Step(PullStep, Accessor("History"), VInt(1))])
              == Applied(p.(text := Some("updated"), counter := 3, history := Some([2])), None)
  {
    var p1 := p.(text := Some("updated"));
    var p2 := p1.(counter := 3);
    SetText(p, "updated");
    IncrementCounter(p1, 2);
    PullHistory(p2, 1);
    RemoveFirstAt([1, 2], 1, 0);
    assert [1, 2][..0] + [1, 2][1..] == [2];
    ThreeSteps(p, Step(SetStep, Accessor("Text"), VText("updated")),
               Step(IncrementStep, BoxedAccessor("Counter"), VInt(2)), Step(PullStep, Accessor("History"), VInt(1)));
  }

  /** The behaviour the repository tests expect of both repositories: a post with Counter 1
      and History [1, 2] updated by Set(Text, "updated"), Increment(Counter, 2) and
      Push(History, 3) ends with Text "updated", Counter 3 and History [1, 2, 3]. */
  lemma UpdateWithPushScenario(p: Post)
    requires p.counter == 1 && p.history == Some([1, 2])
    ensures ApplySteps(p, Steps(TestDescriptor(PushStep, 3), false))
              == Applied(p.(text := Some("updated"), counter := 3, history := Some([1, 2, 3])), None)
  {
    TestDescriptorSteps(PushStep, 3);
    PushScenarioSteps(p);
  }

  /** With Pull(History, 1) in place of the push, History becomes [2]. */
  lemma UpdateWithPullScenario(p: Post)
    requires p.counter == 1 && p.history == Some([1, 2])
    ensures ApplySteps(p, Steps(TestDescriptor(PullStep, 1), false))
              == Applied(p.(text := Some("updated"), counter := 3, history := Some([2])), None)
  {
    TestDescriptorSteps(PullStep, 1);
    PullScenarioSteps(p);
  }
}
