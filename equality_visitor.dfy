/**
 * EqualityExpressionVisitor: before a predicate is handed to the driver, every method call
 * named `Equals` is replaced by a binary `==` node on its first two arguments. The match is
 * on the method name alone; the replacement's arguments are not visited again; every other
 * node is rebuilt from its rewritten children, as `ExpressionVisitor` does.
 */
module EqualityExpressionVisitor {
  import opened Wrappers
  import opened Entity
  import opened ExpressionTree

  const EqualsName: string := "Equals"

  /** `visitor.Visit(body)`. An `Equals` call with fewer than two arguments makes
      `node.Arguments[1]` throw. */
  function Rewrite(e: Expr): Result<Expr>
    decreases e
  {
    match e
    case Parameter => Ok(e)
    case Constant(_) => Ok(e)
    case MemberAccess(target, member, kind) =>
      var t :- Rewrite(target);
      Ok(MemberAccess(t, member, kind))
    case Unary(op, operand) =>
      var o :- Rewrite(operand);
      Ok(Unary(op, o))
    case Binary(op, left, right) =>
      var l :- Rewrite(left);
      var r :- Rewrite(right);
      Ok(Binary(op, l, r))
    case MethodCall(declaringType, name, instance, arguments) =>
      if name == EqualsName then
        if |arguments| < 2 then Err(ArgumentOutOfRangeException)
        else Ok(Binary(Equal, arguments[0], arguments[1]))
      else
        var receiver := if instance.Some? then Rewrite(instance.value) else Ok(Parameter);
        var args := seq(|arguments|, i requires 0 <= i < |arguments| => Rewrite(arguments[i]));
        if receiver.Err? || exists i :: 0 <= i < |args| && args[i].Err? then Err(ArgumentOutOfRangeException)
        else
          var newInstance := if instance.Some? then Some(receiver.value) else None;
          Ok(MethodCall(declaringType, name, newInstance, seq(|args|, i requires 0 <= i < |args| => args[i].value)))
  }

  /** No method call named `Equals` anywhere in the tree. */
  predicate NoEqualsCall(e: Expr)
    decreases e
  {
    match e
    case Parameter => true
    case Constant(_) => true
    case MemberAccess(target, _, _) => NoEqualsCall(target)
    case Unary(_, operand) => NoEqualsCall(operand)
    case Binary(_, left, right) => NoEqualsCall(left) && NoEqualsCall(right)
    case MethodCall(_, name, instance, arguments) =>
      name != EqualsName
      && (instance.Some? ==> NoEqualsCall(instance.value))
      && forall i :: 0 <= i < |arguments| ==> NoEqualsCall(arguments[i])
  }

  /** Every method call named `Equals` anywhere in the tree has exactly two arguments. */
  predicate EqualsCallsAreBinary(e: Expr)
    decreases e
  {
    match e
    case Parameter => true
    case Constant(_) => true
    case MemberAccess(target, _, _) => EqualsCallsAreBinary(target)
    case Unary(_, operand) => EqualsCallsAreBinary(operand)
    case Binary(_, left, right) => EqualsCallsAreBinary(left) && EqualsCallsAreBinary(right)
    case MethodCall(_, name, instance, arguments) =>
      (name == EqualsName ==> |arguments| == 2)
      && (instance.Some? ==> EqualsCallsAreBinary(instance.value))
      && forall i :: 0 <= i < |arguments| ==> EqualsCallsAreBinary(arguments[i])
  }

  /** The equality helpers (`object.Equals(a, b)`, `EqualityComparer<T>.Default.Equals(a, b)`)
      compare their two arguments by value. */
  ghost predicate EqualsMeansEquality(calls: CallSemantics)
  {
    forall declaringType, receiver, args: seq<Value> ::
      |args| == 2 ==> calls(declaringType, EqualsName, receiver, args) == Some(VBool(args[0] == args[1]))
  }

  /** A call named `Equals` becomes `arguments[0] == arguments[1]` whatever its declaring type
      and receiver, and any further arguments are dropped. */
  lemma EqualsCallReplaced(declaringType: string, instance: Option<Expr>, arguments: seq<Expr>)
    requires |arguments| >= 2
    ensures Rewrite(MethodCall(declaringType, EqualsName, instance, arguments))
              == Ok(Binary(Equal, arguments[0], arguments[1]))
  {
  }

  /** The instance form `a.Equals(b)` has one argument, so the rewrite throws. */
  lemma InstanceEqualsThrows(declaringType: string, a: Expr, b: Expr)
    ensures Rewrite(MethodCall(declaringType, EqualsName, Some(a), [b])) == Err(ArgumentOutOfRangeException)
  {
  }

  /** Nodes other than method calls keep their kind, operator, member and constant. */
  lemma NonCallNodesKeepShape(e: Expr)
    requires !e.MethodCall? && Rewrite(e).Ok?
    ensures e.Parameter? || e.Constant? ==> Rewrite(e).value == e
    ensures e.MemberAccess? ==>
              Rewrite(e).value.MemberAccess? && Rewrite(e).value.member == e.member
              && Rewrite(e).value.memberKind == e.memberKind
    ensures e.Unary? ==> Rewrite(e).value.Unary? && Rewrite(e).value.unaryOp == e.unaryOp
    ensures e.Binary? ==> Rewrite(e).value.Binary? && Rewrite(e).value.binaryOp == e.binaryOp
  {
  }

  /** The arguments of a replaced call are not visited: an `Equals` nested inside them
      survives one pass. */
  lemma NestedEqualsSurvivesOnePass(a: Expr, b: Expr, c: Expr)
    ensures var inner := MethodCall("System.Object", EqualsName, None, [a, b]);
            var outer := MethodCall("System.Object", EqualsName, None, [inner, c]);
            Rewrite(outer) == Ok(Binary(Equal, inner, c)) && !NoEqualsCall(Binary(Equal, inner, c))
  {
  }

  /** A tree without `Equals` calls is rebuilt unchanged. */
  lemma {:induction false} RewriteWithoutEqualsIsIdentity(e: Expr)
    requires NoEqualsCall(e)
    ensures Rewrite(e) == Ok(e)
    decreases e
  {
    match e
    case Parameter =>
    case Constant(_) =>
    case MemberAccess(target, _, _) => RewriteWithoutEqualsIsIdentity(target);
    case Unary(_, operand) => RewriteWithoutEqualsIsIdentity(operand);
    case Binary(_, left, right) =>
      RewriteWithoutEqualsIsIdentity(left);
      RewriteWithoutEqualsIsIdentity(right);
    case MethodCall(declaringType, name, instance, arguments) =>
      if instance.Some? {
        RewriteWithoutEqualsIsIdentity(instance.value);
      }
      forall i | 0 <= i < |arguments|
        ensures Rewrite(arguments[i]) == Ok(arguments[i])
      {
        RewriteWithoutEqualsIsIdentity(arguments[i]);
      }
      var args := seq(|arguments|, i requires 0 <= i < |arguments| => Rewrite(arguments[i]));
      assert seq(|args|, i requires 0 <= i < |args| => args[i].value) == arguments;
  }

  /** The rewrite changes representation, not meaning: when every `Equals` call has two
      arguments and means value equality, the rewrite succeeds and the rewritten predicate
      evaluates to the same value whenever the original evaluates at all. */
  lemma {:induction false} RewritePreservesMeaning(e: Expr, x: Post, calls: CallSemantics)
    requires EqualsMeansEquality(calls)
    requires EqualsCallsAreBinary(e)
    ensures Rewrite(e).Ok?
    ensures Eval(e, x, calls).Some? ==> Eval(Rewrite(e).value, x, calls) == Eval(e, x, calls)
    decreases e
  {
    match e
    case Parameter =>
    case Constant(_) =>
    case MemberAccess(target, _, _) => RewritePreservesMeaning(target, x, calls);
    case Unary(_, operand) => RewritePreservesMeaning(operand, x, calls);
    case Binary(_, left, right) =>
      RewritePreservesMeaning(left, x, calls);
      RewritePreservesMeaning(right, x, calls);
    case MethodCall(_, _, instance, arguments) =>
      forall i | 0 <= i < |arguments|
        ensures Rewrite(arguments[i]).Ok?
        ensures Eval(arguments[i], x, calls).Some? ==>
                  Eval(Rewrite(arguments[i]).value, x, calls) == Eval(arguments[i], x, calls)
      {
        RewritePreservesMeaning(arguments[i], x, calls);
      }
      if instance.Some? {
        RewritePreservesMeaning(instance.value, x, calls);
      }
      CallRewritePreservesMeaning(e, x, calls);
  }

  /** The method-call case of the lemma above, given what the rewrite does to the children. */
  lemma CallRewritePreservesMeaning(e: Expr, x: Post, calls: CallSemantics)
    requires e.MethodCall? && EqualsMeansEquality(calls) && EqualsCallsAreBinary(e)
    requires forall i :: 0 <= i < |e.arguments| ==> Rewrite(e.arguments[i]).Ok?
    requires forall i :: 0 <= i < |e.arguments| && Eval(e.arguments[i], x, calls).Some? ==>
               Eval(Rewrite(e.arguments[i]).value, x, calls) == Eval(e.arguments[i], x, calls)
    requires e.instance.Some? ==> Rewrite(e.instance.value).Ok?
    requires e.instance.Some? && Eval(e.instance.value, x, calls).Some? ==>
               Eval(Rewrite(e.instance.value).value, x, calls) == Eval(e.instance.value, x, calls)
    ensures Rewrite(e).Ok?
    ensures Eval(e, x, calls).Some? ==> Eval(Rewrite(e).value, x, calls) == Eval(e, x, calls)
  {
    var arguments := e.arguments;
    var vals := seq(|arguments|, i requires 0 <= i < |arguments| => Eval(arguments[i], x, calls));
    if e.methodName == EqualsName {
      if Eval(e, x, calls).Some? {
        var vs := seq(|vals|, i requires 0 <= i < |vals| => vals[i].value);
        assert vals[0].Some? && vals[1].Some?;
        assert vs == [vals[0].value, vals[1].value];
      }
    } else {
      var rewritten := seq(|arguments|, i requires 0 <= i < |arguments| => Rewrite(arguments[i]).value);
      assert Rewrite(e).value.arguments == rewritten;
      if Eval(e, x, calls).Some? {
        var newVals := seq(|rewritten|, i requires 0 <= i < |rewritten| => Eval(rewritten[i], x, calls));
        assert newVals == vals;
      }
    }
  }

  /** Matching by name alone is not meaning-preserving for a three-argument overload such
      as `string.Equals(a, b, StringComparison.OrdinalIgnoreCase)`: the third argument is
      dropped, so "A" and "a" compare unequal after the rewrite. */
  lemma ThreeArgumentEqualsChangesMeaning(x: Post)
    ensures var ignoreCase := (t: string, m: string, r: Option<Value>, args: seq<Value>) =>
              if m == EqualsName && |args| == 3 then Some(VBool(true)) else None;
            var call := MethodCall("System.String", EqualsName, None,
                                   [Constant(VText("A")), Constant(VText("a")), Constant(VInt(5))]);
            Rewrite(call).Ok?
            && Eval(call, x, ignoreCase) == Some(VBool(true))
            && Eval(Rewrite(call).value, x, ignoreCase) == Some(VBool(false))
  {
    var ignoreCase := (t: string, m: string, r: Option<Value>, args: seq<Value>) =>
      if m == EqualsName && |args| == 3 then Some(VBool(true)) else None;
    var call := MethodCall("System.String", EqualsName, None,
                           [Constant(VText("A")), Constant(VText("a")), Constant(VInt(5))]);
    assert VText("A") != VText("a") by { assert "A"[0] != "a"[0]; }
    var vals := seq(3, i requires 0 <= i < 3 => Eval(call.arguments[i], x, ignoreCase));
    assert forall i :: 0 <= i < 3 ==> vals[i].Some?;
  }
}
