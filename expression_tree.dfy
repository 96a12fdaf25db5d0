/**
 * A tagged-variant model of the LINQ expression trees the repositories receive: the body of
 * a lambda `x => ...` over the entity, its member accesses, conversions, comparisons and
 * method calls. `Eval` gives a predicate the meaning a translating backend assigns to it;
 * method calls other than the operators are interpreted by a caller-supplied semantics.
 */
module ExpressionTree {
  import opened Wrappers
  import opened Entity

  datatype UnaryOp = Convert | Not

  datatype BinaryOp = Equal | NotEqual | AndAlso | OrElse

  /** What `MemberExpression.Member` is: a property, or a field such as a captured local,
      which the compiler turns into a field of a closure object. */
  datatype MemberKind = PropertyMember | FieldMember

  datatype Expr =
    | Parameter                                        // the lambda's parameter `x`
    | Constant(value: Value)                           // a constant or a captured closure value
    | MemberAccess(target: Expr, member: string, memberKind: MemberKind)   // `target.Member`
    | Unary(unaryOp: UnaryOp, operand: Expr)             // `(object)operand`, `!operand`
    | Binary(binaryOp: BinaryOp, left: Expr, right: Expr)
    | MethodCall(declaringType: string, methodName: string, instance: Option<Expr>, arguments: seq<Expr>)

  /** The result of calling `declaringType.method` on an instance (None for a static call)
      with the given arguments; None when the call throws. */
  type CallSemantics = (string, string, Option<Value>, seq<Value>) -> Option<Value>

  /** The value of `e` for the entity `x`; None when evaluation fails. */
  function Eval(e: Expr, x: Post, calls: CallSemantics): Option<Value>
    decreases e
  {
    match e
    case Parameter => Some(VEntity(x))
    case Constant(v) => Some(v)
    case MemberAccess(target, member, kind) =>
      var t := Eval(target, x, calls);
      if kind == PropertyMember && t.Some? && t.value.VEntity? && GetValue(t.value.post, member).Ok?
      then Some(GetValue(t.value.post, member).value)
      else None
    case Unary(op, operand) =>
      var v := Eval(operand, x, calls);
      if v.None? then None
      else if op == Convert then v
      else if v.value.VBool? then Some(VBool(!v.value.b))
      else None
    case Binary(op, left, right) =>
      var l := Eval(left, x, calls);
      if l.None? then None
      else if op == Equal || op == NotEqual then
        var r := Eval(right, x, calls);
        if r.None? then None
        else Some(VBool(if op == Equal then l.value == r.value else l.value != r.value))
      else if !l.value.VBool? then None
      else if l.value.b == (op == OrElse) then l   // short-circuit
      else
        var r := Eval(right, x, calls);
        if r.Some? && r.value.VBool? then r else None
    case MethodCall(declaringType, methodName, instance, arguments) =>
      var receiver := if instance.Some? then Eval(instance.value, x, calls) else None;
      var args := seq(|arguments|, i requires 0 <= i < |arguments| => Eval(arguments[i], x, calls));
      if (instance.Some? && receiver.None?) || (exists i :: 0 <= i < |args| && args[i].None?)
      then None
      else calls(declaringType, methodName, receiver, seq(|args|, i requires 0 <= i < |args| => args[i].value))
  }
}
