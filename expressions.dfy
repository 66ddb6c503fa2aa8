/** Abstract stand-ins for the .NET reflection objects (`Type`, `MethodInfo`)
    and for LINQ expression trees, with the one tree rewrite the modelled code
    performs itself: replacing every occurrence of a sub-expression. */
module Expressions {
  import opened Common

  /** `CollectionPropertyAttribute` attached to an entity class; its
      `CollectionName` property may be left null. */
  datatype CollectionPropertyAttribute = CollectionPropertyAttribute(collectionName: Option<string>)

  /** What the modelled code asks of a `System.Type` through reflection. */
  datatype TypeDesc = TypeDesc(
    name: string,                                            // Type.Name
    fullName: string,                                        // Type.FullName
    displayName: string,                                     // Type.ToString(), e.g. "Ns.Q`2[T1,T2]"
    collectionProperty: Option<CollectionPropertyAttribute>, // GetCustomAttribute<CollectionPropertyAttribute>()
    isAssignableToQueryable: bool,                           // typeof(IQueryable).IsAssignableFrom(type)
    isGenericTypeDefinition: bool,                           // TypeInfo.IsGenericTypeDefinition
    genericTypeParameterCount: nat,                          // TypeInfo.GenericTypeParameters.Length
    isClosedGenericEnumerable: bool)                         // implements IEnumerable<T> for a closed T

  /** What the modelled code asks of a `System.Reflection.MethodInfo`. */
  datatype MethodDesc = MethodDesc(
    declaringType: TypeDesc,
    name: string,
    isGenericMethod: bool,
    genericArguments: seq<TypeDesc>,   // GetGenericArguments()
    takesEqualityComparer: bool)       // has an IEqualityComparer<T> parameter

  /** The value held by a `ConstantExpression`: a plain literal, or an
      expression tree object (a lambda passed to an Enumerable method). */
  datatype ConstantValue = Literal(text: string) | ExpressionValue(expr: Expr)

  /** A LINQ expression tree, reduced to the node kinds the modelled code
      distinguishes. `QuerySourceReference` points at a clause object.
      Expression nodes are compared by reference; for the one leaf the
      modelled code looks for, the parameter, `id` stands for that
      identity, so two parameters with the same name and type but
      different `id`s are different nodes. */
  datatype Expr =
    | Parameter(id: nat, name: string, paramType: TypeDesc)
    | Constant(value: ConstantValue)
    | Quote(operand: Expr)
    | Lambda(parameterNames: seq<string>, body: Expr)
    | Convert(operand: Expr, targetType: TypeDesc)
    | Call(callee: MethodDesc, arguments: seq<Expr>)
    | MemberAccess(target: Expr, member: string)
    | QuerySourceReference(source: object)

  /** `ExpressionType.Quote`. */
  predicate IsQuote(e: Expr) { e.Quote? }

  /** `ExpressionType.Constant` whose value `is LambdaExpression`. */
  predicate IsConstantLambda(e: Expr)
  {
    e.Constant? && e.value.ExpressionValue? && e.value.expr.Lambda?
  }

  /** `x` occurs somewhere in `e` (including `e` itself). */
  predicate Occurs(x: Expr, e: Expr)
    decreases e
  {
    if e == x then true
    else match e
      case Quote(o) => Occurs(x, o)
      case Lambda(_, b) => Occurs(x, b)
      case Convert(o, _) => Occurs(x, o)
      case MemberAccess(t, _) => Occurs(x, t)
      case Call(_, args) => exists i :: 0 <= i < |args| && Occurs(x, args[i])
      case _ => false
  }

  /** `ReplacingExpressionVisitor.Replace`: every occurrence of `target` in `e`
      is replaced by `replacement`; the replacement itself is not revisited. */
  function Replace(target: Expr, replacement: Expr, e: Expr): Expr
    decreases e
  {
    if e == target then replacement
    else match e
      case Quote(o) => Quote(Replace(target, replacement, o))
      case Lambda(ps, b) => Lambda(ps, Replace(target, replacement, b))
      case Convert(o, t) => Convert(Replace(target, replacement, o), t)
      case MemberAccess(t, m) => MemberAccess(Replace(target, replacement, t), m)
      case Call(m, args) =>
        Call(m, seq(|args|, i requires 0 <= i < |args| => Replace(target, replacement, args[i])))
      case _ => e
  }

  /** Replacing something that does not occur changes nothing. */
  lemma {:induction false} ReplaceAbsent(target: Expr, replacement: Expr, e: Expr)
    requires !Occurs(target, e)
    ensures Replace(target, replacement, e) == e
    decreases e
  {
    match e
    case Quote(o) => ReplaceAbsent(target, replacement, o);
    case Lambda(_, b) => ReplaceAbsent(target, replacement, b);
    case Convert(o, _) => ReplaceAbsent(target, replacement, o);
    case MemberAccess(t, _) => ReplaceAbsent(target, replacement, t);
    case Call(m, args) =>
      var replaced := seq(|args|, i requires 0 <= i < |args| => Replace(target, replacement, args[i]));
      forall i | 0 <= i < |args| ensures replaced[i] == args[i] {
        ReplaceAbsent(target, replacement, args[i]);
      }
      assert replaced == args;
    case _ =>
  }

  /** When the target is a parameter (a leaf) and the replacement differs
      from it, no occurrence of the target survives at the top. */
  lemma ReplaceNeverYieldsTarget(target: Expr, replacement: Expr, e: Expr)
    requires target.Parameter? && replacement != target
    ensures Replace(target, replacement, e) != target
  {
  }

  /** `p` occurs in `e` outside every `Convert(p, t)` wrapper. */
  predicate OccursBare(p: Expr, t: TypeDesc, e: Expr)
    decreases e
  {
    if e == p then true
    else if e == Convert(p, t) then false
    else match e
      case Quote(o) => OccursBare(p, t, o)
      case Lambda(_, b) => OccursBare(p, t, b)
      case Convert(o, _) => OccursBare(p, t, o)
      case MemberAccess(x, _) => OccursBare(p, t, x)
      case Call(_, args) => exists i :: 0 <= i < |args| && OccursBare(p, t, args[i])
      case _ => false
  }

  /** After wrapping, no occurrence of `p` is left unwrapped. */
  lemma {:induction false} WrapLeavesNoBare(p: Expr, t: TypeDesc, e: Expr)
    requires p.Parameter?
    ensures !OccursBare(p, t, Replace(p, Convert(p, t), e))
    decreases e
  {
    var w := Convert(p, t);
    if e == p {
    } else {
      match e
      case Quote(o) => WrapLeavesNoBare(p, t, o);
      case Lambda(_, b) => WrapLeavesNoBare(p, t, b);
      case Convert(o, tt) =>
        WrapLeavesNoBare(p, t, o);
        ReplaceNeverYieldsTarget(p, w, o);
      case MemberAccess(x, _) => WrapLeavesNoBare(p, t, x);
      case Call(m, args) =>
        var r := Replace(p, w, e);
        forall i | 0 <= i < |args| ensures !OccursBare(p, t, r.arguments[i]) {
          WrapLeavesNoBare(p, t, args[i]);
        }
      case _ =>
    }
  }

  /** Wrapping every occurrence of a parameter `p` in `Convert(p, t)` and then
      unwrapping restores the tree, provided it held no such wrapper before. */
  lemma {:induction false} WrapThenUnwrap(p: Expr, t: TypeDesc, e: Expr)
    requires p.Parameter?
    requires !Occurs(Convert(p, t), e)
    ensures Replace(Convert(p, t), p, Replace(p, Convert(p, t), e)) == e
    decreases e
  {
    var w := Convert(p, t);
    if e == p {
    } else {
      var r := Replace(p, w, e);
      match e
      case Quote(o) => WrapThenUnwrap(p, t, o);
      case Lambda(_, b) => WrapThenUnwrap(p, t, b);
      case Convert(o, tt) =>
        WrapThenUnwrap(p, t, o);
        ReplaceNeverYieldsTarget(p, w, o);
      case MemberAccess(x, _) => WrapThenUnwrap(p, t, x);
      case Call(m, args) =>
        forall i | 0 <= i < |args| ensures Replace(w, p, r.arguments[i]) == args[i] {
          WrapThenUnwrap(p, t, args[i]);
        }
        assert Replace(w, p, r).arguments == args;
      case _ =>
    }
  }
}
