/** Three expression nodes of the intermediate model the parser builds:
    `Cast`, `Intersect` and the driver's own `IgnoreModificationSelect`.
    Each resolves expressions against its source node, which is not part of
    the model and is given as the function `sourceResolve`. */
module IntermediateModel {
  import opened Common
  import opened Expressions
  import opened MethodCallParsing
  import opened QueryModels
  import opened ResultOperators

  /** A `ParameterExpression`. */
  type ParameterExpression = e: Expr | e.Parameter?
    witness Parameter(0, "", TypeDesc("", "", "", None, false, false, 0, false))

  /** The declaring types of `ReflectionUtility.EnumerableAndQueryableMethods`. */
  predicate IsEnumerableOrQueryableMethod(m: MethodDesc)
  {
    m.declaringType.fullName == "System.Linq.Enumerable" || m.declaringType.fullName == "System.Linq.Queryable"
  }

  /** The resolution every node performs after its own rewrite: the null
      checks, then the source node's `Resolve` on the same parameter. */
  function ResolveThroughSource(inputParameter: Option<ParameterExpression>, expressionToBeResolved: Option<Expr>,
                                sourceResolve: (ParameterExpression, Expr) -> Result<Expr>): (r: Result<Expr>)
    ensures inputParameter.None? ==> r == Err(ArgumentNull("inputParameter"))
    ensures inputParameter.Some? && expressionToBeResolved.None? ==> r == Err(ArgumentNull("expressionToBeResolved"))
    ensures inputParameter.Some? && expressionToBeResolved.Some? ==>
      r == sourceResolve(inputParameter.value, expressionToBeResolved.value)
  {
    if inputParameter.None? then Err(ArgumentNull("inputParameter"))
    else if expressionToBeResolved.None? then Err(ArgumentNull("expressionToBeResolved"))
    else sourceResolve(inputParameter.value, expressionToBeResolved.value)
  }

  // ----- Cast -----

  /** A `CastExpressionNode`, as constructed from a parse info. */
  datatype CastExpressionNode<S> = CastExpressionNode(parseInfo: ParseInfo<S>)

  /** The method has exactly one generic argument, as `Cast<TResult>` has. */
  predicate HasSingleGenericArgument(m: MethodDesc)
  {
    m.isGenericMethod && |m.genericArguments| == 1
  }

  /** The message of the constructor's `ArgumentException`. */
  const CastArgumentMessage := "The parsed method must have exactly one generic argument."

  /** The constructor: only a generic method with one generic argument is
      accepted. */
  function NewCastExpressionNode<S>(parseInfo: ParseInfo<S>): (r: Result<CastExpressionNode<S>>)
    ensures r.Ok? <==> HasSingleGenericArgument(parseInfo.parsedExpression.callee)
    ensures r.Ok? ==> r.value.parseInfo == parseInfo
    ensures r.Err? ==> r.error == Argument(CastArgumentMessage, Some("parseInfo"))
  {
    var m := parseInfo.parsedExpression.callee;
    if !m.isGenericMethod || |m.genericArguments| != 1 then Err(Argument(CastArgumentMessage, Some("parseInfo")))
    else Ok(CastExpressionNode(parseInfo))
  }

  /** A node the constructor accepted. */
  predicate ValidCastNode<S>(node: CastExpressionNode<S>)
  {
    HasSingleGenericArgument(node.parseInfo.parsedExpression.callee)
  }

  /** `CastItemType`: the single generic argument of the parsed method. */
  function CastItemType<S>(node: CastExpressionNode<S>): (t: TypeDesc)
    requires ValidCastNode(node)
    ensures node.parseInfo.parsedExpression.callee.genericArguments == [t]
  {
    node.parseInfo.parsedExpression.callee.genericArguments[0]
  }

  /** `GetSupportedMethods`: the `Cast` methods of `Enumerable` and
      `Queryable`. */
  predicate CastSupports(m: MethodDesc): (r: bool)
    ensures r ==> m.name == "Cast" && IsEnumerableOrQueryableMethod(m)
  {
    IsEnumerableOrQueryableMethod(m) && m.name == "Cast"
  }

  /** `Resolve`: every occurrence of the input parameter is wrapped in a
      conversion to the cast item type before the source node resolves the
      expression. */
  function CastResolve<S>(node: CastExpressionNode<S>, inputParameter: Option<ParameterExpression>,
                          expressionToBeResolved: Option<Expr>,
                          sourceResolve: (ParameterExpression, Expr) -> Result<Expr>): (r: Result<Expr>)
    requires ValidCastNode(node)
    ensures inputParameter.None? ==> r == Err(ArgumentNull("inputParameter"))
    ensures inputParameter.Some? && expressionToBeResolved.None? ==> r == Err(ArgumentNull("expressionToBeResolved"))
  {
    if inputParameter.None? then Err(ArgumentNull("inputParameter"))
    else if expressionToBeResolved.None? then Err(ArgumentNull("expressionToBeResolved"))
    else
      var p := inputParameter.value;
      var withCast := Replace(p, Convert(p, CastItemType(node)), expressionToBeResolved.value);
      sourceResolve(p, withCast)
  }

  /** The source node receives the expression with every bare occurrence of
      the parameter converted, and nothing else changed: undoing the
      conversion gives the original expression back (when it held no such
      conversion already). */
  lemma CastResolveConvertsParameter<S>(node: CastExpressionNode<S>, p: ParameterExpression, e: Expr,
                                        sourceResolve: (ParameterExpression, Expr) -> Result<Expr>)
    requires ValidCastNode(node)
    ensures exists handed: Expr ::
      && CastResolve(node, Some(p), Some(e), sourceResolve) == sourceResolve(p, handed)
      && !OccursBare(p, CastItemType(node), handed)
      && (!Occurs(Convert(p, CastItemType(node)), e) ==> Replace(Convert(p, CastItemType(node)), p, handed) == e)
  {
    var t := CastItemType(node);
    var handed := Replace(p, Convert(p, t), e);
    WrapLeavesNoBare(p, t, e);
    if !Occurs(Convert(p, t), e) {
      WrapThenUnwrap(p, t, e);
    }
    assert CastResolve(node, Some(p), Some(e), sourceResolve) == sourceResolve(p, handed);
  }

  /** When the parameter does not occur in the expression, a cast resolves
      exactly as a pass-through node does. */
  lemma CastResolveWithoutParameter<S>(node: CastExpressionNode<S>, p: ParameterExpression, e: Expr,
                                       sourceResolve: (ParameterExpression, Expr) -> Result<Expr>)
    requires ValidCastNode(node)
    requires !Occurs(p, e)
    ensures CastResolve(node, Some(p), Some(e), sourceResolve) == ResolveThroughSource(Some(p), Some(e), sourceResolve)
  {
    ReplaceAbsent(p, Convert(p, CastItemType(node)), e);
  }

  /** Parameters are matched by identity, not by name: a lambda that declares
      its own parameter with the same name and type as the input parameter
      reaches the source node unconverted. */
  lemma CastResolveKeepsLookalike<S>(node: CastExpressionNode<S>, p: ParameterExpression, q: ParameterExpression,
                                     sourceResolve: (ParameterExpression, Expr) -> Result<Expr>)
    requires ValidCastNode(node)
    requires q.name == p.name && q.paramType == p.paramType && q.id != p.id
    ensures CastResolve(node, Some(p), Some(Lambda([q.name], q)), sourceResolve)
         == sourceResolve(p, Lambda([q.name], q))
  {
    CastResolveWithoutParameter(node, p, Lambda([q.name], q), sourceResolve);
  }

  /** `CreateResultOperator`: a cast operator carrying the cast item type. */
  function CastCreateResultOperator<S>(node: CastExpressionNode<S>): (op: ResultOperator)
    requires ValidCastNode(node)
    ensures op.CastResultOperator?
    ensures node.parseInfo.parsedExpression.callee.genericArguments == [op.castItemType]
  {
    CastResultOperator(CastItemType(node))
  }

  // ----- Intersect -----

  /** An `IntersectExpressionNode` with its second source. */
  datatype IntersectExpressionNode<S> = IntersectExpressionNode(parseInfo: ParseInfo<S>, source2: Expr)

  /** The constructor: the second source must not be null. */
  function NewIntersectExpressionNode<S>(parseInfo: ParseInfo<S>, source2: Option<Expr>): (r: Result<IntersectExpressionNode<S>>)
    ensures r.Ok? <==> source2.Some?
    ensures r.Ok? ==> r.value.parseInfo == parseInfo && r.value.source2 == source2.value
    ensures r.Err? ==> r.error == ArgumentNull("source2")
  {
    if source2.None? then Err(ArgumentNull("source2")) else Ok(IntersectExpressionNode(parseInfo, source2.value))
  }

  /** `GetSupportedMethods`: the `Intersect` methods of `Enumerable` and
      `Queryable` that take no equality comparer. */
  predicate IntersectSupports(m: MethodDesc): (r: bool)
    ensures r ==> m.name == "Intersect" && IsEnumerableOrQueryableMethod(m) && !m.takesEqualityComparer
  {
    IsEnumerableOrQueryableMethod(m) && m.name == "Intersect" && !m.takesEqualityComparer
  }

  /** `Resolve`: the expression goes to the source node unchanged. */
  function IntersectResolve<S>(node: IntersectExpressionNode<S>, inputParameter: Option<ParameterExpression>,
                               expressionToBeResolved: Option<Expr>,
                               sourceResolve: (ParameterExpression, Expr) -> Result<Expr>): (r: Result<Expr>)
    ensures r == ResolveThroughSource(inputParameter, expressionToBeResolved, sourceResolve)
  {
    ResolveThroughSource(inputParameter, expressionToBeResolved, sourceResolve)
  }

  /** `CreateResultOperator`: an intersect operator carrying the second
      source, and nothing of the parse info. */
  function IntersectCreateResultOperator<S>(node: IntersectExpressionNode<S>): (op: ResultOperator)
    ensures op.IntersectResultOperator? && op.source2 == node.source2
  {
    IntersectResultOperator(node.source2)
  }

  /** The operator depends on the second source only, and tells second
      sources apart. */
  lemma IntersectOperatorCarriesSource2<S>(a: IntersectExpressionNode<S>, b: IntersectExpressionNode<S>)
    ensures IntersectCreateResultOperator(a) == IntersectCreateResultOperator(b) <==> a.source2 == b.source2
  {
  }

  // ----- IgnoreModificationSelect -----

  /** An `IgnoreModificationSelectExpressionNode`. */
  datatype IgnoreModificationSelectExpressionNode<S> = IgnoreModificationSelectExpressionNode(parseInfo: ParseInfo<S>)

  /** `GetSupportedMethods`: the driver's `IgnoreModificationSelect`
      extension method. */
  predicate IgnoreModificationSelectSupports(m: MethodDesc): (r: bool)
    ensures r ==> m.name == "IgnoreModificationSelect" && m.declaringType.name == "ArangoQueryableExtensions"
  {
    m.name == "IgnoreModificationSelect" && m.declaringType.name == "ArangoQueryableExtensions"
  }

  /** The three nodes claim disjoint sets of methods, so registering all of
      them never maps one method to two node types. */
  lemma SupportedMethodsDisjoint(m: MethodDesc)
    ensures !(CastSupports(m) && IntersectSupports(m))
    ensures !(CastSupports(m) && IgnoreModificationSelectSupports(m))
    ensures !(IntersectSupports(m) && IgnoreModificationSelectSupports(m))
  {
  }

  /** `Resolve`: the expression goes to the source node unchanged. */
  function IgnoreModificationSelectResolve<S>(node: IgnoreModificationSelectExpressionNode<S>,
                                              inputParameter: Option<ParameterExpression>,
                                              expressionToBeResolved: Option<Expr>,
                                              sourceResolve: (ParameterExpression, Expr) -> Result<Expr>): (r: Result<Expr>)
    ensures r == ResolveThroughSource(inputParameter, expressionToBeResolved, sourceResolve)
  {
    ResolveThroughSource(inputParameter, expressionToBeResolved, sourceResolve)
  }

  /** The clause `BodyClauses.NextBodyClause<IModificationClause>()` finds.
      That lookup is not part of the model and is given as
      `nextModificationClause`; it may fail, or return null. The target is
      the clause it returns, when there is a query model, the lookup
      succeeds and its result is not null. */
  function TargetClause(queryModel: QueryModel?, nextModificationClause: seq<object> -> Result<ModificationClause?>)
    : (c: ModificationClause?)
    reads queryModel
    ensures c != null <==>
      (queryModel != null && nextModificationClause(queryModel.bodyClauses).Ok?
       && nextModificationClause(queryModel.bodyClauses).value != null)
    ensures c != null ==> c == nextModificationClause(queryModel.bodyClauses).value
  {
    if queryModel == null then null
    else match nextModificationClause(queryModel.bodyClauses)
      case Err(_) => null
      case Ok(clause) => clause
  }

  /** `ApplyNodeSpecificSemantics`: sets `IgnoreSelect` on the modification
      clause found among the body clauses, and changes nothing else. A null
      query model is rejected; a failing lookup's error is passed on; a null
      result of the lookup is dereferenced, which throws. */
  method ApplyNodeSpecificSemantics(queryModel: QueryModel?,
                                    nextModificationClause: seq<object> -> Result<ModificationClause?>)
    returns (outcome: Outcome)
    modifies (if TargetClause(queryModel, nextModificationClause) == null then {}
              else {TargetClause(queryModel, nextModificationClause)})`ignoreSelect
    ensures queryModel == null ==> outcome == Fail(ArgumentNull("queryModel"))
    ensures queryModel != null && nextModificationClause(queryModel.bodyClauses).Err? ==>
      outcome == Fail(nextModificationClause(queryModel.bodyClauses).error)
    ensures queryModel != null && nextModificationClause(queryModel.bodyClauses) == Ok(null) ==>
      outcome == Fail(NullReference)
    ensures outcome.Pass? <==> TargetClause(queryModel, nextModificationClause) != null
    ensures outcome.Pass? ==> TargetClause(queryModel, nextModificationClause).ignoreSelect
  {
    if queryModel == null {
      return Fail(ArgumentNull("queryModel"));
    }
    var found := nextModificationClause(queryModel.bodyClauses);
    if found.Err? {
      return Fail(found.error);
    }
    var modificationClause := found.value;
    if modificationClause == null {
      return Fail(NullReference);
    }
    modificationClause.ignoreSelect := true;
    outcome := Pass;
  }
}
