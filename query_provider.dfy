/** `ArangoQueryProvider`: the LINQ provider behind the driver's queryables.
    It accepts only the generic definition of a queryable type with one type
    parameter, and turns an expression into query text plus bind
    parameters through the query model and the driver's visitor. */
module QueryProvider {
  import opened Common
  import opened Expressions
  import ArangoModule

  /** The first message of `CheckQueryableType`; the type appears as its
      `ToString()` text. */
  function NotGenericDefinitionMessage(t: TypeDesc): (r: string)
    ensures |r| == |NotGenericDefinitionPrefix| + |t.displayName| + 2
    ensures r[..|NotGenericDefinitionPrefix|] == NotGenericDefinitionPrefix
    ensures r[|NotGenericDefinitionPrefix|..|r| - 2] == t.displayName && r[|r| - 2..] == "'."
  {
    NotGenericDefinitionPrefix + t.displayName + "'."
  }

  const NotGenericDefinitionPrefix := "Expected the generic type definition of an implementation of IQueryable<T>, but was '"

  /** The first message names the type: two types get the same message
      exactly when their texts agree. */
  lemma NotGenericDefinitionMessageNamesType(a: TypeDesc, b: TypeDesc)
    ensures NotGenericDefinitionMessage(a) == NotGenericDefinitionMessage(b) <==> a.displayName == b.displayName
  {
    var ma := NotGenericDefinitionMessage(a);
    var mb := NotGenericDefinitionMessage(b);
    if ma == mb {
      assert a.displayName == ma[|NotGenericDefinitionPrefix|..|ma| - 2];
    }
  }

  /** The second message of `CheckQueryableType`, with the parameter count
      and the type's `ToString()` text (the closing quote after the type is
      missing there). */
  function WrongArityMessage(t: TypeDesc): (r: string)
    ensures var n := ArangoModule.NatToString(t.genericTypeParameterCount);
      && |r| == |WrongArityPrefix| + |n| + |WrongArityInfix| + |t.displayName| + 1
      && r[..|WrongArityPrefix|] == WrongArityPrefix
      && r[|WrongArityPrefix|..|WrongArityPrefix| + |n|] == n
      && r[|r| - |t.displayName| - 1..] == t.displayName + "."
  {
    WrongArityPrefix + ArangoModule.NatToString(t.genericTypeParameterCount) + WrongArityInfix + t.displayName + "."
  }

  const WrongArityPrefix :=
    "Expected the generic type definition of an implementation of IQueryable<T> with exactly one type argument, but found "
  const WrongArityInfix := " arguments on '"

  /** `CheckQueryableType`: the type must implement `IQueryable`, be a
      generic type definition, and have exactly one type parameter. */
  function CheckQueryableType(t: TypeDesc): (r: Outcome)
    ensures r.Pass? <==> t.isAssignableToQueryable && t.isGenericTypeDefinition && t.genericTypeParameterCount == 1
    ensures !t.isAssignableToQueryable ==> r == Fail(ArgumentType("queryableType"))
    ensures t.isAssignableToQueryable && !t.isGenericTypeDefinition ==>
      r == Fail(Argument(NotGenericDefinitionMessage(t), Some("queryableType")))
    ensures t.isAssignableToQueryable && t.isGenericTypeDefinition && t.genericTypeParameterCount != 1 ==>
      r == Fail(Argument(WrongArityMessage(t), Some("queryableType")))
  {
    if !t.isAssignableToQueryable then Fail(ArgumentType("queryableType"))
    else if !t.isGenericTypeDefinition then Fail(Argument(NotGenericDefinitionMessage(t), Some("queryableType")))
    else if t.genericTypeParameterCount != 1 then Fail(Argument(WrongArityMessage(t), Some("queryableType")))
    else Pass
  }

  /** The arity message names the parameter count: two rejected types with
      different counts get different messages. */
  lemma WrongArityMessageShowsCount(a: TypeDesc, b: TypeDesc)
    requires a.displayName == b.displayName
    requires a.genericTypeParameterCount != b.genericTypeParameterCount
    ensures WrongArityMessage(a) != WrongArityMessage(b)
  {
    var na := ArangoModule.NatToString(a.genericTypeParameterCount);
    var nb := ArangoModule.NatToString(b.genericTypeParameterCount);
    ArangoModule.NatToStringInjective(a.genericTypeParameterCount, b.genericTypeParameterCount);
    var ma, mb := WrongArityMessage(a), WrongArityMessage(b);
    assert |ma| - |na| == |mb| - |nb|;
  }

  /** `QueryData`: the query text (unset until the provider fills it in)
      and the bind parameters the visitor collected. */
  datatype QueryData<B> = QueryData(query: Option<string>, bindVars: B)

  /** What `ArangoModelVisitor.VisitQueryModel` leaves behind: its query
      data and the text it accumulated. The visitor is not part of the
      model. */
  datatype VisitorOutput<B> = VisitorOutput(queryData: QueryData<B>, queryText: string)

  class ArangoQueryProvider<P, X, D> {
    const queryableType: TypeDesc
    const queryParser: P
    const executor: X
    const db: D

    constructor (queryableType: TypeDesc, queryParser: P, executor: X, db: D)
      ensures this.queryableType == queryableType && this.queryParser == queryParser
      ensures this.executor == executor && this.db == db
    {
      this.queryableType := queryableType;
      this.queryParser := queryParser;
      this.executor := executor;
      this.db := db;
    }

    /** The public constructor: the parser and the executor are checked
        (by the base constructor's arguments), then the queryable type is
        checked and stored unchanged. */
    static method Create(queryableType: Option<TypeDesc>, queryParser: Option<P>, executor: Option<X>, db: D)
      returns (r: Result<ArangoQueryProvider<P, X, D>>)
      ensures queryParser.None? ==> r == Err(ArgumentNull("queryParser"))
      ensures queryParser.Some? && executor.None? ==> r == Err(ArgumentNull("executor"))
      ensures queryParser.Some? && executor.Some? && queryableType.None? ==> r == Err(ArgumentNull("queryableType"))
      ensures (queryParser.Some? && executor.Some? && queryableType.Some?
               && CheckQueryableType(queryableType.value).Fail?) ==>
        r == Err(CheckQueryableType(queryableType.value).error)
      ensures r.Ok? <==> (queryParser.Some? && executor.Some? && queryableType.Some?
                          && CheckQueryableType(queryableType.value).Pass?)
      ensures r.Ok? ==> (fresh(r.value) && r.value.queryableType == queryableType.value
        && r.value.queryParser == queryParser.value && r.value.executor == executor.value && r.value.db == db)
    {
      if queryParser.None? {
        return Err(ArgumentNull("queryParser"));
      }
      if executor.None? {
        return Err(ArgumentNull("executor"));
      }
      if queryableType.None? {
        return Err(ArgumentNull("queryableType"));
      }
      var check := CheckQueryableType(queryableType.value);
      if check.Fail? {
        return Err(check.error);
      }
      var provider := new ArangoQueryProvider(queryableType.value, queryParser.value, executor.value, db);
      r := Ok(provider);
    }

    /** `GetQueryData`: a null expression is rejected; otherwise the query
        model generated from it is visited by a new visitor for this
        provider's database, and that visitor's query data is returned with
        its query set to the visitor's text. The model generation
        (`generateQueryModel`) and the visitor (`visitQueryModel`) are not
        part of the model; an exception from either is passed on, the
        generation's first. */
    function GetQueryData<M, B>(expression: Option<Expr>, generateQueryModel: Expr -> Result<M>,
                                visitQueryModel: (D, M) -> Result<VisitorOutput<B>>): (r: Result<QueryData<B>>)
      ensures expression.None? ==> r == Err(ArgumentNull("expression"))
      ensures expression.Some? && generateQueryModel(expression.value).Err? ==>
        r == Err(generateQueryModel(expression.value).error)
      ensures (expression.Some? && generateQueryModel(expression.value).Ok?
               && visitQueryModel(db, generateQueryModel(expression.value).value).Err?) ==>
        r == Err(visitQueryModel(db, generateQueryModel(expression.value).value).error)
      ensures r.Ok? <==> (expression.Some? && generateQueryModel(expression.value).Ok?
                          && visitQueryModel(db, generateQueryModel(expression.value).value).Ok?)
      ensures r.Ok? ==>
        var visited := visitQueryModel(db, generateQueryModel(expression.value).value).value;
        r.value.query == Some(visited.queryText) && r.value.bindVars == visited.queryData.bindVars
    {
      if expression.None? then Err(ArgumentNull("expression"))
      else
        match generateQueryModel(expression.value)
        case Err(e) => Err(e)
        case Ok(queryModel) =>
          match visitQueryModel(db, queryModel)
          case Err(e) => Err(e)
          case Ok(visited) => Ok(visited.queryData.(query := Some(visited.queryText)))
    }
  }
}
