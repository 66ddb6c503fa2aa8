/** `MethodCallExpressionParser`: turns one query-operator call (`Where`,
    `Select`, `Cast`, …) into an expression node, after looking the method
    up in the node type provider and preparing the call's arguments. */
module MethodCallParsing {
  import opened Common
  import opened Expressions

  /** A `MethodCallExpression`. */
  type MethodCallExpression = e: Expr | e.Call?
    witness Call(MethodDesc(TypeDesc("", "", "", None, false, false, 0, false), "", false, [], false), [])

  /** `MethodCallExpressionParseInfo`: what every created node receives. */
  datatype ParseInfo<S> = ParseInfo(associatedIdentifier: string, source: S, parsedExpression: MethodCallExpression)

  /** The outcome of `MethodCallExpressionNodeFactory.CreateExpressionNode`:
      a node, an `ExpressionNodeInstantiationException` with its message, or
      any other exception. */
  datatype Instantiation<Nd> = Created(node: Nd) | InstantiationFailed(message: string) | Threw(error: Error)

  const ParsingErrorPrefix := "Could not parse expression '"

  /** `CreateParsingErrorException`: the parsed call's text, then the message. */
  function ParsingError(buildString: Expr -> string, expression: MethodCallExpression, message: string): (e: Error)
    ensures e.NotSupported?
    ensures e.message == ParsingErrorPrefix + buildString(expression) + "': " + message
  {
    NotSupported(ParsingErrorPrefix + buildString(expression) + "': " + message)
  }

  /** The message for a method the provider does not know: the declaring
      type's full name and the method name, joined by a dot. */
  function UnsupportedOverload(m: MethodDesc): (r: string)
    ensures var named := m.declaringType.fullName + "." + m.name;
      && |r| == |UnsupportedOverloadPrefix| + |named| + |UnsupportedOverloadSuffix|
      && r[..|UnsupportedOverloadPrefix|] == UnsupportedOverloadPrefix
      && r[|UnsupportedOverloadPrefix|..|UnsupportedOverloadPrefix| + |named|] == named
      && r[|UnsupportedOverloadPrefix| + |named|..] == UnsupportedOverloadSuffix
  {
    UnsupportedOverloadPrefix + m.declaringType.fullName + "." + m.name + UnsupportedOverloadSuffix
  }

  const UnsupportedOverloadPrefix := "This overload of the method '"
  const UnsupportedOverloadSuffix := "' is currently not supported."

  /** `GetNodeType`: the node type registered for the called method, or a
      parsing error naming the declaring type and the method. */
  function GetNodeType<T>(getNodeType: MethodDesc -> Option<T>, buildString: Expr -> string,
                          expressionToParse: MethodCallExpression): (r: Result<T>)
    ensures getNodeType(expressionToParse.callee).Some? ==> r == Ok(getNodeType(expressionToParse.callee).value)
    ensures getNodeType(expressionToParse.callee).None? ==>
      r == Err(ParsingError(buildString, expressionToParse, UnsupportedOverload(expressionToParse.callee)))
  {
    match getNodeType(expressionToParse.callee)
    case Some(t) => Ok(t)
    case None => Err(ParsingError(buildString, expressionToParse, UnsupportedOverload(expressionToParse.callee)))
  }

  /** `UnwrapArgumentExpression`: a quoted expression (an argument of a
      `Queryable` method) becomes its operand, a constant holding a lambda
      becomes that lambda, and anything else is kept. */
  function UnwrapArgumentExpression(e: Expr): (r: Expr)
    ensures e.Quote? ==> r == e.operand
    ensures IsConstantLambda(e) ==> r == e.value.expr && r.Lambda?
    ensures !e.Quote? && !IsConstantLambda(e) ==> r == e
  {
    if IsQuote(e) then e.operand
    else if IsConstantLambda(e) then e.value.expr
    else e
  }

  /** Unwrapping changes an argument exactly when it is a quote or a constant
      holding a lambda, and then yields a strictly smaller tree. */
  lemma UnwrapChangesOnlyWrappers(e: Expr)
    ensures UnwrapArgumentExpression(e) != e <==> e.Quote? || IsConstantLambda(e)
    ensures UnwrapArgumentExpression(e) != e ==> UnwrapArgumentExpression(e) < e
  {
    if IsConstantLambda(e) {
      assert e.value.expr < e.value;
    }
  }

  /** `ProcessArgumentExpression`: the argument is unwrapped and then
      searched for sub-queries; the search (not part of the model, hence
      `findSubQueries`) may fail. */
  function ProcessArgumentExpression(findSubQueries: Expr -> Result<Expr>, argument: Expr): Result<Expr>
  {
    findSubQueries(UnwrapArgumentExpression(argument))
  }

  /** All arguments processed in order (`Select` then `ToArray`): the first
      failure, in argument order, is the result; otherwise every processed
      argument, count and order kept. */
  function ProcessArguments(findSubQueries: Expr -> Result<Expr>, arguments: seq<Expr>): (r: Result<seq<Expr>>)
    ensures r.Ok? <==> forall i :: 0 <= i < |arguments| ==> ProcessArgumentExpression(findSubQueries, arguments[i]).Ok?
    ensures r.Ok? ==> (|r.value| == |arguments|
      && forall i :: 0 <= i < |arguments| ==> r.value[i] == ProcessArgumentExpression(findSubQueries, arguments[i]).value)
    ensures r.Err? ==>
      exists i ::
        && 0 <= i < |arguments|
        && ProcessArgumentExpression(findSubQueries, arguments[i]) == Err(r.error)
        && forall j :: 0 <= j < i ==> ProcessArgumentExpression(findSubQueries, arguments[j]).Ok?
    decreases |arguments|
  {
    if arguments == [] then Ok([])
    else
      match ProcessArgumentExpression(findSubQueries, arguments[0])
      case Err(e) => Err(e)
      case Ok(first) =>
        match ProcessArguments(findSubQueries, arguments[1..])
        case Err(e) => Err(e)
        case Ok(rest) => Ok([first] + rest)
  }

  /** Processing a split argument list is processing the first part and,
      if that succeeds, the second. */
  lemma {:induction false} ProcessArgumentsAppend(findSubQueries: Expr -> Result<Expr>, a: seq<Expr>, b: seq<Expr>)
    ensures ProcessArguments(findSubQueries, a + b) ==
      if ProcessArguments(findSubQueries, a).Err? then Err(ProcessArguments(findSubQueries, a).error)
      else if ProcessArguments(findSubQueries, b).Err? then Err(ProcessArguments(findSubQueries, b).error)
      else Ok(ProcessArguments(findSubQueries, a).value + ProcessArguments(findSubQueries, b).value)
    decreases |a|
  {
    if a == [] {
      assert a + b == b;
      assert ProcessArguments(findSubQueries, a) == Ok([]);
      if ProcessArguments(findSubQueries, b).Ok? {
        assert [] + ProcessArguments(findSubQueries, b).value == ProcessArguments(findSubQueries, b).value;
      }
    } else {
      assert (a + b)[0] == a[0];
      assert (a + b)[1..] == a[1..] + b;
      ProcessArgumentsAppend(findSubQueries, a[1..], b);
      if ProcessArgumentExpression(findSubQueries, a[0]).Ok?
         && ProcessArguments(findSubQueries, a[1..]).Ok? && ProcessArguments(findSubQueries, b).Ok? {
        var first := ProcessArgumentExpression(findSubQueries, a[0]).value;
        var ra, rb := ProcessArguments(findSubQueries, a[1..]).value, ProcessArguments(findSubQueries, b).value;
        assert [first] + (ra + rb) == ([first] + ra) + rb;
      }
    }
  }

  /** `CreateExpressionNode`: an instantiation failure is rethrown as a
      parsing error carrying the factory's message; other exceptions pass. */
  function CreateExpressionNode<T, S, Nd>(createNode: (T, ParseInfo<S>, seq<Expr>) -> Instantiation<Nd>,
                                          buildString: Expr -> string,
                                          nodeType: T, parseInfo: ParseInfo<S>, parameters: seq<Expr>): (r: Result<Nd>)
    ensures createNode(nodeType, parseInfo, parameters).Created? ==>
      r == Ok(createNode(nodeType, parseInfo, parameters).node)
    ensures createNode(nodeType, parseInfo, parameters).InstantiationFailed? ==>
      r == Err(ParsingError(buildString, parseInfo.parsedExpression, createNode(nodeType, parseInfo, parameters).message))
    ensures createNode(nodeType, parseInfo, parameters).Threw? ==>
      r == Err(createNode(nodeType, parseInfo, parameters).error)
  {
    match createNode(nodeType, parseInfo, parameters)
    case Created(n) => Ok(n)
    case InstantiationFailed(message) => Err(ParsingError(buildString, parseInfo.parsedExpression, message))
    case Threw(e) => Err(e)
  }

  /** `Parse`: the argument checks, then the node type lookup, then the
      argument processing, then the node creation. */
  function Parse<T, S, Nd>(getNodeType: MethodDesc -> Option<T>, findSubQueries: Expr -> Result<Expr>,
                           createNode: (T, ParseInfo<S>, seq<Expr>) -> Instantiation<Nd>, buildString: Expr -> string,
                           associatedIdentifier: Option<string>, source: Option<S>, arguments: Option<seq<Expr>>,
                           expressionToParse: Option<MethodCallExpression>): (r: Result<Nd>)
    ensures associatedIdentifier.None? ==> r == Err(ArgumentNull("associatedIdentifier"))
    ensures associatedIdentifier == Some("") ==> r == Err(ArgumentEmpty("associatedIdentifier"))
    ensures r.Ok? ==>
      && associatedIdentifier.Some? && associatedIdentifier.value != []
      && source.Some? && arguments.Some? && expressionToParse.Some?
      && getNodeType(expressionToParse.value.callee).Some?
      && ProcessArguments(findSubQueries, arguments.value).Ok?
      && createNode(getNodeType(expressionToParse.value.callee).value,
                    ParseInfo(associatedIdentifier.value, source.value, expressionToParse.value),
                    ProcessArguments(findSubQueries, arguments.value).value) == Created(r.value)
    ensures (associatedIdentifier.Some? && associatedIdentifier.value != []
      && source.Some? && arguments.Some? && expressionToParse.Some?
      && getNodeType(expressionToParse.value.callee).Some?
      && ProcessArguments(findSubQueries, arguments.value).Err?) ==>
        r == Err(ProcessArguments(findSubQueries, arguments.value).error)
  {
    if associatedIdentifier.None? then Err(ArgumentNull("associatedIdentifier"))
    else if associatedIdentifier.value == [] then Err(ArgumentEmpty("associatedIdentifier"))
    else if source.None? then Err(ArgumentNull("source"))
    else if expressionToParse.None? then Err(ArgumentNull("expressionToParse"))
    else if arguments.None? then Err(ArgumentNull("arguments"))
    else
      match GetNodeType(getNodeType, buildString, expressionToParse.value)
      case Err(e) => Err(e)
      case Ok(nodeType) =>
        match ProcessArguments(findSubQueries, arguments.value)
        case Err(e) => Err(e)
        case Ok(additionalConstructorParameters) =>
          var parseInfo := ParseInfo(associatedIdentifier.value, source.value, expressionToParse.value);
          CreateExpressionNode(createNode, buildString, nodeType, parseInfo, additionalConstructorParameters)
  }

  /** The lookup comes first: an unregistered method is reported, with its
      declaring type and name, whatever the arguments and however the
      argument processing or the factory would behave. */
  lemma UnsupportedMethodReported<T, S, Nd>(getNodeType: MethodDesc -> Option<T>, findSubQueries: Expr -> Result<Expr>,
                                            createNode: (T, ParseInfo<S>, seq<Expr>) -> Instantiation<Nd>,
                                            buildString: Expr -> string, identifier: string, source: S,
                                            arguments: seq<Expr>, expressionToParse: MethodCallExpression)
    requires identifier != [] && getNodeType(expressionToParse.callee).None?
    ensures Parse(getNodeType, findSubQueries, createNode, buildString, Some(identifier), Some(source), Some(arguments), Some(expressionToParse))
         == Err(ParsingError(buildString, expressionToParse, UnsupportedOverload(expressionToParse.callee)))
  {
  }

  /** Every error of a parse with a valid identifier is either a parsing
      error the parser itself raises (unsupported method or a failed node
      instantiation), naming the parsed call in the common prefix, or the
      failure of processing one of the arguments. */
  lemma ParseErrorsNameTheCall<T, S, Nd>(getNodeType: MethodDesc -> Option<T>, findSubQueries: Expr -> Result<Expr>,
                                         createNode: (T, ParseInfo<S>, seq<Expr>) -> Instantiation<Nd>,
                                         buildString: Expr -> string, identifier: string, source: S,
                                         arguments: seq<Expr>, expressionToParse: MethodCallExpression)
    requires identifier != []
    requires forall t, info, ps :: !createNode(t, info, ps).Threw?
    ensures var r := Parse(getNodeType, findSubQueries, createNode, buildString, Some(identifier), Some(source),
                           Some(arguments), Some(expressionToParse));
      r.Err? ==>
        (&& r.error.NotSupported?
         && |r.error.message| >= |ParsingErrorPrefix + buildString(expressionToParse) + "': "|
         && r.error.message[..|ParsingErrorPrefix + buildString(expressionToParse) + "': "|]
              == ParsingErrorPrefix + buildString(expressionToParse) + "': ")
        || (exists i :: 0 <= i < |arguments| && ProcessArgumentExpression(findSubQueries, arguments[i]) == Err(r.error))
  {
    var p := ParsingErrorPrefix + buildString(expressionToParse) + "': ";
    var r := Parse(getNodeType, findSubQueries, createNode, buildString, Some(identifier), Some(source),
                   Some(arguments), Some(expressionToParse));
    if r.Err? {
      if getNodeType(expressionToParse.callee).Some? && ProcessArguments(findSubQueries, arguments).Err? {
        assert r == Err(ProcessArguments(findSubQueries, arguments).error);
      } else {
        var m := r.error.message;
        assert exists rest :: m == p + rest;
        var rest :| m == p + rest;
        assert m[..|p|] == p;
      }
    }
  }
}
