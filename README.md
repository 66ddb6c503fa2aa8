# ArangoDB .NET driver core, modelled in Dafny

This project models the sequential logic at the core of the ArangoDB .NET
driver (`Core.Arango`) and proves properties of that model. Three areas are
covered.

- **AQL formatting and request paths** (`ArangoModule`).
  - The bind-parameter table of a formatting pass interns `(value, kind)`
    pairs under `@P{n}` and `@@C{n}` names drawn from one shared counter.
  - The formatter picks the parameter kind from the format specifier.
  - `AddQueryString` inserts encoded `key=value` pairs before a uri's anchor.
  - `RealmPrefix`, `ApiPath` and `FoxxPath` build the `/_db/{db}/...`
    request paths.
- **Driver configuration** (`Configuration`).
  - The default naming rules: reserved attribute names, collection names
    and group-by names.
  - The batch size default.
  - The `ConnectionString` setter.
- **The LINQ-to-AQL query model pipeline**, a subset of re-linq.
  - The parser driver that applies the node chain from the root
    (`QueryParsing`).
  - The method-call parser with its argument unwrapping
    (`MethodCallParsing`).
  - The `Cast`, `Intersect` and `IgnoreModificationSelect` expression
    nodes (`IntermediateModel`).
  - The main-from, additional-from, group-join and traversal clauses with
    their validation, visiting and cloning (`FromClauses`, `Traversal`).
  - The `Count`, `Single`/`SingleOrDefault` and `Min` result operators
    (`ResultOperators`).
  - `StreamedSingleValueInfo` (`StreamedData`).
  - The query provider's queryable-type check and query-data retrieval
    (`QueryProvider`).
  - The analyzer-type wire names (`AnalyzerTypes`).

Code that changes objects in place is modelled as classes with `modifies`
clauses:
- the formatting context;
- the configuration object;
- the clauses and their setters;
- the clone context;
- the visitor;
- the modification clause whose `IgnoreSelect` flag a node sets.

The pure parts are functions over datatypes.

Library and collaborator behaviour that the core calls but does not define
is given to the model as function parameters:
- URL encoding;
- the node factory and each node's `Apply`;
- the source node's `Resolve`;
- sub-query finding;
- expression printing;
- the body-clause lookup (it may fail or find nothing);
- the executor (its failures are passed on);
- query-model generation;
- the driver's model visitor.

A .NET `null` is `None` for values and `null` for class references. A thrown
exception is an `Err`/`Fail` value carrying the exception kind, the parameter
name and the message.

## Model

| member | source | states |
|---|---|---|
| ArangoModule.ParamName | Core.Arango/Modules/Internal/ArangoModule.cs:154-158 | A new slot's name starts with `@`: `@P{n}` for a scalar, `@@C{n}` for a collection |
| ArangoModule.DecimalRoundTrip | Core.Arango/Modules/Internal/ArangoModule.cs:156-157 | The decimal text of the counter reads back as the counter, so a slot name carries its number exactly |
| ArangoModule.ParamNameInjective | Core.Arango/Modules/Internal/ArangoModule.cs:154-158 | Scalar and collection names never collide, and one kind never gives one name to two counter values |
| ArangoModule.SlotsKeys | Core.Arango/Modules/Internal/ArangoModule.cs:150-163 | The table holds exactly the pairs that were registered |
| ArangoModule.SlotsNames | Core.Arango/Modules/Internal/ArangoModule.cs:138-161 | Without repeats there is one slot per registration, each numbered within the count, and no two slots share a name |
| ArangoModule.QueryFormattingContext.constructor | Core.Arango/Modules/Internal/ArangoModule.cs:138-140 | A new context has an empty table and counter 0 and satisfies the table invariant |
| ArangoModule.QueryFormattingContext.CounterAndNames | Core.Arango/Modules/Internal/ArangoModule.cs:138-161 | Invariant: the counter equals the number of entries, distinct pairs have distinct names, and every name is `@P{n}` or `@@C{n}` by kind with `n` between 1 and the counter |
| ArangoModule.QueryFormattingContext.Register | Core.Arango/Modules/Internal/ArangoModule.cs:150-163 | A pair already present returns its stored name and changes neither the table nor the counter; a new pair increments the shared counter and gets the name of its kind numbered by it, and the invariant is kept |
| ArangoModule.QueryFormattingContext.TailsDistinct | Core.Arango/Modules/Internal/ArangoModule.cs:146-147 | Dropping the leading `@` keeps all names distinct, so the parameter dictionary loses no entry |
| ArangoModule.QueryFormattingContext.Parameters | Core.Arango/Modules/Internal/ArangoModule.cs:146-147 | Each slot's name minus its first character maps to the registered value, and the dictionary holds no other key |
| ArangoModule.InterningExample | Core.Arango/Modules/Internal/ArangoModule.cs:150-163 | A value registered as a scalar twice and then as a collection gets `@P1`, `@P1` and `@@C2` |
| ArangoModule.FormatKind | Core.Arango/Modules/Internal/ArangoModule.cs:175-181 | No format selects a scalar, `C`/`c`/`@` select a collection, and any other format is a format error naming it |
| ArangoModule.AqlQueryFormatter.constructor | Core.Arango/Modules/Internal/ArangoModule.cs:169 | A formatter owns a fresh, empty formatting context |
| ArangoModule.AqlQueryFormatter.Format | Core.Arango/Modules/Internal/ArangoModule.cs:171-192 | An unsupported format fails and changes nothing; otherwise the argument is registered under the selected kind and its slot name is returned |
| ArangoModule.FormatSegment | Core.Arango/Modules/Internal/ArangoModule.cs:124 | Literal text is copied; a hole adds at most its own slot, keeps every earlier slot and is written as its slot name |
| ArangoModule.HoleKeysMembers | Core.Arango/Modules/Internal/ArangoModule.cs:121-128 | A pair is among the holes of a string iff some hole has that argument and the kind its format selects |
| ArangoModule.Parameterize | Core.Arango/Modules/Internal/ArangoModule.cs:121-128 | It succeeds iff every format is supported. The text is the string with each hole written as its slot name. There is one slot per distinct hole pair, with distinct names, each `@P{n}` or `@@C{n}` by kind with `n` between 1 and the number of slots, and the bind parameters map each name without `@` to its value |
| ArangoModule.IndexOf | Core.Arango/Modules/Internal/ArangoModule.cs:94 | The first position of the character, or -1 exactly when it is absent |
| ArangoModule.AddQueryString | Core.Arango/Modules/Internal/ArangoModule.cs:88-119 | The result is the part before the first `#`, then each pair in order as separator, encoded key, `=`, encoded value (the first separator `?` unless that part already has one, the rest `&`), then the anchor |
| ArangoModule.AddQueryStringParts | Core.Arango/Modules/Internal/ArangoModule.cs:94-102 | The split at the first `#` that the loop starts from is the one the closed-form result `AddQueryStringSpec` uses |
| ArangoModule.QueryPartSnoc | Core.Arango/Modules/Internal/ArangoModule.cs:108-115 | One more pair appends exactly one `separator key=value` piece |
| ArangoModule.AddNoPairs | Core.Arango/Modules/Internal/ArangoModule.cs:88-119 | With no pairs the uri comes back unchanged |
| ArangoModule.AnchorSplit | Core.Arango/Modules/Internal/ArangoModule.cs:94-102 | A uri is its part before the anchor followed by its anchor, which is empty or starts at the first `#` |
| ArangoModule.QueryPartHasNoAnchor | Core.Arango/Modules/Internal/ArangoModule.cs:108-115 | The appended pairs contain no `#` when the encoder never produces one |
| ArangoModule.SpecSplit | Core.Arango/Modules/Internal/ArangoModule.cs:94-118 | The result's own anchor is the original anchor, and its part before the anchor is the original part plus the pairs |
| ArangoModule.AddQueryStringTwice | Core.Arango/Modules/Internal/ArangoModule.cs:88-119 | Adding two pair lists one after the other equals adding their concatenation once |
| ArangoModule.RealmPrefix | Core.Arango/Modules/Internal/ArangoModule.cs:24-34 | `_system` is kept; another name is encoded, prefixed with `realm-` unless the realm is blank |
| ArangoModule.ApiPath | Core.Arango/Modules/Internal/ArangoModule.cs:37-45 | `/_db/{RealmPrefix}/_api/{path}`, with the query string added only for a non-null, non-empty dictionary |
| ArangoModule.FoxxPath | Core.Arango/Modules/Internal/ArangoModule.cs:48-56 | `/_db/{RealmPrefix}{path}`, with the query string added only for a non-null, non-empty dictionary |
| ArangoModule.ServerApiPath | Core.Arango/Modules/Internal/ArangoModule.cs:59 | The path is `/_api/` followed by the given path |
| Configuration.ResolveProperty | Core.Arango/ArangoConfiguration.cs:38-50 | A name is either kept or rewritten to a system attribute name starting with `_` |
| Configuration.ResolvePropertyTable | Core.Arango/ArangoConfiguration.cs:38-50 | `Key`, `Id`, `Revision`, `From` and `To` become `_key`, `_id`, `_rev`, `_from` and `_to`; a name changes iff it is one of these |
| Configuration.ResolvePropertyIgnoresType | Core.Arango/ArangoConfiguration.cs:38-50 | The declaring type never affects the resolved name |
| Configuration.ResolvePropertyIdempotent | Core.Arango/ArangoConfiguration.cs:38-50 | Resolving a resolved name changes nothing |
| Configuration.ResolveCollection | Core.Arango/ArangoConfiguration.cs:29-37 | The collection attribute's name when the type has the attribute, else the type's name |
| Configuration.ResolveGroupBy | Core.Arango/ArangoConfiguration.cs:51 | Group-by names are kept as written |
| Configuration.SplitAndRemoveEmptyEntries | Core.Arango/ArangoConfiguration.cs:85 | Every part is non-empty and free of the separator |
| Configuration.SplitKeepsText | Core.Arango/ArangoConfiguration.cs:85 | The parts concatenate to the input with the separators removed |
| Configuration.SplitJoin | Core.Arango/ArangoConfiguration.cs:85 | Splitting the comma-joined list of non-empty, comma-free entries gives that list back |
| Configuration.Lookup | Core.Arango/ArangoConfiguration.cs:62-68 | A key read gives its value exactly when the key is present |
| Configuration.UserOf | Core.Arango/ArangoConfiguration.cs:71 | The user comes from `User` when present, else from `User ID` |
| Configuration.EndpointsAsWritten | Core.Arango/ArangoConfiguration.cs:67-85 | As written, the endpoints are set iff `AllowDirtyRead` is present, and are its value split on `,` |
| Configuration.EndpointsKeyIgnored | Core.Arango/ArangoConfiguration.cs:67-85 | An `Endpoints` entry alone gives no endpoints, and `AllowDirtyRead=true` gives the endpoint list `["true"]` |
| Configuration.IntendedEndpoints | Core.Arango/ArangoConfiguration.cs:67-85 | Corrected: the endpoints are set iff `Endpoints` is present, and are its value split on `,` |
| Configuration.IntendedEndpointsRoundTrip | Core.Arango/ArangoConfiguration.cs:85 | Corrected: a comma-joined endpoint list in `Endpoints` reads back as that list |
| Configuration.ArangoConfiguration.constructor | Core.Arango/ArangoConfiguration.cs:24-52 | Batch size 500; the property, collection and group-by rules are the defaults above; nothing else is set |
| Configuration.ArangoConfiguration.SetConnectionString | Core.Arango/ArangoConfiguration.cs:55-89 | The raw string is always stored. A blank `Server` fails with "Server invalid" and changes nothing else. Otherwise server, realm, user and password are replaced, and the endpoints are read from `Endpoints` (the corrected reading; see Findings). Dirty reads are turned on by a case-insensitive `true` and never turned off |
| QueryParsing.Nodes | Core.Arango/Relinq/Parsing/Structure/QueryParser.cs:123-130 | The chain read from the root ends with the terminal node |
| QueryParsing.ApplyAllNodes | Core.Arango/Relinq/Parsing/Structure/QueryParser.cs:123-130 | The root node's `Apply` gets a null model; a failure of the source chain is the result, and a success needs the source chain to succeed |
| QueryParsing.ApplyAllNodesInOrder | Core.Arango/Relinq/Parsing/Structure/QueryParser.cs:123-130 | The recursive application equals a left-to-right fold over the nodes from the root, starting from a null model |
| QueryParsing.ApplyInOrderSnoc | Core.Arango/Relinq/Parsing/Structure/QueryParser.cs:125-129 | The node after a successful prefix is applied to the prefix's model, and a failure of the prefix is the result |
| QueryParsing.CallsThreadTheModel | Core.Arango/Relinq/Parsing/Structure/QueryParser.cs:123-130 | In a successful run every node is applied once, in order. The root gets a null model, each other node gets the model its source returned, and the result is the terminal node's model |
| QueryParsing.FailureStops | Core.Arango/Relinq/Parsing/Structure/QueryParser.cs:127-129 | A failing source ends the application: no later node is called and its error is the result |
| QueryParsing.ClauseGenerationContext.constructor | Core.Arango/Relinq/Parsing/Structure/QueryParser.cs:81 | The context carries the parser's node type provider |
| QueryParsing.GetParsedQuery | Core.Arango/Relinq/Parsing/Structure/QueryParser.cs:76-85 | A null tree is rejected; a failure of the tree parser is passed on before any context exists; otherwise one fresh context is created and the parsed chain is applied with it |
| MethodCallParsing.ParsingError | Core.Arango/Relinq/Parsing/Structure/MethodCallExpressionParser.cs:113-119 | A not-supported error whose message is "Could not parse expression '<expr>': " followed by the original message |
| MethodCallParsing.GetNodeType | Core.Arango/Relinq/Parsing/Structure/MethodCallExpressionParser.cs:59-69 | A registered method gives its node type; an unregistered one is reported as an unsupported overload naming the declaring type and the method |
| MethodCallParsing.UnwrapArgumentExpression | Core.Arango/Relinq/Parsing/Structure/MethodCallExpressionParser.cs:83-97 | A quote becomes its operand, a constant holding a lambda becomes the lambda, and anything else is kept |
| MethodCallParsing.UnwrapChangesOnlyWrappers | Core.Arango/Relinq/Parsing/Structure/MethodCallExpressionParser.cs:91-96 | Unwrapping changes an argument iff it is one of the two wrappers, and then yields a strictly smaller expression |
| MethodCallParsing.ProcessArguments | Core.Arango/Relinq/Parsing/Structure/MethodCallExpressionParser.cs:71-80 | Succeeds iff every argument's sub-query search succeeds, then with the same count and order, each argument unwrapped and searched; otherwise the failure of the first argument, in argument order, whose search fails |
| MethodCallParsing.ProcessArgumentsAppend | Core.Arango/Relinq/Parsing/Structure/MethodCallExpressionParser.cs:53 | Processing a split list is processing the first part and, if that succeeds, the second: arguments are processed one by one, left to right |
| MethodCallParsing.CreateExpressionNode | Core.Arango/Relinq/Parsing/Structure/MethodCallExpressionParser.cs:99-111 | A created node is returned; an instantiation failure becomes a parsing error with the factory's message; other errors pass through |
| MethodCallParsing.Parse | Core.Arango/Relinq/Parsing/Structure/MethodCallExpressionParser.cs:43-57 | A null or empty identifier is rejected. A failed argument processing after a successful lookup is the result. A parsed node is the factory's node for the looked-up type, the parse info and the processed arguments |
| MethodCallParsing.UnsupportedOverload | Core.Arango/Relinq/Parsing/Structure/MethodCallExpressionParser.cs:59-69 | The message names the declaring type's full name and the method name, joined by a dot, between the fixed opening and closing text |
| MethodCallParsing.UnsupportedMethodReported | Core.Arango/Relinq/Parsing/Structure/MethodCallExpressionParser.cs:52-53 | The lookup comes before argument processing: an unregistered method is reported whatever the arguments and the factory |
| MethodCallParsing.ParseErrorsNameTheCall | Core.Arango/Relinq/Parsing/Structure/MethodCallExpressionParser.cs:99-119 | When the factory throws nothing else, every failure after the argument checks is a not-supported error naming the call or the failure of one argument's sub-query search |
| Expressions.ReplaceAbsent | Core.Arango/Relinq/Parsing/Structure/IntermediateModel/CastExpressionNode.cs:61-62 | Replacing an expression that does not occur changes nothing |
| Expressions.WrapLeavesNoBare | Core.Arango/Relinq/Parsing/Structure/IntermediateModel/CastExpressionNode.cs:60-62 | After wrapping, no occurrence of the parameter is left outside a conversion to the cast type |
| Expressions.WrapThenUnwrap | Core.Arango/Relinq/Parsing/Structure/IntermediateModel/CastExpressionNode.cs:60-62 | Undoing the conversion gives the original expression back, when it held no such conversion already |
| IntermediateModel.ResolveThroughSource | Core.Arango/Linq/Query/Clause/IgnoreModificationSelectExpressionNode.cs:20-27 | A null parameter or expression is rejected, in that order; otherwise the source node resolves the expression |
| IntermediateModel.NewCastExpressionNode | Core.Arango/Relinq/Parsing/Structure/IntermediateModel/CastExpressionNode.cs:38-44 | A node is built iff the method is generic with exactly one generic argument; otherwise the argument error on `parseInfo` |
| IntermediateModel.CastItemType | Core.Arango/Relinq/Parsing/Structure/IntermediateModel/CastExpressionNode.cs:46 | The cast item type is the method's single generic argument |
| IntermediateModel.CastResolve | Core.Arango/Relinq/Parsing/Structure/IntermediateModel/CastExpressionNode.cs:53-64 | A null parameter or expression is rejected, in that order |
| IntermediateModel.CastResolveConvertsParameter | Core.Arango/Relinq/Parsing/Structure/IntermediateModel/CastExpressionNode.cs:60-63 | The source node receives an expression in which every bare use of the parameter is converted to the cast type, and nothing else is changed |
| IntermediateModel.CastResolveKeepsLookalike | Core.Arango/Relinq/Parsing/Structure/IntermediateModel/CastExpressionNode.cs:60-63 | Parameters are matched by identity: a different parameter with the same name and type is not converted |
| IntermediateModel.CastResolveWithoutParameter | Core.Arango/Relinq/Parsing/Structure/IntermediateModel/CastExpressionNode.cs:60-63 | When the parameter does not occur, a cast resolves as a pass-through node does |
| IntermediateModel.CastCreateResultOperator | Core.Arango/Relinq/Parsing/Structure/IntermediateModel/CastExpressionNode.cs:66-70 | A cast operator carrying the method's single generic argument |
| IntermediateModel.CastSupports | Core.Arango/Relinq/Parsing/Structure/IntermediateModel/CastExpressionNode.cs:48-51 | Only methods named `Cast` declared by `Enumerable` or `Queryable` are claimed |
| IntermediateModel.IntersectSupports | Core.Arango/Relinq/Parsing/Structure/IntermediateModel/IntersectExpressionNode.cs:50-54 | Only methods named `Intersect` declared by `Enumerable` or `Queryable` and taking no equality comparer are claimed |
| IntermediateModel.IgnoreModificationSelectSupports | Core.Arango/Linq/Query/Clause/IgnoreModificationSelectExpressionNode.cs:10-13 | Only `ArangoQueryableExtensions.IgnoreModificationSelect` is claimed |
| IntermediateModel.SupportedMethodsDisjoint | Core.Arango/Relinq/Parsing/Structure/IntermediateModel/CastExpressionNode.cs:48-51 | `Cast`, comparer-free `Intersect` and `IgnoreModificationSelect` claim disjoint method sets |
| IntermediateModel.NewIntersectExpressionNode | Core.Arango/Relinq/Parsing/Structure/IntermediateModel/IntersectExpressionNode.cs:41-46 | A node is built iff the second source is non-null, and it keeps that source |
| IntermediateModel.IntersectResolve | Core.Arango/Relinq/Parsing/Structure/IntermediateModel/IntersectExpressionNode.cs:56-64 | The expression goes to the source node unchanged, after the null checks |
| IntermediateModel.IntersectCreateResultOperator | Core.Arango/Relinq/Parsing/Structure/IntermediateModel/IntersectExpressionNode.cs:66-69 | An intersect operator carrying the second source |
| IntermediateModel.IntersectOperatorCarriesSource2 | Core.Arango/Relinq/Parsing/Structure/IntermediateModel/IntersectExpressionNode.cs:66-69 | Two nodes give the same operator iff they have the same second source |
| IntermediateModel.IgnoreModificationSelectResolve | Core.Arango/Linq/Query/Clause/IgnoreModificationSelectExpressionNode.cs:20-27 | The expression goes to the source node unchanged, after the null checks |
| IntermediateModel.TargetClause | Core.Arango/Linq/Query/Clause/IgnoreModificationSelectExpressionNode.cs:34 | There is a target clause iff there is a query model and the lookup succeeds with a non-null clause, and then it is the clause the lookup returned |
| IntermediateModel.ApplyNodeSpecificSemantics | Core.Arango/Linq/Query/Clause/IgnoreModificationSelectExpressionNode.cs:29-36 | A null model is rejected, a failing lookup's error is passed on, and a null result of the lookup is dereferenced, which throws. Otherwise the found clause's `IgnoreSelect` is true afterwards, which makes repeated application idempotent, and only that flag may change |
| FromClauses.FromClauseArgumentError | Core.Arango/Relinq/Clauses/MainFromClause.cs:46-51 | The first failing check, in order: null name, empty name, null type, null from-expression |
| FromClauses.MainFromClause.Create | Core.Arango/Relinq/Clauses/MainFromClause.cs:46-52 | A clause is built iff all checks pass, with the given name, type and expression |
| FromClauses.MainFromClause.Accept | Core.Arango/Relinq/Clauses/MainFromClause.cs:59-65 | After the null checks the visitor receives exactly one `VisitMainFromClause(this, queryModel)` call |
| FromClauses.MainFromClause.Clone | Core.Arango/Relinq/Clauses/MainFromClause.cs:72-79 | A fresh clause with the same name, type and expression; the clone context records original → reference to the clone |
| FromClauses.AdditionalFromClause.Create | Core.Arango/Relinq/Clauses/AdditionalFromClause.cs:45-51 | A clause is built iff all checks pass, with the given name, type and expression |
| FromClauses.AdditionalFromClause.Accept | Core.Arango/Relinq/Clauses/AdditionalFromClause.cs:62-68 | After the null checks the visitor receives exactly one `VisitAdditionalFromClause` call with the same index |
| FromClauses.AdditionalFromClause.Clone | Core.Arango/Relinq/Clauses/AdditionalFromClause.cs:80-87 | A fresh clause with the same name and type sharing the same expression; the clone context records original → reference to the clone |
| FromClauses.GroupJoinArgumentError | Core.Arango/Relinq/Clauses/GroupJoinClause.cs:59-68 | The first failing check, in order: name null or empty, type null, join clause null, type not a closed generic `IEnumerable` |
| FromClauses.GroupJoinClause.Create | Core.Arango/Relinq/Clauses/GroupJoinClause.cs:59-68 | A clause is built iff all checks pass, holding the given name, type and join clause |
| FromClauses.GroupJoinClause.SetJoinClause | Core.Arango/Relinq/Clauses/GroupJoinClause.cs:78-82 | A null join clause is rejected and changes nothing; otherwise it is stored |
| FromClauses.GroupJoinClause.SetItemName | Core.Arango/Relinq/Clauses/GroupJoinClause.cs:133-137 | A null name is rejected and changes nothing; any other name, the empty one included, is stored |
| FromClauses.GroupJoinClause.SetItemType | Core.Arango/Relinq/Clauses/GroupJoinClause.cs:148-158 | A null type or one that is not a closed generic `IEnumerable` is rejected and changes nothing; otherwise it is stored |
| FromClauses.GroupJoinClause.TransformExpressions | Core.Arango/Relinq/Clauses/GroupJoinClause.cs:92-96 | A null transformation is rejected; otherwise only the inner join clause's expressions are transformed |
| FromClauses.GroupJoinClause.Accept | Core.Arango/Relinq/Clauses/GroupJoinClause.cs:107-113 | After the null checks the visitor receives exactly one `VisitGroupJoinClause` call with the same index |
| FromClauses.GroupJoinClause.Clone | Core.Arango/Relinq/Clauses/GroupJoinClause.cs:165-172 | The join clause is cloned in the same context first, into a fresh join with the same item name, item type and expressions, and its mapping is recorded. If the constructor then rejects the item name or type, that error is the result and only the join's mapping was added; otherwise the result is a fresh clause with the same name and type holding that clone, and both mappings are recorded, the join's first |
| FromClauses.GroupJoinClause.ToString | Core.Arango/Relinq/Clauses/GroupJoinClause.cs:174-177 | `{join} into {type name} {item name}` |
| Traversal.TraversalClause.NewWalk | Core.Arango/Linq/Query/Clause/TraversalClause.cs:12-21 | A null start vertex or identifier is rejected. A walk has no target, no depth bounds, direction, graph name or options, and no edge collections |
| Traversal.TraversalClause.NewShortestPath | Core.Arango/Linq/Query/Clause/TraversalClause.cs:23-29 | The walk's checks come first, then a null target is rejected; a shortest path keeps the target and is otherwise unconfigured |
| Traversal.TraversalClause.Accept | Core.Arango/Linq/Query/Clause/TraversalClause.cs:31-42 | After the null checks a foreign visitor is refused; the driver's visitor receives exactly one `VisitTraversalClause` call with the same index |
| Traversal.TraversalClause.TransformExpressions | Core.Arango/Linq/Query/Clause/TraversalClause.cs:49-55 | The start vertex is always transformed, the target only when present, and nothing else changes |
| Traversal.TraversalClause.Clone | Core.Arango/Linq/Query/Clause/TraversalClause.cs:75-81 | A fresh walk with only the start vertex and identifier carried over, and nothing recorded in the clone context |
| ResultOperators.Count | Core.Arango/Relinq/Clauses/ResultOperators/CountResultOperator.cs:50-55 | The number of items, or an overflow error when it exceeds `int.MaxValue` |
| ResultOperators.CountAppend | Core.Arango/Relinq/Clauses/ResultOperators/CountResultOperator.cs:53 | The count of two concatenated sequences is the sum of their counts |
| ResultOperators.CountOutputDataInfo | Core.Arango/Relinq/Clauses/ResultOperators/CountResultOperator.cs:57-68 | Null or non-sequence input info is rejected, in that order; otherwise the output is a scalar `Int32` info |
| ResultOperators.ExecuteCount | Core.Arango/Relinq/Clauses/ResultOperators/CountResultOperator.cs:50-55 | The streamed value is the count with a scalar `Int32` info |
| ResultOperators.CountIgnoresItems | Core.Arango/Relinq/Clauses/ResultOperators/CountResultOperator.cs:65-68 | The result depends only on the length, not on the items or their type |
| ResultOperators.Single | Core.Arango/Relinq/Clauses/ResultOperators/SingleResultOperator.cs:55 | One item gives that item. No items give the default when the flag is set and otherwise fail. More than one item fails |
| ResultOperators.SingleResultOrigin | Core.Arango/Relinq/Clauses/ResultOperators/SingleResultOperator.cs:55 | A result is the sole item or the default for an empty input, and the flag matters only for an empty input |
| ResultOperators.ExecuteSingle | Core.Arango/Relinq/Clauses/ResultOperators/SingleResultOperator.cs:52-57 | The streamed value is `Single` or `SingleOrDefault` by the operator's flag, with the output info of the input |
| ResultOperators.ReturnDefaultWhenEmpty | Core.Arango/Relinq/Clauses/ResultOperators/MinResultOperator.cs:46-49 | `Min` never returns a default; `Single` has the flag it was built with |
| ResultOperators.Clone | Core.Arango/Relinq/Clauses/ResultOperators/SingleResultOperator.cs:47-50 | A clone has the same operator kind and, for `Single`, the same flag |
| ResultOperators.TransformExpressions | Core.Arango/Relinq/Clauses/ResultOperators/CountResultOperator.cs:71-74 | These operators hold no expressions: the transformation changes nothing |
| ResultOperators.ToString | Core.Arango/Relinq/Clauses/ResultOperators/SingleResultOperator.cs:65-70 | Each operator prints as a call, ending in `()` |
| ResultOperators.ToStringDistinguishes | Core.Arango/Relinq/Clauses/ResultOperators/SingleResultOperator.cs:65-70 | Two operators print alike iff they are equal (so `Single()` and `SingleOrDefault()` differ), and a clone prints as its original |
| ResultOperators.Min | Core.Arango/Relinq/Clauses/ResultOperators/MinResultOperator.cs:59 | The minimum of a non-empty sequence is one of its items |
| ResultOperators.MinIsLeast | Core.Arango/Relinq/Clauses/ResultOperators/MinResultOperator.cs:56-61 | Under a strict weak order no item is less than the minimum |
| ResultOperators.MinIsFirstLeast | Core.Arango/Relinq/Clauses/ResultOperators/MinResultOperator.cs:59 | The minimum is at a position where every earlier item is strictly greater: ties resolve to the first least item |
| ResultOperators.ExecuteMin | Core.Arango/Relinq/Clauses/ResultOperators/MinResultOperator.cs:56-61 | An empty input fails; otherwise the streamed value is the minimum `Min` of the input, with the output info of the input |
| ResultOperators.ExecuteMinYieldsLeast | Core.Arango/Relinq/Clauses/ResultOperators/MinResultOperator.cs:56-61 | Under a strict order the operator succeeds on a non-empty input with a value no item is less than, and it is the first such least item |
| StreamedData.BoolHash | Core.Arango/Relinq/Clauses/StreamedData/StreamedSingleValueInfo.cs:80 | `true` hashes to 1 and `false` to 0 |
| StreamedData.CloneWithNewDataType | Core.Arango/Relinq/Clauses/StreamedData/StreamedSingleValueInfo.cs:60-63 | A single-value info with the new data type and the same flag |
| StreamedData.CloneWithNewDataTypeLaws | Core.Arango/Relinq/Clauses/StreamedData/StreamedSingleValueInfo.cs:60-63 | Cloning twice equals cloning once with the last type, and cloning with the own type changes nothing |
| StreamedData.SingleValueEquals | Core.Arango/Relinq/Clauses/StreamedData/StreamedSingleValueInfo.cs:73-76 | Equal iff base-equal, the other is a single-value info and the flags agree; base-equal to null is a null reference error, to a different kind an invalid cast |
| StreamedData.SingleValueHash | Core.Arango/Relinq/Clauses/StreamedData/StreamedSingleValueInfo.cs:78-81 | The base hash with its lowest bit XORed with the flag's hash |
| StreamedData.EqualInfosHashAlike | Core.Arango/Relinq/Clauses/StreamedData/StreamedSingleValueInfo.cs:73-81 | Equal infos have equal hashes, given that the base hash agrees with base equality |
| StreamedData.FlagShowsInHash | Core.Arango/Relinq/Clauses/StreamedData/StreamedSingleValueInfo.cs:78-81 | Infos differing only in the flag have hashes differing in exactly the lowest bit |
| StreamedData.ExecuteSingleQueryModel | Core.Arango/Relinq/Clauses/StreamedData/StreamedSingleValueInfo.cs:65-71 | A null model or executor is rejected, in that order; otherwise the executor's single result for the model and the unchanged flag, its failure included; success iff the executor succeeds |
| StreamedData.ExecuteQueryModel | Core.Arango/Relinq/Clauses/StreamedData/StreamedSingleValueInfo.cs:46-58 | The single result, or its error, streamed with this info |
| StreamedData.ExecutionFailurePropagates | Core.Arango/Relinq/Clauses/StreamedData/StreamedSingleValueInfo.cs:46-58 | An executor failure is never masked: the streamed result is that failure |
| QueryProvider.NotGenericDefinitionMessage | Core.Arango/Linq/Query/ArangoQueryProvider.cs:42-47 | The message is the fixed text followed by the type's `ToString()` text and `'.` |
| QueryProvider.NotGenericDefinitionMessageNamesType | Core.Arango/Linq/Query/ArangoQueryProvider.cs:42-47 | Two types get the same message iff their `ToString()` texts agree |
| QueryProvider.WrongArityMessage | Core.Arango/Linq/Query/ArangoQueryProvider.cs:50-58 | The message is the fixed text, the parameter count in decimal, and ends with the type's `ToString()` text and a dot |
| QueryProvider.CheckQueryableType | Core.Arango/Linq/Query/ArangoQueryProvider.cs:37-59 | Accepted iff the type implements `IQueryable`, is a generic type definition and has one type parameter; each failure has its own error, in that order |
| QueryProvider.WrongArityMessageShowsCount | Core.Arango/Linq/Query/ArangoQueryProvider.cs:50-58 | The arity message names the count: different counts give different messages |
| QueryProvider.ArangoQueryProvider.Create | Core.Arango/Linq/Query/ArangoQueryProvider.cs:19-28 | A null parser, executor or type is rejected, in that order, then the type check's error. An accepted provider stores the type unchanged |
| QueryProvider.ArangoQueryProvider.GetQueryData | Core.Arango/Linq/Query/ArangoQueryProvider.cs:78-90 | A null expression is rejected; a failure of the model generation, then of the visitor, is passed on; it succeeds iff neither fails, with the visitor's bind variables and the query set to the visitor's text |
| AnalyzerTypes.WireName | Core.Arango/Protocol/ArangoAnalyzerType.cs:18-84 | Every wire name is a non-empty string of lower-case ASCII letters |
| AnalyzerTypes.ParseWireName | Core.Arango/Protocol/ArangoAnalyzerType.cs:18-84 | Every wire name reads back as its analyzer type |
| AnalyzerTypes.WireNameOfParse | Core.Arango/Protocol/ArangoAnalyzerType.cs:18-84 | Only wire names read back, each as the type written that way |
| AnalyzerTypes.WireNamesDistinct | Core.Arango/Protocol/ArangoAnalyzerType.cs:18-84 | The 13 wire names are pairwise distinct |
| AnalyzerTypes.WireNameIsLowerMemberName | Core.Arango/Protocol/ArangoAnalyzerType.cs:18-84 | Each wire name is the member name in lower case |

## Left out

- ArangoModule.QueryFormattingContext.Register: the counter is an unbounded `nat`; the source's `int` counter would wrap after 2^31 - 1 registrations, which is not modelled.
- ArangoModule.AqlQueryFormatter.Format: the nested `FormattableString` and `IArangoFormattable` arguments, which format recursively through the same context, are not modelled; every argument is a plain value.
- ArangoModule.AddQueryString: the null-argument checks are not modelled; the uri and the pairs are always present, and `UrlEncoder.Default.Encode` is a parameter. Every key and value is a non-null string here; a null value, which callers can pass, would make `Encode` throw an argument-null error, and that is not modelled.
- Configuration.ArangoConfiguration.SetConnectionString: `DbConnectionStringBuilder` parsing is a given key-to-value map. Its key lookup is case-insensitive in .NET and exact here. The case-insensitive `true` test folds ASCII letters only. The endpoints follow the corrected reading of the `Endpoints` key (see Findings), not the code as written.
- Configuration.SplitAndRemoveEmptyEntries: the string extension of that name is not part of this model. It is assumed to split on the separator and drop empty parts without trimming them, as `string.Split` with `StringSplitOptions.RemoveEmptyEntries` does; the endpoint members rest on that reading.
- Configuration.ArangoConfiguration.constructor: the serializer, transport and timeout settings are not modelled.
- `MethodCallExpressionParser`'s constructor null check on the node type provider is not modelled; the lookup is a parameter.
- `JoinClause.cs` is not part of this model. `FromClauses.JoinClause` assumes re-linq's shape: five fields, an in-place `TransformExpressions`, and a `Clone` that registers the copy.
- The argument checks of the shared base classes (`FromClauseBase`, `ResultOperatorExpressionNodeBase`, `ChoiceResultOperatorBase`) are not part of this model. Each clause states its own checks.
- The output data info of `Single` and `Min` comes from `ChoiceResultOperatorBase`, which is not part of this model; it is a parameter.
- FromClauses.GroupJoinClause.TransformExpressions and Traversal.TraversalClause.TransformExpressions: a transformation that returns null is not modelled; transformations are total functions on expressions.
- Traversal.TraversalClause: the property setters for depth bounds, direction, graph name, options and edge collections are not modelled; the identifier and start vertex stay non-null after construction.
- ResultOperators.ExecuteMin: models `Enumerable.Min` for a non-nullable value type only. For an empty input it always fails with an invalid operation. For a reference or nullable item type, `Enumerable.Min` skips null items and returns null for an empty input; neither is modelled.
- ResultOperators.MinIsLeast and ResultOperators.MinIsFirstLeast assume the comparison is a strict weak order.
- ResultOperators.Clone: result operators are values, so a clone's object identity is not modelled.
- StreamedData.SingleValueEquals and StreamedData.SingleValueHash: `StreamedValueInfo`'s own `Equals` and `GetHashCode` are parameters.
- `ArangoQueryProvider.CreateQuery` builds a queryable by reflection (`Activator.CreateInstance`) and is not modelled. Neither is the HTTP transport.
- The expression tree parser, the sub-query search, the body-clause lookup, the executor and the model visitor are parameters that may fail. What they compute is not part of this model.
- Expressions.Expr: expression nodes are compared by value except parameters, whose `id` stands for object identity. Two structurally equal non-parameter nodes are treated as the same node, although .NET would compare them by reference. Only the parameter is ever searched for in this model.
- The model visitor and `QuerySourceMapping` record the calls made on them; what they do with those calls is not part of this model.

## Findings

| source | as written | input that shows it | evidently intended | confidence | as-written member | corrected member |
|---|---|---|---|---|---|---|
| Core.Arango/ArangoConfiguration.cs:68 | The `Endpoints` value is read into a local that is never used, and `Endpoints` is filled from the `AllowDirtyRead` value. | The settings `Server=http://db:8529;Endpoints=a,b` leave `Endpoints` null. The settings `Server=http://db:8529;AllowDirtyRead=true` set it to `["true"]`. | `Endpoints` is the `Endpoints` value split on `,` with empty entries removed. | not executed | Configuration.EndpointsAsWritten | Configuration.IntendedEndpoints |

`Configuration.EndpointsKeyIgnored` exhibits the discrepancy.
`Configuration.IntendedEndpointsRoundTrip` proves that the intended reading
gives a joined endpoint list back. `Configuration.ArangoConfiguration.SetConnectionString`
uses the intended reading.
