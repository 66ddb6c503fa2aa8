/** `QueryParser`: turns an expression tree into a chain of expression
    nodes and lets each node, from the innermost query source outwards, build
    up the query model. */
module QueryParsing {
  import opened Common

  /** A chain of expression nodes as `ExpressionTreeParser.ParseTree` returns
      it: the outermost (terminal) node first, each node pointing at its
      `Source`; the innermost node has no source. */
  datatype NodeChain<N> = Root(node: N) | Link(source: NodeChain<N>, node: N)

  /** `ClauseGenerationContext`: built once per parse from the node type
      provider and handed to every node. What the nodes record in it belongs
      to the nodes and is not modelled. */
  class ClauseGenerationContext<P> {
    const nodeTypeProvider: P

    constructor (provider: P)
      ensures nodeTypeProvider == provider
    {
      nodeTypeProvider := provider;
    }
  }

  /** The nodes of the chain in application order: root first, terminal last. */
  function Nodes<N>(chain: NodeChain<N>): (nodes: seq<N>)
    ensures |nodes| > 0 && nodes[|nodes| - 1] == chain.node
  {
    match chain
    case Root(n) => [n]
    case Link(s, n) => Nodes(s) + [n]
  }

  /** `ApplyAllNodes`: the source chain is applied first (the root gets a
      null model), then this node's `Apply` gets the model its source
      returned. An exception from any `Apply` ends the parse: a failure of
      the source chain is the result, and a success needs the source chain
      to succeed. */
  function ApplyAllNodes<N, M, C>(chain: NodeChain<N>, context: C, apply: (N, Option<M>, C) -> Result<M>): (r: Result<M>)
    ensures chain.Root? ==> r == apply(chain.node, None, context)
    ensures chain.Link? && ApplyAllNodes(chain.source, context, apply).Err? ==> r == ApplyAllNodes(chain.source, context, apply)
    ensures chain.Link? && r.Ok? ==> ApplyAllNodes(chain.source, context, apply).Ok?
  {
    match chain
    case Root(n) => apply(n, None, context)
    case Link(s, n) =>
      match ApplyAllNodes(s, context, apply)
      case Err(e) => Err(e)
      case Ok(model) => apply(n, Some(model), context)
  }

  /** A reference reading: apply a list of nodes left to right, threading
      the model, starting from `model`. */
  function ApplyInOrder<N, M, C>(nodes: seq<N>, model: Option<M>, context: C, apply: (N, Option<M>, C) -> Result<M>): Result<M>
    requires |nodes| > 0
    decreases |nodes|
  {
    match apply(nodes[0], model, context)
    case Err(e) => Err(e)
    case Ok(next) => if |nodes| == 1 then Ok(next) else ApplyInOrder(nodes[1..], Some(next), context, apply)
  }

  lemma {:induction false} ApplyInOrderSnoc<N, M, C>(nodes: seq<N>, n: N, model: Option<M>, context: C, apply: (N, Option<M>, C) -> Result<M>)
    requires |nodes| > 0
    ensures ApplyInOrder(nodes + [n], model, context, apply)
         == match ApplyInOrder(nodes, model, context, apply)
            case Err(e) => Err(e)
            case Ok(m) => apply(n, Some(m), context)
    decreases |nodes|
  {
    var all := nodes + [n];
    assert all[0] == nodes[0];
    if |nodes| > 1 {
      assert all[1..] == nodes[1..] + [n];
      match apply(nodes[0], model, context)
      case Err(_) =>
      case Ok(next) => ApplyInOrderSnoc(nodes[1..], n, Some(next), context, apply);
    }
  }

  /** The recursive `ApplyAllNodes` is the left-to-right pass over the nodes
      from the root to the terminal node, starting from a null model. */
  lemma {:induction false} ApplyAllNodesInOrder<N, M, C>(chain: NodeChain<N>, context: C, apply: (N, Option<M>, C) -> Result<M>)
    ensures ApplyAllNodes(chain, context, apply) == ApplyInOrder(Nodes(chain), None, context, apply)
  {
    match chain
    case Root(n) =>
    case Link(s, n) =>
      ApplyAllNodesInOrder(s, context, apply);
      ApplyInOrderSnoc(Nodes(s), n, None, context, apply);
  }

  /** The `Apply` calls the parse makes, in order, as (node, model passed). */
  function Calls<N, M, C>(chain: NodeChain<N>, context: C, apply: (N, Option<M>, C) -> Result<M>): seq<(N, Option<M>)>
  {
    match chain
    case Root(n) => [(n, None)]
    case Link(s, n) =>
      match ApplyAllNodes(s, context, apply)
      case Err(_) => Calls(s, context, apply)
      case Ok(model) => Calls(s, context, apply) + [(n, Some(model))]
  }

  /** A successful parse calls `Apply` once per node, in chain order from the
      root; the root gets a null model, every later node the model the
      previous call returned, and the result is what the terminal call
      returned. */
  lemma {:induction false} CallsThreadTheModel<N, M, C>(chain: NodeChain<N>, context: C, apply: (N, Option<M>, C) -> Result<M>)
    requires ApplyAllNodes(chain, context, apply).Ok?
    ensures var calls, nodes := Calls(chain, context, apply), Nodes(chain);
      && |calls| == |nodes|
      && (forall i :: 0 <= i < |calls| ==> calls[i].0 == nodes[i])
      && calls[0].1 == None
      && (forall i :: 0 < i < |calls| ==>
            calls[i].1.Some? && apply(calls[i - 1].0, calls[i - 1].1, context) == Ok(calls[i].1.value))
      && apply(calls[|calls| - 1].0, calls[|calls| - 1].1, context) == ApplyAllNodes(chain, context, apply)
  {
    match chain
    case Root(n) =>
    case Link(s, n) =>
      var inner := ApplyAllNodes(s, context, apply);
      assert inner.Ok?;
      CallsThreadTheModel(s, context, apply);
      var c := Calls(s, context, apply);
      var calls := c + [(n, Some(inner.value))];
      assert calls[..|c|] == c;
      forall i | 0 < i < |calls|
        ensures calls[i].1.Some? && apply(calls[i - 1].0, calls[i - 1].1, context) == Ok(calls[i].1.value)
      {
        if i < |c| {
          assert calls[i] == c[i] && calls[i - 1] == c[i - 1];
        }
      }
  }

  /** A failing node stops the parse: later nodes are never applied. */
  lemma {:induction false} FailureStops<N, M, C>(chain: NodeChain<N>, context: C, apply: (N, Option<M>, C) -> Result<M>)
    requires chain.Link? && ApplyAllNodes(chain.source, context, apply).Err?
    ensures ApplyAllNodes(chain, context, apply) == ApplyAllNodes(chain.source, context, apply)
    ensures Calls(chain, context, apply) == Calls(chain.source, context, apply)
  {
  }

  /** `GetParsedQuery`: rejects a null tree, parses it into a node chain
      (the tree parser is not part of the model and may fail, before any
      context exists) and applies the chain with one new clause generation
      context shared by all of its nodes. */
  method GetParsedQuery<E, N, M, P>(expressionTreeRoot: Option<E>, parseTree: E -> Result<NodeChain<N>>, provider: P,
                                   apply: (N, Option<M>, ClauseGenerationContext<P>) -> Result<M>)
    returns (r: Result<M>, ghost context: ClauseGenerationContext?<P>)
    ensures expressionTreeRoot.None? ==> r == Err(ArgumentNull("expressionTreeRoot")) && context == null
    ensures expressionTreeRoot.Some? && parseTree(expressionTreeRoot.value).Err? ==>
      r == Err(parseTree(expressionTreeRoot.value).error) && context == null
    ensures expressionTreeRoot.Some? && parseTree(expressionTreeRoot.value).Ok? ==>
      && context != null && fresh(context) && context.nodeTypeProvider == provider
      && r == ApplyAllNodes<N, M, ClauseGenerationContext<P>>(parseTree(expressionTreeRoot.value).value, context, apply)
  {
    if expressionTreeRoot.None? {
      return Err(ArgumentNull("expressionTreeRoot")), null;
    }
    var parsed := parseTree(expressionTreeRoot.value);
    if parsed.Err? {
      return Err(parsed.error), null;
    }
    var node := parsed.value;
    var clauseGenerationContext := new ClauseGenerationContext(provider);
    r := ApplyAllNodes(node, clauseGenerationContext, apply);
    context := clauseGenerationContext;
  }
}
