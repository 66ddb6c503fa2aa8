/** The driver's graph traversal clause: a walk from a start vertex, or a
    shortest path from a start to a target vertex, with settable depth
    bounds, direction, graph name, edge collections and options. */
module Traversal {
  import opened Common
  import opened Expressions
  import opened QueryModels

  /** The message of the exception `Accept` throws for a foreign visitor. */
  const ForeignVisitorMessage := "QueryModelVisitor should be type of ArangoModelVisitor"

  /** `TraversalClause`. The depth bounds, direction and options are
      constant expressions; the edge definitions are kept as opaque objects. */
  class TraversalClause {
    var identifier: string
    var startVertex: Expr
    var targetVertex: Option<Expr>
    var min: Option<Expr>
    var max: Option<Expr>
    var direction: Option<Expr>
    var graphName: Option<string>
    var edgeCollections: seq<object>
    var options: Option<Expr>

    /** Nothing but the vertices and the identifier is set: no depth
        bounds, direction, graph name or options, and no edge collections. */
    predicate Unconfigured()
      reads this
    {
      min.None? && max.None? && direction.None? && graphName.None? && options.None? && edgeCollections == []
    }

    constructor (startVertex: Expr, targetVertex: Option<Expr>, identifier: string)
      ensures this.startVertex == startVertex && this.targetVertex == targetVertex && this.identifier == identifier
      ensures Unconfigured()
    {
      this.identifier := identifier;
      this.startVertex := startVertex;
      this.targetVertex := targetVertex;
      min := None;
      max := None;
      direction := None;
      graphName := None;
      edgeCollections := [];
      options := None;
    }

    /** The two-argument constructor: a walk, with no target vertex. A null
        start vertex or identifier is rejected. */
    static method NewWalk(startVertex: Option<Expr>, identifier: Option<string>) returns (r: Result<TraversalClause>)
      ensures startVertex.None? ==> r == Err(ArgumentNull("startVertex"))
      ensures startVertex.Some? && identifier.None? ==> r == Err(ArgumentNull("identifier"))
      ensures r.Ok? <==> startVertex.Some? && identifier.Some?
      ensures r.Ok? ==> (fresh(r.value) && r.value.startVertex == startVertex.value
        && r.value.identifier == identifier.value && r.value.targetVertex.None? && r.value.Unconfigured())
    {
      if startVertex.None? {
        return Err(ArgumentNull("startVertex"));
      }
      if identifier.None? {
        return Err(ArgumentNull("identifier"));
      }
      var clause := new TraversalClause(startVertex.value, None, identifier.value);
      r := Ok(clause);
    }

    /** The three-argument constructor: a shortest path. The walk's checks
        come first, then a null target vertex is rejected (under the
        parameter name "tagetVertex"). */
    static method NewShortestPath(startVertex: Option<Expr>, targetVertex: Option<Expr>, identifier: Option<string>)
      returns (r: Result<TraversalClause>)
      ensures startVertex.None? ==> r == Err(ArgumentNull("startVertex"))
      ensures startVertex.Some? && identifier.None? ==> r == Err(ArgumentNull("identifier"))
      ensures startVertex.Some? && identifier.Some? && targetVertex.None? ==> r == Err(ArgumentNull("tagetVertex"))
      ensures r.Ok? <==> startVertex.Some? && identifier.Some? && targetVertex.Some?
      ensures r.Ok? ==> (fresh(r.value) && r.value.startVertex == startVertex.value
        && r.value.identifier == identifier.value && r.value.targetVertex == targetVertex && r.value.Unconfigured())
    {
      if startVertex.None? {
        return Err(ArgumentNull("startVertex"));
      }
      if identifier.None? {
        return Err(ArgumentNull("identifier"));
      }
      if targetVertex.None? {
        return Err(ArgumentNull("tagetVertex"));
      }
      var clause := new TraversalClause(startVertex.value, targetVertex, identifier.value);
      r := Ok(clause);
    }

    /** `Accept`: after the null checks, only the driver's own visitor is
        accepted; it receives one `VisitTraversalClause` call with the same
        index. */
    method Accept(visitor: QueryModelVisitor?, queryModel: QueryModel?, index: int) returns (outcome: Outcome)
      modifies visitor
      ensures visitor == null ==> outcome == Fail(ArgumentNull("visitor"))
      ensures visitor != null && queryModel == null ==> outcome == Fail(ArgumentNull("queryModel"))
      ensures visitor != null && queryModel != null && !visitor.isArangoModelVisitor ==>
        outcome == Fail(Failure(ForeignVisitorMessage))
      ensures outcome.Pass? <==> visitor != null && queryModel != null && visitor.isArangoModelVisitor
      ensures outcome.Pass? ==>
        visitor.received == old(visitor.received) + [VisitTraversalClause(this, queryModel, index)]
      ensures outcome.Fail? && visitor != null ==> visitor.received == old(visitor.received)
    {
      if visitor == null {
        return Fail(ArgumentNull("visitor"));
      }
      if queryModel == null {
        return Fail(ArgumentNull("queryModel"));
      }
      if !visitor.isArangoModelVisitor {
        return Fail(Failure(ForeignVisitorMessage));
      }
      visitor.Visit(VisitTraversalClause(this, queryModel, index));
      outcome := Pass;
    }

    /** `TransformExpressions`: the start vertex is always transformed, the
        target vertex only when there is one; nothing else changes. */
    method TransformExpressions(transformation: Option<Expr -> Expr>) returns (outcome: Outcome)
      modifies this`startVertex, this`targetVertex
      ensures transformation.None? ==> (outcome == Fail(ArgumentNull("transformation"))
        && startVertex == old(startVertex) && targetVertex == old(targetVertex))
      ensures transformation.Some? ==> (outcome == Pass
        && startVertex == transformation.value(old(startVertex))
        && targetVertex == (if old(targetVertex).Some? then Some(transformation.value(old(targetVertex).value)) else None))
    {
      if transformation.None? {
        return Fail(ArgumentNull("transformation"));
      }
      startVertex := transformation.value(startVertex);
      if targetVertex.Some? {
        targetVertex := Some(transformation.value(targetVertex.value));
      }
      outcome := Pass;
    }

    /** `Clone`: a new walk from the same start vertex with the same
        identifier. The target vertex, depth bounds, direction, graph name,
        edge collections and options are not carried over, and nothing is
        registered in the clone context. */
    method Clone(cloneContext: CloneContext?) returns (r: Result<TraversalClause>)
      ensures cloneContext == null ==> r == Err(ArgumentNull("cloneContext"))
      ensures r.Ok? <==> cloneContext != null
      ensures r.Ok? ==> (fresh(r.value) && r.value.startVertex == startVertex && r.value.identifier == identifier
        && r.value.targetVertex.None? && r.value.Unconfigured())
      ensures cloneContext != null ==> cloneContext.mappings == old(cloneContext.mappings)
    {
      if cloneContext == null {
        return Err(ArgumentNull("cloneContext"));
      }
      var clone := new TraversalClause(startVertex, None, identifier);
      r := Ok(clone);
    }
  }
}
