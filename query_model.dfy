/** The mutable objects the clauses and expression nodes work on: the query
    model, the modification clause whose flag a node sets, the clone context
    in which clones are registered, and the visitor that clauses call back. */
module QueryModels {
  import opened Expressions

  /** A body clause that writes documents (`IModificationClause`); only its
      `IgnoreSelect` flag is modelled. */
  class ModificationClause {
    var ignoreSelect: bool

    constructor ()
      ensures !ignoreSelect
    {
      ignoreSelect := false;
    }
  }

  /** `QueryModel`, reduced to its list of body clauses. */
  class QueryModel {
    var bodyClauses: seq<object>

    constructor (bodyClauses: seq<object>)
      ensures this.bodyClauses == bodyClauses
    {
      this.bodyClauses := bodyClauses;
    }
  }

  /** `CloneContext`. Its `QuerySourceMapping` is kept as the sequence of
      `AddMapping(source, reference)` calls made on it, oldest first; what the
      mapping itself does with a repeated source is not part of the model. */
  class CloneContext {
    var mappings: seq<(object, Expr)>

    constructor ()
      ensures mappings == []
    {
      mappings := [];
    }

    /** `QuerySourceMapping.AddMapping`. */
    method AddMapping(source: object, reference: Expr)
      modifies this`mappings
      ensures mappings == old(mappings) + [(source, reference)]
    {
      mappings := mappings + [(source, reference)];
    }
  }

  /** One call a clause makes on its visitor in `Accept`. */
  datatype VisitCall =
    | VisitMainFromClause(clause: object, queryModel: QueryModel)
    | VisitAdditionalFromClause(clause: object, queryModel: QueryModel, index: int)
    | VisitGroupJoinClause(clause: object, queryModel: QueryModel, index: int)
    | VisitTraversalClause(clause: object, queryModel: QueryModel, index: int)

  /** `IQueryModelVisitor`: what a visitor does with a call is not part of the
      model, so it keeps the calls it receives. `isArangoModelVisitor` says
      whether it is the driver's own `ArangoModelVisitor`. */
  class QueryModelVisitor {
    const isArangoModelVisitor: bool
    var received: seq<VisitCall>

    constructor (isArangoModelVisitor: bool)
      ensures this.isArangoModelVisitor == isArangoModelVisitor && received == []
    {
      this.isArangoModelVisitor := isArangoModelVisitor;
      received := [];
    }

    /** Receives one visit. */
    method Visit(call: VisitCall)
      modifies this`received
      ensures received == old(received) + [call]
    {
      received := received + [call];
    }
  }
}
