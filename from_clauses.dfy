/** The query-source clauses: the main `from`, each additional `from`, and
    the group join (`join … into …`) with the join clause it wraps. Their
    constructors validate the arguments, and cloning one registers the
    clone in the clone context. */
module FromClauses {
  import opened Common
  import opened Expressions
  import opened QueryModels

  /** The checks `FromClauseBase` receives its arguments through, in order:
      a non-null, non-empty item name, then a non-null item type and from
      expression. `None` when all pass. */
  function FromClauseArgumentError(itemName: Option<string>, itemType: Option<TypeDesc>,
                                   fromExpression: Option<Expr>): (r: Option<Error>)
    ensures r.None? <==> itemName.Some? && itemName.value != [] && itemType.Some? && fromExpression.Some?
    ensures itemName.None? ==> r == Some(ArgumentNull("itemName"))
    ensures itemName == Some([]) ==> r == Some(ArgumentEmpty("itemName"))
    ensures itemName.Some? && itemName.value != [] && itemType.None? ==> r == Some(ArgumentNull("itemType"))
    ensures itemName.Some? && itemName.value != [] && itemType.Some? && fromExpression.None? ==>
      r == Some(ArgumentNull("fromExpression"))
  {
    if itemName.None? then Some(ArgumentNull("itemName"))
    else if itemName.value == [] then Some(ArgumentEmpty("itemName"))
    else if itemType.None? then Some(ArgumentNull("itemType"))
    else if fromExpression.None? then Some(ArgumentNull("fromExpression"))
    else None
  }

  /** `MainFromClause`: the first data source of a query. */
  class MainFromClause {
    var itemName: string
    var itemType: TypeDesc
    var fromExpression: Expr

    constructor (itemName: string, itemType: TypeDesc, fromExpression: Expr)
      ensures this.itemName == itemName && this.itemType == itemType && this.fromExpression == fromExpression
    {
      this.itemName := itemName;
      this.itemType := itemType;
      this.fromExpression := fromExpression;
    }

    /** The public constructor: the argument checks, then a new clause. */
    static method Create(itemName: Option<string>, itemType: Option<TypeDesc>, fromExpression: Option<Expr>)
      returns (r: Result<MainFromClause>)
      ensures FromClauseArgumentError(itemName, itemType, fromExpression).Some? ==>
        r == Err(FromClauseArgumentError(itemName, itemType, fromExpression).value)
      ensures r.Ok? <==> FromClauseArgumentError(itemName, itemType, fromExpression).None?
      ensures r.Ok? ==> (fresh(r.value) && r.value.itemName == itemName.value
        && r.value.itemType == itemType.value && r.value.fromExpression == fromExpression.value)
    {
      var error := FromClauseArgumentError(itemName, itemType, fromExpression);
      if error.Some? {
        return Err(error.value);
      }
      var clause := new MainFromClause(itemName.value, itemType.value, fromExpression.value);
      r := Ok(clause);
    }

    /** `Accept`: after the null checks, one `VisitMainFromClause` call, with
        no index. */
    method Accept(visitor: QueryModelVisitor?, queryModel: QueryModel?) returns (outcome: Outcome)
      modifies visitor
      ensures visitor == null ==> outcome == Fail(ArgumentNull("visitor"))
      ensures visitor != null && queryModel == null ==> outcome == Fail(ArgumentNull("queryModel"))
      ensures outcome.Pass? <==> visitor != null && queryModel != null
      ensures outcome.Pass? ==> visitor.received == old(visitor.received) + [VisitMainFromClause(this, queryModel)]
      ensures outcome.Fail? && visitor != null ==> visitor.received == old(visitor.received)
    {
      if visitor == null {
        return Fail(ArgumentNull("visitor"));
      }
      if queryModel == null {
        return Fail(ArgumentNull("queryModel"));
      }
      visitor.Visit(VisitMainFromClause(this, queryModel));
      outcome := Pass;
    }

    /** `Clone`: a new clause built by the public constructor from this
        clause's item name, item type and from expression, registered in the
        context as the clone of this one. */
    method Clone(cloneContext: CloneContext?) returns (r: Result<MainFromClause>)
      modifies cloneContext
      ensures cloneContext == null ==> r == Err(ArgumentNull("cloneContext"))
      ensures cloneContext != null && old(itemName) == [] ==>
        r == Err(ArgumentEmpty("itemName")) && cloneContext.mappings == old(cloneContext.mappings)
      ensures r.Ok? <==> cloneContext != null && itemName != []
      ensures r.Ok? ==> (fresh(r.value) && r.value != this
        && r.value.itemName == itemName && r.value.itemType == itemType && r.value.fromExpression == fromExpression
        && cloneContext.mappings == old(cloneContext.mappings) + [(this, QuerySourceReference(r.value))])
    {
      if cloneContext == null {
        return Err(ArgumentNull("cloneContext"));
      }
      r := Create(Some(itemName), Some(itemType), Some(fromExpression));
      if r.Ok? {
        cloneContext.AddMapping(this, QuerySourceReference(r.value));
      }
    }
  }

  /** `AdditionalFromClause`: a further data source, one of the body
      clauses. */
  class AdditionalFromClause {
    var itemName: string
    var itemType: TypeDesc
    var fromExpression: Expr

    constructor (itemName: string, itemType: TypeDesc, fromExpression: Expr)
      ensures this.itemName == itemName && this.itemType == itemType && this.fromExpression == fromExpression
    {
      this.itemName := itemName;
      this.itemType := itemType;
      this.fromExpression := fromExpression;
    }

    /** The public constructor: the argument checks, then a new clause. */
    static method Create(itemName: Option<string>, itemType: Option<TypeDesc>, fromExpression: Option<Expr>)
      returns (r: Result<AdditionalFromClause>)
      ensures FromClauseArgumentError(itemName, itemType, fromExpression).Some? ==>
        r == Err(FromClauseArgumentError(itemName, itemType, fromExpression).value)
      ensures r.Ok? <==> FromClauseArgumentError(itemName, itemType, fromExpression).None?
      ensures r.Ok? ==> (fresh(r.value) && r.value.itemName == itemName.value
        && r.value.itemType == itemType.value && r.value.fromExpression == fromExpression.value)
    {
      var error := FromClauseArgumentError(itemName, itemType, fromExpression);
      if error.Some? {
        return Err(error.value);
      }
      var clause := new AdditionalFromClause(itemName.value, itemType.value, fromExpression.value);
      r := Ok(clause);
    }

    /** `Accept`: after the null checks, one `VisitAdditionalFromClause`
        call carrying the clause's index unchanged. */
    method Accept(visitor: QueryModelVisitor?, queryModel: QueryModel?, index: int) returns (outcome: Outcome)
      modifies visitor
      ensures visitor == null ==> outcome == Fail(ArgumentNull("visitor"))
      ensures visitor != null && queryModel == null ==> outcome == Fail(ArgumentNull("queryModel"))
      ensures outcome.Pass? <==> visitor != null && queryModel != null
      ensures outcome.Pass? ==>
        visitor.received == old(visitor.received) + [VisitAdditionalFromClause(this, queryModel, index)]
      ensures outcome.Fail? && visitor != null ==> visitor.received == old(visitor.received)
    {
      if visitor == null {
        return Fail(ArgumentNull("visitor"));
      }
      if queryModel == null {
        return Fail(ArgumentNull("queryModel"));
      }
      visitor.Visit(VisitAdditionalFromClause(this, queryModel, index));
      outcome := Pass;
    }

    /** `Clone`: a new clause with the same item name and type that shares
        this clause's from expression, registered as the clone of this one. */
    method Clone(cloneContext: CloneContext?) returns (r: Result<AdditionalFromClause>)
      modifies cloneContext
      ensures cloneContext == null ==> r == Err(ArgumentNull("cloneContext"))
      ensures cloneContext != null && old(itemName) == [] ==>
        r == Err(ArgumentEmpty("itemName")) && cloneContext.mappings == old(cloneContext.mappings)
      ensures r.Ok? <==> cloneContext != null && itemName != []
      ensures r.Ok? ==> (fresh(r.value) && r.value != this
        && r.value.itemName == itemName && r.value.itemType == itemType && r.value.fromExpression == fromExpression
        && cloneContext.mappings == old(cloneContext.mappings) + [(this, QuerySourceReference(r.value))])
    {
      if cloneContext == null {
        return Err(ArgumentNull("cloneContext"));
      }
      r := Create(Some(itemName), Some(itemType), Some(fromExpression));
      if r.Ok? {
        cloneContext.AddMapping(this, QuerySourceReference(r.value));
      }
    }
  }

  /** The join a group join wraps. `JoinClause` is not part of this model:
      kept are its item name and type and its three expressions, which
      `TransformExpressions` rewrites, and a clone that copies them and
      registers itself like the other query sources. */
  class JoinClause {
    var itemName: string
    var itemType: TypeDesc
    var innerSequence: Expr
    var outerKeySelector: Expr
    var innerKeySelector: Expr

    constructor (itemName: string, itemType: TypeDesc, innerSequence: Expr, outerKeySelector: Expr, innerKeySelector: Expr)
      ensures this.itemName == itemName && this.itemType == itemType && this.innerSequence == innerSequence
      ensures this.outerKeySelector == outerKeySelector && this.innerKeySelector == innerKeySelector
    {
      this.itemName := itemName;
      this.itemType := itemType;
      this.innerSequence := innerSequence;
      this.outerKeySelector := outerKeySelector;
      this.innerKeySelector := innerKeySelector;
    }

    /** Each expression of the join is replaced by its transformation. */
    method TransformExpressions(transformation: Expr -> Expr)
      modifies this`innerSequence, this`outerKeySelector, this`innerKeySelector
      ensures innerSequence == transformation(old(innerSequence))
      ensures outerKeySelector == transformation(old(outerKeySelector))
      ensures innerKeySelector == transformation(old(innerKeySelector))
    {
      innerSequence := transformation(innerSequence);
      outerKeySelector := transformation(outerKeySelector);
      innerKeySelector := transformation(innerKeySelector);
    }

    /** A fresh copy, registered as the clone of this join. */
    method Clone(cloneContext: CloneContext) returns (clone: JoinClause)
      modifies cloneContext
      ensures fresh(clone)
      ensures clone.itemName == itemName && clone.itemType == itemType && clone.innerSequence == innerSequence
      ensures clone.outerKeySelector == outerKeySelector && clone.innerKeySelector == innerKeySelector
      ensures cloneContext.mappings == old(cloneContext.mappings) + [(this, QuerySourceReference(clone))]
    {
      clone := new JoinClause(itemName, itemType, innerSequence, outerKeySelector, innerKeySelector);
      cloneContext.AddMapping(this, QuerySourceReference(clone));
    }
  }

  /** The checks of the group join's constructor and the setters it goes
      through, in order: item name (non-null, non-empty), item type and join
      clause (non-null), then the `ItemType` setter's demand for a closed
      generic `IEnumerable<T>`. `None` when all pass. */
  function GroupJoinArgumentError(itemName: Option<string>, itemType: Option<TypeDesc>, hasJoinClause: bool): (r: Option<Error>)
    ensures r.None? <==>
      itemName.Some? && itemName.value != [] && itemType.Some? && hasJoinClause && itemType.value.isClosedGenericEnumerable
    ensures itemName.None? ==> r == Some(ArgumentNull("itemName"))
    ensures itemName == Some([]) ==> r == Some(ArgumentEmpty("itemName"))
    ensures itemName.Some? && itemName.value != [] && itemType.None? ==> r == Some(ArgumentNull("itemType"))
    ensures itemName.Some? && itemName.value != [] && itemType.Some? && !hasJoinClause ==> r == Some(ArgumentNull("joinClause"))
    ensures (itemName.Some? && itemName.value != [] && itemType.Some? && hasJoinClause
             && !itemType.value.isClosedGenericEnumerable) ==> r == Some(ArgumentType("value"))
  {
    if itemName.None? then Some(ArgumentNull("itemName"))
    else if itemName.value == [] then Some(ArgumentEmpty("itemName"))
    else if itemType.None? then Some(ArgumentNull("itemType"))
    else if !hasJoinClause then Some(ArgumentNull("joinClause"))
    else if !itemType.value.isClosedGenericEnumerable then Some(ArgumentType("value"))
    else None
  }

  /** `GroupJoinClause`: a join whose joined items are grouped per outer
      item. */
  class GroupJoinClause {
    var itemName: string
    var itemType: TypeDesc
    var joinClause: JoinClause

    constructor (itemName: string, itemType: TypeDesc, joinClause: JoinClause)
      ensures this.itemName == itemName && this.itemType == itemType && this.joinClause == joinClause
    {
      this.itemName := itemName;
      this.itemType := itemType;
      this.joinClause := joinClause;
    }

    /** The public constructor: its own checks, then the checks of the
        setters it assigns through. */
    static method Create(itemName: Option<string>, itemType: Option<TypeDesc>, joinClause: JoinClause?)
      returns (r: Result<GroupJoinClause>)
      ensures GroupJoinArgumentError(itemName, itemType, joinClause != null).Some? ==>
        r == Err(GroupJoinArgumentError(itemName, itemType, joinClause != null).value)
      ensures r.Ok? <==> GroupJoinArgumentError(itemName, itemType, joinClause != null).None?
      ensures r.Ok? ==> (fresh(r.value) && r.value.itemName == itemName.value
        && r.value.itemType == itemType.value && r.value.joinClause == joinClause)
    {
      var error := GroupJoinArgumentError(itemName, itemType, joinClause != null);
      if error.Some? {
        return Err(error.value);
      }
      var clause := new GroupJoinClause(itemName.value, itemType.value, joinClause);
      r := Ok(clause);
    }

    /** The `JoinClause` setter: rejects null. */
    method SetJoinClause(value: JoinClause?) returns (outcome: Outcome)
      modifies this`joinClause
      ensures value == null ==> outcome == Fail(ArgumentNull("value")) && joinClause == old(joinClause)
      ensures value != null ==> outcome == Pass && joinClause == value
    {
      if value == null {
        return Fail(ArgumentNull("value"));
      }
      joinClause := value;
      outcome := Pass;
    }

    /** The `ItemName` setter: rejects null, but, unlike the constructor,
        accepts the empty name. */
    method SetItemName(value: Option<string>) returns (outcome: Outcome)
      modifies this`itemName
      ensures value.None? ==> outcome == Fail(ArgumentNull("value")) && itemName == old(itemName)
      ensures value.Some? ==> outcome == Pass && itemName == value.value
    {
      if value.None? {
        return Fail(ArgumentNull("value"));
      }
      itemName := value.value;
      outcome := Pass;
    }

    /** The `ItemType` setter: rejects null and any type that is not a
        closed generic `IEnumerable<T>`. */
    method SetItemType(value: Option<TypeDesc>) returns (outcome: Outcome)
      modifies this`itemType
      ensures value.None? ==> outcome == Fail(ArgumentNull("value"))
      ensures value.Some? && !value.value.isClosedGenericEnumerable ==> outcome == Fail(ArgumentType("value"))
      ensures outcome.Fail? ==> itemType == old(itemType)
      ensures outcome.Pass? <==> value.Some? && value.value.isClosedGenericEnumerable
      ensures outcome.Pass? ==> itemType == value.value
    {
      if value.None? {
        return Fail(ArgumentNull("value"));
      }
      if !value.value.isClosedGenericEnumerable {
        return Fail(ArgumentType("value"));
      }
      itemType := value.value;
      outcome := Pass;
    }

    /** `TransformExpressions`: only the inner join clause's expressions are
        transformed; the group join's own fields stay. */
    method TransformExpressions(transformation: Option<Expr -> Expr>) returns (outcome: Outcome)
      modifies joinClause`innerSequence, joinClause`outerKeySelector, joinClause`innerKeySelector
      ensures transformation.None? ==> outcome == Fail(ArgumentNull("transformation")) && unchanged(joinClause)
      ensures transformation.Some? ==> (outcome == Pass
        && joinClause.innerSequence == transformation.value(old(joinClause.innerSequence))
        && joinClause.outerKeySelector == transformation.value(old(joinClause.outerKeySelector))
        && joinClause.innerKeySelector == transformation.value(old(joinClause.innerKeySelector)))
    {
      if transformation.None? {
        return Fail(ArgumentNull("transformation"));
      }
      joinClause.TransformExpressions(transformation.value);
      outcome := Pass;
    }

    /** `Accept`: after the null checks, one `VisitGroupJoinClause` call
        carrying the clause's index unchanged. */
    method Accept(visitor: QueryModelVisitor?, queryModel: QueryModel?, index: int) returns (outcome: Outcome)
      modifies visitor
      ensures visitor == null ==> outcome == Fail(ArgumentNull("visitor"))
      ensures visitor != null && queryModel == null ==> outcome == Fail(ArgumentNull("queryModel"))
      ensures outcome.Pass? <==> visitor != null && queryModel != null
      ensures outcome.Pass? ==>
        visitor.received == old(visitor.received) + [VisitGroupJoinClause(this, queryModel, index)]
      ensures outcome.Fail? && visitor != null ==> visitor.received == old(visitor.received)
    {
      if visitor == null {
        return Fail(ArgumentNull("visitor"));
      }
      if queryModel == null {
        return Fail(ArgumentNull("queryModel"));
      }
      visitor.Visit(VisitGroupJoinClause(this, queryModel, index));
      outcome := Pass;
    }

    /** `Clone`: the inner join is cloned first (registering its own clone),
        then a new group join with the same item name and type holding that
        clone is built by the public constructor and registered as the clone
        of this one. The constructor re-checks the item name, which the
        setter may have left empty: the join's clone is then already
        registered when that check fails. `joinClone` names that clone. */
    method Clone(cloneContext: CloneContext?) returns (r: Result<GroupJoinClause>, ghost joinClone: JoinClause?)
      modifies cloneContext
      ensures cloneContext == null ==> r == Err(ArgumentNull("cloneContext")) && joinClone == null
      ensures r.Ok? <==> cloneContext != null && GroupJoinArgumentError(Some(itemName), Some(itemType), true).None?
      ensures cloneContext != null ==> (joinClone != null && fresh(joinClone)
        && joinClone.itemName == joinClause.itemName && joinClone.itemType == joinClause.itemType
        && joinClone.innerSequence == joinClause.innerSequence
        && joinClone.outerKeySelector == joinClause.outerKeySelector
        && joinClone.innerKeySelector == joinClause.innerKeySelector)
      ensures cloneContext != null && r.Err? ==> (r == Err(GroupJoinArgumentError(Some(itemName), Some(itemType), true).value)
        && cloneContext.mappings == old(cloneContext.mappings) + [(joinClause, QuerySourceReference(joinClone))])
      ensures r.Ok? ==> (fresh(r.value) && r.value.joinClause == joinClone
        && r.value.itemName == itemName && r.value.itemType == itemType
        && cloneContext.mappings == old(cloneContext.mappings)
             + [(joinClause, QuerySourceReference(joinClone)), (this, QuerySourceReference(r.value))])
    {
      if cloneContext == null {
        return Err(ArgumentNull("cloneContext")), null;
      }
      var clone := joinClause.Clone(cloneContext);
      joinClone := clone;
      r := Create(Some(itemName), Some(itemType), clone);
      if r.Ok? {
        cloneContext.AddMapping(this, QuerySourceReference(r.value));
      }
    }

    /** `ToString`: the join's text (its `ToString` is not part of the model,
        hence `joinText`), " into ", the item type's name and the item name. */
    function ToString(joinText: string): (r: string)
      reads this
      ensures |r| == |joinText| + 6 + |itemType.name| + 1 + |itemName|
      ensures r[..|joinText| + 6] == joinText + " into "
      ensures r[|joinText| + 6..|joinText| + 6 + |itemType.name|] == itemType.name
      ensures r[|r| - |itemName| - 1..] == " " + itemName
    {
      joinText + " into " + itemType.name + " " + itemName
    }
  }
}
