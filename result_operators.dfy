/** Result operators: the final step of a query that reduces its sequence of
    items to a count, to its single item, or to its least item. Each has
    in-memory semantics over a sequence, a clone, a text form, and an
    (empty) expression transformation. */
module ResultOperators {
  import opened Common
  import opened Expressions
  import opened StreamedData

  /** The result operators the model knows. `Cast` and `Intersect` are
      created by their expression nodes; only the value they carry is
      modelled of them. */
  datatype ResultOperator =
    | CountResultOperator
    | SingleResultOperator(returnDefaultWhenEmpty: bool)
    | MinResultOperator
    | CastResultOperator(castItemType: TypeDesc)
    | IntersectResultOperator(source2: Expr)

  /** The largest value of a .NET `int`. */
  const Int32MaxValue := 0x7FFF_FFFF

  /** `ChoiceResultOperatorBase.ReturnDefaultWhenEmpty`: the flag given to
      Single; Min always passes `false` to its base constructor. */
  function ReturnDefaultWhenEmpty(op: ResultOperator): (r: bool)
    requires op.SingleResultOperator? || op.MinResultOperator?
    ensures op.MinResultOperator? ==> !r
    ensures op.SingleResultOperator? ==> r == op.returnDefaultWhenEmpty
  {
    if op.SingleResultOperator? then op.returnDefaultWhenEmpty else false
  }

  /** `Clone` of Count, Single and Min: an operator of the same kind; Single
      keeps its flag. */
  function Clone(op: ResultOperator): (r: ResultOperator)
    requires op.CountResultOperator? || op.SingleResultOperator? || op.MinResultOperator?
    ensures r.CountResultOperator? <==> op.CountResultOperator?
    ensures r.MinResultOperator? <==> op.MinResultOperator?
    ensures r.SingleResultOperator? <==> op.SingleResultOperator?
    ensures op.SingleResultOperator? ==> r.returnDefaultWhenEmpty == op.returnDefaultWhenEmpty
  {
    match op
    case CountResultOperator => CountResultOperator
    case SingleResultOperator(flag) => SingleResultOperator(flag)
    case MinResultOperator => MinResultOperator
  }

  /** `TransformExpressions` of Count, Single and Min: they hold no
      expression, so whatever the transformation, the operator stays. */
  function TransformExpressions(op: ResultOperator, transformation: Expr -> Expr): (r: ResultOperator)
    requires op.CountResultOperator? || op.SingleResultOperator? || op.MinResultOperator?
    ensures r == op
  {
    op
  }

  /** `ToString` of Count, Single and Min. */
  function ToString(op: ResultOperator): (r: string)
    requires op.CountResultOperator? || op.SingleResultOperator? || op.MinResultOperator?
    ensures |r| > 2 && r[|r| - 2..] == "()"
  {
    match op
    case CountResultOperator => "Count()"
    case SingleResultOperator(flag) => if flag then "SingleOrDefault()" else "Single()"
    case MinResultOperator => "Min()"
  }

  /** The text names the operator: different operators (or Single with
      different flags) print differently, and a clone prints as the
      original. */
  lemma ToStringDistinguishes(a: ResultOperator, b: ResultOperator)
    requires a.CountResultOperator? || a.SingleResultOperator? || a.MinResultOperator?
    requires b.CountResultOperator? || b.SingleResultOperator? || b.MinResultOperator?
    ensures ToString(a) == ToString(b) <==> a == b
    ensures ToString(Clone(a)) == ToString(a)
  {
    var sa, sb := ToString(a), ToString(b);
    if a != b {
      assert sa[0] != sb[0] || |sa| != |sb|;
    }
  }

  // ----- Count -----

  /** `Enumerable.Count()` on a sequence: its length, or an overflow once
      the length no longer fits in an `int`. */
  function Count<T>(items: seq<T>): (r: Result<int>)
    ensures r.Ok? <==> |items| <= Int32MaxValue
    ensures r.Ok? ==> r.value == |items|
    ensures r.Err? ==> r.error == Overflow
  {
    if |items| <= Int32MaxValue then Ok(|items|) else Err(Overflow)
  }

  /** Counting a concatenation adds the counts, as long as the sum fits. */
  lemma CountAppend<T>(a: seq<T>, b: seq<T>)
    requires |a| + |b| <= Int32MaxValue
    ensures Count(a + b) == Ok(Count(a).value + Count(b).value)
  {
  }

  /** `CountResultOperator.GetOutputDataInfo`: the input must be a sequence
      info; the output is a scalar `int` whatever the item type. */
  function CountOutputDataInfo(inputInfo: Option<StreamedDataInfo>): (r: Result<StreamedDataInfo>)
    ensures inputInfo.None? ==> r == Err(ArgumentNull("inputInfo"))
    ensures inputInfo.Some? && !inputInfo.value.StreamedSequenceInfo? ==> r == Err(ArgumentType("inputInfo"))
    ensures r.Ok? <==> inputInfo.Some? && inputInfo.value.StreamedSequenceInfo?
    ensures r.Ok? ==> r.value == StreamedScalarValueInfo(Int32Type)
  {
    match inputInfo
    case None => Err(ArgumentNull("inputInfo"))
    case Some(info) =>
      if info.StreamedSequenceInfo? then Ok(StreamedScalarValueInfo(Int32Type)) else Err(ArgumentType("inputInfo"))
  }

  /** `CountResultOperator.ExecuteInMemory`: the count of the input items,
      described as a scalar `int`. */
  function ExecuteCount<T>(items: seq<T>, itemType: TypeDesc): (r: Result<StreamedValue<int>>)
    ensures r.Ok? <==> Count(items).Ok?
    ensures r.Ok? ==> r.value.value == |items|
    ensures r.Ok? ==> r.value.dataInfo == StreamedScalarValueInfo(Int32Type)
  {
    var count := Count(items);
    if count.Err? then Err(count.error)
    else
      var info := CountOutputDataInfo(Some(StreamedSequenceInfo(itemType)));
      Ok(StreamedValue(count.value, info.value))
  }

  /** The count does not depend on the item type the sequence is declared
      with, nor on the items themselves. */
  lemma CountIgnoresItems<T, U>(a: seq<T>, b: seq<U>, ta: TypeDesc, tb: TypeDesc)
    requires |a| == |b|
    ensures ExecuteCount(a, ta) == ExecuteCount(b, tb)
  {
  }

  // ----- Single and SingleOrDefault -----

  /** `Enumerable.Single()` (flag false) and `SingleOrDefault()` (flag true):
      exactly one item is that item; no item is an error for Single and the
      default for SingleOrDefault; more than one item is an error for both. */
  function Single<T>(items: seq<T>, returnDefaultWhenEmpty: bool, default: T): (r: Result<T>)
    ensures |items| == 1 ==> r == Ok(items[0])
    ensures |items| == 0 ==> r == (if returnDefaultWhenEmpty then Ok(default) else Err(InvalidOperation))
    ensures |items| > 1 ==> r == Err(InvalidOperation)
  {
    if |items| == 1 then Ok(items[0])
    else if |items| == 0 && returnDefaultWhenEmpty then Ok(default)
    else Err(InvalidOperation)
  }

  /** A successful result is the item of the sequence, or the default when
      the sequence is empty; the two variants differ only on the empty
      sequence. */
  lemma SingleResultOrigin<T>(items: seq<T>, returnDefaultWhenEmpty: bool, default: T)
    ensures Single(items, returnDefaultWhenEmpty, default).Ok? ==>
      (|items| == 1 && Single(items, returnDefaultWhenEmpty, default).value in items)
      || (|items| == 0 && returnDefaultWhenEmpty && Single(items, returnDefaultWhenEmpty, default).value == default)
    ensures |items| > 0 ==> Single(items, true, default) == Single(items, false, default)
  {
  }

  /** `SingleResultOperator.ExecuteInMemory`: Single or SingleOrDefault as
      the operator's flag says. The output description comes from the base
      class, which is not part of the model (`outputDataInfo`). */
  function ExecuteSingle<T>(op: ResultOperator, items: seq<T>, default: T, inputInfo: StreamedDataInfo,
                            outputDataInfo: StreamedDataInfo -> StreamedDataInfo): (r: Result<StreamedValue<T>>)
    requires op.SingleResultOperator?
    ensures r.Ok? <==> Single(items, op.returnDefaultWhenEmpty, default).Ok?
    ensures r.Ok? ==> r.value.value == Single(items, op.returnDefaultWhenEmpty, default).value
    ensures r.Ok? ==> r.value.dataInfo == outputDataInfo(inputInfo)
    ensures r.Err? ==> r.error == InvalidOperation
  {
    var result := Single(items, ReturnDefaultWhenEmpty(op), default);
    if result.Err? then Err(result.error) else Ok(StreamedValue(result.value, outputDataInfo(inputInfo)))
  }

  // ----- Min -----

  /** The comparison `Comparer<T>.Default` induces, as "strictly less": a
      strict weak order (irreflexive, transitive, and whatever lies between
      two ordered items is ordered with one of them). */
  ghost predicate StrictOrder<T(!new)>(less: (T, T) -> bool)
  {
    && (forall a :: !less(a, a))
    && (forall a, b, c :: less(a, b) && less(b, c) ==> less(a, c))
    && (forall a, b, c :: less(a, c) ==> less(a, b) || less(b, c))
  }

  /** `Enumerable.Min()`: the running minimum starts at the first item and is
      replaced by each later item that compares strictly less. */
  function Min<T>(items: seq<T>, less: (T, T) -> bool): (r: T)
    requires |items| > 0
    ensures r in items
    decreases |items|
  {
    if |items| == 1 then items[0]
    else
      var m := Min(items[..|items| - 1], less);
      var x := items[|items| - 1];
      if less(x, m) then x else m
  }

  /** Under a strict order no item is less than the minimum. */
  lemma {:induction false} MinIsLeast<T(!new)>(items: seq<T>, less: (T, T) -> bool)
    requires |items| > 0
    requires StrictOrder(less)
    ensures forall y :: y in items ==> !less(y, Min(items, less))
    decreases |items|
  {
    if |items| > 1 {
      var init := items[..|items| - 1];
      var x := items[|items| - 1];
      MinIsLeast(init, less);
      assert items == init + [x];
    }
  }

  /** The minimum is the first of the least items: every earlier item is
      strictly greater. */
  lemma {:induction false} MinIsFirstLeast<T(!new)>(items: seq<T>, less: (T, T) -> bool)
    requires |items| > 0
    requires StrictOrder(less)
    ensures exists i :: (0 <= i < |items| && items[i] == Min(items, less)
                         && forall j :: 0 <= j < i ==> less(Min(items, less), items[j]))
    decreases |items|
  {
    if |items| == 1 {
      assert items[0] == Min(items, less);
    } else {
      var init := items[..|items| - 1];
      var x := items[|items| - 1];
      var m := Min(init, less);
      MinIsFirstLeast(init, less);
      var i :| 0 <= i < |init| && init[i] == m && forall j :: 0 <= j < i ==> less(m, init[j]);
      if less(x, m) {
        var k := |items| - 1;
        forall j | 0 <= j < k ensures less(x, items[j]) {
          MinIsLeast(init, less);
          assert items[j] == init[j] && init[j] in init;
        }
        assert items[k] == Min(items, less);
      } else {
        assert items[i] == m;
        forall j | 0 <= j < i ensures less(m, items[j]) {
          assert items[j] == init[j];
        }
      }
    }
  }

  /** `MinResultOperator.ExecuteInMemory`: the minimum of a non-empty input;
      an empty input throws. The output description comes from the base
      class (`outputDataInfo`). */
  function ExecuteMin<T>(items: seq<T>, less: (T, T) -> bool, inputInfo: StreamedDataInfo,
                         outputDataInfo: StreamedDataInfo -> StreamedDataInfo): (r: Result<StreamedValue<T>>)
    ensures r.Ok? <==> |items| > 0
    ensures r.Err? ==> r.error == InvalidOperation
    ensures r.Ok? ==> r.value.value in items && r.value.dataInfo == outputDataInfo(inputInfo)
    ensures r.Ok? ==> r.value.value == Min(items, less)
  {
    if |items| == 0 then Err(InvalidOperation) else Ok(StreamedValue(Min(items, less), outputDataInfo(inputInfo)))
  }

  /** The operator takes only the smallest of the items: under a strict
      order no item is less than the streamed value, and it is the first
      such least item. */
  lemma ExecuteMinYieldsLeast<T(!new)>(items: seq<T>, less: (T, T) -> bool, inputInfo: StreamedDataInfo,
                                       outputDataInfo: StreamedDataInfo -> StreamedDataInfo)
    requires |items| > 0
    requires StrictOrder(less)
    ensures var r := ExecuteMin(items, less, inputInfo, outputDataInfo);
      && r.Ok?
      && (forall y :: y in items ==> !less(y, r.value.value))
      && (exists i :: 0 <= i < |items| && items[i] == r.value.value
                      && forall j :: 0 <= j < i ==> less(r.value.value, items[j]))
  {
    MinIsLeast(items, less);
    MinIsFirstLeast(items, less);
  }
}
