/** Descriptions of the data a query (or a part of it) streams out: a
    sequence of items, a scalar value, or a single item chosen from a
    sequence, the last one remembering whether an empty input yields the
    default value. */
module StreamedData {
  import opened Common
  import opened Expressions

  /** `IStreamedDataInfo` and the three kinds of it the model uses. */
  datatype StreamedDataInfo =
    | StreamedSequenceInfo(dataType: TypeDesc)
    | StreamedScalarValueInfo(dataType: TypeDesc)
    | StreamedSingleValueInfo(dataType: TypeDesc, returnDefaultWhenEmpty: bool)

  /** `StreamedValue`: a computed value with the description of its data. */
  datatype StreamedValue<T> = StreamedValue(value: T, dataInfo: StreamedDataInfo)

  /** `System.Int32`, the item type of a count. */
  const Int32Type := TypeDesc("Int32", "System.Int32", "System.Int32", None, false, false, 0, false)

  /** The two's-complement bits of `bool.GetHashCode()`. */
  function BoolHash(b: bool): (h: bv32)
    ensures b <==> h == 1
    ensures !b <==> h == 0
  {
    if b then 1 else 0
  }

  /** `StreamedSingleValueInfo.CloneWithNewDataType`: a single-value info for
      another data type that keeps the flag. */
  function CloneWithNewDataType(info: StreamedDataInfo, dataType: TypeDesc): (r: StreamedDataInfo)
    requires info.StreamedSingleValueInfo?
    ensures r.StreamedSingleValueInfo?
    ensures r.dataType == dataType
    ensures r.returnDefaultWhenEmpty == info.returnDefaultWhenEmpty
  {
    StreamedSingleValueInfo(dataType, info.returnDefaultWhenEmpty)
  }

  /** Cloning with a new type and then with another is cloning with the
      second; cloning with the info's own type gives the info back. */
  lemma CloneWithNewDataTypeLaws(info: StreamedDataInfo, t1: TypeDesc, t2: TypeDesc)
    requires info.StreamedSingleValueInfo?
    ensures CloneWithNewDataType(CloneWithNewDataType(info, t1), t2) == CloneWithNewDataType(info, t2)
    ensures CloneWithNewDataType(info, info.dataType) == info
  {
  }

  /** `StreamedSingleValueInfo.Equals(obj)`: the base comparison (not part of
      the model, hence `baseEquals`) and then the flags. `obj` is cast to a
      single-value info once the base comparison holds: reading the flag of a
      null `obj` throws a null reference error, and the cast throws when `obj`
      is some other info. */
  function SingleValueEquals(info: StreamedDataInfo, obj: Option<StreamedDataInfo>,
                             baseEquals: (StreamedDataInfo, Option<StreamedDataInfo>) -> bool): (r: Result<bool>)
    requires info.StreamedSingleValueInfo?
    ensures !baseEquals(info, obj) ==> r == Ok(false)
    ensures baseEquals(info, obj) && obj.None? ==> r == Err(NullReference)
    ensures baseEquals(info, obj) && obj.Some? && !obj.value.StreamedSingleValueInfo? ==> r == Err(InvalidCast)
    ensures r == Ok(true) <==>
      baseEquals(info, obj) && obj.Some? && obj.value.StreamedSingleValueInfo?
      && obj.value.returnDefaultWhenEmpty == info.returnDefaultWhenEmpty
  {
    if !baseEquals(info, obj) then Ok(false)
    else if obj.None? then Err(NullReference)
    else if !obj.value.StreamedSingleValueInfo? then Err(InvalidCast)
    else Ok(obj.value.returnDefaultWhenEmpty == info.returnDefaultWhenEmpty)
  }

  /** `StreamedSingleValueInfo.GetHashCode`: the base hash XOR the flag's. */
  function SingleValueHash(info: StreamedDataInfo, baseHash: StreamedDataInfo -> bv32): (h: bv32)
    requires info.StreamedSingleValueInfo?
    ensures h & 0xFFFF_FFFE == baseHash(info) & 0xFFFF_FFFE
    ensures h & 1 == (baseHash(info) & 1) ^ BoolHash(info.returnDefaultWhenEmpty)
  {
    baseHash(info) ^ BoolHash(info.returnDefaultWhenEmpty)
  }

  /** When the base hash agrees with the base comparison, equal single-value
      infos have equal hash codes. */
  lemma EqualInfosHashAlike(a: StreamedDataInfo, b: StreamedDataInfo,
                            baseEquals: (StreamedDataInfo, Option<StreamedDataInfo>) -> bool,
                            baseHash: StreamedDataInfo -> bv32)
    requires a.StreamedSingleValueInfo? && b.StreamedSingleValueInfo?
    requires baseEquals(a, Some(b)) ==> baseHash(a) == baseHash(b)
    requires SingleValueEquals(a, Some(b), baseEquals) == Ok(true)
    ensures SingleValueHash(a, baseHash) == SingleValueHash(b, baseHash)
  {
  }

  /** Two infos that differ only in the flag have hash codes that differ
      exactly in the lowest bit. */
  lemma FlagShowsInHash(a: StreamedDataInfo, baseHash: StreamedDataInfo -> bv32)
    requires a.StreamedSingleValueInfo?
    requires baseHash(a) == baseHash(a.(returnDefaultWhenEmpty := !a.returnDefaultWhenEmpty))
    ensures SingleValueHash(a, baseHash) ^ SingleValueHash(a.(returnDefaultWhenEmpty := !a.returnDefaultWhenEmpty), baseHash) == 1
  {
  }

  /** `ExecuteSingleQueryModel<T>`: after the null checks the executor's
      `ExecuteSingle` runs with the info's flag, unchanged. The executor is
      not part of the model; it may fail (a `Single` over an empty result
      without the flag, say), and its failure is passed on. */
  function ExecuteSingleQueryModel<M, R>(info: StreamedDataInfo, queryModel: Option<M>,
                                         executeSingle: Option<(M, bool) -> Result<R>>): (r: Result<R>)
    requires info.StreamedSingleValueInfo?
    ensures queryModel.None? ==> r == Err(ArgumentNull("queryModel"))
    ensures queryModel.Some? && executeSingle.None? ==> r == Err(ArgumentNull("executor"))
    ensures r.Ok? <==>
      queryModel.Some? && executeSingle.Some? && executeSingle.value(queryModel.value, info.returnDefaultWhenEmpty).Ok?
    ensures queryModel.Some? && executeSingle.Some? ==>
      r == executeSingle.value(queryModel.value, info.returnDefaultWhenEmpty)
  {
    if queryModel.None? then Err(ArgumentNull("queryModel"))
    else if executeSingle.None? then Err(ArgumentNull("executor"))
    else executeSingle.value(queryModel.value, info.returnDefaultWhenEmpty)
  }

  /** `ExecuteQueryModel`: the same null checks, then the value produced by
      `ExecuteSingleQueryModel`, described by this info; an exception of the
      execution bubbles up unchanged. */
  function ExecuteQueryModel<M, R>(info: StreamedDataInfo, queryModel: Option<M>,
                                   executeSingle: Option<(M, bool) -> Result<R>>): (r: Result<StreamedValue<R>>)
    requires info.StreamedSingleValueInfo?
    ensures r.Ok? <==> ExecuteSingleQueryModel(info, queryModel, executeSingle).Ok?
    ensures r.Err? ==> r.error == ExecuteSingleQueryModel(info, queryModel, executeSingle).error
    ensures r.Ok? ==> r.value.value == ExecuteSingleQueryModel(info, queryModel, executeSingle).value
    ensures r.Ok? ==> r.value.dataInfo == info
  {
    if queryModel.None? then Err(ArgumentNull("queryModel"))
    else if executeSingle.None? then Err(ArgumentNull("executor"))
    else
      match ExecuteSingleQueryModel(info, queryModel, executeSingle)
      case Err(e) => Err(e)
      case Ok(result) => Ok(StreamedValue(result, info))
  }

  /** A failing execution is never masked: with both arguments present,
      the streamed result fails exactly when the executor does, with its
      error. */
  lemma ExecutionFailurePropagates<M, R>(info: StreamedDataInfo, queryModel: M, executeSingle: (M, bool) -> Result<R>)
    requires info.StreamedSingleValueInfo?
    requires executeSingle(queryModel, info.returnDefaultWhenEmpty).Err?
    ensures ExecuteQueryModel(info, Some(queryModel), Some(executeSingle))
         == Err(executeSingle(queryModel, info.returnDefaultWhenEmpty).error)
  {
  }
}
