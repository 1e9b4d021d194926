/**
 * The attribute kind catalog: the integer code of every attribute shape the
 * layer supports, and the host attribute family and sub-type each code is
 * created with.
 */
module Kinds {
  import opened Wrappers

  const NumericBoolean: int := 0
  const NumericShort: int := 1
  const NumericInt: int := 2
  const NumericLong: int := 3
  const NumericByte: int := 3      // shares its code with NumericLong
  const NumericFloat: int := 4
  const NumericDouble: int := 5
  const NumericAddr: int := 6
  const NumericChar: int := 8      // code 7 is not used
  const UnitDistance: int := 9
  const UnitAngle: int := 10
  const UnitTime: int := 11
  const EnumKind: int := 12
  const DataString: int := 13
  const DataMatrix: int := 14
  const DataFloatArray: int := 15
  const DataDoubleArray: int := 16
  const DataIntArray: int := 17
  const DataPointArray: int := 18
  const DataVectorArray: int := 19
  const DataStringArray: int := 20
  const DataMatrixArray: int := 21
  const CompoundKind: int := 22
  const NumericInt64: int := 23
  const NumericLast: int := 24
  const Numeric2Double: int := 25
  const Numeric2Float: int := 26
  const Numeric2Int: int := 27
  const Numeric2Long: int := 28
  const Numeric2Short: int := 29
  const Numeric3Double: int := 30
  const Numeric3Float: int := 31
  const Numeric3Int: int := 32
  const Numeric3Long: int := 33
  const Numeric3Short: int := 34
  const Numeric4Double: int := 35
  const MessageKind: int := 36

  /** Every constant of the catalog, in declaration order. */
  const Catalog: seq<int> := [
    NumericBoolean, NumericShort, NumericInt, NumericLong, NumericByte,
    NumericFloat, NumericDouble, NumericAddr, NumericChar,
    UnitDistance, UnitAngle, UnitTime, EnumKind,
    DataString, DataMatrix, DataFloatArray, DataDoubleArray, DataIntArray,
    DataPointArray, DataVectorArray, DataStringArray, DataMatrixArray,
    CompoundKind, NumericInt64, NumericLast,
    Numeric2Double, Numeric2Float, Numeric2Int, Numeric2Long, Numeric2Short,
    Numeric3Double, Numeric3Float, Numeric3Int, Numeric3Long, Numeric3Short,
    Numeric4Double, MessageKind]

  /** The host's attribute function sets. */
  datatype Family =
    | NumericAttr | UnitAttr | EnumAttr | TypedAttr | MessageAttr
    | CompoundAttr | MatrixAttr
    | GenericAttr   // any other host attribute (generic, light data, ...)

  /** The host's numeric, unit and data sub-types. */
  datatype SubType =
    | Boolean | Byte | Short | Int | Long | Int64 | Float | Double | Addr | Char | Last
    | Double2 | Float2 | Int2 | Long2 | Short2
    | Double3 | Float3 | Int3 | Long3 | Short3 | Double4
    | Distance | Angle | Time
    | EnumSub
    | StringData | MatrixData | FloatArrayData | DoubleArrayData | IntArrayData
    | PointArrayData | VectorArrayData | StringArrayData | MatrixArrayData
    | MessageSub
    | NoSub          // compound, matrix and generic attributes

  datatype HostType = HostType(family: Family, sub: SubType)

  /** The vector sub-types, in code order 25..35. */
  const VectorSubs: seq<SubType> :=
    [Double2, Float2, Int2, Long2, Short2, Double3, Float3, Int3, Long3, Short3, Double4]

  /** The unit sub-types, in code order 9..11. */
  const UnitSubs: seq<SubType> := [Distance, Angle, Time]

  /** The typed-data sub-types, in code order 13..21. */
  const DataSubs: seq<SubType> :=
    [StringData, MatrixData, FloatArrayData, DoubleArrayData, IntArrayData,
     PointArrayData, VectorArrayData, StringArrayData, MatrixArrayData]

  predicate IsNumericCode(t: int) {
    (0 <= t <= 8 && t != 7) || 25 <= t <= 35
  }

  /** The codes that `MayaTypeFromType` knows. */
  predicate IsCreatableCode(t: int) {
    IsNumericCode(t) || 9 <= t <= 21 || t == MessageKind
  }

  /**
   * The host family and sub-type for a kind code, `None` for the codes the
   * if-chain does not name. Byte comes before Long, so code 3 is the
   * byte sub-type and no code yields Long.
   */
  function MayaTypeFromType(t: int): (r: Option<HostType>)
    ensures r.None? <==> !IsCreatableCode(t)
    ensures (r.Some? && r.value.family == NumericAttr) <==> IsNumericCode(t)
    ensures t == NumericByte ==> r == Some(HostType(NumericAttr, Byte))
    ensures r.Some? ==> r.value.sub != Long
    ensures 25 <= t <= 35 ==> r == Some(HostType(NumericAttr, VectorSubs[t - 25]))
    ensures 9 <= t <= 11 <==> (r.Some? && r.value.family == UnitAttr)
    ensures 9 <= t <= 11 ==> r.value.sub == UnitSubs[t - 9]
    ensures t == EnumKind <==> r == Some(HostType(EnumAttr, EnumSub))
    ensures 13 <= t <= 21 <==> (r.Some? && r.value.family == TypedAttr)
    ensures 13 <= t <= 21 ==> r.value.sub == DataSubs[t - 13]
    ensures t == MessageKind <==> r == Some(HostType(MessageAttr, MessageSub))
  {
    if t == NumericBoolean then Some(HostType(NumericAttr, Boolean))
    else if t == NumericByte then Some(HostType(NumericAttr, Byte))
    else if t == NumericShort then Some(HostType(NumericAttr, Short))
    else if t == NumericInt then Some(HostType(NumericAttr, Int))
    else if t == NumericLong then Some(HostType(NumericAttr, Long))
    else if t == NumericDouble then Some(HostType(NumericAttr, Double))
    else if t == NumericFloat then Some(HostType(NumericAttr, Float))
    else if t == NumericAddr then Some(HostType(NumericAttr, Addr))
    else if t == NumericChar then Some(HostType(NumericAttr, Char))
    else if t == Numeric2Double then Some(HostType(NumericAttr, Double2))
    else if t == Numeric2Float then Some(HostType(NumericAttr, Float2))
    else if t == Numeric2Int then Some(HostType(NumericAttr, Int2))
    else if t == Numeric2Long then Some(HostType(NumericAttr, Long2))
    else if t == Numeric2Short then Some(HostType(NumericAttr, Short2))
    else if t == Numeric3Double then Some(HostType(NumericAttr, Double3))
    else if t == Numeric3Float then Some(HostType(NumericAttr, Float3))
    else if t == Numeric3Int then Some(HostType(NumericAttr, Int3))
    else if t == Numeric3Long then Some(HostType(NumericAttr, Long3))
    else if t == Numeric3Short then Some(HostType(NumericAttr, Short3))
    else if t == Numeric4Double then Some(HostType(NumericAttr, Double4))
    else if t == UnitDistance then Some(HostType(UnitAttr, Distance))
    else if t == UnitAngle then Some(HostType(UnitAttr, Angle))
    else if t == UnitTime then Some(HostType(UnitAttr, Time))
    else if t == EnumKind then Some(HostType(EnumAttr, EnumSub))
    else if t == DataString then Some(HostType(TypedAttr, StringData))
    else if t == DataMatrix then Some(HostType(TypedAttr, MatrixData))
    else if t == DataFloatArray then Some(HostType(TypedAttr, FloatArrayData))
    else if t == DataDoubleArray then Some(HostType(TypedAttr, DoubleArrayData))
    else if t == DataIntArray then Some(HostType(TypedAttr, IntArrayData))
    else if t == DataPointArray then Some(HostType(TypedAttr, PointArrayData))
    else if t == DataVectorArray then Some(HostType(TypedAttr, VectorArrayData))
    else if t == DataStringArray then Some(HostType(TypedAttr, StringArrayData))
    else if t == DataMatrixArray then Some(HostType(TypedAttr, MatrixArrayData))
    else if t == MessageKind then Some(HostType(MessageAttr, MessageSub))
    else None
  }

  /**
   * The catalog's codes are the integers 0..36 except 7; Long and Byte are
   * two names for the one code 3, so 37 constants carry 36 distinct codes.
   */
  lemma CatalogCodes()
    ensures |Catalog| == 37 && NumericLong == NumericByte == 3
    ensures forall c :: c in Catalog <==> 0 <= c <= 36 && c != 7
  {
  }
}
