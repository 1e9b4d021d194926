/**
 * Plug primitives: reading and writing values by kind, bounds and defaults,
 * the dict record of a plug, connections, locks, free array elements and the
 * depth-bounded walk along same-named plugs.
 */
module Plugs {
  import opened Wrappers
  import opened Kinds
  import opened Store

  /** The plug one step below `r`. */
  function Sub(r: PlugRef, s: Step): PlugRef {
    PlugRef(r.node, r.attr, r.path + [s])
  }

  // ---------------------------------------------------------------------------
  // Kind codes of existing plugs

  /** The code of a numeric sub-type; int64 and "last" have none. */
  function NumericCode(sub: SubType): Option<int> {
    match sub
    case Boolean => Some(NumericBoolean)
    case Byte => Some(NumericByte)
    case Short => Some(NumericShort)
    case Int => Some(NumericInt)
    case Long => Some(NumericLong)
    case Double => Some(NumericDouble)
    case Float => Some(NumericFloat)
    case Addr => Some(NumericAddr)
    case Char => Some(NumericChar)
    case Double2 => Some(Numeric2Double)
    case Float2 => Some(Numeric2Float)
    case Int2 => Some(Numeric2Int)
    case Long2 => Some(Numeric2Long)
    case Short2 => Some(Numeric2Short)
    case Double3 => Some(Numeric3Double)
    case Float3 => Some(Numeric3Float)
    case Int3 => Some(Numeric3Int)
    case Long3 => Some(Numeric3Long)
    case Short3 => Some(Numeric3Short)
    case Double4 => Some(Numeric4Double)
    case _ => None
  }

  function UnitCode(sub: SubType): Option<int> {
    match sub
    case Distance => Some(UnitDistance)
    case Angle => Some(UnitAngle)
    case Time => Some(UnitTime)
    case _ => None
  }

  function DataCode(sub: SubType): Option<int> {
    match sub
    case StringData => Some(DataString)
    case MatrixData => Some(DataMatrix)
    case FloatArrayData => Some(DataFloatArray)
    case DoubleArrayData => Some(DataDoubleArray)
    case IntArrayData => Some(DataIntArray)
    case PointArrayData => Some(DataPointArray)
    case VectorArrayData => Some(DataVectorArray)
    case StringArrayData => Some(DataStringArray)
    case MatrixArrayData => Some(DataMatrixArray)
    case _ => None
  }

  /** The kind code of an attribute: compound first, then by family and sub-type. */
  function PlugType(h: HostType): Option<int> {
    match h.family
    case CompoundAttr => Some(CompoundKind)
    case NumericAttr => NumericCode(h.sub)
    case UnitAttr => UnitCode(h.sub)
    case EnumAttr => Some(EnumKind)
    case TypedAttr => DataCode(h.sub)
    case MessageAttr => Some(MessageKind)
    case MatrixAttr => Some(DataMatrix)
    case GenericAttr => None
  }

  /** Every code the catalog creates a host type for reads back as the same code. */
  lemma PlugTypeInvertsMayaType(t: int)
    requires MayaTypeFromType(t).Some?
    ensures PlugType(MayaTypeFromType(t).value) == Some(t)
  {
    if t <= 3 {
    } else if t <= 6 {
    } else if t <= 10 {
    } else if t <= 13 {
    } else if t <= 16 {
    } else if t <= 19 {
    } else if t <= 22 {
    } else if t <= 25 {
    } else if t <= 28 {
    } else if t <= 31 {
    } else if t <= 34 {
    } else {
    }
  }

  /**
   * In the other direction the code of a host type leads back to the same host
   * type, except for a long (3 names the byte type), a compound (22 is not in the
   * catalog's chain) and a matrix attribute (14 names the typed matrix).
   */
  lemma MayaTypeInvertsPlugType(h: HostType)
    requires PlugType(h).Some? && h.family != UnitAttr && h.family != EnumAttr && h.family != MessageAttr
    ensures MayaTypeFromType(PlugType(h).value) == Some(h)
        <==> h.sub != Long && h.family != CompoundAttr && h.family != MatrixAttr
  {
    match h.family
    case NumericAttr =>
    case TypedAttr =>
    case _ =>
  }

  // ---------------------------------------------------------------------------
  // Reading values

  /** The kind part of a reading: one code, no code, or one per element or child. */
  datatype Kind = NoKind | Code(code: int) | Codes(parts: seq<Kind>)

  datatype Reading = Reading(kind: Kind, value: Value)

  /** What `getPlugAndType` returns for `p`, as a definition. */
  function Read(p: Plug): Reading
    decreases p
  {
    if p.def.isArray then
      Reading(Codes(seq(|p.elements|, i requires 0 <= i < |p.elements| => Read(p.elements[i].plug).kind)),
              Items(seq(|p.elements|, i requires 0 <= i < |p.elements| => Read(p.elements[i].plug).value)))
    else
      match p.def.host.family
      case NumericAttr =>
        var c := NumericCode(p.def.host.sub);
        if c.Some? then Reading(Code(c.value), p.value) else Reading(NoKind, Nil)
      case UnitAttr =>
        var c := UnitCode(p.def.host.sub);
        if c.Some? then Reading(Code(c.value), p.value) else Reading(NoKind, Nil)
      case EnumAttr => Reading(Code(EnumKind), p.value)
      case TypedAttr =>
        var c := DataCode(p.def.host.sub);
        if c.Some? then Reading(Code(c.value), p.value) else Reading(NoKind, Nil)
      case MessageAttr => Reading(Code(MessageKind), Nil)
      case MatrixAttr => Reading(Code(DataMatrix), p.value)
      case CompoundAttr =>
        Reading(Codes(seq(|p.children|, i requires 0 <= i < |p.children| => Read(p.children[i]).kind)),
                Items(seq(|p.children|, i requires 0 <= i < |p.children| => Read(p.children[i]).value)))
      case GenericAttr => Reading(NoKind, Nil)
  }

  /** A plug that is neither an array nor a compound reads as its own `plugType` code. */
  lemma ReadLeafKind(p: Plug)
    requires !p.def.isArray && !IsCompound(p)
    ensures Read(p).kind == (if PlugType(p.def.host).Some? then Code(PlugType(p.def.host).value) else NoKind)
    ensures PlugType(p.def.host).None? ==> Read(p).value == Nil
  {
  }

  /**
   * `getPlugAndType`: arrays and compounds fill one list of kinds and one of
   * values, element by element in physical order (children in order).
   */
  method GetPlugAndType(p: Plug) returns (kind: Kind, value: Value)
    ensures Reading(kind, value) == Read(p)
    decreases p
  {
    if p.def.isArray || IsCompound(p) {
      var parts: seq<Plug> := if p.def.isArray then seq(|p.elements|, i requires 0 <= i < |p.elements| => p.elements[i].plug) else p.children;
      var count := |parts|;
      var kinds := new Kind[count](_ => NoKind);
      var values := new Value[count](_ => Nil);
      var i := 0;
      while i < count
        invariant 0 <= i <= count
        invariant forall j :: 0 <= j < i ==> kinds[j] == Read(parts[j]).kind && values[j] == Read(parts[j]).value
      {
        assert parts[i] < p by {
          if p.def.isArray { assert p.elements[i] in p.elements; } else { assert parts[i] in p.children; }
        }
        var k, v := GetPlugAndType(parts[i]);
        kinds[i], values[i] := k, v;
        i := i + 1;
      }
      kind, value := Codes(kinds[..]), Items(values[..]);
      if p.def.isArray {
        assert kinds[..] == seq(|p.elements|, j requires 0 <= j < |p.elements| => Read(p.elements[j].plug).kind);
        assert values[..] == seq(|p.elements|, j requires 0 <= j < |p.elements| => Read(p.elements[j].plug).value);
      } else {
        assert kinds[..] == seq(|p.children|, j requires 0 <= j < |p.children| => Read(p.children[j]).kind);
        assert values[..] == seq(|p.children|, j requires 0 <= j < |p.children| => Read(p.children[j]).value);
      }
    } else {
      var r := Read(p);
      kind, value := r.kind, r.value;
    }
  }

  /** The kinds `getPythonTypeFromPlugValue` keeps from a list: a matrix or a unit quantity. */
  predicate KeptKind(k: Kind) {
    k == Code(DataMatrix) || k == Code(UnitDistance) || k == Code(UnitAngle) || k == Code(UnitTime)
  }

  /** The positions from `i` on whose kinds are kept, as an ascending list. */
  function KeptPositions(kinds: seq<Kind>, i: nat): (pos: seq<nat>)
    requires i <= |kinds|
    ensures forall j :: 0 <= j < |pos| ==> i <= pos[j] < |kinds| && KeptKind(kinds[pos[j]])
    ensures forall j, k :: 0 <= j < k < |pos| ==> pos[j] < pos[k]
    ensures forall x :: i <= x < |kinds| && KeptKind(kinds[x]) ==> x in pos
    decreases |kinds| - i
  {
    if i == |kinds| then [] else (if KeptKind(kinds[i]) then [i] else []) + KeptPositions(kinds, i + 1)
  }

  /** Keeps the values from `i` on whose kind is a matrix or a unit quantity, in order. */
  function KeepMatrixAndUnit(kinds: seq<Kind>, values: seq<Value>, i: nat): (r: seq<Value>)
    requires |kinds| == |values| && i <= |kinds|
    ensures var pos := KeptPositions(kinds, i);
      |r| == |pos| && forall j :: 0 <= j < |r| ==> r[j] == values[pos[j]]
    decreases |kinds| - i
  {
    if i == |kinds| then []
    else (if KeptKind(kinds[i]) then [values[i]] else []) + KeepMatrixAndUnit(kinds, values, i + 1)
  }

  /** The plugs an array or compound reads through: its elements in physical order, or its children. */
  function Parts(p: Plug): (ps: seq<Plug>)
    ensures |ps| == if p.def.isArray then |p.elements| else |p.children|
  {
    if p.def.isArray then seq(|p.elements|, i requires 0 <= i < |p.elements| => p.elements[i].plug) else p.children
  }

  function PartKinds(p: Plug): (ks: seq<Kind>)
    ensures |ks| == |Parts(p)|
  {
    seq(|Parts(p)|, i requires 0 <= i < |Parts(p)| => Read(Parts(p)[i]).kind)
  }

  /**
   * The value of a plug as a record holds it (`getPythonTypeFromPlugValue`):
   * None without a kind, the read value of a leaf, and for an array or a
   * compound the list of the values of its matrix and unit parts, in order.
   */
  function PythonValue(p: Plug): (v: Value)
    ensures !p.def.isArray && !IsCompound(p) ==> v == Read(p).value
    ensures p.def.isArray || IsCompound(p) ==>
      var pos := KeptPositions(PartKinds(p), 0);
      v.Items? && |v.items| == |pos| && forall j :: 0 <= j < |pos| ==> v.items[j] == Read(Parts(p)[pos[j]]).value
  {
    var rd := Read(p);
    match rd.kind
    case NoKind => Nil
    case Code(_) => rd.value
    case Codes(ks) =>
      var vs := rd.value.items;
      assert p.def.isArray || IsCompound(p) ==> ks == PartKinds(p) && vs == seq(|Parts(p)|, i requires 0 <= i < |Parts(p)| => Read(Parts(p)[i]).value);
      if |ks| == |vs| then Items(KeepMatrixAndUnit(ks, vs, 0)) else Nil
  }

  // ---------------------------------------------------------------------------
  // Defaults, bounds and enum fields

  /** The host's `isDefaultValue`: a leaf holds its default; arrays and compounds hold theirs everywhere. */
  predicate IsDefault(p: Plug)
    decreases p
  {
    if p.def.isArray then forall i :: 0 <= i < |p.elements| ==> IsDefault(p.elements[i].plug)
    else if IsCompound(p) then forall i :: 0 <= i < |p.children| ==> IsDefault(p.children[i])
    else p.value == p.def.default
  }

  predicate HasBounds(h: HostType) {
    h.family == NumericAttr || h.family == UnitAttr
  }

  /** `plugDefault`: the default of the attribute families that have one, else None. */
  function PlugDefault(p: Plug): Value {
    match p.def.host.family
    case NumericAttr => p.def.default
    case TypedAttr => p.def.default
    case UnitAttr => p.def.default
    case MatrixAttr => p.def.default
    case EnumAttr => p.def.default
    case _ => Nil
  }

  function Unwrap(o: Option<Value>): Value {
    if o.Some? then o.value else Nil
  }

  /** `getPlugMin`: the set minimum of a numeric or unit attribute, an enum's lowest field. */
  function PlugMin(p: Plug): Value {
    if HasBounds(p.def.host) then Unwrap(p.def.min)
    else if p.def.host.family == EnumAttr then Token(p.def.fieldMin)
    else Nil
  }

  /** `getPlugMax`: the set maximum of a numeric or unit attribute, an enum's highest field. */
  function PlugMax(p: Plug): Value {
    if HasBounds(p.def.host) then Unwrap(p.def.max)
    else if p.def.host.family == EnumAttr then Token(p.def.fieldMax)
    else Nil
  }

  function PlugSoftMin(p: Plug): Value {
    if HasBounds(p.def.host) then Unwrap(p.def.softMin) else Nil
  }

  function PlugSoftMax(p: Plug): Value {
    if HasBounds(p.def.host) then Unwrap(p.def.softMax) else Nil
  }

  /** The four bound setters `setMin`, `setMax`, `setSoftMin` and `setSoftMax`. */
  datatype Bound = Min | Max | SoftMin | SoftMax

  function BoundOf(d: AttrDef, b: Bound): Option<Value> {
    match b
    case Min => d.min
    case Max => d.max
    case SoftMin => d.softMin
    case SoftMax => d.softMax
  }

  /**
   * Sets one bound. Only numeric and unit attributes take it; any other plug
   * comes back unchanged with `false`.
   */
  function SetBound(p: Plug, b: Bound, v: Value): (r: (Plug, bool))
    ensures r.1 <==> HasBounds(p.def.host)
    ensures !r.1 ==> r.0 == p
    ensures r.1 ==> BoundOf(r.0.def, b) == Some(v)
    ensures forall o :: o != b ==> BoundOf(r.0.def, o) == BoundOf(p.def, o)
    ensures r.0.value == p.value && r.0.def.default == p.def.default && r.0.def.host == p.def.host && r.0.def.name == p.def.name
    ensures r.0.def.isArray == p.def.isArray && r.0.children == p.children && r.0.elements == p.elements
    ensures r.0.keyable == p.keyable && r.0.channelBox == p.channelBox
  {
    if !HasBounds(p.def.host) then (p, false)
    else
      var d := match b
        case Min => p.def.(min := Some(v))
        case Max => p.def.(max := Some(v))
        case SoftMin => p.def.(softMin := Some(v))
        case SoftMax => p.def.(softMax := Some(v));
      (p.(def := d), true)
  }

  /** The field names of an enum, by increasing value over its field range. */
  function EnumLabels(fields: map<int, string>, lo: int, hi: int): (r: seq<string>)
    ensures forall x :: x in r <==> exists i :: lo <= i <= hi && i in fields && fields[i] == x
    decreases hi - lo
  {
    if lo > hi then []
    else (if lo in fields then [fields[lo]] else []) + EnumLabels(fields, lo + 1, hi)
  }

  /**
   * `enumNames`: the names of the enum's fields from its lowest to its highest
   * value, skipping values that have no field; non-enum plugs have none.
   */
  method EnumNames(p: Plug) returns (names: seq<string>)
    ensures p.def.host.family != EnumAttr ==> names == []
    ensures p.def.host.family == EnumAttr ==> names == EnumLabels(p.def.fields, p.def.fieldMin, p.def.fieldMax)
  {
    names := [];
    if p.def.host.family == EnumAttr {
      var lo, hi := p.def.fieldMin, p.def.fieldMax;
      var i := lo;
      while i <= hi
        invariant lo <= i && (lo <= hi ==> i <= hi + 1)
        invariant names + EnumLabels(p.def.fields, i, hi) == EnumLabels(p.def.fields, lo, hi)
        decreases hi - i
      {
        if i in p.def.fields {
          names := names + [p.def.fields[i]];
        }
        i := i + 1;
      }
    }
  }

  // ---------------------------------------------------------------------------
  // Writing values

  /** `len(value)`: lists and strings have a length; anything else raises. */
  function ValueLen(v: Value): Option<nat> {
    match v
    case Items(xs) => Some(|xs|)
    case Text(s) => Some(|s|)
    case _ => None
  }

  /** `value[i]`. */
  function ValueAt(v: Value, i: nat): Value
    requires ValueLen(v).Some? && i < ValueLen(v).value
  {
    match v
    case Items(xs) => xs[i]
    case Text(s) => Text([s[i]])
  }

  /** The leaf kinds whose value `setPlugValue` stores; the numeric byte and address do not. */
  predicate StoresValue(h: HostType) {
    match h.family
    case UnitAttr => h.sub == Distance || h.sub == Time || h.sub == Angle
    case NumericAttr => (NumericCode(h.sub).Some? && h.sub != Byte && h.sub != Addr) || h.sub == Int64 || h.sub == Last
    case EnumAttr => true
    case TypedAttr => h.sub == MatrixData || h.sub == StringData
    case MatrixAttr => true
    case _ => false
  }

  /** The leaf kinds for which `setPlugValue` raises: anything not unit, numeric, enum, typed or matrix, unless it is a message given a plug. */
  predicate RejectsValue(h: HostType, v: Value) {
    !(h.family in {UnitAttr, NumericAttr, EnumAttr, TypedAttr, MatrixAttr})
    && !(h.family == MessageAttr && v.PlugValue?)
  }

  /**
   * The effect of `setPlugValue` on a plug tree: the new tree, the connections
   * message plugs asked for, in order, and the exception that stopped it.
   */
  datatype Assigned = Assigned(plug: Plug, connects: seq<Edge>, fault: Option<Fault>)

  function Assign(p: Plug, r: PlugRef, v: Value): (a: Assigned)
    ensures a.plug.def == p.def && a.plug.keyable == p.keyable && a.plug.channelBox == p.channelBox
    ensures !p.def.isArray && !IsCompound(p) && StoresValue(p.def.host) ==> a == Assigned(p.(value := v), [], None)
    ensures !p.def.isArray && !IsCompound(p) ==> a.fault == (if RejectsValue(p.def.host, v) then Some(ValueError) else None)
    decreases p, 2
  {
    if p.def.isArray || IsCompound(p) then
      var count := if p.def.isArray then |p.elements| else |p.children|;
      var n := ValueLen(v);
      if n.None? then Assigned(p, [], Some(TypeError))
      else if n.value != count then Assigned(p, [], None)
      else if p.def.isArray then AssignElems(p, r, v, 0, [])
      else AssignChildren(p, r, v, 0, [])
    else if RejectsValue(p.def.host, v) then Assigned(p, [], Some(ValueError))
    else if p.def.host.family == MessageAttr then Assigned(p, [Edge(r, v.plug)], None)
    else if StoresValue(p.def.host) then Assigned(p.(value := v), [], None)
    else Assigned(p, [], None)
  }

  /** Assigns `v[i..]` to the elements from physical index `i` on. */
  function AssignElems(p: Plug, r: PlugRef, v: Value, i: nat, acc: seq<Edge>): (a: Assigned)
    requires p.def.isArray && ValueLen(v) == Some(|p.elements|) && i <= |p.elements|
    ensures a.plug.def == p.def && a.plug.children == p.children && a.plug.keyable == p.keyable && a.plug.channelBox == p.channelBox
    decreases p, 1, |p.elements| - i
  {
    if i == |p.elements| then Assigned(p, acc, None)
    else
      var e := p.elements[i];
      assert e in p.elements;
      var sub := Assign(e.plug, Sub(r, Elem(e.index)), ValueAt(v, i));
      var p' := p.(elements := p.elements[i := Element(e.index, sub.plug)]);
      if sub.fault.Some? then Assigned(p', acc + sub.connects, sub.fault)
      else AssignElemsOn(p, p', r, v, i + 1, acc + sub.connects)
  }

  /** Continues `AssignElems` on the updated tree `q` of the original array plug `p`. */
  function AssignElemsOn(p: Plug, q: Plug, r: PlugRef, v: Value, i: nat, acc: seq<Edge>): (a: Assigned)
    requires p.def.isArray && ValueLen(v) == Some(|p.elements|) && i <= |p.elements|
    requires q.def == p.def && |q.elements| == |p.elements| && q.children == p.children
    requires q.keyable == p.keyable && q.channelBox == p.channelBox
    requires forall j :: i <= j < |p.elements| ==> q.elements[j] == p.elements[j]
    ensures a.plug.def == p.def && a.plug.children == p.children && a.plug.keyable == p.keyable && a.plug.channelBox == p.channelBox
    decreases p, 0, |p.elements| - i
  {
    if i == |p.elements| then Assigned(q, acc, None)
    else
      var e := p.elements[i];
      assert e in p.elements;
      var sub := Assign(e.plug, Sub(r, Elem(e.index)), ValueAt(v, i));
      var q' := q.(elements := q.elements[i := Element(e.index, sub.plug)]);
      if sub.fault.Some? then Assigned(q', acc + sub.connects, sub.fault)
      else AssignElemsOn(p, q', r, v, i + 1, acc + sub.connects)
  }

  /** Assigns `v[i..]` to the children from position `i` on. */
  function AssignChildren(p: Plug, r: PlugRef, v: Value, i: nat, acc: seq<Edge>): (a: Assigned)
    requires !p.def.isArray && ValueLen(v) == Some(|p.children|) && i <= |p.children|
    ensures a.plug.def == p.def && a.plug.elements == p.elements && a.plug.keyable == p.keyable && a.plug.channelBox == p.channelBox
    decreases p, 1, |p.children| - i
  {
    AssignChildrenOn(p, p, r, v, i, acc)
  }

  function AssignChildrenOn(p: Plug, q: Plug, r: PlugRef, v: Value, i: nat, acc: seq<Edge>): (a: Assigned)
    requires !p.def.isArray && ValueLen(v) == Some(|p.children|) && i <= |p.children|
    requires q.def == p.def && |q.children| == |p.children| && q.elements == p.elements
    requires q.keyable == p.keyable && q.channelBox == p.channelBox
    ensures a.plug.def == p.def && a.plug.elements == p.elements && a.plug.keyable == p.keyable && a.plug.channelBox == p.channelBox
    decreases p, 0, |p.children| - i
  {
    if i == |p.children| then Assigned(q, acc, None)
    else
      var c := p.children[i];
      assert c in p.children;
      var sub := Assign(c, Sub(r, Child(i)), ValueAt(v, i));
      var q' := q.(children := q.children[i := sub.plug]);
      if sub.fault.Some? then Assigned(q', acc + sub.connects, sub.fault)
      else AssignChildrenOn(p, q', r, v, i + 1, acc + sub.connects)
  }

  /**
   * Writing a value to a leaf that stores it and reading it back gives the
   * value and the plug's kind. Int64 and "last" numeric plugs store a value but
   * read as None, so they are excluded.
   */
  lemma SetThenRead(p: Plug, r: PlugRef, v: Value)
    requires !p.def.isArray && !IsCompound(p) && StoresValue(p.def.host) && PlugType(p.def.host).Some?
    ensures var a := Assign(p, r, v);
      a.fault.None? && a.connects == [] && Read(a.plug) == Reading(Code(PlugType(p.def.host).value), v)
  {
  }

  /** A single string plug takes a string as its value, with no connection and no error. */
  lemma AssignString(p: Plug, r: PlugRef, v: Value)
    requires !p.def.isArray && p.def.host == HostType(TypedAttr, StringData) && v.Text?
    ensures Assign(p, r, v) == Assigned(p.(value := v), [], None)
  {
    assert !IsCompound(p) && !RejectsValue(p.def.host, v) && StoresValue(p.def.host);
  }

  /** An array or compound whose count differs from the value's length is left alone. */
  lemma AssignCountMismatch(p: Plug, r: PlugRef, v: Value)
    requires p.def.isArray || IsCompound(p)
    requires ValueLen(v).Some? && ValueLen(v).value != (if p.def.isArray then |p.elements| else |p.children|)
    ensures Assign(p, r, v) == Assigned(p, [], None)
  {
  }

  // ---------------------------------------------------------------------------
  // Connections as edits of the edge list

  /**
   * `connectPlugs` with `force`: the destination's incoming edge, if any, is
   * replaced by the new edge, and both plugs exist afterwards.
   */
  function ConnectStep(nodes: map<NodeId, NodeRec>, edges: seq<Edge>, e: Edge): (map<NodeId, NodeRec>, seq<Edge>) {
    (Touch(Touch(nodes, e.src), e.dst), Drop(edges, Into(e.dst)) + [e])
  }

  /** After the step the destination's only source is the new one, and no other edge is touched. */
  lemma ConnectStepSpec(nodes: map<NodeId, NodeRec>, edges: seq<Edge>, e: Edge)
    requires DestUnique(edges)
    ensures var es := ConnectStep(nodes, edges, e).1;
      DestUnique(es) && SourceOf(es, e.dst) == Some(e.src)
      && forall x :: x in es <==> x == e || (x in edges && x.dst != e.dst)
  {
    var kept := Drop(edges, Into(e.dst));
    DropUnique(edges, Into(e.dst));
    AppendUnique(kept, e);
    SourceUnique(kept + [e], e.src, e.dst);
  }

  /** A list of forced connections, made in order. */
  function ConnectAll(nodes: map<NodeId, NodeRec>, edges: seq<Edge>, es: seq<Edge>): (map<NodeId, NodeRec>, seq<Edge>)
    decreases |es|
  {
    if es == [] then (nodes, edges)
    else
      var st := ConnectStep(nodes, edges, es[0]);
      ConnectAll(st.0, st.1, es[1..])
  }

  lemma {:induction false} ConnectAllSameNames(nodes: map<NodeId, NodeRec>, edges: seq<Edge>, es: seq<Edge>)
    ensures SameNames(nodes, ConnectAll(nodes, edges, es).0)
    decreases |es|
  {
    if es != [] {
      var st := ConnectStep(nodes, edges, es[0]);
      TouchSameNames(nodes, es[0].src);
      TouchSameNames(Touch(nodes, es[0].src), es[0].dst);
      ConnectAllSameNames(st.0, st.1, es[1..]);
      SameNamesTrans(nodes, st.0, ConnectAll(st.0, st.1, es[1..]).0);
    }
  }

  /** A top-level plug carries its attribute's name. */
  lemma PlugAtName(nodes: map<NodeId, NodeRec>, r: PlugRef)
    requires PlugAt(nodes, r).Some? && r.path == []
    ensures PlugAt(nodes, r).value.def.name == r.attr
  {
  }

  lemma {:induction false} ConnectAllUnique(nodes: map<NodeId, NodeRec>, edges: seq<Edge>, es: seq<Edge>)
    requires DestUnique(edges)
    ensures DestUnique(ConnectAll(nodes, edges, es).1)
    decreases |es|
  {
    if es != [] {
      ConnectStepSpec(nodes, edges, es[0]);
      var st := ConnectStep(nodes, edges, es[0]);
      ConnectAllUnique(st.0, st.1, es[1..]);
    }
  }

  // ---------------------------------------------------------------------------
  // The dict record of a plug

  /**
   * The structural form of a plug's partial name: the top-level attribute, the
   * path below it, and the long name of the attribute the plug ends on.
   */
  datatype PlugName = PlugName(attr: string, path: seq<Step>, leaf: string)

  datatype Bounds = Bounds(min: Value, max: Value, softMin: Value, softMax: Value)

  /**
   * A serialised plug. `NoRecord` is the empty dict. Absent keys of the other
   * form are `None` (for `children`, `bounds`, `kind`, `enums`) or `Nil`.
   */
  datatype PlugRecord =
    | NoRecord
    | PlugRecord(
        isDynamic: bool,
        children: Option<seq<PlugRecord>>,
        bounds: Option<Bounds>,
        name: PlugName,
        channelBox: bool,
        keyable: bool,
        locked: bool,
        isArray: bool,
        default: Value,
        kind: Option<int>,     // the "Type" key
        value: Value,
        enums: Option<seq<string>>)

  /** The keyword arguments `{"Type": t}` alone. */
  function KindOnly(t: int): PlugRecord {
    PlugRecord(false, None, None, PlugName("", [], ""), false, false, false, false, Nil, Some(t), Nil, None)
  }

  /**
   * `serializePlug`. A static plug at its default, and a static array, give the
   * empty record; compounds carry their children's records; a dynamic
   * non-compound carries its bounds; an enum carries its field names.
   */
  function SerializePlug(p: Plug, r: PlugRef, locks: set<PlugRef>): (rec: PlugRecord)
    ensures rec.NoRecord? <==> !p.def.isDynamic && (IsDefault(p) || p.def.isArray)
    ensures rec.PlugRecord? ==>
      && (rec.children.Some? <==> IsCompound(p))
      && (rec.bounds.Some? <==> p.def.isDynamic && !IsCompound(p))
      && (rec.enums.Some? <==> p.def.host.family == EnumAttr)
      && rec.name == PlugName(r.attr, r.path, p.def.name)
      && rec.locked == (r in locks) && rec.keyable == p.keyable && rec.channelBox == p.channelBox
      && rec.isArray == p.def.isArray && rec.isDynamic == p.def.isDynamic
      && rec.kind == PlugType(p.def.host) && rec.default == PlugDefault(p) && rec.value == PythonValue(p)
    decreases p
  {
    if !p.def.isDynamic && (IsDefault(p) || p.def.isArray) then NoRecord
    else
      var children :=
        if IsCompound(p) then
          Some(seq(|p.children|, i requires 0 <= i < |p.children| => SerializePlug(p.children[i], Sub(r, Child(i)), locks)))
        else None;
      var bounds :=
        if p.def.isDynamic && !IsCompound(p) then Some(Bounds(PlugMin(p), PlugMax(p), PlugSoftMin(p), PlugSoftMax(p)))
        else None;
      var kind := PlugType(p.def.host);
      PlugRecord(p.def.isDynamic, children, bounds, PlugName(r.attr, r.path, p.def.name), p.channelBox, p.keyable, r in locks,
                 p.def.isArray, PlugDefault(p), kind, PythonValue(p),
                 if kind == Some(EnumKind) then Some(EnumLabels(p.def.fields, p.def.fieldMin, p.def.fieldMax)) else None)
  }

  // ---------------------------------------------------------------------------
  // Applying a record to a plug

  /**
   * `setPlugDefault` after the record's conversions. Numeric, matrix and unit
   * attributes and typed string attributes store the default; an enum stores an
   * int or a string. A typed attribute given anything but a string, an enum
   * given anything else, and a unit attribute given a value of another unit
   * raise, and the caller only logs that. Other families are left alone.
   */
  function SetPlugDefault(p: Plug, d: Value, kind: int): (q: Plug)
    ensures AcceptsDefault(p.def.host, d, kind) ==> q == p.(def := p.def.(default := d)) && PlugDefault(q) == d
    ensures !AcceptsDefault(p.def.host, d, kind) ==> q == p
  {
    if AcceptsDefault(p.def.host, d, kind) then p.(def := p.def.(default := d)) else p
  }

  /** The attributes that take a default: numeric and matrix ones, string-typed ones, unit ones given a unit "Type", enums given an int or a string. */
  predicate AcceptsDefault(h: HostType, d: Value, kind: int) {
    || h.family == NumericAttr || h.family == MatrixAttr
    || (h.family == TypedAttr && kind == DataString)
    || (h.family == UnitAttr && kind in {UnitDistance, UnitAngle, UnitTime})
    || (h.family == EnumAttr && (d.Token? || d.Text?))
  }

  /** The outcome of `setPlugInfoFromDict` on a plug tree. */
  datatype Applied = Applied(plug: Plug, locks: set<PlugRef>, fault: Option<Fault>)

  function OptBound(bs: Option<Bounds>, b: Bound): Value {
    if bs.None? then Nil
    else match b
      case Min => bs.value.min
      case Max => bs.value.max
      case SoftMin => bs.value.softMin
      case SoftMax => bs.value.softMax
  }

  /** Bound `b` once a record's bounds are set: the record's value where it has one and the attribute takes bounds, else as before. */
  function RecordBound(d: AttrDef, bs: Option<Bounds>, b: Bound): Option<Value> {
    if HasBounds(d.host) && OptBound(bs, b) != Nil then Some(OptBound(bs, b)) else BoundOf(d, b)
  }

  /** The default once a record is applied: the record's, when it and the "Type" key are set and the attribute accepts it, else as before. */
  function RecordDefault(d: AttrDef, rec: PlugRecord): Value
    requires rec.PlugRecord?
  {
    if rec.default != Nil && rec.kind.Some? && AcceptsDefault(d.host, rec.default, rec.kind.value) then rec.default else d.default
  }

  /** Sets a bound whose record value is not None. */
  function ApplyBound(p: Plug, b: Bound, v: Value): (q: Plug)
    ensures q.value == p.value && q.def.default == p.def.default && q.def.isArray == p.def.isArray
    ensures q.def.host == p.def.host && q.def.name == p.def.name
    ensures q.children == p.children && q.elements == p.elements
    ensures BoundOf(q.def, b) == (if HasBounds(p.def.host) && v != Nil then Some(v) else BoundOf(p.def, b))
    ensures forall o :: o != b ==> BoundOf(q.def, o) == BoundOf(p.def, o)
  {
    if v == Nil then p else SetBound(p, b, v).0
  }

  /** The record a compound hands to child `i` when it has no child records: a copy with `value[i]` and `default[i]`. */
  function ChildCopy(rec: PlugRecord, i: nat): Result<PlugRecord>
    requires rec.PlugRecord?
  {
    var lv := ValueLen(rec.value);
    var ld := ValueLen(rec.default);
    if rec.value != Nil && lv.None? then Err(TypeError)
    else if rec.default != Nil && ld.None? then Err(TypeError)
    else
      var v := if rec.value != Nil && i < lv.value then ValueAt(rec.value, i) else rec.value;
      var d := if rec.default != Nil && i < ld.value then ValueAt(rec.default, i) else rec.default;
      Ok(rec.(value := v, default := d))
  }

  /**
   * `setPlugInfoFromDict`: children first, then the default, the value, the
   * bounds and finally the channel-box, keyable and lock flags (each False
   * when the record lacks it). An exception stops the rest and keeps what was
   * already set.
   */
  function ApplyPlugInfo(p: Plug, r: PlugRef, rec: PlugRecord, locks: set<PlugRef>): (a: Applied)
    ensures a.plug.def.isArray == p.def.isArray && a.plug.def.host == p.def.host && a.plug.def.name == p.def.name
    ensures rec.NoRecord? ==> a == Applied(p.(channelBox := false, keyable := false), locks - {r}, None)
    ensures rec.PlugRecord? && !IsCompound(p) ==> a.fault == OwnFault(p, rec)
    ensures rec.PlugRecord? && !IsCompound(p) && a.fault.None? ==> OwnApplied(p, r, rec, locks, a)
    ensures rec.PlugRecord? && a.fault.None? ==> Configured(p, r, rec, a)
    decreases p, 2
  {
    if rec.NoRecord? then
      if IsCompound(p) then ApplyEmptyToChildren(p, r, locks)
      else Applied(p.(channelBox := false, keyable := false), locks - {r}, None)
    else
      var pre :=
        if !IsCompound(p) then Applied(p, locks, None)
        else if rec.children.None? || rec.children.value == [] then CopyToChildren(p, r, rec, locks, 0)
        else RecordsToChildren(p, r, rec.children.value, locks, 0);
      if pre.fault.Some? then pre
      else ApplyOwn(pre.plug, r, rec, pre.locks)
  }

  /** The empty record on a compound: every child is skipped, then the flags are cleared. */
  function ApplyEmptyToChildren(p: Plug, r: PlugRef, locks: set<PlugRef>): (a: Applied)
    ensures a.plug.def == p.def
    decreases p, 1
  {
    Applied(p.(channelBox := false, keyable := false), locks - {r}, None)
  }

  /** The record's default goes to the plug when it and the "Type" key are both set. */
  function ApplyDefault(p: Plug, rec: PlugRecord): (q: Plug)
    requires rec.PlugRecord?
    ensures q.def.default == RecordDefault(p.def, rec)
    ensures q.value == p.value && q.def.isArray == p.def.isArray && q.def.host == p.def.host && q.def.name == p.def.name
    ensures q.children == p.children && q.elements == p.elements
    ensures forall b :: BoundOf(q.def, b) == BoundOf(p.def, b)
  {
    if rec.default != Nil && rec.kind.Some? then SetPlugDefault(p, rec.default, rec.kind.value) else p
  }

  /** The four bounds of a record, each only when not None. */
  function ApplyBounds(p: Plug, bs: Option<Bounds>): (q: Plug)
    ensures q.value == p.value && q.def.default == p.def.default && q.def.isArray == p.def.isArray
    ensures q.def.host == p.def.host && q.def.name == p.def.name
    ensures q.children == p.children && q.elements == p.elements
    ensures forall b :: BoundOf(q.def, b) == RecordBound(p.def, bs, b)
  {
    BoundsInTurn(p, bs);
    SetBoundsInTurn(p, bs)
  }

  /** The four calls `ApplyBounds` makes, in order. */
  function SetBoundsInTurn(p: Plug, bs: Option<Bounds>): Plug {
    var p2 := ApplyBound(p, Min, OptBound(bs, Min));
    var p3 := ApplyBound(p2, Max, OptBound(bs, Max));
    var p4 := ApplyBound(p3, SoftMin, OptBound(bs, SoftMin));
    ApplyBound(p4, SoftMax, OptBound(bs, SoftMax))
  }

  /** What one call of `ApplyBound` does to the bounds: `b` is set when `v` is given and the attribute takes bounds, the others stay. */
  predicate BoundStep(p: Plug, q: Plug, b: Bound, v: Value) {
    && q.def.host == p.def.host
    && BoundOf(q.def, b) == (if HasBounds(p.def.host) && v != Nil then Some(v) else BoundOf(p.def, b))
    && forall o :: o != b ==> BoundOf(q.def, o) == BoundOf(p.def, o)
  }

  /** Four steps, one per bound, set each bound as the record says. */
  lemma BoundSteps(p: Plug, p2: Plug, p3: Plug, p4: Plug, q: Plug, bs: Option<Bounds>)
    requires BoundStep(p, p2, Min, OptBound(bs, Min)) && BoundStep(p2, p3, Max, OptBound(bs, Max))
    requires BoundStep(p3, p4, SoftMin, OptBound(bs, SoftMin)) && BoundStep(p4, q, SoftMax, OptBound(bs, SoftMax))
    ensures forall b :: BoundOf(q.def, b) == RecordBound(p.def, bs, b)
  {
    forall b
      ensures BoundOf(q.def, b) == RecordBound(p.def, bs, b)
    {
      match b
      case Min =>
      case Max =>
      case SoftMin =>
      case SoftMax =>
    }
  }

  /** Each bound is set by its own call and left alone by the other three. */
  lemma BoundsInTurn(p: Plug, bs: Option<Bounds>)
    ensures forall b :: BoundOf(SetBoundsInTurn(p, bs).def, b) == RecordBound(p.def, bs, b)
  {
    var p2 := ApplyBound(p, Min, OptBound(bs, Min));
    var p3 := ApplyBound(p2, Max, OptBound(bs, Max));
    var p4 := ApplyBound(p3, SoftMin, OptBound(bs, SoftMin));
    BoundSteps(p, p2, p3, p4, ApplyBound(p4, SoftMax, OptBound(bs, SoftMax)), bs);
  }

  /**
   * Steps two to five of `setPlugInfoFromDict`, on a plug whose children are
   * done. A matrix or unit "Type" converts the value as well as the default,
   * which raises for a missing value.
   */
  function ApplyOwn(p: Plug, r: PlugRef, rec: PlugRecord, locks: set<PlugRef>): (a: Applied)
    requires rec.PlugRecord?
    ensures a.plug.def.isArray == p.def.isArray && a.plug.def.host == p.def.host && a.plug.def.name == p.def.name
    ensures IsCompound(p) ==> a.plug.children == p.children
    ensures a.fault == OwnFault(p, rec)
    ensures a.fault.None? ==> OwnApplied(p, r, rec, locks, a)
  {
    if rec.default != Nil && ConvertsValue(rec) && rec.value == Nil then
      Applied(p, locks, Some(TypeError))
    else
      var p1 := ApplyDefault(p, rec);
      var asg := if WritesValue(p1, rec) then Assign(p1, r, rec.value) else Assigned(p1, [], None);
      if asg.fault.Some? then Applied(asg.plug, locks, asg.fault)
      else
        var p5 := ApplyBounds(asg.plug, rec.bounds);
        Applied(p5.(channelBox := rec.channelBox, keyable := rec.keyable),
                if rec.locked then locks + {r} else locks - {r}, None)
  }

  /** A matrix or unit "Type" converts the value as well as the default. */
  predicate ConvertsValue(rec: PlugRecord)
    requires rec.PlugRecord?
  {
    rec.kind.Some? && rec.kind.value in {DataMatrix, UnitAngle, UnitDistance, UnitTime}
  }

  /** The record's value is written to a leaf that is not a message. */
  predicate WritesValue(p: Plug, rec: PlugRecord)
    requires rec.PlugRecord?
  {
    rec.value != Nil && p.def.host.family != MessageAttr && !IsCompound(p) && !p.def.isArray
  }

  /**
   * What steps two to five raise: `TypeError` converting a default without a
   * value, `ValueError` writing a value the attribute rejects.
   */
  function OwnFault(p: Plug, rec: PlugRecord): Option<Fault>
    requires rec.PlugRecord?
  {
    if rec.default != Nil && ConvertsValue(rec) && rec.value == Nil then Some(TypeError)
    else if WritesValue(p, rec) && RejectsValue(p.def.host, rec.value) then Some(ValueError)
    else None
  }

  /**
   * The plug `p` at `r` once a record was applied without error: the flags and
   * the lock are the record's, the default is the record's where accepted,
   * each bound is the record's where given, and a leaf that stores its value
   * holds the record's value.
   */
  predicate Configured(p: Plug, r: PlugRef, rec: PlugRecord, a: Applied)
    requires rec.PlugRecord?
  {
    && a.plug.keyable == rec.keyable && a.plug.channelBox == rec.channelBox
    && (r in a.locks <==> rec.locked)
    && a.plug.def.default == RecordDefault(p.def, rec)
    && (forall b :: BoundOf(a.plug.def, b) == RecordBound(p.def, rec.bounds, b))
    && (WritesValue(p, rec) && StoresValue(p.def.host) ==> a.plug.value == rec.value)
  }

  /** Steps two to five without error: the plug is configured, and only the lock flag of `r` changes. */
  predicate OwnApplied(p: Plug, r: PlugRef, rec: PlugRecord, locks: set<PlugRef>, a: Applied)
    requires rec.PlugRecord?
  {
    Configured(p, r, rec, a) && a.locks == (if rec.locked then locks + {r} else locks - {r})
  }

  /** Children without records of their own: each gets a copy of the record, cut to its own value and default. */
  function CopyToChildren(p: Plug, r: PlugRef, rec: PlugRecord, locks: set<PlugRef>, i: nat): (a: Applied)
    requires rec.PlugRecord? && i <= |p.children|
    ensures a.plug.def == p.def
    decreases p, 1, |p.children| - i
  {
    CopyToChildrenOn(p, p, r, rec, locks, i)
  }

  function CopyToChildrenOn(p: Plug, q: Plug, r: PlugRef, rec: PlugRecord, locks: set<PlugRef>, i: nat): (a: Applied)
    requires rec.PlugRecord? && i <= |p.children|
    requires q.def == p.def && |q.children| == |p.children|
    ensures a.plug.def == p.def
    decreases p, 0, |p.children| - i
  {
    if i == |p.children| then Applied(q, locks, None)
    else
      var c := p.children[i];
      assert c in p.children;
      var info := ChildCopy(rec, i);
      if info.Err? then Applied(q, locks, Some(info.fault))
      else
        var sub := ApplyPlugInfo(c, Sub(r, Child(i)), info.value, locks);
        var q' := q.(children := q.children[i := sub.plug]);
        if sub.fault.Some? then Applied(q', sub.locks, sub.fault)
        else CopyToChildrenOn(p, q', r, rec, sub.locks, i + 1)
  }

  /** Child records in order; an empty record, or one past the last child, is skipped. */
  function RecordsToChildren(p: Plug, r: PlugRef, recs: seq<PlugRecord>, locks: set<PlugRef>, i: nat): (a: Applied)
    requires i <= |recs|
    ensures a.plug.def == p.def
    decreases p, 1, |recs| - i
  {
    RecordsToChildrenOn(p, p, r, recs, locks, i)
  }

  function RecordsToChildrenOn(p: Plug, q: Plug, r: PlugRef, recs: seq<PlugRecord>, locks: set<PlugRef>, i: nat): (a: Applied)
    requires i <= |recs|
    requires q.def == p.def && |q.children| == |p.children|
    ensures a.plug.def == p.def
    decreases p, 0, |recs| - i
  {
    if i == |recs| then Applied(q, locks, None)
    else if recs[i].NoRecord? || i >= |p.children| then RecordsToChildrenOn(p, q, r, recs, locks, i + 1)
    else
      var c := p.children[i];
      assert c in p.children;
      var sub := ApplyPlugInfo(c, Sub(r, Child(i)), recs[i], locks);
      var q' := q.(children := q.children[i := sub.plug]);
      if sub.fault.Some? then Applied(q', sub.locks, sub.fault)
      else RecordsToChildrenOn(p, q', r, recs, sub.locks, i + 1)
  }

  /** Two applications that leave the same plug tree and raise the same exception. */
  predicate SameTree(a: Applied, b: Applied) {
    a.plug == b.plug && a.fault == b.fault
  }

  /** The plug tree and the exception that applying a record gives do not depend on the lock flags it starts from. */
  lemma {:induction false} ApplyLocksFree(p: Plug, r: PlugRef, rec: PlugRecord, l1: set<PlugRef>, l2: set<PlugRef>)
    ensures SameTree(ApplyPlugInfo(p, r, rec, l1), ApplyPlugInfo(p, r, rec, l2))
    decreases p, 2
  {
    if rec.PlugRecord? && IsCompound(p) {
      if rec.children.None? || rec.children.value == [] {
        CopyLocksFree(p, p, r, rec, l1, l2, 0);
      } else {
        RecordsLocksFree(p, p, r, rec.children.value, l1, l2, 0);
      }
    }
  }

  lemma {:induction false} CopyLocksFree(p: Plug, q: Plug, r: PlugRef, rec: PlugRecord, l1: set<PlugRef>, l2: set<PlugRef>, i: nat)
    requires rec.PlugRecord? && i <= |p.children|
    requires q.def == p.def && |q.children| == |p.children|
    ensures SameTree(CopyToChildrenOn(p, q, r, rec, l1, i), CopyToChildrenOn(p, q, r, rec, l2, i))
    decreases p, 1, |p.children| - i
  {
    if i < |p.children| && ChildCopy(rec, i).Ok? {
      var c := p.children[i];
      assert c in p.children;
      ApplyLocksFree(c, Sub(r, Child(i)), ChildCopy(rec, i).value, l1, l2);
      var s1 := ApplyPlugInfo(c, Sub(r, Child(i)), ChildCopy(rec, i).value, l1);
      var s2 := ApplyPlugInfo(c, Sub(r, Child(i)), ChildCopy(rec, i).value, l2);
      if s1.fault.None? {
        CopyLocksFree(p, q.(children := q.children[i := s1.plug]), r, rec, s1.locks, s2.locks, i + 1);
      }
    }
  }

  lemma {:induction false} RecordsLocksFree(p: Plug, q: Plug, r: PlugRef, recs: seq<PlugRecord>, l1: set<PlugRef>, l2: set<PlugRef>, i: nat)
    requires i <= |recs|
    requires q.def == p.def && |q.children| == |p.children|
    ensures SameTree(RecordsToChildrenOn(p, q, r, recs, l1, i), RecordsToChildrenOn(p, q, r, recs, l2, i))
    decreases p, 1, |recs| - i
  {
    if i < |recs| {
      if recs[i].NoRecord? || i >= |p.children| {
        RecordsLocksFree(p, q, r, recs, l1, l2, i + 1);
      } else {
        var c := p.children[i];
        assert c in p.children;
        ApplyLocksFree(c, Sub(r, Child(i)), recs[i], l1, l2);
        var s1 := ApplyPlugInfo(c, Sub(r, Child(i)), recs[i], l1);
        var s2 := ApplyPlugInfo(c, Sub(r, Child(i)), recs[i], l2);
        if s1.fault.None? {
          RecordsLocksFree(p, q.(children := q.children[i := s1.plug]), r, recs, s1.locks, s2.locks, i + 1);
        }
      }
    }
  }

  /** The lock flag of `y` is the same in both sets. */
  predicate LockSame(l1: set<PlugRef>, l2: set<PlugRef>, y: PlugRef) {
    y in l1 <==> y in l2
  }

  /** A record applied at `r` changes no lock outside `r`'s own attribute. */
  lemma {:induction false} ApplyLocksLocal(p: Plug, r: PlugRef, rec: PlugRecord, locks: set<PlugRef>, y: PlugRef)
    requires y.node != r.node || y.attr != r.attr
    ensures LockSame(ApplyPlugInfo(p, r, rec, locks).locks, locks, y)
    decreases p, 2
  {
    if rec.PlugRecord? && IsCompound(p) {
      if rec.children.None? || rec.children.value == [] {
        CopyLocksLocal(p, p, r, rec, locks, 0, y);
      } else {
        RecordsLocksLocal(p, p, r, rec.children.value, locks, 0, y);
      }
    }
  }

  lemma {:induction false} CopyLocksLocal(p: Plug, q: Plug, r: PlugRef, rec: PlugRecord, locks: set<PlugRef>, i: nat, y: PlugRef)
    requires rec.PlugRecord? && i <= |p.children|
    requires q.def == p.def && |q.children| == |p.children|
    requires y.node != r.node || y.attr != r.attr
    ensures LockSame(CopyToChildrenOn(p, q, r, rec, locks, i).locks, locks, y)
    decreases p, 1, |p.children| - i
  {
    if i < |p.children| && ChildCopy(rec, i).Ok? {
      var c := p.children[i];
      assert c in p.children;
      ApplyLocksLocal(c, Sub(r, Child(i)), ChildCopy(rec, i).value, locks, y);
      var s1 := ApplyPlugInfo(c, Sub(r, Child(i)), ChildCopy(rec, i).value, locks);
      if s1.fault.None? {
        CopyLocksLocal(p, q.(children := q.children[i := s1.plug]), r, rec, s1.locks, i + 1, y);
      }
    }
  }

  lemma {:induction false} RecordsLocksLocal(p: Plug, q: Plug, r: PlugRef, recs: seq<PlugRecord>, locks: set<PlugRef>, i: nat, y: PlugRef)
    requires i <= |recs|
    requires q.def == p.def && |q.children| == |p.children|
    requires y.node != r.node || y.attr != r.attr
    ensures LockSame(RecordsToChildrenOn(p, q, r, recs, locks, i).locks, locks, y)
    decreases p, 1, |recs| - i
  {
    if i < |recs| {
      if recs[i].NoRecord? || i >= |p.children| {
        RecordsLocksLocal(p, q, r, recs, locks, i + 1, y);
      } else {
        var c := p.children[i];
        assert c in p.children;
        ApplyLocksLocal(c, Sub(r, Child(i)), recs[i], locks, y);
        var s1 := ApplyPlugInfo(c, Sub(r, Child(i)), recs[i], locks);
        if s1.fault.None? {
          RecordsLocksLocal(p, q.(children := q.children[i := s1.plug]), r, recs, s1.locks, i + 1, y);
        }
      }
    }
  }

  /**
   * What child `i` of a compound becomes under the compound's record: with no
   * child records, the child configured from its cut copy of the record; with
   * child records, the child configured from its own non-empty record, and
   * otherwise left as it was.
   */
  function ChildGets(p: Plug, r: PlugRef, rec: PlugRecord, i: nat): Plug
    requires rec.PlugRecord? && i < |p.children|
  {
    if rec.children.None? || rec.children.value == [] then
      var info := ChildCopy(rec, i);
      if info.Ok? then ApplyPlugInfo(p.children[i], Sub(r, Child(i)), info.value, {}).plug else p.children[i]
    else
      var recs := rec.children.value;
      if i < |recs| && recs[i].PlugRecord? then ApplyPlugInfo(p.children[i], Sub(r, Child(i)), recs[i], {}).plug
      else p.children[i]
  }

  /** Applying a record to a compound without error gives every child what `ChildGets` says, and every cut copy succeeded. */
  lemma ChildrenReceive(p: Plug, r: PlugRef, rec: PlugRecord, locks: set<PlugRef>)
    requires rec.PlugRecord? && IsCompound(p) && ApplyPlugInfo(p, r, rec, locks).fault.None?
    ensures var a := ApplyPlugInfo(p, r, rec, locks);
      |a.plug.children| == |p.children| && forall i :: 0 <= i < |p.children| ==> a.plug.children[i] == ChildGets(p, r, rec, i)
    ensures rec.children.None? || rec.children.value == [] ==> forall i :: 0 <= i < |p.children| ==> ChildCopy(rec, i).Ok?
  {
    if rec.children.None? || rec.children.value == [] {
      CopyReaches(p, p, r, rec, locks, 0);
    } else {
      RecordsReach(p, p, r, rec, locks, 0);
    }
  }

  /** Every child of `a`'s plug is what `ChildGets` says. */
  predicate ChildrenGot(p: Plug, r: PlugRef, rec: PlugRecord, a: Applied)
    requires rec.PlugRecord?
  {
    |a.plug.children| == |p.children| && forall j :: 0 <= j < |p.children| ==> a.plug.children[j] == ChildGets(p, r, rec, j)
  }

  lemma {:induction false} CopyReaches(p: Plug, q: Plug, r: PlugRef, rec: PlugRecord, locks: set<PlugRef>, i: nat)
    requires rec.PlugRecord? && (rec.children.None? || rec.children.value == []) && i <= |p.children|
    requires q.def == p.def && |q.children| == |p.children|
    requires forall j :: 0 <= j < i ==> ChildCopy(rec, j).Ok? && q.children[j] == ChildGets(p, r, rec, j)
    requires forall j :: i <= j < |p.children| ==> q.children[j] == p.children[j]
    requires CopyToChildrenOn(p, q, r, rec, locks, i).fault.None?
    ensures ChildrenGot(p, r, rec, CopyToChildrenOn(p, q, r, rec, locks, i))
    ensures forall j :: 0 <= j < |p.children| ==> ChildCopy(rec, j).Ok?
    decreases |p.children| - i
  {
    if i < |p.children| {
      var c := p.children[i];
      var info := ChildCopy(rec, i);
      var sub := ApplyPlugInfo(c, Sub(r, Child(i)), info.value, locks);
      ApplyLocksFree(c, Sub(r, Child(i)), info.value, locks, {});
      CopyReaches(p, q.(children := q.children[i := sub.plug]), r, rec, sub.locks, i + 1);
    }
  }

  /** The children of `q` before `i` are what `ChildGets` says, those from `i` on are still `p`'s. */
  predicate GotBefore(p: Plug, q: Plug, r: PlugRef, rec: PlugRecord, i: nat)
    requires rec.PlugRecord?
  {
    && q.def == p.def && |q.children| == |p.children|
    && (forall j :: 0 <= j < |p.children| && j < i ==> q.children[j] == ChildGets(p, r, rec, j))
    && (forall j :: i <= j < |p.children| ==> q.children[j] == p.children[j])
  }

  /** A child with its own record, once applied, is what `ChildGets` says. */
  lemma RecordsStepGets(p: Plug, q: Plug, r: PlugRef, rec: PlugRecord, locks: set<PlugRef>, i: nat)
    requires rec.PlugRecord? && rec.children.Some? && rec.children.value != []
    requires i < |rec.children.value| && i < |p.children| && rec.children.value[i].PlugRecord?
    requires GotBefore(p, q, r, rec, i)
    ensures var sub := ApplyPlugInfo(p.children[i], Sub(r, Child(i)), rec.children.value[i], locks);
      GotBefore(p, q.(children := q.children[i := sub.plug]), r, rec, i + 1)
  {
    ApplyLocksFree(p.children[i], Sub(r, Child(i)), rec.children.value[i], locks, {});
  }

  /** A child without a record of its own is already what `ChildGets` says. */
  lemma RecordsStepSkips(p: Plug, q: Plug, r: PlugRef, rec: PlugRecord, i: nat)
    requires rec.PlugRecord? && rec.children.Some? && rec.children.value != []
    requires i < |rec.children.value| && (rec.children.value[i].NoRecord? || i >= |p.children|)
    requires GotBefore(p, q, r, rec, i)
    ensures GotBefore(p, q, r, rec, i + 1)
  {
  }

  /** Past the last child record, every child is what `ChildGets` says. */
  lemma RecordsDone(p: Plug, q: Plug, r: PlugRef, rec: PlugRecord, locks: set<PlugRef>)
    requires rec.PlugRecord? && rec.children.Some? && rec.children.value != []
    requires GotBefore(p, q, r, rec, |rec.children.value|)
    ensures ChildrenGot(p, r, rec, Applied(q, locks, None))
  {
    assert forall j :: |rec.children.value| <= j < |p.children| ==> q.children[j] == ChildGets(p, r, rec, j);
  }

  lemma {:induction false} RecordsReach(p: Plug, q: Plug, r: PlugRef, rec: PlugRecord, locks: set<PlugRef>, i: nat)
    requires rec.PlugRecord? && rec.children.Some? && rec.children.value != [] && i <= |rec.children.value|
    requires GotBefore(p, q, r, rec, i)
    requires RecordsToChildrenOn(p, q, r, rec.children.value, locks, i).fault.None?
    ensures ChildrenGot(p, r, rec, RecordsToChildrenOn(p, q, r, rec.children.value, locks, i))
    decreases |rec.children.value| - i
  {
    var recs := rec.children.value;
    if i == |recs| {
      RecordsDone(p, q, r, rec, locks);
    } else if recs[i].NoRecord? || i >= |p.children| {
      RecordsStepSkips(p, q, r, rec, i);
      RecordsReach(p, q, r, rec, locks, i + 1);
    } else {
      var sub := ApplyPlugInfo(p.children[i], Sub(r, Child(i)), recs[i], locks);
      RecordsStepGets(p, q, r, rec, locks, i);
      RecordsReach(p, q.(children := q.children[i := sub.plug]), r, rec, sub.locks, i + 1);
    }
  }

  /**
   * Applying the record of a dynamic leaf plug that stores its value to a plug
   * of the same attribute (same name, type and array flag) raises nothing and
   * restores the value, the flags and the lock; the default comes back where
   * the attribute accepts it (always for numeric, unit and matrix attributes),
   * and each bound the plug had comes back.
   */
  lemma SerializeApplyRoundTrip(p: Plug, q: Plug, r: PlugRef, locks: set<PlugRef>, locks': set<PlugRef>)
    requires !p.def.isArray && !IsCompound(p) && StoresValue(p.def.host) && PlugType(p.def.host).Some? && p.def.isDynamic
    requires q.def.name == p.def.name && q.def.host == p.def.host && q.def.isArray == p.def.isArray && p.value != Nil
    ensures var a := ApplyPlugInfo(q, r, SerializePlug(p, r, locks), locks');
      && a.fault.None? && a.plug.value == p.value
      && a.plug.keyable == p.keyable && a.plug.channelBox == p.channelBox
      && (r in a.locks <==> r in locks)
      && a.plug.def.default ==
         (if p.def.default != Nil && AcceptsDefault(p.def.host, p.def.default, PlugType(p.def.host).value)
          then p.def.default else q.def.default)
      && (p.def.host.family in {NumericAttr, UnitAttr, MatrixAttr} && p.def.default != Nil ==> a.plug.def.default == p.def.default)
      && (HasBounds(p.def.host) ==>
          && PlugMin(a.plug) == (if PlugMin(p) != Nil then PlugMin(p) else PlugMin(q))
          && PlugMax(a.plug) == (if PlugMax(p) != Nil then PlugMax(p) else PlugMax(q))
          && PlugSoftMin(a.plug) == (if PlugSoftMin(p) != Nil then PlugSoftMin(p) else PlugSoftMin(q))
          && PlugSoftMax(a.plug) == (if PlugSoftMax(p) != Nil then PlugSoftMax(p) else PlugSoftMax(q)))
  {
    var rec := SerializePlug(p, r, locks);
    ReadLeafKind(p);
    assert rec.kind == PlugType(p.def.host) && rec.value == p.value && rec.default == p.def.default;
    assert WritesValue(q, rec) && !RejectsValue(q.def.host, rec.value);
    var a := ApplyPlugInfo(q, r, rec, locks');
    assert OwnApplied(q, r, rec, locks', a);
    if HasBounds(p.def.host) {
      assert BoundOf(a.plug.def, Min) == RecordBound(q.def, rec.bounds, Min);
      assert BoundOf(a.plug.def, Max) == RecordBound(q.def, rec.bounds, Max);
      assert BoundOf(a.plug.def, SoftMin) == RecordBound(q.def, rec.bounds, SoftMin);
      assert BoundOf(a.plug.def, SoftMax) == RecordBound(q.def, rec.bounds, SoftMax);
    }
  }

  // ---------------------------------------------------------------------------
  // Walking same-named plugs

  /**
   * What a walk produced: the plugs it yielded, in order, and the exception
   * that ended it.
   */
  datatype Walked = Walked(plugs: seq<PlugRef>, fault: Option<Fault>)

  /**
   * The plugs a hop looks at: the destinations going down, the source going
   * up. A plug with no source gives the null plug, on whose node the host
   * raises (None here).
   */
  function Connections(edges: seq<Edge>, r: PlugRef, down: bool): Option<seq<PlugRef>> {
    if down then Some(Destinations(edges, r))
    else
      var s := SourceOf(edges, r);
      if s.Some? then Some([s.value]) else None
  }

  /**
   * The name `iterDependencyGraph` searches: the alternative name, else the
   * plug's partial long name, which for a top-level plug or a child is the
   * long name of its attribute. The partial name of a plug under an element
   * carries the index, and no attribute has that name (None).
   */
  function SearchName(nodes: map<NodeId, NodeRec>, r: PlugRef, alternativeName: string): (name: Option<string>)
    ensures alternativeName != "" ==> name == Some(alternativeName)
    ensures alternativeName == "" && r.path == [] ==> name == Some(r.attr)
  {
    if alternativeName != "" then Some(alternativeName)
    else if r.path == [] then Some(r.attr)
    else if (forall i :: 0 <= i < |r.path| ==> r.path[i].Child?) && PlugAt(nodes, r).Some? then Some(PlugAt(nodes, r).value.def.name)
    else None
  }

  /**
   * `iterDependencyGraph`. Each hop goes to a connected plug whose node has an
   * attribute of the searched name, stops there once the depth is used up,
   * and otherwise yields that node's plug and walks on from it with one less
   * depth while it is connected. Going up from a plug with no source raises
   * `RuntimeError`, whatever the depth.
   */
  function IterDependencyGraph(nodes: map<NodeId, NodeRec>, edges: seq<Edge>, r: PlugRef, alternativeName: string,
                               depthLimit: int, down: bool): (out: Walked)
    ensures down && depthLimit < 1 ==> out == Walked([], None)
    ensures down ==> out.fault.None?
    ensures !down && SourceOf(edges, r).None? ==> out == Walked([], Some(RuntimeError))
    ensures !down && depthLimit < 1 && SourceOf(edges, r).Some? ==> out == Walked([], None)
  {
    var name := SearchName(nodes, r, alternativeName);
    if name.Some? then Walk(nodes, edges, r, name.value, depthLimit, down)
    else Walked([], if Connections(edges, r, down).None? then Some(RuntimeError) else None)
  }

  /** The walk from `r` carrying `name`. */
  function Walk(nodes: map<NodeId, NodeRec>, edges: seq<Edge>, r: PlugRef, name: string, depth: int, down: bool): (w: Walked)
    ensures down ==> w.fault.None?
    ensures Connections(edges, r, down).None? ==> w == Walked([], Some(RuntimeError))
    ensures depth < 1 && Connections(edges, r, down).Some? ==> w == Walked([], None)
    decreases if depth < 1 then 0 else depth, 1
  {
    var conns := Connections(edges, r, down);
    if conns.None? then Walked([], Some(RuntimeError))
    else Hops(nodes, edges, conns.value, name, depth, down)
  }

  /** The hops through `conns`, in order; an exception below a hop ends the walk. */
  function Hops(nodes: map<NodeId, NodeRec>, edges: seq<Edge>, conns: seq<PlugRef>, name: string, depth: int, down: bool): (w: Walked)
    ensures down ==> w.fault.None?
    ensures depth < 1 ==> w == Walked([], None)
    decreases if depth < 1 then 0 else depth, 0, |conns|
  {
    if conns == [] then Walked([], None)
    else
      var np := FindPlug(nodes, conns[0].node, name);
      if np.None? then Hops(nodes, edges, conns[1..], name, depth, down)
      else if depth < 1 then Walked([], None)
      else
        var below := if IsConnected(edges, np.value) then Walk(nodes, edges, np.value, name, depth - 1, down) else Walked([], None);
        if below.fault.Some? then Walked([np.value] + below.plugs, below.fault)
        else
          var more := Hops(nodes, edges, conns[1..], name, depth, down);
          Walked([np.value] + below.plugs + more.plugs, more.fault)
  }

  /** Every plug the walk yields is the plug `findPlug` gives for the searched name on its node. */
  lemma {:induction false} WalkYieldsNamed(nodes: map<NodeId, NodeRec>, edges: seq<Edge>, r: PlugRef, name: string, depth: int, down: bool)
    ensures forall x :: x in Walk(nodes, edges, r, name, depth, down).plugs ==> FindPlug(nodes, x.node, name) == Some(x)
    decreases if depth < 1 then 0 else depth, 1
  {
    var conns := Connections(edges, r, down);
    if conns.Some? {
      HopsYieldNamed(nodes, edges, conns.value, name, depth, down);
    }
  }

  lemma {:induction false} HopsYieldNamed(nodes: map<NodeId, NodeRec>, edges: seq<Edge>, conns: seq<PlugRef>, name: string, depth: int, down: bool)
    ensures forall x :: x in Hops(nodes, edges, conns, name, depth, down).plugs ==> FindPlug(nodes, x.node, name) == Some(x)
    decreases if depth < 1 then 0 else depth, 0, |conns|
  {
    if conns != [] && depth >= 1 {
      HopsYieldNamed(nodes, edges, conns[1..], name, depth, down);
      var np := FindPlug(nodes, conns[0].node, name);
      if np.Some? {
        WalkYieldsNamed(nodes, edges, np.value, name, depth - 1, down);
      }
    }
  }

  /** Every plug of that name has at most one outgoing edge. */
  ghost predicate AtMostOneOut(nodes: map<NodeId, NodeRec>, edges: seq<Edge>, name: string) {
    forall n: NodeId :: FindPlug(nodes, n, name).Some? ==> |Destinations(edges, FindPlug(nodes, n, name).value)| <= 1
  }

  /** Going down a graph where each plug of the name has at most one outgoing edge yields at most `depth` plugs. */
  lemma {:induction false} WalkDepthBound(nodes: map<NodeId, NodeRec>, edges: seq<Edge>, r: PlugRef, name: string, depth: int)
    requires AtMostOneOut(nodes, edges, name) && |Destinations(edges, r)| <= 1
    ensures |Walk(nodes, edges, r, name, depth, true).plugs| <= if depth < 1 then 0 else depth
    decreases if depth < 1 then 0 else depth
  {
    if depth >= 1 {
      var conns := Destinations(edges, r);
      assert Walk(nodes, edges, r, name, depth, true) == Hops(nodes, edges, conns, name, depth, true);
      if conns != [] {
        assert Hops(nodes, edges, conns[1..], name, depth, true) == Walked([], None);
        var np := FindPlug(nodes, conns[0].node, name);
        if np.Some? {
          assert |Destinations(edges, np.value)| <= 1;
          WalkDepthBound(nodes, edges, np.value, name, depth - 1);
          var below := if IsConnected(edges, np.value) then Walk(nodes, edges, np.value, name, depth - 1, true) else Walked([], None);
          assert Hops(nodes, edges, conns, name, depth, true).plugs == [np.value] + below.plugs + [];
        }
      }
    }
  }

  /** A plug with no connections walks nowhere going down, and raises going up. */
  lemma WalkUnconnected(nodes: map<NodeId, NodeRec>, edges: seq<Edge>, r: PlugRef, name: string, depth: int, down: bool)
    ensures !IsConnected(edges, r) ==>
      Walk(nodes, edges, r, name, depth, down) == if down then Walked([], None) else Walked([], Some(RuntimeError))
  {
    var ds := Destinations(edges, r);
    if ds != [] {
      assert ds[0] in ds;
      assert Edge(r, ds[0]) in edges;
    }
    var s := SourceOf(edges, r);
    if s.Some? {
      assert Edge(s.value, r) in edges;
    }
  }

  /**
   * Going up a chain ends in `RuntimeError`: once the plug found on the source's
   * node is connected but has no source of its own, the walk yields it and
   * then raises.
   */
  lemma WalkUpHead(nodes: map<NodeId, NodeRec>, edges: seq<Edge>, r: PlugRef, name: string, depth: int)
    requires depth >= 1 && SourceOf(edges, r).Some?
    requires var np := FindPlug(nodes, SourceOf(edges, r).value.node, name);
      np.Some? && IsConnected(edges, np.value) && SourceOf(edges, np.value).None?
    ensures var np := FindPlug(nodes, SourceOf(edges, r).value.node, name);
      Walk(nodes, edges, r, name, depth, false) == Walked([np.value], Some(RuntimeError))
  {
    var s := SourceOf(edges, r).value;
    var np := FindPlug(nodes, s.node, name).value;
    assert Walk(nodes, edges, np, name, depth - 1, false) == Walked([], Some(RuntimeError));
    assert Hops(nodes, edges, [s], name, depth, false) == Walked([np] + [], Some(RuntimeError));
  }

  /** The named plug of node `n`. */
  function NamedPlug(n: NodeId, name: string): PlugRef {
    PlugRef(n, name, [])
  }

  /**
   * A chain: the named plug of `ns[i]` has exactly one outgoing edge, into a
   * plug of `ns[i + 1]`, and the last one has none.
   */
  ghost predicate Chain(nodes: map<NodeId, NodeRec>, edges: seq<Edge>, ns: seq<NodeId>, name: string) {
    && |ns| >= 1
    && (forall i :: 0 <= i < |ns| ==> ns[i] in nodes && HasAttr(nodes[ns[i]], name))
    && (forall i :: 0 <= i < |ns| - 1 ==>
          |Destinations(edges, NamedPlug(ns[i], name))| == 1
          && Destinations(edges, NamedPlug(ns[i], name))[0].node == ns[i + 1])
    && Destinations(edges, NamedPlug(ns[|ns| - 1], name)) == []
  }

  lemma ChainTail(nodes: map<NodeId, NodeRec>, edges: seq<Edge>, ns: seq<NodeId>, name: string)
    requires Chain(nodes, edges, ns, name) && |ns| > 1
    ensures Chain(nodes, edges, ns[1..], name)
  {
    var t := ns[1..];
    forall i | 0 <= i < |t| - 1
      ensures |Destinations(edges, NamedPlug(t[i], name))| == 1 && Destinations(edges, NamedPlug(t[i], name))[0].node == t[i + 1]
    {
      assert t[i] == ns[i + 1] && t[i + 1] == ns[i + 2];
    }
    forall i | 0 <= i < |t|
      ensures t[i] in nodes && HasAttr(nodes[t[i]], name)
    {
      assert t[i] == ns[i + 1];
    }
    assert t[|t| - 1] == ns[|ns| - 1];
  }

  /** The named plugs of `ns[1..k + 1]`. */
  function ChainPlugs(ns: seq<NodeId>, name: string, k: nat): (out: seq<PlugRef>)
    requires k < |ns|
    ensures |out| == k && forall i :: 0 <= i < k ==> out[i] == NamedPlug(ns[i + 1], name)
  {
    seq(k, i requires 0 <= i < k => NamedPlug(ns[i + 1], name))
  }

  /** On a chain of at least two nodes, the walk from the head yields the next node's plug, then walks on from it. */
  lemma WalkStep(nodes: map<NodeId, NodeRec>, edges: seq<Edge>, ns: seq<NodeId>, name: string, depth: int)
    requires Chain(nodes, edges, ns, name) && |ns| > 1 && depth >= 1
    ensures Walk(nodes, edges, NamedPlug(ns[0], name), name, depth, true).plugs
      == [NamedPlug(ns[1], name)] + Walk(nodes, edges, NamedPlug(ns[1], name), name, depth - 1, true).plugs
  {
    var head := NamedPlug(ns[0], name);
    var ds := Destinations(edges, head);
    assert |ds| == 1 && ds[0].node == ns[1];
    assert ds[1..] == [];
    var np := NamedPlug(ns[1], name);
    assert FindPlug(nodes, ds[0].node, name) == Some(np);
    var rest := Walk(nodes, edges, np, name, depth - 1, true);
    var below := if IsConnected(edges, np) then rest else Walked([], None);
    if !IsConnected(edges, np) {
      WalkUnconnected(nodes, edges, np, name, depth - 1, true);
    }
    assert below == rest;
    assert Hops(nodes, edges, ds[1..], name, depth, true) == Walked([], None);
    assert Hops(nodes, edges, ds, name, depth, true).plugs == [np] + below.plugs + [];
  }

  lemma ChainPlugsCons(ns: seq<NodeId>, name: string, k: nat)
    requires k + 1 < |ns|
    ensures [NamedPlug(ns[1], name)] + ChainPlugs(ns[1..], name, k) == ChainPlugs(ns, name, k + 1)
  {
    var a := [NamedPlug(ns[1], name)] + ChainPlugs(ns[1..], name, k);
    var b := ChainPlugs(ns, name, k + 1);
    forall i | 0 <= i < k + 1
      ensures a[i] == b[i]
    {
      if i > 0 {
        assert a[i] == ChainPlugs(ns[1..], name, k)[i - 1] == NamedPlug(ns[1..][i], name);
      }
    }
  }

  /** Walking down a chain of `n + 1` nodes from its head yields the next `min(depth, n)` nodes' plugs. */
  lemma {:induction false} WalkChain(nodes: map<NodeId, NodeRec>, edges: seq<Edge>, ns: seq<NodeId>, name: string, depth: int)
    requires Chain(nodes, edges, ns, name)
    ensures var k := if depth < 1 then 0 else if depth < |ns| - 1 then depth else |ns| - 1;
      Walk(nodes, edges, NamedPlug(ns[0], name), name, depth, true) == Walked(ChainPlugs(ns, name, k), None)
    decreases if depth < 1 then 0 else depth
  {
    if depth < 1 {
    } else if |ns| == 1 {
      var head := NamedPlug(ns[0], name);
      assert Destinations(edges, head) == [];
      assert Walk(nodes, edges, head, name, depth, true) == Hops(nodes, edges, [], name, depth, true) == Walked([], None);
    } else {
      ChainTail(nodes, edges, ns, name);
      WalkChain(nodes, edges, ns[1..], name, depth - 1);
      WalkStep(nodes, edges, ns, name, depth);
      var k' := if depth - 1 < 1 then 0 else if depth - 1 < |ns| - 2 then depth - 1 else |ns| - 2;
      ChainPlugsCons(ns, name, k');
    }
  }

  // ---------------------------------------------------------------------------
  // Scene operations

  /**
   * `connectPlugs`: an occupied destination is refused unless `force`, in which
   * case its incoming edge is removed first.
   */
  method ConnectPlugs(s: Scene, src: PlugRef, dst: PlugRef, force: bool) returns (res: Outcome)
    requires s.Valid()
    modifies s`nodes, s`edges
    ensures s.Valid()
    ensures res.Fail? <==> !force && SourceOf(old(s.edges), dst).Some?
    ensures res.Fail? ==> res.fault == ValueError && s.nodes == old(s.nodes) && s.edges == old(s.edges)
    ensures res.Pass? ==> (s.nodes, s.edges) == ConnectStep(old(s.nodes), old(s.edges), Edge(src, dst))
    ensures res.Pass? ==> SourceOf(s.edges, dst) == Some(src)
  {
    ConnectStepSpec(s.nodes, s.edges, Edge(src, dst));
    var cur := SourceOf(s.edges, dst);
    if cur.Some? {
      if !force {
        return Fail(ValueError);
      }
      DropIntoIsExactly(s.edges, cur.value, dst);
      s.Disconnect(cur.value, dst);
    } else {
      DropNothing(s.edges, Into(dst));
    }
    s.Connect(src, dst);
    res := Pass;
  }

  /**
   * `disconnectPlug`: unlocks the plug, then drops its incoming edge (unlocking
   * the source) when `source`, and every outgoing edge (unlocking each
   * destination) when `destination`. The peers are those of the edge list the
   * call started from, as the queued disconnections are applied together.
   */
  method DisconnectPlug(s: Scene, r: PlugRef, source: bool, destination: bool) returns (ok: bool)
    requires s.Valid()
    modifies s`edges, s`locks
    ensures s.Valid() && ok
    ensures forall e :: e in s.edges <==> e in old(s.edges) && !(source && e.dst == r) && !(destination && e.src == r)
    ensures s.locks == old(s.locks) - {r}
      - (if source && SourceOf(old(s.edges), r).Some? then {SourceOf(old(s.edges), r).value} else {})
      - (if destination then set d | d in Destinations(old(s.edges), r) else {})
    ensures source ==> SourceOf(s.edges, r).None?
    ensures destination ==> Destinations(s.edges, r) == []
  {
    var e0 := s.edges;
    if r in s.locks {
      s.SetLocked(r, false);
    }
    var src := SourceOf(e0, r);
    if source && src.Some? {
      DropIncoming(s, r, src.value);
    }
    ghost var e1 := s.edges;
    if destination {
      var ds := Destinations(e0, r);
      DropOutgoing(s, r, ds);
      NoDestinations(s.edges, r);
    }
    forall e | e in e0 && e.dst == r
      ensures src.Some? && e == Edge(src.value, r)
    {
      SourceUnique(e0, e.src, r);
    }
    ok := true;
  }

  /** Unlocks the source of `r` and drops the edge from it. */
  method DropIncoming(s: Scene, r: PlugRef, src: PlugRef)
    requires s.Valid()
    modifies s`edges, s`locks
    ensures s.Valid()
    ensures s.edges == Drop(old(s.edges), Exactly(Edge(src, r))) && s.locks == old(s.locks) - {src}
  {
    if src in s.locks {
      s.SetLocked(src, false);
    }
    s.Disconnect(src, r);
  }

  /** Unlocks each of `ds` and drops the edge from `r` to it. */
  method DropOutgoing(s: Scene, r: PlugRef, ds: seq<PlugRef>)
    requires s.Valid()
    modifies s`edges, s`locks
    ensures s.Valid()
    ensures forall e :: e in s.edges <==> e in old(s.edges) && !(e.src == r && e.dst in ds)
    ensures s.locks == old(s.locks) - set d | d in ds
  {
    var i := 0;
    while i < |ds|
      invariant 0 <= i <= |ds|
      invariant s.Valid()
      invariant forall e :: e in s.edges <==> e in old(s.edges) && !(e.src == r && e.dst in ds[..i])
      invariant s.locks == old(s.locks) - set d | d in ds[..i]
    {
      if ds[i] in s.locks {
        s.SetLocked(ds[i], false);
      }
      s.Disconnect(r, ds[i]);
      assert ds[..i + 1] == ds[..i] + [ds[i]];
      i := i + 1;
    }
    assert ds[..i] == ds;
  }

  lemma NoDestinations(edges: seq<Edge>, r: PlugRef)
    requires forall e :: e in edges ==> e.src != r
    ensures Destinations(edges, r) == []
  {
  }

  /** The lock flag after `setLockState`, and whether it changed. */
  function LockStep(locks: set<PlugRef>, r: PlugRef, state: bool): (out: (set<PlugRef>, bool))
    ensures (r in out.0) == state
    ensures out.1 <==> (r in locks) != state
    ensures out.0 - {r} == locks - {r}
  {
    if (r in locks) != state then (if state then locks + {r} else locks - {r}, true) else (locks, false)
  }

  /** Setting the same state twice reports no change the second time. */
  lemma LockStepIdempotent(locks: set<PlugRef>, r: PlugRef, state: bool)
    ensures var l := LockStep(locks, r, state).0; LockStep(l, r, state) == (l, false)
  {
  }

  /** `setLockState`: sets the lock flag and reports whether it differed. */
  method SetLockState(s: Scene, r: PlugRef, state: bool) returns (changed: bool)
    modifies s`locks
    ensures (s.locks, changed) == LockStep(old(s.locks), r, state)
  {
    changed := (r in s.locks) != state;
    if changed {
      s.SetLocked(r, state);
    }
  }

  /**
   * Entering `setLockedContext`: remembers the lock flag and clears it. There is
   * no `finally`, so a caller whose body raises never calls the exit.
   */
  method LockedContextEnter(s: Scene, r: PlugRef) returns (current: bool)
    modifies s`locks
    ensures current == (r in old(s.locks)) && s.locks == old(s.locks) - {r}
  {
    current := r in s.locks;
    if current {
      s.SetLocked(r, false);
    }
  }

  /** Entering and then leaving `setLockedContext` gives back the lock set it started from. */
  lemma LockedContextRestores(l: set<PlugRef>, r: PlugRef)
    ensures (if r in l then (l - {r}) + {r} else (l - {r}) - {r}) == l
  {
  }

  /** Leaving `setLockedContext`: puts the remembered flag back. */
  method LockedContextExit(s: Scene, r: PlugRef, current: bool)
    modifies s`locks
    ensures s.locks == if current then old(s.locks) + {r} else old(s.locks) - {r}
  {
    s.SetLocked(r, current);
  }

  /**
   * `removeElementPlug` on an array plug: queues the removal of element
   * `element` when it exists, and performs it when `apply`. The array plug is
   * unlocked meanwhile and its flag restored.
   */
  method RemoveElementPlug(s: Scene, r: PlugRef, element: nat, apply: bool) returns (queued: Option<PlugRef>)
    requires s.Valid() && PlugAt(s.nodes, r).Some? && PlugAt(s.nodes, r).value.def.isArray
    modifies s`nodes, s`edges, s`locks
    ensures s.Valid()
    ensures var a := PlugAt(old(s.nodes), r).value;
      queued == if element in Indices(a.elements) then Some(Sub(r, Elem(element))) else None
    ensures apply && queued.Some? ==>
      && s.nodes == PutAt(old(s.nodes), r, DropElem(PlugAt(old(s.nodes), r).value, element))
      && s.edges == Drop(old(s.edges), Touching(Sub(r, Elem(element))))
      && s.locks == UnlockUnder(old(s.locks), Sub(r, Elem(element)))
    ensures !(apply && queued.Some?) ==> s.nodes == old(s.nodes) && s.edges == old(s.edges) && s.locks == old(s.locks)
  {
    var current := LockedContextEnter(s, r);
    var a := PlugAt(s.nodes, r).value;
    queued := if element in Indices(a.elements) then Some(Sub(r, Elem(element))) else None;
    if apply && queued.Some? {
      s.RemoveElement(r, element);
    }
    LockedContextExit(s, r, current);
    assert !Under(r, Sub(r, Elem(element)));
  }

  /**
   * `setPlugValue` on the plug at `r`: the tree is written, then the message
   * connections it asked for are made in order. An exception keeps what was
   * already written. A plug that does not exist raises `RuntimeError`.
   */
  method SetPlugValue(s: Scene, r: PlugRef, v: Value) returns (res: Outcome)
    requires s.Valid()
    modifies s`nodes, s`edges
    ensures s.Valid()
    ensures PlugAt(old(s.nodes), r).None? ==>
      res == Fail(RuntimeError) && s.nodes == old(s.nodes) && s.edges == old(s.edges)
    ensures PlugAt(old(s.nodes), r).Some? ==>
      var a := Assign(PlugAt(old(s.nodes), r).value, r, v);
      && res == (if a.fault.Some? then Fail(a.fault.value) else Pass)
      && (s.nodes, s.edges) == ConnectAll(PutAt(old(s.nodes), r, a.plug), old(s.edges), a.connects)
    ensures SameNames(old(s.nodes), s.nodes)
  {
    var p := PlugAt(s.nodes, r);
    if p.None? {
      return Fail(RuntimeError);
    }
    var a := Assign(p.value, r, v);
    if r.path == [] {
      PlugAtName(s.nodes, r);
    }
    PutAtSameNames(s.nodes, r, a.plug);
    ConnectAllSameNames(PutAt(s.nodes, r, a.plug), s.edges, a.connects);
    s.WritePlug(r, a.plug);
    ConnectEach(s, a.connects);
    res := if a.fault.Some? then Fail(a.fault.value) else Pass;
  }

  /** Forces each connection in turn, as the value setter does for a message value. */
  method ConnectEach(s: Scene, es: seq<Edge>)
    requires s.Valid()
    modifies s`nodes, s`edges
    ensures s.Valid() && (s.nodes, s.edges) == ConnectAll(old(s.nodes), old(s.edges), es)
  {
    ghost var target := ConnectAll(s.nodes, s.edges, es);
    var i := 0;
    while i < |es|
      invariant 0 <= i <= |es|
      invariant s.Valid()
      invariant ConnectAll(s.nodes, s.edges, es[i..]) == target
    {
      assert es[i..][1..] == es[i + 1..];
      var ignored := ConnectPlugs(s, es[i].src, es[i].dst, true);
      i := i + 1;
    }
  }

  /**
   * `setPlugInfoFromDict` on the plug at `r`. No message plug takes a value
   * here, so it makes no connections.
   */
  method SetPlugInfoFromDict(s: Scene, r: PlugRef, rec: PlugRecord) returns (res: Outcome)
    requires s.Valid()
    modifies s`nodes, s`locks
    ensures s.Valid()
    ensures PlugAt(old(s.nodes), r).None? ==>
      res == Fail(RuntimeError) && s.nodes == old(s.nodes) && s.locks == old(s.locks)
    ensures PlugAt(old(s.nodes), r).Some? ==>
      var a := ApplyPlugInfo(PlugAt(old(s.nodes), r).value, r, rec, old(s.locks));
      && res == (if a.fault.Some? then Fail(a.fault.value) else Pass)
      && s.nodes == PutAt(old(s.nodes), r, a.plug) && s.locks == a.locks
    ensures SameNames(old(s.nodes), s.nodes)
    ensures OnlyAttrs(old(s.nodes), s.nodes, r.node)
  {
    var p := PlugAt(s.nodes, r);
    if p.None? {
      return Fail(RuntimeError);
    }
    var a := ApplyPlugInfo(p.value, r, rec, s.locks);
    if r.path == [] {
      PlugAtName(s.nodes, r);
    }
    PutAtSameNames(s.nodes, r, a.plug);
    s.WritePlug(r, a.plug);
    s.locks := a.locks;
    res := if a.fault.Some? then Fail(a.fault.value) else Pass;
  }

  // ---------------------------------------------------------------------------
  // Free array elements

  /** Which side of a connection a free element must not have. */
  datatype Side = AsSource | AsDestination

  predicate Taken(edges: seq<Edge>, x: PlugRef, side: Side) {
    if side == AsSource then Destinations(edges, x) != [] else SourceOf(edges, x).Some?
  }

  predicate ChildTaken(edges: seq<Edge>, er: PlugRef, el: Plug, side: Side) {
    exists c :: 0 <= c < |el.children| && Taken(edges, Sub(er, Child(c)), side)
  }

  /**
   * An element is free when it has no connection on `side`, nor, when the
   * compound test applies, any of its children. For sources the test is the
   * array plug's compoundness, for destinations the element's own.
   */
  predicate Free(edges: seq<Edge>, er: PlugRef, el: Plug, side: Side, arrayCompound: bool) {
    var compound := if side == AsSource then arrayCompound else IsCompound(el);
    !Taken(edges, er, side) && !(compound && ChildTaken(edges, er, el, side))
  }

  function ElemRef(r: PlugRef, els: seq<Element>, k: nat): PlugRef
    requires k < |els|
  {
    Sub(r, Elem(els[k].index))
  }

  /** The physical position of the first free element at or after `from`, or `|els|`. */
  function FirstFree(edges: seq<Edge>, r: PlugRef, els: seq<Element>, side: Side, arrayCompound: bool, from: nat): (k: nat)
    ensures k == |els| || (from <= k < |els| && Free(edges, ElemRef(r, els, k), els[k].plug, side, arrayCompound))
    ensures forall j :: from <= j < k && j < |els| ==> !Free(edges, ElemRef(r, els, j), els[j].plug, side, arrayCompound)
    decreases |els| - from
  {
    if from >= |els| then |els|
    else if Free(edges, ElemRef(r, els, from), els[from].plug, side, arrayCompound) then from
    else FirstFree(edges, r, els, side, arrayCompound, from + 1)
  }

  /** Whether a child of the element is taken on `side`, by a scan that stops at the first. */
  method AnyChildTaken(edges: seq<Edge>, er: PlugRef, el: Plug, side: Side) returns (taken: bool)
    ensures taken == ChildTaken(edges, er, el, side)
  {
    taken := false;
    var c := 0;
    while c < |el.children|
      invariant 0 <= c <= |el.children|
      invariant forall c' :: 0 <= c' < c ==> !Taken(edges, Sub(er, Child(c')), side)
    {
      if Taken(edges, Sub(er, Child(c)), side) {
        taken := true;
        return;
      }
      c := c + 1;
    }
  }

  /** The element `nextAvailable...ElementPlug` settles on, from the physical position `from`. */
  function NextFree(edges: seq<Edge>, r: PlugRef, a: Plug, side: Side, from: nat): PlugRef {
    var k := FirstFree(edges, r, a.elements, side, IsCompound(a), from);
    if k < |a.elements| then ElemRef(r, a.elements, k) else Sub(r, Elem(|a.elements|))
  }

  /** Scans the elements from physical position `from` for a free one. */
  method ScanFree(edges: seq<Edge>, r: PlugRef, a: Plug, side: Side, from: nat) returns (e: PlugRef)
    ensures e == NextFree(edges, r, a, side, from)
  {
    var els := a.elements;
    var i := from;
    while i < |els|
      invariant from <= i
      invariant FirstFree(edges, r, els, side, IsCompound(a), from) == FirstFree(edges, r, els, side, IsCompound(a), i)
      decreases |els| - i
    {
      var er := ElemRef(r, els, i);
      var el := els[i].plug;
      var compound := if side == AsSource then IsCompound(a) else IsCompound(el);
      var connected := false;
      if compound {
        connected := AnyChildTaken(edges, er, el, side);
      }
      if !connected && !Taken(edges, er, side) {
        return er;
      }
      i := i + 1;
    }
    e := Sub(r, Elem(|els|));
  }

  /**
   * `nextAvailableElementPlug`: the first element, from physical position 1 on,
   * that is not a source (nor, for a compound array, has a child that is one);
   * element 0 is never chosen unless the array is empty. Without one, the
   * element with logical index equal to the element count.
   */
  method NextAvailableElementPlug(s: Scene, r: PlugRef) returns (e: PlugRef)
    requires PlugAt(s.nodes, r).Some?
    ensures var a := PlugAt(s.nodes, r).value;
      e == if |a.elements| == 0 then Sub(r, Elem(0)) else NextFree(s.edges, r, a, AsSource, 1)
  {
    var a := PlugAt(s.nodes, r).value;
    if |a.elements| == 0 {
      return Sub(r, Elem(0));
    }
    e := ScanFree(s.edges, r, a, AsSource, 1);
  }

  /**
   * `nextAvailableDestElementPlug`: the first element in physical order that
   * is not a destination (nor, when it is a compound, has a child that is one);
   * without one, the element with logical index equal to the element count.
   */
  method NextAvailableDestElementPlug(s: Scene, r: PlugRef) returns (e: PlugRef)
    requires PlugAt(s.nodes, r).Some?
    ensures var a := PlugAt(s.nodes, r).value;
      e == if |a.elements| == 0 then Sub(r, Elem(0)) else NextFree(s.edges, r, a, AsDestination, 0)
  {
    var a := PlugAt(s.nodes, r).value;
    if |a.elements| == 0 {
      return Sub(r, Elem(0));
    }
    e := ScanFree(s.edges, r, a, AsDestination, 0);
  }

  /** A free destination element, when one exists, is the first free one and has no incoming edge. */
  lemma NextFreeDestination(edges: seq<Edge>, r: PlugRef, a: Plug)
    requires exists k :: 0 <= k < |a.elements| && Free(edges, ElemRef(r, a.elements, k), a.elements[k].plug, AsDestination, IsCompound(a))
    ensures SourceOf(edges, NextFree(edges, r, a, AsDestination, 0)).None?
  {
  }

  /** One more than the largest logical index of the elements; 0 when there are none. */
  function PastLast(els: seq<Element>): (n: nat)
    ensures forall k :: 0 <= k < |els| ==> els[k].index < n
  {
    if els == [] then 0
    else
      var m := PastLast(els[1..]);
      assert forall k :: 1 <= k < |els| ==> els[k] == els[1..][k - 1];
      if els[0].index + 1 > m then els[0].index + 1 else m
  }

  /**
   * The element `nextAvailableDestElementPlug` is meant to return: the first
   * free element in physical order, or else the element just past the largest
   * logical index, which no existing element has. (The code falls back on the
   * logical index equal to the element count, which a sparse array may already
   * use.)
   */
  function FreeDestSlot(edges: seq<Edge>, r: PlugRef, a: Plug): PlugRef {
    var k := FirstFree(edges, r, a.elements, AsDestination, IsCompound(a), 0);
    if k < |a.elements| then ElemRef(r, a.elements, k) else Sub(r, Elem(PastLast(a.elements)))
  }

  /** The slot is never an existing element that already has an incoming edge. */
  lemma FreeDestSlotAvoidsTaken(edges: seq<Edge>, r: PlugRef, a: Plug)
    ensures forall k :: 0 <= k < |a.elements| && Taken(edges, ElemRef(r, a.elements, k), AsDestination) ==>
      FreeDestSlot(edges, r, a) != ElemRef(r, a.elements, k)
  {
    forall k | 0 <= k < |a.elements| && Taken(edges, ElemRef(r, a.elements, k), AsDestination)
      ensures FreeDestSlot(edges, r, a) != ElemRef(r, a.elements, k)
    {
      var p := PastLast(a.elements);
      assert Elem(p) != Elem(a.elements[k].index);
      assert (r.path + [Elem(p)])[|r.path|] == Elem(p);
    }
  }

  /** Where a free element exists, or the array is empty, the slot is the element the code returns. */
  lemma FreeDestSlotAgrees(edges: seq<Edge>, r: PlugRef, a: Plug)
    requires |a.elements| == 0 || FirstFree(edges, r, a.elements, AsDestination, IsCompound(a), 0) < |a.elements|
    ensures FreeDestSlot(edges, r, a) == if |a.elements| == 0 then Sub(r, Elem(0)) else NextFree(edges, r, a, AsDestination, 0)
  {
  }

  /**
   * As written, a sparse array whose one element has logical index 1 and is
   * connected gets that same occupied element back from
   * `nextAvailableDestElementPlug`.
   */
  lemma NextDestElementTaken(edges: seq<Edge>, r: PlugRef, a: Plug, src: PlugRef)
    requires |a.elements| == 1 && a.elements[0].index == 1 && !IsCompound(a.elements[0].plug)
    requires edges == [Edge(src, Sub(r, Elem(1)))]
    ensures NextFree(edges, r, a, AsDestination, 0) == Sub(r, Elem(1))
    ensures Taken(edges, NextFree(edges, r, a, AsDestination, 0), AsDestination)
  {
    assert !Free(edges, ElemRef(r, a.elements, 0), a.elements[0].plug, AsDestination, IsCompound(a));
  }
}
