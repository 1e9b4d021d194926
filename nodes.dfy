/**
 * Node primitives: creating attributes from kind codes, locking, parenting,
 * renaming and deleting nodes, listing a node's connections, and the dict
 * record of a whole node.
 */
module Nodes {
  import opened Wrappers
  import opened Kinds
  import opened Store
  import opened Plugs

  // ---------------------------------------------------------------------------
  // Creating attributes

  /**
   * The host type `addAttribute` creates for a kind code, following its own
   * if-chain: Long comes before Byte, so code 3 creates a long; code 22
   * creates a compound, 14 a matrix attribute, 23 and 24 the int64 and "last"
   * numeric types. Code 15 names a function set the host does not have and
   * raises. Any other code creates nothing.
   */
  function CreatedType(t: int): (r: Result<Option<HostType>>)
    ensures r.Err? <==> t == DataFloatArray
    ensures r.Err? ==> r.fault == AttributeError
    ensures r == Ok(None) <==> !(IsCreatableCode(t) || CompoundKind <= t <= NumericLast)
    ensures t == NumericLong ==> r == Ok(Some(HostType(NumericAttr, Long)))
    ensures r.Ok? && r.value.Some? ==> r.value.value.sub != Byte
    ensures t == CompoundKind <==> r == Ok(Some(HostType(CompoundAttr, NoSub)))
    ensures t == DataMatrix <==> r == Ok(Some(HostType(MatrixAttr, NoSub)))
    ensures t == MessageKind ==> r == Ok(Some(HostType(MessageAttr, MessageSub)))
    ensures t == DataString ==> r == Ok(Some(HostType(TypedAttr, StringData)))
  {
    if t == NumericDouble then Ok(Some(HostType(NumericAttr, Double)))
    else if t == NumericFloat then Ok(Some(HostType(NumericAttr, Float)))
    else if t == NumericBoolean then Ok(Some(HostType(NumericAttr, Boolean)))
    else if t == NumericInt then Ok(Some(HostType(NumericAttr, Int)))
    else if t == NumericShort then Ok(Some(HostType(NumericAttr, Short)))
    else if t == NumericLong then Ok(Some(HostType(NumericAttr, Long)))
    else if t == NumericByte then Ok(Some(HostType(NumericAttr, Byte)))
    else if t == NumericChar then Ok(Some(HostType(NumericAttr, Char)))
    else if t == NumericAddr then Ok(Some(HostType(NumericAttr, Addr)))
    else if t == EnumKind then Ok(Some(HostType(EnumAttr, EnumSub)))
    else if t == CompoundKind then Ok(Some(HostType(CompoundAttr, NoSub)))
    else if t == MessageKind then Ok(Some(HostType(MessageAttr, MessageSub)))
    else if t == DataString then Ok(Some(HostType(TypedAttr, StringData)))
    else if t == UnitDistance then Ok(Some(HostType(UnitAttr, Distance)))
    else if t == UnitAngle then Ok(Some(HostType(UnitAttr, Angle)))
    else if t == UnitTime then Ok(Some(HostType(UnitAttr, Time)))
    else if t == DataMatrix then Ok(Some(HostType(MatrixAttr, NoSub)))
    else if t == DataFloatArray then Err(AttributeError)
    else if t == DataDoubleArray then Ok(Some(HostType(TypedAttr, DoubleArrayData)))
    else if t == DataIntArray then Ok(Some(HostType(TypedAttr, IntArrayData)))
    else if t == DataPointArray then Ok(Some(HostType(TypedAttr, PointArrayData)))
    else if t == DataVectorArray then Ok(Some(HostType(TypedAttr, VectorArrayData)))
    else if t == DataStringArray then Ok(Some(HostType(TypedAttr, StringArrayData)))
    else if t == DataMatrixArray then Ok(Some(HostType(TypedAttr, MatrixArrayData)))
    else if t == NumericInt64 then Ok(Some(HostType(NumericAttr, Int64)))
    else if t == NumericLast then Ok(Some(HostType(NumericAttr, Last)))
    else if t == Numeric2Double then Ok(Some(HostType(NumericAttr, Double2)))
    else if t == Numeric2Float then Ok(Some(HostType(NumericAttr, Float2)))
    else if t == Numeric2Int then Ok(Some(HostType(NumericAttr, Int2)))
    else if t == Numeric2Long then Ok(Some(HostType(NumericAttr, Long2)))
    else if t == Numeric2Short then Ok(Some(HostType(NumericAttr, Short2)))
    else if t == Numeric3Double then Ok(Some(HostType(NumericAttr, Double3)))
    else if t == Numeric3Float then Ok(Some(HostType(NumericAttr, Float3)))
    else if t == Numeric3Int then Ok(Some(HostType(NumericAttr, Int3)))
    else if t == Numeric3Long then Ok(Some(HostType(NumericAttr, Long3)))
    else if t == Numeric3Short then Ok(Some(HostType(NumericAttr, Short3)))
    else if t == Numeric4Double then Ok(Some(HostType(NumericAttr, Double4)))
    else Ok(None)
  }

  /**
   * The creation chain and the catalog agree on every code except 3 (long
   * against byte), 14 (matrix attribute against typed matrix data), 15 (an error
   * against the float-array data type) and 22, 23 and 24, which the catalog does
   * not name.
   */
  lemma CreatedTypeAgainstCatalog(t: int)
    ensures t !in {NumericLong, DataMatrix, DataFloatArray, CompoundKind, NumericInt64, NumericLast}
      ==> CreatedType(t) == Ok(MayaTypeFromType(t))
    ensures t == NumericLong ==> MayaTypeFromType(t) == Some(HostType(NumericAttr, Byte))
    ensures t == DataMatrix ==> MayaTypeFromType(t) == Some(HostType(TypedAttr, MatrixData))
    ensures t in {CompoundKind, NumericInt64, NumericLast} ==> MayaTypeFromType(t).None? && CreatedType(t).Ok?
  {
  }

  /** An attribute created for a code reports that code again, except the int64 and "last" numeric types. */
  lemma CreatedTypeReadsBack(t: int)
    requires CreatedType(t).Ok? && CreatedType(t).value.Some?
    ensures PlugType(CreatedType(t).value.value) == if t in {NumericInt64, NumericLast} then None else Some(t)
  {
    CreatedTypeAgainstCatalog(t);
    if t !in {NumericLong, DataMatrix, DataFloatArray, CompoundKind, NumericInt64, NumericLast} {
      PlugTypeInvertsMayaType(t);
    } else if t == NumericInt64 {
      assert CreatedType(t) == Ok(Some(HostType(NumericAttr, Int64)));
    } else if t == NumericLast {
      assert CreatedType(t) == Ok(Some(HostType(NumericAttr, Last)));
    }
  }

  /** A freshly created dynamic attribute: no default, no bounds, no enum fields, no value. */
  function NewPlug(name: string, h: HostType, isArray: bool): (p: Plug)
    ensures p.def.name == name && p.def.host == h && p.def.isArray == isArray && p.def.isDynamic
    ensures p.elements == [] && p.children == [] && IsDefault(p)
  {
    Plug(AttrDef(name, h, isArray, true, Nil, None, None, None, None, map[], 0, 0), false, false, Nil, [], [])
  }

  /** The keyword arguments of `addAttribute` once `Type` is set to `t`. */
  function WithType(info: PlugRecord, t: int): (r: PlugRecord)
    ensures r.PlugRecord? && r.kind == Some(t)
    ensures info.PlugRecord? ==> r == info.(kind := Some(t))
  {
    if info.NoRecord? then KindOnly(t) else info.(kind := Some(t))
  }

  /** `nodes` with `p` added as the last top-level attribute of node `id`. */
  function WithAttr(nodes: map<NodeId, NodeRec>, id: NodeId, p: Plug): (m: map<NodeId, NodeRec>)
    requires id in nodes
    ensures m.Keys == nodes.Keys && OnlyAttrs(nodes, m, id)
    ensures AttrNames(m[id].attrs) == AttrNames(nodes[id].attrs) + [p.def.name]
  {
    var m := nodes[id := nodes[id].(attrs := nodes[id].attrs + [p])];
    assert AttrNames(m[id].attrs) == AttrNames(nodes[id].attrs) + [p.def.name];
    m
  }

  /** Appending an attribute does not move the existing ones, and a name not yet used finds the new one. */
  lemma {:induction false} FindAttrAppend(attrs: seq<Plug>, p: Plug, name: string)
    ensures FindAttr(attrs + [p], name) ==
      if FindAttr(attrs, name) < |attrs| then FindAttr(attrs, name)
      else if p.def.name == name then |attrs| else |attrs| + 1
  {
    if attrs != [] {
      assert (attrs + [p])[1..] == attrs[1..] + [p];
      FindAttrAppend(attrs[1..], p, name);
    }
  }

  /** After adding an attribute under a new name, that name leads to it. */
  lemma PlugAtWithAttr(nodes: map<NodeId, NodeRec>, id: NodeId, p: Plug, q: Plug)
    requires id in nodes && !HasAttr(nodes[id], p.def.name) && q.def.name == p.def.name
    ensures PlugAt(WithAttr(nodes, id, p), PlugRef(id, p.def.name, [])) == Some(p)
    ensures PutAt(WithAttr(nodes, id, p), PlugRef(id, p.def.name, []), q) == WithAttr(nodes, id, q)
  {
    var attrs := nodes[id].attrs;
    FindAttrAppend(attrs, p, p.def.name);
    assert (attrs + [p])[|attrs| := q] == attrs + [q];
  }

  /**
   * `addAttribute`. A name the node already has raises `ValueError`; code 15
   * raises; a code the chain does not handle creates nothing. Otherwise the
   * created host type is returned, and when `apply` the attribute is added to
   * the node and the keyword arguments, with `Type` set, are applied to it as
   * `setPlugInfoFromDict` does. Nothing but node `id` changes.
   */
  method AddAttribute(s: Scene, id: NodeId, longName: string, attrType: int, isArray: bool, apply: bool,
                      info: PlugRecord) returns (res: Result<Option<HostType>>)
    requires s.Valid() && id in s.nodes
    modifies s`nodes, s`locks
    ensures s.Valid()
    ensures var c := CreatedType(attrType);
      if HasAttr(old(s.nodes)[id], longName) then
        res == Err(ValueError) && s.nodes == old(s.nodes) && s.locks == old(s.locks)
      else if c.Err? || c.value.None? || !apply then
        res == c && s.nodes == old(s.nodes) && s.locks == old(s.locks)
      else
        var a := ApplyPlugInfo(NewPlug(longName, c.value.value, isArray), PlugRef(id, longName, []),
                               WithType(info, attrType), old(s.locks));
        && res == (if a.fault.Some? then Err(a.fault.value) else c)
        && s.nodes == WithAttr(old(s.nodes), id, a.plug)
        && s.locks == a.locks
    ensures OnlyAttrs(old(s.nodes), s.nodes, id) && NamesGrow(old(s.nodes), s.nodes)
    ensures var c := CreatedType(attrType);
      !HasAttr(old(s.nodes)[id], longName) && c.Ok? && c.value.Some? && apply ==>
        var q := PlugAt(s.nodes, PlugRef(id, longName, []));
        q.Some? && q.value.def.host == c.value.value && q.value.def.isArray == isArray
  {
    if HasAttr(s.nodes[id], longName) {
      return Err(ValueError);
    }
    var c := CreatedType(attrType);
    if c.Err? || c.value.None? || !apply {
      return c;
    }
    var p := NewPlug(longName, c.value.value, isArray);
    var r := PlugRef(id, longName, []);
    ghost var before := s.nodes;
    s.AddAttr(id, p);
    PlugAtWithAttr(before, id, p, ApplyPlugInfo(p, r, WithType(info, attrType), s.locks).plug);
    ghost var q := ApplyPlugInfo(p, r, WithType(info, attrType), s.locks).plug;
    var out := SetPlugInfoFromDict(s, r, WithType(info, attrType));
    PlugAtWithAttr(before, id, q, q);
    WithAttrGrows(before, id, q);
    res := if out.Fail? then Err(out.fault) else c;
  }

  /** An attribute that `addAttribute` added is found under its name afterwards. */
  lemma AddedAttributeExists(nodes: map<NodeId, NodeRec>, id: NodeId, p: Plug)
    requires id in nodes && !HasAttr(nodes[id], p.def.name)
    ensures HasAttr(WithAttr(nodes, id, p)[id], p.def.name)
    ensures forall name :: HasAttr(nodes[id], name) ==> HasAttr(WithAttr(nodes, id, p)[id], name)
  {
    FindAttrAppend(nodes[id].attrs, p, p.def.name);
    forall name | HasAttr(nodes[id], name)
      ensures HasAttr(WithAttr(nodes, id, p)[id], name)
    {
      FindAttrAppend(nodes[id].attrs, p, name);
    }
  }

  // ---------------------------------------------------------------------------
  // Node state

  /**
   * `lockNode`: sets the node's lock state and reports whether it differed. A
   * handle to no live node raises `RuntimeError`.
   */
  method LockNode(s: Scene, id: NodeId, state: bool) returns (res: Result<bool>)
    requires s.Valid()
    modifies s`nodes
    ensures s.Valid()
    ensures id !in old(s.nodes) ==> res == Err(RuntimeError) && s.nodes == old(s.nodes)
    ensures id in old(s.nodes) ==> res == Ok(old(s.nodes)[id].locked != state)
    ensures res == Ok(true) ==> s.nodes == old(s.nodes)[id := old(s.nodes)[id].(locked := state)]
    ensures res != Ok(true) ==> s.nodes == old(s.nodes)
    ensures id in old(s.nodes) ==> id in s.nodes && s.nodes[id].locked == state
  {
    if id !in s.nodes {
      return Err(RuntimeError);
    }
    if s.nodes[id].locked != state {
      s.SetNodeLocked(id, state);
      return Ok(true);
    }
    res := Ok(false);
  }

  /**
   * `setParent`: a node given as its own parent is refused with `false` and no
   * change; otherwise the node is reparented (`None` is the world) and the result
   * is `true`. The host raises `RuntimeError` for a node that is not a live DAG
   * node, for a parent that is not one, and for a parent below the node.
   */
  method SetParent(s: Scene, child: NodeId, newParent: Option<NodeId>) returns (res: Result<bool>)
    requires s.Valid()
    modifies s`nodes
    ensures s.Valid()
    ensures newParent == Some(child) ==> res == Ok(false)
    ensures res.Ok? <==> newParent == Some(child) || (ParentOk(old(s.nodes), child, newParent))
    ensures res.Err? ==> res.fault == RuntimeError
    ensures res == Ok(true) ==> s.nodes == old(s.nodes)[child := old(s.nodes)[child].(parent := newParent)]
    ensures res != Ok(true) ==> s.nodes == old(s.nodes)
  {
    if newParent == Some(child) {
      return Ok(false);
    }
    if !ParentOk(s.nodes, child, newParent) {
      return Err(RuntimeError);
    }
    s.SetNodeParent(child, newParent);
    res := Ok(true);
  }

  /**
   * The host accepts `newParent` as the parent of `child`: both are live DAG
   * nodes, or the parent is the world, and the parent does not lie below the
   * child (which would close a cycle).
   */
  predicate ParentOk(nodes: map<NodeId, NodeRec>, child: NodeId, newParent: Option<NodeId>) {
    && child in nodes && nodes[child].isDag
    && (newParent.Some? ==>
          newParent.value in nodes && nodes[newParent.value].isDag && !AncestorOrSelf(nodes, child, newParent.value, |nodes|))
  }

  /** `a` is `x` or one of its first `fuel` ancestors. */
  predicate AncestorOrSelf(nodes: map<NodeId, NodeRec>, a: NodeId, x: NodeId, fuel: nat)
    decreases fuel
  {
    a == x || (fuel > 0 && x in nodes && nodes[x].parent.Some? && AncestorOrSelf(nodes, a, nodes[x].parent.value, fuel - 1))
  }

  /** Reparenting a node under one of its own descendants is refused. */
  lemma ParentBelowRefused(nodes: map<NodeId, NodeRec>, child: NodeId, grandchild: NodeId)
    requires child in nodes && grandchild in nodes && nodes[grandchild].parent == Some(child)
    ensures !ParentOk(nodes, child, Some(grandchild))
  {
    assert |nodes| > 0;
    assert AncestorOrSelf(nodes, child, child, |nodes| - 1);
  }

  /** `rename`: gives a live node a new name; a handle to no live node raises `RuntimeError`. */
  method Rename(s: Scene, id: NodeId, newName: string) returns (res: Outcome)
    requires s.Valid()
    modifies s`nodes
    ensures s.Valid()
    ensures res.Fail? <==> id !in old(s.nodes)
    ensures res.Fail? ==> res.fault == RuntimeError && s.nodes == old(s.nodes)
    ensures res.Pass? ==> s.nodes == old(s.nodes)[id := old(s.nodes)[id].(name := newName)]
  {
    if id !in s.nodes {
      return Fail(RuntimeError);
    }
    s.SetNodeName(id, newName);
    res := Pass;
  }

  // ---------------------------------------------------------------------------
  // Deleting a node

  /** `isValidMObject` as written: true when the handle is invalid or dead. */
  predicate IsValidMObjectAsWritten(nodes: map<NodeId, NodeRec>, id: NodeId) {
    id !in nodes
  }

  /** The evidently intended `isValidMObject`: true when the handle is valid and alive. */
  predicate IsValidMObject(nodes: map<NodeId, NodeRec>, id: NodeId) {
    id in nodes
  }

  /** The test as written says the opposite of the intended one for every handle. */
  lemma ValidityInverted(nodes: map<NodeId, NodeRec>, id: NodeId)
    ensures IsValidMObjectAsWritten(nodes, id) == !IsValidMObject(nodes, id)
  {
  }

  /**
   * `delete` as written. The inverted test returns at once for a live node, so
   * it is never deleted; for a dead one `lockNode` raises `RuntimeError`.
   */
  method DeleteAsWritten(s: Scene, id: NodeId) returns (res: Outcome)
    requires s.Valid()
    modifies s`nodes
    ensures s.Valid()
    ensures res == if id in old(s.nodes) then Pass else Fail(RuntimeError)
    ensures s.nodes == old(s.nodes)
  {
    if !IsValidMObjectAsWritten(s.nodes, id) {
      return Pass;
    }
    var locked := LockNode(s, id, false);
    res := Fail(locked.fault);
  }

  /** Some edge joins plug `x` to a plug of node `id`. */
  predicate Adjacent(edges: seq<Edge>, id: NodeId, x: PlugRef) {
    exists e :: e in edges && ((e.src == x && e.dst.node == id) || (e.dst == x && e.src.node == id))
  }

  /**
   * `delete` with the intended validity test. A dead node is left alone. A live
   * node is unlocked, each of its plugs that has a source is disconnected on both
   * sides (unlocking its peers), and the node is deleted with its remaining
   * edges and lock flags.
   */
  method Delete(s: Scene, id: NodeId)
    requires s.Valid()
    modifies s`nodes, s`edges, s`locks
    ensures s.Valid()
    ensures id !in old(s.nodes) ==> s.nodes == old(s.nodes) && s.edges == old(s.edges) && s.locks == old(s.locks)
    ensures id in old(s.nodes) ==>
      && s.nodes == old(s.nodes) - {id}
      && (forall e :: e in s.edges <==> e in old(s.edges) && e.src.node != id && e.dst.node != id)
      && s.locks <= old(s.locks)
      && (forall x :: x in s.locks ==> x.node != id)
      && (forall x :: x in old(s.locks) && x.node != id && !Adjacent(old(s.edges), id, x) ==> x in s.locks)
      && (forall e :: e in old(s.edges) && e.dst.node == id ==> e.src !in s.locks)
  {
    if !IsValidMObject(s.nodes, id) {
      return;
    }
    ghost var n0 := s.nodes;
    var unlocked := LockNode(s, id, false);
    ghost var n1 := s.nodes;
    ghost var e0 := s.edges;
    ghost var l0 := s.locks;
    var pls := ConnectedPlugs(s.edges, id);
    var i := 0;
    while i < |pls|
      invariant 0 <= i <= |pls|
      invariant s.Valid() && s.nodes == n1
      invariant Swept(s.edges, s.locks, id, e0, l0, pls[..i])
    {
      SweepPlug(s, id, pls, i, e0, l0);
      i := i + 1;
    }
    assert pls[..i] == pls;
    s.DeleteNode(id);
    assert s.nodes == n0 - {id};
  }

  /**
   * What disconnecting the plugs `done` of node `id` has done to the edges and
   * locks `e0` and `l0`: only edges at those plugs are gone, only flags of the
   * node and its neighbours are cleared, and every source feeding one of them
   * is unlocked.
   */
  ghost predicate Swept(edges: seq<Edge>, locks: set<PlugRef>, id: NodeId, e0: seq<Edge>, l0: set<PlugRef>,
                        done: seq<PlugRef>) {
    && (forall e :: e in edges ==> e in e0)
    && (forall e :: e in e0 && e !in edges ==> e.src in done || e.dst in done)
    && locks <= l0
    && (forall x :: x in l0 && x !in locks ==> x.node == id || Adjacent(e0, id, x))
    && (forall e :: e in e0 && e.dst in done ==> e.src !in locks || e.src.node == id)
  }

  /** One turn of `delete`'s loop: the plug `pls[i]`, when it has a source, is disconnected on both sides. */
  method SweepPlug(s: Scene, id: NodeId, pls: seq<PlugRef>, i: nat, ghost e0: seq<Edge>, ghost l0: set<PlugRef>)
    requires s.Valid() && i < |pls| && Distinct(pls) && (forall x :: x in pls ==> x.node == id)
    requires Swept(s.edges, s.locks, id, e0, l0, pls[..i])
    modifies s`edges, s`locks
    ensures s.Valid() && Swept(s.edges, s.locks, id, e0, l0, pls[..i + 1])
  {
    var pl := pls[i];
    ghost var ei := s.edges;
    ghost var li := s.locks;
    var src := SourceOf(s.edges, pl);
    if src.Some? {
      var ok := DisconnectPlug(s, pl, true, true);
      forall x | x in li && x !in s.locks
        ensures x.node == id || Adjacent(e0, id, x)
      {
        if x in Destinations(ei, pl) {
          assert Edge(pl, x) in e0;
        } else if x == src.value {
          assert Edge(x, pl) in e0;
        }
      }
    }
    assert pls[..i + 1] == pls[..i] + [pl];
    forall e | e in e0 && e.dst == pl && e.src.node != id
      ensures e.src !in s.locks
    {
      if e in ei {
        SourceUnique(ei, e.src, pl);
      }
    }
  }

  // ---------------------------------------------------------------------------
  // A node's connections

  predicate Distinct(xs: seq<PlugRef>) {
    forall i, j :: 0 <= i < j < |xs| ==> xs[i] != xs[j]
  }

  /** Plug `x` is at one end of an edge of `edges`. */
  predicate Touches(edges: seq<Edge>, x: PlugRef) {
    exists e :: e in edges && (e.src == x || e.dst == x)
  }

  lemma TouchesCons(edges: seq<Edge>, x: PlugRef)
    requires edges != []
    ensures Touches(edges, x) <==> edges[0].src == x || edges[0].dst == x || Touches(edges[1..], x)
  {
    if Touches(edges, x) && !(edges[0].src == x || edges[0].dst == x) {
      var e :| e in edges && (e.src == x || e.dst == x);
      assert e in edges[1..];
    }
    if Touches(edges[1..], x) {
      var e :| e in edges[1..] && (e.src == x || e.dst == x);
      assert e in edges;
    }
  }

  /** The plugs of node `id` at either end of `edges`, each once. */
  function ConnectedPlugs(edges: seq<Edge>, id: NodeId): (r: seq<PlugRef>)
    ensures Distinct(r)
    ensures forall x :: x in r <==> x.node == id && Touches(edges, x)
  {
    if edges == [] then []
    else
      var rest := ConnectedPlugs(edges[1..], id);
      var e := edges[0];
      var a := if e.src.node == id && e.src !in rest then [e.src] else [];
      var b := if e.dst.node == id && e.dst !in rest && e.dst != e.src then [e.dst] else [];
      assert forall x :: Touches(edges, x) <==> e.src == x || e.dst == x || Touches(edges[1..], x) by {
        forall x ensures Touches(edges, x) <==> e.src == x || e.dst == x || Touches(edges[1..], x) {
          TouchesCons(edges, x);
        }
      }
      a + b + rest
  }

  /** The (plug of the node, plug at the other end) pairs of one plug. */
  function PairsOfPlug(edges: seq<Edge>, pl: PlugRef, source: bool, destination: bool): (r: seq<(PlugRef, PlugRef)>)
    ensures forall c :: c in r ==> c.0 == pl
    ensures forall d :: (pl, d) in r <==> (source && Edge(pl, d) in edges) || (destination && SourceOf(edges, pl) == Some(d))
  {
    var ds := Destinations(edges, pl);
    var outs := if source then seq(|ds|, i requires 0 <= i < |ds| => (pl, ds[i])) else [];
    var src := SourceOf(edges, pl);
    var ins := if destination && src.Some? then [(pl, src.value)] else [];
    forall d | source && d in ds
      ensures (pl, d) in outs
    {
      var k :| 0 <= k < |ds| && ds[k] == d;
      assert outs[k] == (pl, d);
    }
    outs + ins
  }

  function PairsOf(edges: seq<Edge>, pls: seq<PlugRef>, source: bool, destination: bool): (r: seq<(PlugRef, PlugRef)>)
    ensures forall c :: c in r <==> c.0 in pls && c in PairsOfPlug(edges, c.0, source, destination)
  {
    if pls == [] then []
    else PairsOfPlug(edges, pls[0], source, destination) + PairsOf(edges, pls[1..], source, destination)
  }

  /**
   * `iterConnections`: for each connected plug of the node, one pair per
   * outgoing edge when `source`, and one pair with its source when
   * `destination`. The first plug of each pair belongs to the node.
   */
  function IterConnections(edges: seq<Edge>, id: NodeId, source: bool, destination: bool): (r: seq<(PlugRef, PlugRef)>)
    ensures forall c :: c in r ==> c.0.node == id
  {
    PairsOf(edges, ConnectedPlugs(edges, id), source, destination)
  }

  /** With unique destinations, the pairs are exactly the node's outgoing edges and, when asked, its incoming ones. */
  lemma IterConnectionsEdges(edges: seq<Edge>, id: NodeId, source: bool, destination: bool)
    requires DestUnique(edges)
    ensures forall a, b :: ((a, b) in IterConnections(edges, id, source, destination)
      <==> a.node == id && ((source && Edge(a, b) in edges) || (destination && Edge(b, a) in edges)))
  {
    forall a, b
      ensures (a, b) in IterConnections(edges, id, source, destination)
        <==> a.node == id && ((source && Edge(a, b) in edges) || (destination && Edge(b, a) in edges))
    {
      if destination && Edge(b, a) in edges {
        SourceUnique(edges, b, a);
      }
    }
  }

  // ---------------------------------------------------------------------------
  // Locking attributes by name

  /** The position of the first name `findPlug` finds no plug for on node `id`, or `|names|`. */
  function FirstMissing(nodes: map<NodeId, NodeRec>, id: NodeId, names: seq<string>): (k: nat)
    ensures k <= |names|
    ensures forall j :: 0 <= j < k ==> FindPlug(nodes, id, names[j]).Some?
    ensures k < |names| ==> FindPlug(nodes, id, names[k]).None?
  {
    if names == [] then 0
    else if FindPlug(nodes, id, names[0]).None? then 0
    else 1 + FirstMissing(nodes, id, names[1..])
  }

  /** `locks` with the plugs that `names` resolve to on node `id` locked or unlocked. */
  function LockAll(locks: set<PlugRef>, nodes: map<NodeId, NodeRec>, id: NodeId, names: seq<string>, state: bool): (r: set<PlugRef>)
    ensures forall n :: n in names && FindPlug(nodes, id, n).Some? ==> (FindPlug(nodes, id, n).value in r) == state
    ensures forall x: PlugRef :: (forall n :: n in names ==> FindPlug(nodes, id, n) != Some(x)) ==> (x in r <==> x in locks)
  {
    var named := set n | n in names && FindPlug(nodes, id, n).Some? :: FindPlug(nodes, id, n).value;
    if state then locks + named else locks - named
  }

  /** The first missing name is the one position that has every name before it and lacks its own. */
  lemma FirstMissingIs(nodes: map<NodeId, NodeRec>, id: NodeId, names: seq<string>, i: nat)
    requires i <= |names| && (forall j :: 0 <= j < i ==> FindPlug(nodes, id, names[j]).Some?)
    requires i < |names| ==> FindPlug(nodes, id, names[i]).None?
    ensures FirstMissing(nodes, id, names) == i
  {
  }

  /** Setting one more name's flag extends `LockAll` by the plug that name resolves to. */
  lemma LockAllNext(locks: set<PlugRef>, nodes: map<NodeId, NodeRec>, id: NodeId, names: seq<string>, i: nat, state: bool)
    requires i < |names| && FindPlug(nodes, id, names[i]).Some?
    ensures var prev := LockAll(locks, nodes, id, names[..i], state);
      var r := FindPlug(nodes, id, names[i]).value;
      LockAll(locks, nodes, id, names[..i + 1], state) == if state then prev + {r} else prev - {r}
  {
    PrefixNext(names, i);
    var prev := LockAll(locks, nodes, id, names[..i], state);
    var r := FindPlug(nodes, id, names[i]).value;
    var next := LockAll(locks, nodes, id, names[..i + 1], state);
    forall x: PlugRef
      ensures x in next <==> x in (if state then prev + {r} else prev - {r})
    {
      if exists n :: n in names[..i + 1] && FindPlug(nodes, id, n) == Some(x) {
        var n :| n in names[..i + 1] && FindPlug(nodes, id, n) == Some(x);
        if n !in names[..i] {
          assert n == names[i];
        }
      }
    }
  }

  /**
   * `setLockStateOnAttributes`: sets the lock flag of the plug each name
   * resolves to (a top-level or a child attribute), in turn. A name that
   * resolves to no plug raises `RuntimeError`, keeping the flags already set;
   * so does a handle to no live node.
   */
  method SetLockStateOnAttributes(s: Scene, id: NodeId, attributes: seq<string>, state: bool) returns (res: Outcome)
    modifies s`locks
    ensures id !in s.nodes ==> res == Fail(RuntimeError) && s.locks == old(s.locks)
    ensures id in s.nodes ==>
      var k := FirstMissing(s.nodes, id, attributes);
      && res == (if k == |attributes| then Pass else Fail(RuntimeError))
      && s.locks == LockAll(old(s.locks), s.nodes, id, attributes[..k], state)
  {
    if id !in s.nodes {
      return Fail(RuntimeError);
    }
    var i := 0;
    while i < |attributes|
      invariant 0 <= i <= |attributes|
      invariant forall j :: 0 <= j < i ==> FindPlug(s.nodes, id, attributes[j]).Some?
      invariant s.locks == LockAll(old(s.locks), s.nodes, id, attributes[..i], state)
    {
      var found := FindPlug(s.nodes, id, attributes[i]);
      if found.None? {
        FirstMissingIs(s.nodes, id, attributes, i);
        return Fail(RuntimeError);
      }
      var r := found.value;
      LockAllNext(old(s.locks), s.nodes, id, attributes, i, state);
      if (r in s.locks) != state {
        s.SetLocked(r, state);
      }
      i := i + 1;
    }
    FirstMissingIs(s.nodes, id, attributes, i);
    assert attributes[..i] == attributes;
    res := Pass;
  }

  // ---------------------------------------------------------------------------
  // DAG paths

  /**
   * `childPathAtIndex`: the path extended by the child at `index`, counted from
   * the end when negative. No children gives `None`; an index out of range
   * raises `RuntimeError`.
   */
  function ChildPathAtIndex(path: seq<NodeId>, children: seq<NodeId>, index: int): (r: Result<Option<seq<NodeId>>>)
    ensures children == [] <==> r == Ok(None)
    ensures r.Ok? && r.value.Some? ==>
      && |r.value.value| == |path| + 1 && r.value.value[..|path|] == path
      && r.value.value[|path|] in children
      && (0 <= index < |children| ==> r.value.value[|path|] == children[index])
      && (-|children| <= index < 0 ==> r.value.value[|path|] == children[|children| + index])
    ensures r.Err? <==> children != [] && !(-|children| <= index < |children|)
  {
    if |children| < 1 then Ok(None)
    else
      var i := if index < 0 then |children| + index else index;
      if 0 <= i < |children| then Ok(Some(path + [children[i]])) else Err(RuntimeError)
  }

  // ---------------------------------------------------------------------------
  // How the node map grows while attributes are added

  /** Every node of `a` is in `b`, and its attribute names are a prefix of its names there. */
  predicate NamesGrow(a: map<NodeId, NodeRec>, b: map<NodeId, NodeRec>) {
    a.Keys <= b.Keys && forall j :: j in a ==> AttrNames(a[j].attrs) <= AttrNames(b[j].attrs)
  }

  /** A name found among the first attributes is found at the same place once more are appended. */
  lemma {:induction false} FindAttrPrefix(x: seq<Plug>, y: seq<Plug>, name: string)
    requires AttrNames(x) <= AttrNames(y) && FindAttr(x, name) < |x|
    ensures FindAttr(y, name) == FindAttr(x, name)
  {
    assert AttrNames(x)[0] == AttrNames(y)[0];
    if x[0].def.name != name {
      assert AttrNames(x[1..]) == AttrNames(x)[1..];
      assert AttrNames(y[1..]) == AttrNames(y)[1..];
      FindAttrPrefix(x[1..], y[1..], name);
    }
  }

  /** A node has an attribute exactly when the name is among its attribute names. */
  lemma HasAttrNames(n: NodeRec, name: string)
    ensures HasAttr(n, name) <==> name in AttrNames(n.attrs)
  {
    if name in AttrNames(n.attrs) {
      var i :| 0 <= i < |n.attrs| && AttrNames(n.attrs)[i] == name;
      assert FindAttr(n.attrs, name) <= i;
    }
  }

  /** Attributes a node had are still found, at the same place, on the grown node. */
  lemma HasAttrGrows(a: NodeRec, b: NodeRec, name: string)
    requires AttrNames(a.attrs) <= AttrNames(b.attrs) && HasAttr(a, name)
    ensures HasAttr(b, name) && FindAttr(b.attrs, name) == FindAttr(a.attrs, name)
  {
    FindAttrPrefix(a.attrs, b.attrs, name);
  }

  /** A name the grown node lacks was not among the names it started with. */
  lemma NotAmongFirst(a: NodeRec, b: NodeRec, name: string)
    requires AttrNames(a.attrs) <= AttrNames(b.attrs) && !HasAttr(b, name)
    ensures name !in AttrNames(a.attrs)
  {
    HasAttrNames(a, name);
    if HasAttr(a, name) {
      HasAttrGrows(a, b, name);
    }
  }

  lemma NamesGrowTrans(a: map<NodeId, NodeRec>, b: map<NodeId, NodeRec>, c: map<NodeId, NodeRec>)
    requires NamesGrow(a, b) && NamesGrow(b, c)
    ensures NamesGrow(a, c)
  {
  }

  lemma SameNamesGrow(a: map<NodeId, NodeRec>, b: map<NodeId, NodeRec>)
    requires SameNames(a, b)
    ensures NamesGrow(a, b)
  {
  }

  /** Adding an attribute only grows the names. */
  lemma WithAttrGrows(nodes: map<NodeId, NodeRec>, id: NodeId, p: Plug)
    requires id in nodes
    ensures NamesGrow(nodes, WithAttr(nodes, id, p))
  {
  }

  /** The top-level plug of `x`'s attribute, short of its elements and children. */
  datatype Top = Top(def: AttrDef, keyable: bool, channelBox: bool, value: Value)

  function TopOf(nodes: map<NodeId, NodeRec>, x: PlugRef): Option<Top> {
    var p := PlugAt(nodes, PlugRef(x.node, x.attr, []));
    if p.Some? then Some(Top(p.value.def, p.value.keyable, p.value.channelBox, p.value.value)) else None
  }

  /** A write below the top level keeps every attribute's definition, flags and value. */
  lemma PutBelowKeepsTop(nodes: map<NodeId, NodeRec>, r: PlugRef, sub: Plug, x: PlugRef)
    requires r.path != []
    ensures TopOf(PutAt(nodes, r, sub), x) == TopOf(nodes, x)
  {
    var m := PutAt(nodes, r, sub);
    PutAtSameNames(nodes, r, sub);
    if x.node in nodes {
      SameNamesHasAttr(nodes, m, x.node, x.attr);
      if x.node == r.node && x.attr == r.attr && HasAttr(nodes[r.node], r.attr) {
        var n := nodes[r.node];
        PutKeepsDef(n.attrs[FindAttr(n.attrs, r.attr)], r.path, sub);
      }
    }
  }

  /** Materialising a plug keeps every attribute's definition, flags and value. */
  lemma TouchKeepsTop(nodes: map<NodeId, NodeRec>, r: PlugRef, x: PlugRef)
    ensures TopOf(Touch(nodes, r), x) == TopOf(nodes, x)
  {
    if PlugAt(nodes, r).Some? {
      TouchExisting(nodes, r);
    } else if PlugAtOrNew(nodes, r).Some? {
      PutBelowKeepsTop(nodes, r, PlugAtOrNew(nodes, r).value, x);
    }
  }

  /** Forced connections keep every attribute's definition, flags and value. */
  lemma {:induction false} ConnectAllKeepsTop(nodes: map<NodeId, NodeRec>, edges: seq<Edge>, es: seq<Edge>, x: PlugRef)
    ensures TopOf(ConnectAll(nodes, edges, es).0, x) == TopOf(nodes, x)
    decreases |es|
  {
    if es != [] {
      var st := ConnectStep(nodes, edges, es[0]);
      TouchKeepsTop(nodes, es[0].src, x);
      TouchKeepsTop(Touch(nodes, es[0].src), es[0].dst, x);
      ConnectAllKeepsTop(st.0, st.1, es[1..], x);
    }
  }

  /** A write at the top level of `x` keeps every other attribute's definition, flags and value. */
  lemma PutTopKeepsOthers(nodes: map<NodeId, NodeRec>, x: PlugRef, sub: Plug, y: PlugRef)
    requires x.path == [] && sub.def.name == x.attr && (y.node != x.node || y.attr != x.attr)
    ensures TopOf(PutAt(nodes, x, sub), y) == TopOf(nodes, y)
  {
    PutAtSameNames(nodes, x, sub);
    if y.node in nodes {
      SameNamesHasAttr(nodes, PutAt(nodes, x, sub), y.node, y.attr);
    }
  }

  /** Adding an attribute keeps every other attribute's definition, flags and value. */
  lemma WithAttrKeepsTop(nodes: map<NodeId, NodeRec>, id: NodeId, p: Plug, y: PlugRef)
    requires id in nodes && !HasAttr(nodes[id], p.def.name) && (y.node != id || y.attr != p.def.name)
    ensures TopOf(WithAttr(nodes, id, p), y) == TopOf(nodes, y)
  {
    if y.node == id {
      FindAttrAppend(nodes[id].attrs, p, y.attr);
    }
  }

  /** Adding an attribute and applying a record to it keeps every other attribute and its lock. */
  lemma AddedKeepsOthers(n0: map<NodeId, NodeRec>, l0: set<PlugRef>, id: NodeId, p: Plug, info: PlugRecord)
    requires id in n0 && !HasAttr(n0[id], p.def.name)
    ensures var x := PlugRef(id, p.def.name, []);
      var a := ApplyPlugInfo(p, x, info, l0);
      OthersKept(n0, l0, WithAttr(n0, id, a.plug), a.locks, x)
  {
    var x := PlugRef(id, p.def.name, []);
    var a := ApplyPlugInfo(p, x, info, l0);
    forall y: PlugRef | y.path == [] && (y.node != x.node || y.attr != x.attr)
      ensures TopOf(WithAttr(n0, id, a.plug), y) == TopOf(n0, y) && (y in a.locks <==> y in l0)
    {
      WithAttrKeepsTop(n0, id, a.plug, y);
      ApplyLocksLocal(p, x, info, l0, y);
    }
  }

  /**
   * Every top-level attribute but `x`'s kept its definition, flags, value and
   * lock from `n0`, `l0` to `n1`, `l1`.
   */
  ghost predicate OthersKept(n0: map<NodeId, NodeRec>, l0: set<PlugRef>, n1: map<NodeId, NodeRec>, l1: set<PlugRef>, x: PlugRef) {
    forall y: PlugRef :: y.path == [] && (y.node != x.node || y.attr != x.attr) ==>
      TopOf(n1, y) == TopOf(n0, y) && (y in l1 <==> y in l0)
  }

  lemma OthersKeptTrans(n0: map<NodeId, NodeRec>, l0: set<PlugRef>, n1: map<NodeId, NodeRec>, l1: set<PlugRef>,
                        n2: map<NodeId, NodeRec>, l2: set<PlugRef>, x: PlugRef)
    requires OthersKept(n0, l0, n1, l1, x) && OthersKept(n1, l1, n2, l2, x)
    ensures OthersKept(n0, l0, n2, l2, x)
  {
  }

  // ---------------------------------------------------------------------------
  // Attributes from a list of records

  /**
   * The conversions `addAttributesFromList` makes before it creates anything: a
   * string attribute's default must be a string, a matrix attribute's a matrix,
   * and an angle's default and value must be numbers; anything else raises
   * `TypeError`.
   */
  predicate Converts(rec: PlugRecord)
    requires rec.PlugRecord? && rec.kind.Some?
  {
    var t := rec.kind.value;
    if t == DataString then rec.default.Text?
    else if t == DataMatrix then rec.default.Token? || rec.default.Items?
    else if t == UnitAngle then rec.default.Token? && rec.value.Token?
    else true
  }

  /**
   * `setPlugDefault` on what `addAttributesFromList` hands it, where only
   * string, matrix and angle records were converted: a numeric attribute takes
   * any default but None, a typed attribute only a created string, a unit
   * attribute only an angle, an enum an int or a string; a matrix attribute
   * takes the default and the other families are left alone.
   */
  function SetDefaultRaw(p: Plug, d: Value, kind: int): (r: Result<Plug>)
    ensures r.Err? <==>
      || (p.def.host.family == NumericAttr && d == Nil)
      || (p.def.host.family == TypedAttr && kind != DataString)
      || (p.def.host.family == UnitAttr && kind != UnitAngle)
      || (p.def.host.family == EnumAttr && !(d.Token? || d.Text?))
    ensures r.Err? ==> r.fault == (if p.def.host.family == NumericAttr then TypeError else ValueError)
    ensures r.Ok? ==> r.value == p.(def := r.value.def) && r.value.def == p.def.(default := r.value.def.default)
    ensures r.Ok? ==> r.value.def.default == (if p.def.host.family in {MessageAttr, CompoundAttr, GenericAttr} then p.def.default else d)
  {
    var f := p.def.host.family;
    if f == NumericAttr && d == Nil then Err(TypeError)
    else if (f == TypedAttr && kind != DataString) || (f == UnitAttr && kind != UnitAngle)
         || (f == EnumAttr && !(d.Token? || d.Text?)) then Err(ValueError)
    else if f in {MessageAttr, CompoundAttr, GenericAttr} then Ok(p)
    else Ok(p.(def := p.def.(default := d)))
  }

  /**
   * The fault one record of `addAttributesFromList` raises before anything
   * changes: a missing key, a failed conversion, a partial name that is not an
   * attribute name, a name the node already has, code 15, and a code that
   * creates nothing (the plug constructor then gets None).
   */
  function ListedCheck(n: NodeRec, rec: PlugRecord): Option<Fault> {
    if rec.NoRecord? || rec.kind.None? then Some(KeyError)
    else if !Converts(rec) then Some(TypeError)
    else if rec.name.path != [] then Some(RuntimeError)
    else if HasAttr(n, rec.name.attr) then Some(ValueError)
    else match CreatedType(rec.kind.value)
      case Err(e) => Some(e)
      case Ok(h) => if h.None? then Some(TypeError) else None
  }

  /**
   * What one record leaves on the node once it went through: a top-level
   * attribute of the created type, array as the record says, with the
   * record's channel-box, keyable and lock flags, its default (for the
   * families `setPlugDefault` writes), its four bounds when its family has
   * bounds, and its value when the attribute holds a single stored value.
   */
  predicate Listed(nodes: map<NodeId, NodeRec>, locks: set<PlugRef>, rec: PlugRecord, x: PlugRef)
  {
    && rec.PlugRecord? && rec.kind.Some? && rec.bounds.Some?
    && x == PlugRef(x.node, rec.name.attr, [])
    && var c := CreatedType(rec.kind.value);
    && c.Ok? && c.value.Some?
    && TopOf(nodes, x).Some?
    && var top := TopOf(nodes, x).value;
    && top.def.host == c.value.value && top.def.isArray == rec.isArray
    && top.channelBox == rec.channelBox && top.keyable == rec.keyable
    && (x in locks <==> rec.locked)
    && (top.def.host.family !in {MessageAttr, CompoundAttr, GenericAttr} ==> top.def.default == rec.default)
    && (HasBounds(top.def.host) ==>
          && top.def.min == Some(rec.bounds.value.min) && top.def.max == Some(rec.bounds.value.max)
          && top.def.softMin == Some(rec.bounds.value.softMin) && top.def.softMax == Some(rec.bounds.value.softMax))
    && (!rec.isArray && top.def.host.family != CompoundAttr && StoresValue(top.def.host) ==> top.value == rec.value)
  }

  /** What a record left stays once later records only changed other attributes. */
  lemma ListedKept(n0: map<NodeId, NodeRec>, l0: set<PlugRef>, n1: map<NodeId, NodeRec>, l1: set<PlugRef>,
                   rec: PlugRecord, x: PlugRef, z: PlugRef)
    requires Listed(n0, l0, rec, x) && OthersKept(n0, l0, n1, l1, z) && (x.node != z.node || x.attr != z.attr)
    ensures Listed(n1, l1, rec, x)
  {
    assert TopOf(n1, x) == TopOf(n0, x) && (x in l1 <==> x in l0);
  }

  /** Each record of `data` configured the attribute created for it as `Listed` says. */
  ghost predicate ListedEach(nodes: map<NodeId, NodeRec>, locks: set<PlugRef>, data: seq<PlugRecord>, created: seq<PlugRef>) {
    |created| == |data| && forall j :: 0 <= j < |data| ==> Listed(nodes, locks, data[j], created[j])
  }

  /**
   * The records before `i`, added earlier, stay as `Listed` says while
   * another attribute `z` of the node is added from `data[i]`.
   */
  lemma ListedAllKept(n: NodeRec, n0: map<NodeId, NodeRec>, l0: set<PlugRef>, n1: map<NodeId, NodeRec>, l1: set<PlugRef>,
                      id: NodeId, data: seq<PlugRecord>, created: seq<PlugRef>, i: nat, z: PlugRef)
    requires i < |data| && id in n1 && AddedEach(n, n1[id], id, data[..i + 1], created + [z])
    requires ListedEach(n0, l0, data[..i], created) && Listed(n1, l1, data[i], z)
    requires OthersKept(n0, l0, n1, l1, z)
    ensures ListedEach(n1, l1, data[..i + 1], created + [z])
  {
    forall j | 0 <= j < i + 1
      ensures Listed(n1, l1, data[..i + 1][j], (created + [z])[j])
    {
      assert data[..i + 1][j] == data[j] && data[..i + 1][i] == data[i];
      assert (created + [z])[i] == z;
      if j < i {
        assert data[..i][j] == data[j] && (created + [z])[j] == created[j];
        ListedKept(n0, l0, n1, l1, data[j], created[j], z);
      }
    }
  }

  /** `setMin`, `setMax`, `setSoftMin` and `setSoftMax` in turn. */
  function SetBounds(p: Plug, b: Bounds): (q: Plug)
    ensures q.def.host == p.def.host && q.def.isArray == p.def.isArray && q.def.name == p.def.name
    ensures q.keyable == p.keyable && q.channelBox == p.channelBox
    ensures q.def.default == p.def.default && q.value == p.value
    ensures HasBounds(p.def.host) ==>
      q.def.min == Some(b.min) && q.def.max == Some(b.max) && q.def.softMin == Some(b.softMin) && q.def.softMax == Some(b.softMax)
    ensures !HasBounds(p.def.host) ==> q == p
  {
    SetBound(SetBound(SetBound(SetBound(p, Min, b.min).0, Max, b.max).0, SoftMin, b.softMin).0, SoftMax, b.softMax).0
  }

  /** The first steps of `addAttributesFromList` after the attribute exists: its default, channel-box and keyable flags, and lock. */
  method ConfigureFlags(s: Scene, x: PlugRef, rec: PlugRecord) returns (res: Outcome)
    requires s.Valid() && x.path == [] && PlugAt(s.nodes, x).Some? && rec.PlugRecord? && rec.kind.Some?
    modifies s`nodes, s`locks
    ensures s.Valid() && SameNames(old(s.nodes), s.nodes)
    ensures OthersKept(old(s.nodes), old(s.locks), s.nodes, s.locks, x)
    ensures res.Pass? ==>
      && PlugAt(s.nodes, x).Some?
      && var p := PlugAt(old(s.nodes), x).value;
      && var top := PlugAt(s.nodes, x).value;
      && top.def.host == p.def.host && top.def.isArray == p.def.isArray && top.value == p.value
      && top.def.default == (if p.def.host.family in {MessageAttr, CompoundAttr, GenericAttr} then p.def.default else rec.default)
      && top.channelBox == rec.channelBox && top.keyable == rec.keyable
      && (x in s.locks <==> rec.locked)
  {
    var p := PlugAt(s.nodes, x).value;
    PlugAtName(s.nodes, x);
    var d := SetDefaultRaw(p, rec.default, rec.kind.value);
    if d.Err? {
      return Fail(d.fault);
    }
    var p2 := d.value.(channelBox := rec.channelBox, keyable := rec.keyable);
    PlugAtPutAt(s.nodes, x, p2);
    PutAtSameNames(s.nodes, x, p2);
    forall y: PlugRef | y.path == [] && (y.node != x.node || y.attr != x.attr)
      ensures TopOf(PutAt(s.nodes, x, p2), y) == TopOf(s.nodes, y)
    {
      PutTopKeepsOthers(s.nodes, x, p2, y);
    }
    s.WritePlug(x, p2);
    var changed := SetLockState(s, x, rec.locked);
    res := Pass;
  }

  /** The last steps of `addAttributesFromList`: the four bounds and, unless it is a message attribute, the value. */
  method ConfigureBoundsAndValue(s: Scene, x: PlugRef, rec: PlugRecord) returns (res: Outcome)
    requires s.Valid() && x.path == [] && PlugAt(s.nodes, x).Some? && rec.PlugRecord? && rec.bounds.Some?
    modifies s`nodes, s`edges
    ensures s.Valid() && SameNames(old(s.nodes), s.nodes)
    ensures OthersKept(old(s.nodes), s.locks, s.nodes, s.locks, x)
    ensures res.Pass? ==>
      && PlugAt(s.nodes, x).Some?
      && var p := PlugAt(old(s.nodes), x).value;
      && var top := PlugAt(s.nodes, x).value;
      && top.def.host == p.def.host && top.def.isArray == p.def.isArray && top.def.default == p.def.default
      && top.channelBox == p.channelBox && top.keyable == p.keyable
      && (HasBounds(top.def.host) ==>
            && top.def.min == Some(rec.bounds.value.min) && top.def.max == Some(rec.bounds.value.max)
            && top.def.softMin == Some(rec.bounds.value.softMin) && top.def.softMax == Some(rec.bounds.value.softMax))
      && (!p.def.isArray && !IsCompound(p) && StoresValue(p.def.host) ==> top.value == rec.value)
  {
    var p := PlugAt(s.nodes, x).value;
    PlugAtName(s.nodes, x);
    var p3 := SetBounds(p, rec.bounds.value);
    ghost var n0 := s.nodes;
    PlugAtPutAt(n0, x, p3);
    PutAtSameNames(n0, x, p3);
    forall y: PlugRef | y.path == [] && (y.node != x.node || y.attr != x.attr)
      ensures TopOf(PutAt(n0, x, p3), y) == TopOf(n0, y)
    {
      PutTopKeepsOthers(n0, x, p3, y);
    }
    s.WritePlug(x, p3);
    if p3.def.host.family != MessageAttr {
      ghost var n2 := s.nodes;
      res := WriteListedValue(s, x, rec.value);
      SameNamesTrans(n0, n2, s.nodes);
    } else {
      res := Pass;
    }
  }

  /** The value step of `addAttributesFromList`: `setPlugValue` on the new top-level plug. */
  method WriteListedValue(s: Scene, x: PlugRef, v: Value) returns (res: Outcome)
    requires s.Valid() && x.path == [] && PlugAt(s.nodes, x).Some?
    modifies s`nodes, s`edges
    ensures s.Valid() && SameNames(old(s.nodes), s.nodes)
    ensures OthersKept(old(s.nodes), s.locks, s.nodes, s.locks, x)
    ensures PlugAt(s.nodes, x).Some?
    ensures var p := PlugAt(old(s.nodes), x).value;
      var top := PlugAt(s.nodes, x).value;
      && top.def == p.def && top.channelBox == p.channelBox && top.keyable == p.keyable
      && (res.Pass? && !p.def.isArray && !IsCompound(p) && StoresValue(p.def.host) ==> top.value == v)
  {
    ghost var n2 := s.nodes;
    ghost var e2 := s.edges;
    ghost var a := Assign(PlugAt(s.nodes, x).value, x, v);
    res := SetPlugValue(s, x, v);
    PlugAtPutAt(n2, x, a.plug);
    ConnectAllKeepsTop(PutAt(n2, x, a.plug), e2, a.connects, x);
    forall y: PlugRef | y.path == [] && (y.node != x.node || y.attr != x.attr)
      ensures TopOf(s.nodes, y) == TopOf(n2, y)
    {
      PutTopKeepsOthers(n2, x, a.plug, y);
      ConnectAllKeepsTop(PutAt(n2, x, a.plug), e2, a.connects, y);
    }
  }

  /**
   * The steps of `addAttributesFromList` after the attribute exists: its
   * default, channel-box and keyable flags, lock, bounds and, unless it is a
   * message attribute, its value.
   */
  method ConfigureListed(s: Scene, x: PlugRef, rec: PlugRecord) returns (res: Outcome)
    requires s.Valid() && x.path == [] && PlugAt(s.nodes, x).Some? && rec.PlugRecord? && rec.kind.Some?
    modifies s`nodes, s`edges, s`locks
    ensures s.Valid() && SameNames(old(s.nodes), s.nodes)
    ensures OthersKept(old(s.nodes), old(s.locks), s.nodes, s.locks, x)
    ensures res.Pass? ==>
      && rec.bounds.Some? && PlugAt(s.nodes, x).Some?
      && var p := PlugAt(old(s.nodes), x).value;
      && var top := PlugAt(s.nodes, x).value;
      && top.def.host == p.def.host && top.def.isArray == p.def.isArray
      && top.def.default == (if p.def.host.family in {MessageAttr, CompoundAttr, GenericAttr} then p.def.default else rec.default)
      && top.channelBox == rec.channelBox && top.keyable == rec.keyable
      && (x in s.locks <==> rec.locked)
      && (HasBounds(top.def.host) ==>
            && top.def.min == Some(rec.bounds.value.min) && top.def.max == Some(rec.bounds.value.max)
            && top.def.softMin == Some(rec.bounds.value.softMin) && top.def.softMax == Some(rec.bounds.value.softMax))
      && (!p.def.isArray && !IsCompound(p) && StoresValue(p.def.host) ==> top.value == rec.value)
  {
    res := ConfigureFlags(s, x, rec);
    if res.Fail? {
      return;
    }
    if rec.bounds.None? {
      return Fail(KeyError);
    }
    ghost var n1 := s.nodes;
    ghost var l1 := s.locks;
    res := ConfigureBoundsAndValue(s, x, rec);
    SameNamesTrans(old(s.nodes), n1, s.nodes);
    OthersKeptTrans(old(s.nodes), old(s.locks), n1, l1, s.nodes, s.locks, x);
  }

  /**
   * The validation and the creation step of one record of `addAttributesFromList`:
   * a record that passes `ListedCheck` gets a new top-level attribute of the
   * created type, array as the record says, and nothing else on the scene
   * moves.
   */
  method CreateListed(s: Scene, id: NodeId, rec: PlugRecord) returns (res: Result<PlugRef>)
    requires s.Valid() && id in s.nodes
    modifies s`nodes, s`locks
    ensures s.Valid() && s.nodes.Keys == old(s.nodes).Keys && NamesGrow(old(s.nodes), s.nodes)
    ensures ListedCheck(old(s.nodes)[id], rec).Some? ==>
      res == Err(ListedCheck(old(s.nodes)[id], rec).value) && s.nodes == old(s.nodes) && s.locks == old(s.locks)
    ensures ListedCheck(old(s.nodes)[id], rec).None? ==>
      && HasAttr(s.nodes[id], rec.name.attr)
      && OthersKept(old(s.nodes), old(s.locks), s.nodes, s.locks, PlugRef(id, rec.name.attr, []))
    ensures res.Ok? ==>
      && ListedCheck(old(s.nodes)[id], rec).None? && res.value == PlugRef(id, rec.name.attr, [])
      && PlugAt(s.nodes, res.value).Some?
      && PlugAt(s.nodes, res.value).value.def.host == CreatedType(rec.kind.value).value.value
      && PlugAt(s.nodes, res.value).value.def.isArray == rec.isArray
  {
    if rec.NoRecord? || rec.kind.None? {
      return Err(KeyError);
    }
    if !Converts(rec) {
      return Err(TypeError);
    }
    if rec.name.path != [] {
      return Err(RuntimeError);
    }
    var x := PlugRef(id, rec.name.attr, []);
    ghost var n0 := s.nodes;
    ghost var c := CreatedType(rec.kind.value);
    var made := AddAttribute(s, id, rec.name.attr, rec.kind.value, rec.isArray, true, NoRecord);
    if ListedCheck(n0[id], rec).None? {
      AddedKeepsOthers(n0, old(s.locks), id, NewPlug(x.attr, c.value.value, rec.isArray), WithType(NoRecord, rec.kind.value));
      AddedAttributeExists(n0, id, ApplyPlugInfo(NewPlug(x.attr, c.value.value, rec.isArray), x, WithType(NoRecord, rec.kind.value), old(s.locks)).plug);
    }
    if made.Err? || made.value.None? {
      return if made.Err? then Err(made.fault) else Err(TypeError);
    }
    res := Ok(x);
  }

  /**
   * One record of `addAttributesFromList`, with the list's key read from the
   * record (`isArray`) and the channel-box flag taken from the record's
   * `channelBox`: the attribute is created, then configured. A fault after the
   * attribute exists leaves it on the node.
   */
  method AddListedAttribute(s: Scene, id: NodeId, rec: PlugRecord) returns (res: Result<PlugRef>)
    requires s.Valid() && id in s.nodes
    modifies s`nodes, s`edges, s`locks
    ensures s.Valid() && s.nodes.Keys == old(s.nodes).Keys && NamesGrow(old(s.nodes), s.nodes)
    ensures ListedCheck(old(s.nodes)[id], rec).Some? ==>
      && res == Err(ListedCheck(old(s.nodes)[id], rec).value)
      && s.nodes == old(s.nodes) && s.edges == old(s.edges) && s.locks == old(s.locks)
    ensures ListedCheck(old(s.nodes)[id], rec).None? ==>
      && HasAttr(s.nodes[id], rec.name.attr)
      && OthersKept(old(s.nodes), old(s.locks), s.nodes, s.locks, PlugRef(id, rec.name.attr, []))
    ensures res.Ok? ==> res.value == PlugRef(id, rec.name.attr, []) && Listed(s.nodes, s.locks, rec, res.value)
    ensures res.Ok? ==> rec.PlugRecord? && !HasAttr(old(s.nodes)[id], rec.name.attr) && HasAttr(s.nodes[id], rec.name.attr)
  {
    ghost var n0 := s.nodes;
    var made := CreateListed(s, id, rec);
    if made.Err? {
      return Err(made.fault);
    }
    var x := made.value;
    ghost var n1 := s.nodes;
    ghost var l1 := s.locks;
    var out := ConfigureListed(s, x, rec);
    OthersKeptTrans(n0, old(s.locks), n1, l1, s.nodes, s.locks, x);
    SameNamesGrow(n1, s.nodes);
    NamesGrowTrans(n0, n1, s.nodes);
    HasAttrGrows(n1[id], s.nodes[id], x.attr);
    if out.Fail? {
      return Err(out.fault);
    }
    res := Ok(x);
  }

  /**
   * `addAttributesFromList` as written: it reads the first record's keys and
   * converts its values, then asks the list itself for the "array" key, which a
   * list does not have. So the empty list gives no plugs, and any other list
   * raises before an attribute is created.
   */
  function AddAttributesFromListAsWritten(data: seq<PlugRecord>): (r: Result<seq<PlugRef>>)
  {
    if data == [] then Ok([])
    else if data[0].NoRecord? || data[0].kind.None? then Err(KeyError)
    else if !Converts(data[0]) then Err(TypeError)
    else Err(AttributeError)
  }

  /** As written, no list of records creates an attribute. */
  lemma AsWrittenCreatesNothing(data: seq<PlugRecord>)
    ensures AddAttributesFromListAsWritten(data).Ok? <==> data == []
    ensures data != [] && (data[0].NoRecord? || data[0].kind.None?) ==> AddAttributesFromListAsWritten(data) == Err(KeyError)
    ensures data != [] && data[0].PlugRecord? && data[0].kind.Some? && Converts(data[0]) ==>
      AddAttributesFromListAsWritten(data) == Err(AttributeError)
  {
  }

  /**
   * Each record of `data` added its own attribute: absent on `n0`, present on
   * `n`, named by the record, and the records' names are distinct.
   */
  ghost predicate AddedEach(n0: NodeRec, n: NodeRec, id: NodeId, data: seq<PlugRecord>, created: seq<PlugRef>) {
    && |created| == |data|
    && (forall j :: 0 <= j < |data| ==>
          && data[j].PlugRecord? && created[j] == PlugRef(id, data[j].name.attr, [])
          && !HasAttr(n0, data[j].name.attr) && HasAttr(n, data[j].name.attr))
    && (forall j, k :: 0 <= j < k < |data| ==> data[j].name.attr != data[k].name.attr)
  }

  /** One more record that added an attribute the node lacked keeps `AddedEach`. */
  lemma AddedEachStep(n0: NodeRec, before: NodeRec, after: NodeRec, id: NodeId, data: seq<PlugRecord>,
                      created: seq<PlugRef>, rec: PlugRecord)
    requires AddedEach(n0, before, id, data, created)
    requires AttrNames(n0.attrs) <= AttrNames(before.attrs) && AttrNames(before.attrs) <= AttrNames(after.attrs)
    requires rec.PlugRecord? && !HasAttr(before, rec.name.attr) && HasAttr(after, rec.name.attr)
    ensures AddedEach(n0, after, id, data + [rec], created + [PlugRef(id, rec.name.attr, [])])
  {
    forall j | 0 <= j < |data|
      ensures HasAttr(after, data[j].name.attr) && data[j].name.attr != rec.name.attr
    {
      HasAttrGrows(before, after, data[j].name.attr);
    }
    if HasAttr(n0, rec.name.attr) {
      HasAttrGrows(n0, before, rec.name.attr);
    }
  }

  /**
   * `addAttributesFromList` with the array flag read from each record and the
   * channel-box flag from its `channelBox` key: the records are added in
   * order, and the first that raises stops the rest, keeping what was added.
   * On success each record added a new attribute under its own name.
   */
  method AddAttributesFromList(s: Scene, id: NodeId, data: seq<PlugRecord>) returns (res: Result<seq<PlugRef>>)
    requires s.Valid() && id in s.nodes
    modifies s`nodes, s`edges, s`locks
    ensures s.Valid() && s.nodes.Keys == old(s.nodes).Keys && NamesGrow(old(s.nodes), s.nodes)
    ensures data != [] && ListedCheck(old(s.nodes)[id], data[0]).Some? ==>
      res == Err(ListedCheck(old(s.nodes)[id], data[0]).value) && s.nodes == old(s.nodes)
    ensures res.Ok? ==> AddedEach(old(s.nodes)[id], s.nodes[id], id, data, res.value)
    ensures res.Ok? ==> ListedEach(s.nodes, s.locks, data, res.value)
  {
    var created: seq<PlugRef> := [];
    var i := 0;
    while i < |data|
      invariant 0 <= i <= |data|
      invariant s.Valid() && s.nodes.Keys == old(s.nodes).Keys && NamesGrow(old(s.nodes), s.nodes)
      invariant i == 0 ==> s.nodes == old(s.nodes)
      invariant i > 0 ==> ListedCheck(old(s.nodes)[id], data[0]).None?
      invariant AddedEach(old(s.nodes)[id], s.nodes[id], id, data[..i], created)
      invariant ListedEach(s.nodes, s.locks, data[..i], created)
    {
      ghost var before := s.nodes;
      ghost var locks := s.locks;
      var one := AddListedAttribute(s, id, data[i]);
      NamesGrowTrans(old(s.nodes), before, s.nodes);
      if one.Err? {
        return Err(one.fault);
      }
      AddedEachStep(old(s.nodes)[id], before[id], s.nodes[id], id, data[..i], created, data[i]);
      PrefixNext(data, i);
      ListedAllKept(old(s.nodes)[id], before, locks, s.nodes, s.locks, id, data, created, i, one.value);
      created := created + [one.value];
      i := i + 1;
    }
    assert data[..|data|] == data;
    res := Ok(created);
  }

  // ---------------------------------------------------------------------------
  // Compound attributes

  /**
   * The fault a child record of `addCompoundAttribute` raises while its child
   * attribute is built: a missing "name" or "Type" key, a name the node already
   * has, code 15, or a code that creates nothing (`child.object()` on None).
   */
  function ChildFault(n: NodeRec, rec: PlugRecord): (f: Option<Fault>)
    ensures f.None? ==> rec.PlugRecord? && rec.kind.Some? && !HasAttr(n, rec.name.leaf)
                        && CreatedType(rec.kind.value).Ok? && CreatedType(rec.kind.value).value.Some?
  {
    if rec.NoRecord? || rec.kind.None? then Some(KeyError)
    else if HasAttr(n, rec.name.leaf) then Some(ValueError)
    else match CreatedType(rec.kind.value)
      case Err(e) => Some(e)
      case Ok(h) => if h.None? then Some(AttributeError) else None
  }

  /**
   * The child attributes `addCompoundAttribute` builds, in order, before
   * anything is added to the node; each is named by its record's attribute
   * name and is never an array. The first faulty record stops the build.
   */
  function ChildAttrs(n: NodeRec, recs: seq<PlugRecord>): (r: Result<seq<Plug>>)
    ensures r.Err? <==> exists i :: 0 <= i < |recs| && ChildFault(n, recs[i]).Some?
    ensures r.Ok? ==> |r.value| == |recs| && forall i :: 0 <= i < |recs| ==>
      && ChildFault(n, recs[i]).None?
      && r.value[i] == NewPlug(recs[i].name.leaf, CreatedType(recs[i].kind.value).value.value, false)
  {
    if recs == [] then Ok([])
    else
      var f := ChildFault(n, recs[0]);
      if f.Some? then Err(f.value)
      else
        var rest := ChildAttrs(n, recs[1..]);
        assert forall i :: 1 <= i < |recs| ==> recs[i] == recs[1..][i - 1];
        if rest.Err? then rest
        else Ok([NewPlug(recs[0].name.leaf, CreatedType(recs[0].kind.value).value.value, false)] + rest.value)
  }

  /** What a sequence of steps leaves behind: the nodes, the lock flags and what the call returned. */
  datatype Stage = Stage(nodes: map<NodeId, NodeRec>, locks: set<PlugRef>, res: Outcome)

  /**
   * The dict `rec` applied to the child plug at `y` as `setPlugInfoFromDict`
   * applies it; a child that does not exist fails with `RuntimeError`.
   */
  function ChildStep(nodes: map<NodeId, NodeRec>, locks: set<PlugRef>, y: PlugRef, rec: PlugRecord): (st: Stage)
    ensures st.nodes.Keys == nodes.Keys
  {
    var p := PlugAt(nodes, y);
    if p.None? then Stage(nodes, locks, Fail(RuntimeError))
    else
      var a := ApplyPlugInfo(p.value, y, rec, locks);
      Stage(PutAt(nodes, y, a.plug), a.locks, if a.fault.Some? then Fail(a.fault.value) else Pass)
  }

  /**
   * The dicts `recs[i..]` applied in turn to the children of `x` from position
   * `i` on, stopping at the first that fails.
   */
  function ChildInfosFrom(nodes: map<NodeId, NodeRec>, locks: set<PlugRef>, x: PlugRef, recs: seq<PlugRecord>, i: nat): (st: Stage)
    requires i <= |recs|
    ensures st.nodes.Keys == nodes.Keys
    decreases |recs| - i
  {
    if i == |recs| then Stage(nodes, locks, Pass)
    else
      var st := ChildStep(nodes, locks, Sub(x, Child(i)), recs[i]);
      if st.res.Fail? then st else ChildInfosFrom(st.nodes, st.locks, x, recs, i + 1)
  }

  /** `x`'s top-level plug reads the same in `n0` and `n1`. */
  ghost predicate TopKept(n0: map<NodeId, NodeRec>, n1: map<NodeId, NodeRec>, x: PlugRef) {
    TopOf(n1, x) == TopOf(n0, x)
  }

  /** One child's dict, applied below `x`, keeps every other top-level attribute and `x`'s own top plug. */
  lemma ChildInfoStaysBelow(nodes: map<NodeId, NodeRec>, locks: set<PlugRef>, x: PlugRef, y: PlugRef, rec: PlugRecord)
    requires y.node == x.node && y.attr == x.attr && y.path != []
    ensures var st := ChildStep(nodes, locks, y, rec);
      OthersKept(nodes, locks, st.nodes, st.locks, x) && TopKept(nodes, st.nodes, x)
  {
    var p := PlugAt(nodes, y);
    if p.Some? {
      var a := ApplyPlugInfo(p.value, y, rec, locks);
      forall z: PlugRef | z.path == [] && (z.node != x.node || z.attr != x.attr)
        ensures TopOf(PutAt(nodes, y, a.plug), z) == TopOf(nodes, z) && (z in a.locks <==> z in locks)
      {
        PutBelowKeepsTop(nodes, y, a.plug, z);
        ApplyLocksLocal(p.value, y, rec, locks, z);
      }
      PutBelowKeepsTop(nodes, y, a.plug, x);
    }
  }

  /**
   * The children's dicts change nothing outside `x`'s attribute, and of
   * `x`'s own top-level plug neither its definition, flags nor value.
   */
  lemma {:induction false} ChildInfosStayBelow(nodes: map<NodeId, NodeRec>, locks: set<PlugRef>, x: PlugRef, recs: seq<PlugRecord>, i: nat)
    requires i <= |recs|
    ensures var st := ChildInfosFrom(nodes, locks, x, recs, i);
      OthersKept(nodes, locks, st.nodes, st.locks, x) && TopKept(nodes, st.nodes, x)
    decreases |recs| - i
  {
    if i < |recs| {
      var st1 := ChildStep(nodes, locks, Sub(x, Child(i)), recs[i]);
      ChildInfoStaysBelow(nodes, locks, x, Sub(x, Child(i)), recs[i]);
      if st1.res.Pass? {
        ChildInfosStayBelow(st1.nodes, st1.locks, x, recs, i + 1);
        var st := ChildInfosFrom(st1.nodes, st1.locks, x, recs, i + 1);
        OthersKeptTrans(nodes, locks, st1.nodes, st1.locks, st.nodes, st.locks, x);
      }
    }
  }

  /** The compound `addCompoundAttribute` builds, before any dict is applied. */
  function CompoundPlug(name: string, isArray: bool, children: seq<Plug>): (p: Plug)
    ensures p.def.name == name && p.def.isArray == isArray && IsCompound(p) && p.def.isDynamic
    ensures p.children == children && p.elements == []
  {
    Plug(AttrDef(name, HostType(CompoundAttr, NoSub), isArray, true, Nil, None, None, None, None, map[], 0, 0),
         false, false, Nil, [], children)
  }

  /**
   * What `addCompoundAttribute` leaves: a fault building the children, or a
   * name the node has, changes nothing; otherwise the compound is added and
   * configured from `info`, and then, unless that failed, the children's
   * dicts are applied in turn.
   */
  function CompoundAdded(nodes: map<NodeId, NodeRec>, locks: set<PlugRef>, id: NodeId, longName: string,
                         attrMap: seq<PlugRecord>, isArray: bool, info: PlugRecord): (st: Stage)
    requires id in nodes
    ensures st.nodes.Keys == nodes.Keys
  {
    var c := ChildAttrs(nodes[id], attrMap);
    if c.Err? then Stage(nodes, locks, Fail(c.fault))
    else if HasAttr(nodes[id], longName) then Stage(nodes, locks, Fail(RuntimeError))
    else
      var x := PlugRef(id, longName, []);
      var a := ApplyPlugInfo(CompoundPlug(longName, isArray, c.value), x, info, locks);
      if a.fault.Some? then Stage(WithAttr(nodes, id, a.plug), a.locks, Fail(a.fault.value))
      else ChildInfosFrom(WithAttr(nodes, id, a.plug), a.locks, x, attrMap, 0)
  }

  /**
   * `addCompoundAttribute`: the children are built first; then the compound,
   * array as asked, is added to the node (the host refuses a name the node
   * already has), the keyword arguments are applied to it, and each child
   * record to its child. A fault after the compound exists leaves it on the node.
   */
  method AddCompoundAttribute(s: Scene, id: NodeId, longName: string, attrMap: seq<PlugRecord>, isArray: bool,
                              info: PlugRecord) returns (res: Outcome)
    requires s.Valid() && id in s.nodes
    modifies s`nodes, s`locks
    ensures s.Valid() && OnlyAttrs(old(s.nodes), s.nodes, id) && NamesGrow(old(s.nodes), s.nodes)
    ensures var c := ChildAttrs(old(s.nodes)[id], attrMap);
      if c.Err? then res == Fail(c.fault) && s.nodes == old(s.nodes) && s.locks == old(s.locks)
      else if HasAttr(old(s.nodes)[id], longName) then
        res == Fail(RuntimeError) && s.nodes == old(s.nodes) && s.locks == old(s.locks)
      else
        && AttrNames(s.nodes[id].attrs) == AttrNames(old(s.nodes)[id].attrs) + [longName]
        && var q := PlugAt(s.nodes, PlugRef(id, longName, []));
        && q.Some? && IsCompound(q.value) && q.value.def.isArray == isArray
    ensures Stage(s.nodes, s.locks, res) == CompoundAdded(old(s.nodes), old(s.locks), id, longName, attrMap, isArray, info)
    ensures OthersKept(old(s.nodes), old(s.locks), s.nodes, s.locks, PlugRef(id, longName, []))
  {
    var c := ChildAttrs(s.nodes[id], attrMap);
    if c.Err? {
      return Fail(c.fault);
    }
    if HasAttr(s.nodes[id], longName) {
      return Fail(RuntimeError);
    }
    var comp := CompoundPlug(longName, isArray, c.value);
    ghost var n0 := s.nodes;
    var out := AddConfiguredAttr(s, id, comp, info);
    if out.Fail? {
      return Fail(out.fault);
    }
    var x := PlugRef(id, longName, []);
    ghost var n2 := s.nodes;
    ghost var l2 := s.locks;
    res := ApplyChildInfos(s, x, attrMap);
    ChildInfosStayBelow(n2, l2, x, attrMap, 0);
    OthersKeptTrans(n0, old(s.locks), n2, l2, s.nodes, s.locks, x);
    OnlyAttrsTrans(n0, n2, s.nodes, id);
    NamesGrowTrans(n0, n2, s.nodes);
  }

  /** Adds `p` to node `id` and then applies the dict `info` to it, as `addCompoundAttribute` does with the parent. */
  method AddConfiguredAttr(s: Scene, id: NodeId, p: Plug, info: PlugRecord) returns (out: Outcome)
    requires s.Valid() && id in s.nodes && !HasAttr(s.nodes[id], p.def.name)
    modifies s`nodes, s`locks
    ensures s.Valid() && OnlyAttrs(old(s.nodes), s.nodes, id) && NamesGrow(old(s.nodes), s.nodes)
    ensures AttrNames(s.nodes[id].attrs) == AttrNames(old(s.nodes)[id].attrs) + [p.def.name]
    ensures var q := PlugAt(s.nodes, PlugRef(id, p.def.name, []));
      q.Some? && q.value.def.host == p.def.host && q.value.def.isArray == p.def.isArray
    ensures var a := ApplyPlugInfo(p, PlugRef(id, p.def.name, []), info, old(s.locks));
      && out == (if a.fault.Some? then Fail(a.fault.value) else Pass)
      && s.nodes == WithAttr(old(s.nodes), id, a.plug) && s.locks == a.locks
    ensures OthersKept(old(s.nodes), old(s.locks), s.nodes, s.locks, PlugRef(id, p.def.name, []))
  {
    ghost var n0 := s.nodes;
    s.AddAttr(id, p);
    assert s.nodes == WithAttr(n0, id, p);
    WithAttrGrows(n0, id, p);
    var x := PlugRef(id, p.def.name, []);
    ghost var n1 := s.nodes;
    ghost var a := ApplyPlugInfo(p, x, info, s.locks);
    PlugAtWithAttr(n0, id, p, a.plug);
    out := SetPlugInfoFromDict(s, x, info);
    PlugAtWithAttr(n0, id, a.plug, a.plug);
    assert PlugAt(s.nodes, x) == Some(a.plug);
    AddedKeepsOthers(n0, old(s.locks), id, p, info);
    OnlyAttrsTrans(n0, n1, s.nodes, id);
    SameNamesGrow(n1, s.nodes);
    NamesGrowTrans(n0, n1, s.nodes);
  }

  /** Applies the dict of each child in turn to the children of `x`, stopping at the first failure. */
  method ApplyChildInfos(s: Scene, x: PlugRef, attrMap: seq<PlugRecord>) returns (res: Outcome)
    requires s.Valid() && x.node in s.nodes
    modifies s`nodes, s`locks
    ensures s.Valid() && SameNames(old(s.nodes), s.nodes) && OnlyAttrs(old(s.nodes), s.nodes, x.node)
    ensures NamesGrow(old(s.nodes), s.nodes) && TopOf(s.nodes, x) == TopOf(old(s.nodes), x)
    ensures Stage(s.nodes, s.locks, res) == ChildInfosFrom(old(s.nodes), old(s.locks), x, attrMap, 0)
  {
    ghost var n1 := s.nodes;
    SameNamesGrow(n1, n1);
    var i := 0;
    while i < |attrMap|
      invariant 0 <= i <= |attrMap|
      invariant s.Valid() && SameNames(n1, s.nodes) && OnlyAttrs(n1, s.nodes, x.node) && NamesGrow(n1, s.nodes)
      invariant TopOf(s.nodes, x) == TopOf(n1, x)
      invariant ChildInfosFrom(s.nodes, s.locks, x, attrMap, i) == ChildInfosFrom(n1, old(s.locks), x, attrMap, 0)
    {
      ghost var before := s.nodes;
      ghost var locks := s.locks;
      var y := Sub(x, Child(i));
      var o := SetPlugInfoFromDict(s, y, attrMap[i]);
      if PlugAt(before, y).Some? {
        PutBelowKeepsTop(before, y, ApplyPlugInfo(PlugAt(before, y).value, y, attrMap[i], locks).plug, x);
      }
      SameNamesTrans(n1, before, s.nodes);
      OnlyAttrsTrans(n1, before, s.nodes, x.node);
      SameNamesGrow(before, s.nodes);
      NamesGrowTrans(n1, before, s.nodes);
      if o.Fail? {
        return Fail(o.fault);
      }
      i := i + 1;
    }
    res := Pass;
  }

  // ---------------------------------------------------------------------------
  // Node records

  /** A connection into a node, as `serializeConnection` writes it. */
  datatype ConnRecord = ConnRecord(sourcePlug: PlugName, destinationPlug: PlugName, source: seq<string>, destination: seq<string>)

  /**
   * The dict of a node. A name or a parent is the "|"-separated path of node
   * names from the top of the hierarchy; absent keys are `None`.
   */
  datatype NodeRecord = NodeRecord(
    name: seq<string>,
    typeName: Option<string>,
    requirements: Option<string>,
    parent: Option<seq<string>>,
    attributes: Option<seq<PlugRecord>>,
    connections: Option<seq<ConnRecord>>)

  /** The last segment of a path, as `split("|")[-1]` takes it. */
  function LastName(path: seq<string>): string {
    if path == [] then "" else path[|path| - 1]
  }

  /** A required plug-in that is not loaded and does not load. */
  predicate RequirementFails(req: Option<string>, loaded: set<string>, installed: set<string>) {
    req.Some? && req.value != "" && req.value !in loaded && req.value !in installed
  }

  /** A requested parent the new DAG node cannot be put under: not a live DAG node. */
  predicate BadParent(nodes: map<NodeId, NodeRec>, data: NodeRecord, parent: Option<NodeId>) {
    data.parent.Some? && parent.Some? && !(parent.value in nodes && nodes[parent.value].isDag)
  }

  /**
   * The attributes a deserialised node gained: top-level, distinct, present on
   * the node, and none of them one of its type's static attributes.
   */
  predicate CreatedOn(xs: seq<PlugRef>, id: NodeId, n: NodeRec, statics: seq<Plug>) {
    && (forall k :: 0 <= k < |xs| ==>
          xs[k].node == id && xs[k].path == [] && HasAttr(n, xs[k].attr) && xs[k].attr !in AttrNames(statics))
    && (forall j, k :: 0 <= j < k < |xs| ==> xs[j].attr != xs[k].attr)
  }

  lemma CreatedOnGrows(xs: seq<PlugRef>, id: NodeId, a: NodeRec, b: NodeRec, statics: seq<Plug>)
    requires CreatedOn(xs, id, a, statics) && AttrNames(a.attrs) <= AttrNames(b.attrs)
    ensures CreatedOn(xs, id, b, statics)
  {
    forall k | 0 <= k < |xs|
      ensures HasAttr(b, xs[k].attr)
    {
      HasAttrGrows(a, b, xs[k].attr);
    }
  }

  lemma CreatedOnExtend(xs: seq<PlugRef>, id: NodeId, a: NodeRec, b: NodeRec, statics: seq<Plug>, name: string)
    requires CreatedOn(xs, id, a, statics) && AttrNames(statics) <= AttrNames(a.attrs) && AttrNames(a.attrs) <= AttrNames(b.attrs)
    requires !HasAttr(a, name) && HasAttr(b, name)
    ensures CreatedOn(xs + [PlugRef(id, name, [])], id, b, statics)
  {
    CreatedOnGrows(xs, id, a, b, statics);
    HasAttrNames(a, name);
    var st := NodeRec("", "", false, None, "", false, statics);
    NotAmongFirst(st, a, name);
  }

  /** The state of a node being deserialised from `born`, with `created` the attributes it gained so far. */
  predicate Building(nodes: map<NodeId, NodeRec>, id: NodeId, born: NodeRec, created: seq<PlugRef>) {
    && id in nodes && nodes[id] == born.(attrs := nodes[id].attrs)
    && AttrNames(born.attrs) <= AttrNames(nodes[id].attrs)
    && CreatedOn(created, id, nodes[id], born.attrs)
  }

  /**
   * What the creation step of `deserializeNode` leaves for a record no plug
   * resolves to: a compound for a record with children, otherwise a plain
   * attribute of the record's "Type" configured from the record, as
   * `addAttribute` adds it.
   */
  function RecordAttrAdded(nodes: map<NodeId, NodeRec>, locks: set<PlugRef>, id: NodeId, rec: PlugRecord): (st: Stage)
    requires id in nodes && rec.PlugRecord?
    ensures st.nodes.Keys == nodes.Keys
  {
    var name := rec.name.attr;
    if rec.children.Some? && rec.children.value != [] then
      CompoundAdded(nodes, locks, id, name, rec.children.value, rec.isArray, rec)
    else if rec.kind.None? then Stage(nodes, locks, Fail(KeyError))
    else if HasAttr(nodes[id], name) then Stage(nodes, locks, Fail(ValueError))
    else match CreatedType(rec.kind.value)
      case Err(e) => Stage(nodes, locks, Fail(e))
      case Ok(h) =>
        if h.None? then Stage(nodes, locks, Fail(AttributeError))
        else
          var a := ApplyPlugInfo(NewPlug(name, h.value, rec.isArray), PlugRef(id, name, []), rec, locks);
          Stage(WithAttr(nodes, id, a.plug), a.locks, if a.fault.Some? then Fail(a.fault.value) else Pass)
  }

  /**
   * What one attribute record of `deserializeNode` leaves: the plug its name
   * resolves to (a missing element is created) configured from the record,
   * where only a fault other than `RuntimeError` stops; a path that resolves
   * to nothing fails; a top-level name the node lacks is created from the
   * record.
   */
  function RecordApplied(nodes: map<NodeId, NodeRec>, locks: set<PlugRef>, id: NodeId, rec: PlugRecord): (st: Stage)
    requires id in nodes
    ensures st.nodes.Keys == nodes.Keys
  {
    if rec.NoRecord? then Stage(nodes, locks, Fail(KeyError))
    else
      var r := PlugRef(id, rec.name.attr, rec.name.path);
      var found := PlugAtOrNew(nodes, r);
      if found.Some? then
        var a := ApplyPlugInfo(found.value, r, rec, locks);
        Stage(PutAt(Touch(nodes, r), r, a.plug), a.locks,
              if a.fault.Some? && a.fault.value != RuntimeError then Fail(a.fault.value) else Pass)
      else if rec.name.path != [] then Stage(nodes, locks, Fail(RuntimeError))
      else RecordAttrAdded(nodes, locks, id, rec)
  }

  /** The records `recs[i..]` applied in turn, stopping at the first that fails. */
  function RecordsApplied(nodes: map<NodeId, NodeRec>, locks: set<PlugRef>, id: NodeId, recs: seq<PlugRecord>, i: nat): (st: Stage)
    requires id in nodes && i <= |recs|
    ensures st.nodes.Keys == nodes.Keys
    decreases |recs| - i
  {
    if i == |recs| then Stage(nodes, locks, Pass)
    else
      var st := RecordApplied(nodes, locks, id, recs[i]);
      if st.res.Fail? then st else RecordsApplied(st.nodes, st.locks, id, recs, i + 1)
  }

  /**
   * One attribute record of `deserializeNode`: it updates the plug its name
   * resolves to, logging a `RuntimeError`, or adds a compound or a plain
   * attribute, which joins `created`.
   */
  method DeserializeAttribute(s: Scene, id: NodeId, ghost born: NodeRec, created: seq<PlugRef>, rec: PlugRecord)
    returns (res: Result<seq<PlugRef>>)
    requires s.Valid() && Building(s.nodes, id, born, created)
    modifies s`nodes, s`locks
    ensures s.Valid() && OnlyAttrs(old(s.nodes), s.nodes, id)
    ensures res.Ok? ==> Building(s.nodes, id, born, res.value)
    ensures res.Ok? ==> res.value == created || (rec.PlugRecord? && res.value == created + [PlugRef(id, rec.name.attr, [])])
    ensures rec.NoRecord? ==> res == Err(KeyError)
    ensures var st := RecordApplied(old(s.nodes), old(s.locks), id, rec);
      && s.nodes == st.nodes && s.locks == st.locks
      && (res.Ok? <==> st.res.Pass?) && (res.Err? ==> st.res == Fail(res.fault))
  {
    if rec.NoRecord? {
      return Err(KeyError);
    }
    var r := PlugRef(id, rec.name.attr, rec.name.path);
    var found := PlugAtOrNew(s.nodes, r);
    if found.Some? {
      res := ApplyToExisting(s, id, born, created, rec);
    } else if rec.name.path != [] {
      return Err(RuntimeError);
    } else {
      assert !HasAttr(s.nodes[id], rec.name.attr);
      res := CreateFromRecord(s, id, born, created, rec);
    }
  }

  /** The record of a plug that already exists (or an element the index creates) is applied to it. */
  method ApplyToExisting(s: Scene, id: NodeId, ghost born: NodeRec, created: seq<PlugRef>, rec: PlugRecord)
    returns (res: Result<seq<PlugRef>>)
    requires s.Valid() && Building(s.nodes, id, born, created) && rec.PlugRecord?
    requires PlugAtOrNew(s.nodes, PlugRef(id, rec.name.attr, rec.name.path)).Some?
    modifies s`nodes, s`locks
    ensures s.Valid() && OnlyAttrs(old(s.nodes), s.nodes, id)
    ensures res.Ok? ==> res.value == created && Building(s.nodes, id, born, created)
    ensures var r := PlugRef(id, rec.name.attr, rec.name.path);
      var a := ApplyPlugInfo(PlugAtOrNew(old(s.nodes), r).value, r, rec, old(s.locks));
      && s.nodes == PutAt(Touch(old(s.nodes), r), r, a.plug) && s.locks == a.locks
      && PlugAt(s.nodes, r) == Some(a.plug)
      && (res.Ok? <==> a.fault.None? || a.fault == Some(RuntimeError))
      && (res.Err? ==> a.fault == Some(res.fault))
  {
    ghost var before := s.nodes;
    var r := PlugRef(id, rec.name.attr, rec.name.path);
    var found := PlugAtOrNew(s.nodes, r);
    s.WritePlug(r, found.value);
    assert s.nodes == Touch(before, r);
    TouchSameNames(before, r);
    TouchResolves(before, r);
    ghost var mid := s.nodes;
    ghost var a := ApplyPlugInfo(found.value, r, rec, s.locks);
    var out := SetPlugInfoFromDict(s, r, rec);
    GetIsGetOrNew(AttrPlug(mid[id], r.attr), r.path);
    PlugAtPutAt(mid, r, a.plug);
    SameNamesTrans(before, mid, s.nodes);
    OnlyAttrsTrans(before, mid, s.nodes, id);
    CreatedOnGrows(created, id, before[id], s.nodes[id], born.attrs);
    if out.Fail? && out.fault != RuntimeError {
      return Err(out.fault);
    }
    return Ok(created);
  }

  /** A top-level attribute the node lacks is created from the record, as a compound when it has children. */
  method CreateFromRecord(s: Scene, id: NodeId, ghost born: NodeRec, created: seq<PlugRef>, rec: PlugRecord)
    returns (res: Result<seq<PlugRef>>)
    requires s.Valid() && Building(s.nodes, id, born, created) && rec.PlugRecord?
    requires !HasAttr(s.nodes[id], rec.name.attr)
    modifies s`nodes, s`locks
    ensures s.Valid() && OnlyAttrs(old(s.nodes), s.nodes, id)
    ensures res.Ok? ==> res.value == created + [PlugRef(id, rec.name.attr, [])] && Building(s.nodes, id, born, res.value)
    ensures var st := RecordAttrAdded(old(s.nodes), old(s.locks), id, rec);
      && s.nodes == st.nodes && s.locks == st.locks
      && (res.Ok? <==> st.res.Pass?) && (res.Err? ==> st.res == Fail(res.fault))
  {
    ghost var before := s.nodes;
    var name := rec.name.attr;
    var made := NewRecordAttr(s, id, rec);
    if made.Fail? {
      return Err(made.fault);
    }
    CreatedOnExtend(created, id, before[id], s.nodes[id], born.attrs, name);
    res := Ok(created + [PlugRef(id, name, [])]);
  }

  /** The creation step of `CreateFromRecord`: a compound for a record with children, a plain attribute otherwise. */
  method NewRecordAttr(s: Scene, id: NodeId, rec: PlugRecord) returns (res: Outcome)
    requires s.Valid() && id in s.nodes && rec.PlugRecord? && !HasAttr(s.nodes[id], rec.name.attr)
    modifies s`nodes, s`locks
    ensures s.Valid() && OnlyAttrs(old(s.nodes), s.nodes, id) && NamesGrow(old(s.nodes), s.nodes)
    ensures res.Pass? ==> HasAttr(s.nodes[id], rec.name.attr)
    ensures rec.kind.None? && (rec.children.None? || rec.children.value == []) ==> res == Fail(KeyError)
    ensures Stage(s.nodes, s.locks, res) == RecordAttrAdded(old(s.nodes), old(s.locks), id, rec)
  {
    var name := rec.name.attr;
    if rec.children.Some? && rec.children.value != [] {
      res := AddCompoundAttribute(s, id, name, rec.children.value, rec.isArray, rec);
      if res.Pass? {
        assert PlugAt(s.nodes, PlugRef(id, name, [])).Some?;
      }
    } else {
      if rec.kind.None? {
        return Fail(KeyError);
      }
      assert WithType(rec, rec.kind.value) == rec;
      var made := AddAttribute(s, id, name, rec.kind.value, rec.isArray, true, rec);
      if made.Err? {
        return Fail(made.fault);
      }
      if made.value.None? {
        return Fail(AttributeError);
      }
      assert PlugAt(s.nodes, PlugRef(id, name, [])).Some?;
      res := Pass;
    }
  }

  /**
   * `deserializeNode`. A record without a type gives no node; so does a
   * required plug-in that fails to load. Otherwise a node of the record's type
   * is created under the last segment of its name, a DAG node under `parent`
   * when the record has a parent key. Each attribute record then either
   * updates the plug its name resolves to, where a `RuntimeError` is only
   * logged, or, when no plug resolves, adds a compound (when it has children)
   * or a plain attribute, which is reported as created.
   */
  method DeserializeNode(s: Scene, data: NodeRecord, parent: Option<NodeId>)
    returns (res: Result<(Option<NodeId>, seq<PlugRef>)>)
    requires s.Valid()
    modifies s`nodes, s`locks, s`nextId, s`loaded
    ensures s.Valid()
    ensures forall j :: j in old(s.nodes) ==> j in s.nodes && s.nodes[j] == old(s.nodes)[j]
    ensures data.typeName.None? ==> res == Ok((None, [])) && s.nodes == old(s.nodes)
    ensures data.typeName.Some? && RequirementFails(data.requirements, old(s.loaded), s.installed) ==>
      res == Ok((None, [])) && s.nodes == old(s.nodes)
    ensures data.typeName.Some? && !RequirementFails(data.requirements, old(s.loaded), s.installed) ==>
      && (data.typeName.value !in s.types ==> res == Err(TypeError) && s.nodes == old(s.nodes))
      && (data.typeName.value in s.types && BadParent(old(s.nodes), data, parent) ==>
            res == Err(RuntimeError) && s.nodes == old(s.nodes))
      && (data.typeName.value in s.types && !BadParent(old(s.nodes), data, parent) ==>
            && var st := Deserialized(s, old(s.nodes), old(s.locks), old(s.nextId), data, parent);
            && s.nodes == st.nodes && s.locks == st.locks
            && (res.Ok? <==> st.res.Pass?) && (res.Err? ==> st.res == Fail(res.fault)))
    ensures res.Ok? ==> (res.value.0.None? <==>
      data.typeName.None? || RequirementFails(data.requirements, old(s.loaded), s.installed))
    ensures res.Ok? && res.value.0.Some? ==>
      && data.typeName.Some? && data.typeName.value in s.types
      && var id := res.value.0.value;
      && id !in old(s.nodes) && s.nodes.Keys == old(s.nodes).Keys + {id}
      && var n := s.nodes[id];
      && n.name == LastName(data.name) && n.typeName == data.typeName.value && !n.locked
      && n.isDag == data.parent.Some? && n.parent == (if data.parent.Some? then parent else None)
      && n.plugin == s.types[n.typeName].plugin
      && CreatedOn(res.value.1, id, n, s.types[n.typeName].attrs)
  {
    if data.typeName.None? {
      return Ok((None, []));
    }
    var req := if data.requirements.Some? then data.requirements.value else "";
    if req != "" && req !in s.loaded {
      var loaded := s.LoadPlugin(req);
      if !loaded {
        return Ok((None, []));
      }
    }
    var typeName := data.typeName.value;
    if typeName !in s.types {
      return Err(TypeError);
    }
    var isDag := data.parent.Some?;
    if isDag && parent.Some? && !(parent.value in s.nodes && s.nodes[parent.value].isDag) {
      return Err(RuntimeError);
    }
    res := BuildNode(s, data, parent);
  }

  /** The node of a record whose type exists and whose parent is acceptable, built and given its attributes. */
  method BuildNode(s: Scene, data: NodeRecord, parent: Option<NodeId>)
    returns (res: Result<(Option<NodeId>, seq<PlugRef>)>)
    requires s.Valid() && data.typeName.Some? && data.typeName.value in s.types && !BadParent(s.nodes, data, parent)
    modifies s`nodes, s`locks, s`nextId
    ensures s.Valid()
    ensures forall j :: j in old(s.nodes) ==> j in s.nodes && s.nodes[j] == old(s.nodes)[j]
    ensures res.Ok? ==>
      && res.value.0.Some?
      && var id := res.value.0.value;
      && id !in old(s.nodes) && s.nodes.Keys == old(s.nodes).Keys + {id}
      && var n := s.nodes[id];
      && n.name == LastName(data.name) && n.typeName == data.typeName.value && !n.locked
      && n.isDag == data.parent.Some? && n.parent == (if data.parent.Some? then parent else None)
      && n.plugin == s.types[n.typeName].plugin
      && CreatedOn(res.value.1, id, n, s.types[n.typeName].attrs)
    ensures var st := Deserialized(s, old(s.nodes), old(s.locks), old(s.nextId), data, parent);
      && s.nodes == st.nodes && s.locks == st.locks
      && (res.Ok? <==> st.res.Pass?) && (res.Err? ==> st.res == Fail(res.fault))
      && (res.Ok? ==> res.value.0 == Some(old(s.nextId)))
  {
    var typeName := data.typeName.value;
    var isDag := data.parent.Some?;
    var id := s.CreateNode(LastName(data.name), typeName, isDag, if isDag then parent else None);
    ghost var born := s.nodes[id];
    var recs := if data.attributes.Some? then data.attributes.value else [];
    assert Building(s.nodes, id, born, []);
    ghost var n1 := s.nodes;
    var made := DeserializeAttributes(s, id, born, recs);
    assert s.nodes.Keys == old(s.nodes).Keys + {id};
    assert forall j :: j in old(s.nodes) ==> j != id && j in n1 && s.nodes[j] == n1[j] == old(s.nodes)[j];
    if made.Err? {
      return Err(made.fault);
    }
    res := Ok((Some(id), made.value));
  }

  /**
   * What `deserializeNode` leaves once the node is made: the node `id`, fresh
   * from its type, named by the last segment of the record's name and put
   * under `parent` when the record has a parent key, then each attribute
   * record applied in turn.
   */
  ghost function Deserialized(s: Scene, nodes: map<NodeId, NodeRec>, locks: set<PlugRef>, id: NodeId,
                              data: NodeRecord, parent: Option<NodeId>): (st: Stage)
    requires data.typeName.Some? && data.typeName.value in s.types
    ensures st.nodes.Keys == nodes.Keys + {id}
  {
    var isDag := data.parent.Some?;
    var born := s.Fresh(LastName(data.name), data.typeName.value, isDag, if isDag then parent else None);
    RecordsApplied(nodes[id := born], locks, id, if data.attributes.Some? then data.attributes.value else [], 0)
  }

  /** The attribute loop of `deserializeNode`: each record in turn, stopping at the first that raises. */
  method DeserializeAttributes(s: Scene, id: NodeId, ghost born: NodeRec, recs: seq<PlugRecord>)
    returns (res: Result<seq<PlugRef>>)
    requires s.Valid() && Building(s.nodes, id, born, [])
    modifies s`nodes, s`locks
    ensures s.Valid() && OnlyAttrs(old(s.nodes), s.nodes, id)
    ensures res.Ok? ==> Building(s.nodes, id, born, res.value)
    ensures var st := RecordsApplied(old(s.nodes), old(s.locks), id, recs, 0);
      && s.nodes == st.nodes && s.locks == st.locks
      && (res.Ok? <==> st.res.Pass?) && (res.Err? ==> st.res == Fail(res.fault))
  {
    var created: seq<PlugRef> := [];
    var i := 0;
    while i < |recs|
      invariant 0 <= i <= |recs|
      invariant s.Valid() && OnlyAttrs(old(s.nodes), s.nodes, id)
      invariant Building(s.nodes, id, born, created)
      invariant RecordsApplied(s.nodes, s.locks, id, recs, i) == RecordsApplied(old(s.nodes), old(s.locks), id, recs, 0)
    {
      ghost var before := s.nodes;
      var one := DeserializeAttribute(s, id, born, created, recs[i]);
      OnlyAttrsTrans(old(s.nodes), before, s.nodes, id);
      if one.Err? {
        return Err(one.fault);
      }
      created := one.value;
      i := i + 1;
    }
    res := Ok(created);
  }

  // ---------------------------------------------------------------------------
  // Serialising a node

  /**
   * The path `fullPathName` gives a DAG node, its ancestors' names first, or
   * the name of a dependency node. `fuel` bounds the walk up the hierarchy.
   */
  function PathName(nodes: map<NodeId, NodeRec>, id: NodeId, fuel: nat): (r: seq<string>)
    ensures id in nodes ==> r != [] && r[|r| - 1] == nodes[id].name
    ensures id in nodes && !nodes[id].isDag ==> r == [nodes[id].name]
    decreases fuel
  {
    if id !in nodes then []
    else if !nodes[id].isDag then [nodes[id].name]
    else
      var up := if nodes[id].parent.Some? && fuel > 0 then PathName(nodes, nodes[id].parent.value, fuel - 1) else [];
      up + [nodes[id].name]
  }

  function NodePath(nodes: map<NodeId, NodeRec>, id: NodeId): seq<string> {
    PathName(nodes, id, |nodes|)
  }

  /** `s.replace(pattern, "")`: the occurrences of `pattern`, found left to right without overlap, removed. */
  function RemoveAll(s: string, pattern: string): (r: string)
    requires pattern != []
    ensures |r| <= |s|
    decreases |s|
  {
    if |s| < |pattern| then s
    else if s[..|pattern|] == pattern then RemoveAll(s[|pattern|..], pattern)
    else [s[0]] + RemoveAll(s[1..], pattern)
  }

  /** A string without `c` keeps every pattern that holds `c`. */
  lemma {:induction false} RemoveAllAbsent(s: string, pattern: string, c: char)
    requires pattern != [] && c in pattern && c !in s
    ensures RemoveAll(s, pattern) == s
    decreases |s|
  {
    if |pattern| <= |s| {
      assert s[..|pattern|] != pattern by {
        var k :| 0 <= k < |pattern| && pattern[k] == c;
        assert s[..|pattern|][k] == s[k];
      }
      RemoveAllAbsent(s[1..], pattern, c);
      assert [s[0]] + s[1..] == s;
    }
  }

  /** The text before the last ':' of `s`, or "" when it has none. */
  function BeforeLastColon(s: string): (r: string)
    ensures |r| < |s| || r == []
    ensures ':' in s ==> r + [':'] <= s
    decreases |s|
  {
    if s == [] then []
    else if s[|s| - 1] == ':' then s[..|s| - 1]
    else
      var r := BeforeLastColon(s[..|s| - 1]);
      assert ':' in s ==> ':' in s[..|s| - 1];
      r
  }

  /**
   * `getNamespaceFromName(name).split("|")[-1]` for the path `name` joins:
   * the namespace Maya reads off a name is the text before its last ':', and
   * its last "|" segment lies in the last path segment that has a ':'.
   */
  function NamespaceOf(path: seq<string>): string
    decreases |path|
  {
    if path == [] then []
    else if ':' in path[|path| - 1] then BeforeLastColon(path[|path| - 1])
    else NamespaceOf(path[..|path| - 1])
  }

  /**
   * The name `serializeNode` writes: every occurrence of the namespace and
   * its ':' removed from the path. The pattern holds no "|", so this is the
   * removal segment by segment.
   */
  function StripNamespace(path: seq<string>): (r: seq<string>)
    ensures |r| == |path|
  {
    var pattern := NamespaceOf(path) + [':'];
    seq(|path|, i requires 0 <= i < |path| => RemoveAll(path[i], pattern))
  }

  /** A path with no ':' anywhere is written as it is. */
  lemma StripNoNamespace(path: seq<string>)
    requires forall i :: 0 <= i < |path| ==> ':' !in path[i]
    ensures StripNamespace(path) == path
  {
    var pattern := NamespaceOf(path) + [':'];
    forall i | 0 <= i < |path|
      ensures RemoveAll(path[i], pattern) == path[i]
    {
      RemoveAllAbsent(path[i], pattern, ':');
    }
  }

  /** A node named `ns:leaf`, with one namespace and no other ':', is written as `leaf`. */
  lemma StripOneNamespace(path: seq<string>, ns: string, leaf: string)
    requires path != [] && path[|path| - 1] == ns + [':'] + leaf && ':' !in ns && ':' !in leaf
    ensures LastName(StripNamespace(path)) == leaf
  {
    var last := path[|path| - 1];
    assert ':' in last by { assert last[|ns|] == ':'; }
    assert BeforeLastColon(last) == ns by {
      BeforeLastLeaf(ns + [':'], leaf);
      assert last == (ns + [':']) + leaf;
    }
    var pattern := ns + [':'];
    assert last[..|pattern|] == pattern;
    assert last[|pattern|..] == leaf;
    RemoveAllAbsent(leaf, pattern, ':');
  }

  lemma {:induction false} BeforeLastLeaf(s: string, leaf: string)
    requires s != [] && s[|s| - 1] == ':' && ':' !in leaf
    ensures BeforeLastColon(s + leaf) == s[..|s| - 1]
    decreases |leaf|
  {
    if leaf != [] {
      var t := s + leaf;
      assert t[..|t| - 1] == s + leaf[..|leaf| - 1];
      assert leaf[|leaf| - 1] in leaf;
      BeforeLastLeaf(s, leaf[..|leaf| - 1]);
    } else {
      assert s + leaf == s;
    }
  }

  /** The partial name of a plug, ending on the long name of the attribute it resolves to. */
  function RefName(nodes: map<NodeId, NodeRec>, r: PlugRef): PlugName {
    var p := PlugAt(nodes, r);
    PlugName(r.attr, r.path, if p.Some? then p.value.def.name else r.attr)
  }

  /** `needle in hay` on strings. */
  predicate Contains(hay: string, needle: string)
    decreases |hay|
  {
    needle <= hay || (hay != [] && Contains(hay[1..], needle))
  }

  /** A plug name that one of the skip strings occurs in. */
  predicate Skipped(name: string, skip: seq<string>) {
    exists k :: 0 <= k < |skip| && Contains(name, skip[k])
  }

  predicate EndsInChild(x: PlugRef) {
    x.path != [] && x.path[|x.path| - 1].Child?
  }

  /** `iterChildren`: the sub-plugs of a plug, elements in physical order and children in order, each before its parent. */
  function Leaves(p: Plug, r: PlugRef): (xs: seq<(PlugRef, Plug)>)
    ensures xs != [] && xs[|xs| - 1] == (r, p)
    decreases p, 1
  {
    (if p.def.isArray then ElemLeaves(p, r, 0) else if IsCompound(p) then ChildLeaves(p, r, 0) else []) + [(r, p)]
  }

  function ElemLeaves(p: Plug, r: PlugRef, i: nat): seq<(PlugRef, Plug)>
    requires i <= |p.elements|
    decreases p, 0, |p.elements| - i
  {
    if i == |p.elements| then []
    else
      assert p.elements[i] in p.elements;
      Leaves(p.elements[i].plug, Sub(r, Elem(p.elements[i].index))) + ElemLeaves(p, r, i + 1)
  }

  function ChildLeaves(p: Plug, r: PlugRef, i: nat): seq<(PlugRef, Plug)>
    requires i <= |p.children|
    decreases p, 0, |p.children| - i
  {
    if i == |p.children| then []
    else
      assert p.children[i] in p.children;
      Leaves(p.children[i], Sub(r, Child(i))) + ChildLeaves(p, r, i + 1)
  }

  /** Every plug of `xs` lies under `r`: same node and attribute, and a path that extends `r`'s. */
  predicate AllUnder(xs: seq<(PlugRef, Plug)>, r: PlugRef) {
    forall k :: 0 <= k < |xs| ==> xs[k].0.node == r.node && xs[k].0.attr == r.attr && r.path <= xs[k].0.path
  }

  lemma AllUnderSub(xs: seq<(PlugRef, Plug)>, r: PlugRef, st: Step)
    requires AllUnder(xs, Sub(r, st))
    ensures AllUnder(xs, r)
  {
    forall k | 0 <= k < |xs|
      ensures r.path <= xs[k].0.path
    {
      assert r.path <= Sub(r, st).path;
    }
  }

  lemma {:induction false} LeavesUnder(p: Plug, r: PlugRef)
    ensures AllUnder(Leaves(p, r), r)
    decreases p, 1
  {
    if p.def.isArray {
      ElemLeavesUnder(p, r, 0);
    } else if IsCompound(p) {
      ChildLeavesUnder(p, r, 0);
    }
  }

  lemma {:induction false} ElemLeavesUnder(p: Plug, r: PlugRef, i: nat)
    requires i <= |p.elements|
    ensures AllUnder(ElemLeaves(p, r, i), r)
    decreases p, 0, |p.elements| - i
  {
    if i < |p.elements| {
      assert p.elements[i] in p.elements;
      var st := Elem(p.elements[i].index);
      LeavesUnder(p.elements[i].plug, Sub(r, st));
      AllUnderSub(Leaves(p.elements[i].plug, Sub(r, st)), r, st);
      ElemLeavesUnder(p, r, i + 1);
    }
  }

  lemma {:induction false} ChildLeavesUnder(p: Plug, r: PlugRef, i: nat)
    requires i <= |p.children|
    ensures AllUnder(ChildLeaves(p, r, i), r)
    decreases p, 0, |p.children| - i
  {
    if i < |p.children| {
      assert p.children[i] in p.children;
      LeavesUnder(p.children[i], Sub(r, Child(i)));
      AllUnderSub(Leaves(p.children[i], Sub(r, Child(i))), r, Child(i));
      ChildLeavesUnder(p, r, i + 1);
    }
  }

  /** `iterAttributes` from attribute `i` on: the sub-plugs of each top-level attribute whose name no skip string occurs in. */
  function AttrLeaves(n: NodeRec, id: NodeId, skip: seq<string>, i: nat): seq<(PlugRef, Plug)>
    requires i <= |n.attrs|
    decreases |n.attrs| - i
  {
    if i == |n.attrs| then []
    else
      var a := n.attrs[i];
      (if Skipped(n.name + "." + a.def.name, skip) then [] else Leaves(a, PlugRef(id, a.def.name, [])))
      + AttrLeaves(n, id, skip, i + 1)
  }

  /** The plugs `iterAttributes` yields belong to the node, to one of its attributes, and to none that is skipped. */
  lemma {:induction false} AttrLeavesFrom(n: NodeRec, id: NodeId, skip: seq<string>, i: nat)
    requires i <= |n.attrs|
    ensures forall k :: 0 <= k < |AttrLeaves(n, id, skip, i)| ==>
      var x := AttrLeaves(n, id, skip, i)[k].0;
      x.node == id && x.attr in AttrNames(n.attrs) && !Skipped(n.name + "." + x.attr, skip)
    decreases |n.attrs| - i
  {
    if i < |n.attrs| {
      var a := n.attrs[i];
      assert AttrNames(n.attrs)[i] == a.def.name;
      LeavesUnder(a, PlugRef(id, a.def.name, []));
      AttrLeavesFrom(n, id, skip, i + 1);
    }
  }

  /** A plug `serializeNode` looks at: not a child, and changed from its default or connected. */
  predicate Kept(edges: seq<Edge>, x: PlugRef, p: Plug) {
    !(IsDefault(p) && !IsConnected(edges, x)) && !EndsInChild(x)
  }

  /**
   * The attribute loop of `serializeNode` over `xs`: the records made so far,
   * and the plugs visited. A plug already visited, or not kept, is passed over;
   * a visited plug whose record is empty adds no record.
   */
  function Collect(edges: seq<Edge>, locks: set<PlugRef>, xs: seq<(PlugRef, Plug)>): (r: (seq<PlugRecord>, seq<PlugRef>))
    decreases |xs|
  {
    if xs == [] then ([], [])
    else
      var prev := Collect(edges, locks, xs[..|xs| - 1]);
      var x := xs[|xs| - 1].0;
      var p := xs[|xs| - 1].1;
      if x in prev.1 || !Kept(edges, x, p) then prev
      else
        var rec := SerializePlug(p, x, locks);
        (if rec.NoRecord? then prev.0 else prev.0 + [rec], prev.1 + [x])
  }

  /**
   * The records are the non-empty records of kept plugs; every kept plug is
   * visited, once, and only kept plugs are.
   */
  lemma CollectSpec(edges: seq<Edge>, locks: set<PlugRef>, xs: seq<(PlugRef, Plug)>)
    ensures var r := Collect(edges, locks, xs);
      && (forall m :: 0 <= m < |r.0| ==>
            (r.0[m].PlugRecord? &&
             exists k :: 0 <= k < |xs| && Kept(edges, xs[k].0, xs[k].1) && r.0[m] == SerializePlug(xs[k].1, xs[k].0, locks)))
      && (forall k :: 0 <= k < |xs| && Kept(edges, xs[k].0, xs[k].1) ==> xs[k].0 in r.1)
      && (forall m :: 0 <= m < |r.1| ==> exists k :: 0 <= k < |xs| && xs[k].0 == r.1[m] && Kept(edges, xs[k].0, xs[k].1))
      && Distinct(r.1)
  {
    CollectRecords(edges, locks, xs);
    CollectVisitsKept(edges, locks, xs);
    CollectVisitsOnlyKept(edges, locks, xs);
    CollectDistinct(edges, locks, xs);
  }

  lemma {:induction false} CollectRecords(edges: seq<Edge>, locks: set<PlugRef>, xs: seq<(PlugRef, Plug)>)
    ensures var r := Collect(edges, locks, xs);
      forall m :: 0 <= m < |r.0| ==>
        (r.0[m].PlugRecord? &&
         exists k :: 0 <= k < |xs| && Kept(edges, xs[k].0, xs[k].1) && r.0[m] == SerializePlug(xs[k].1, xs[k].0, locks))
    decreases |xs|
  {
    if xs != [] {
      var init := xs[..|xs| - 1];
      CollectRecords(edges, locks, init);
      var prev := Collect(edges, locks, init);
      var r := Collect(edges, locks, xs);
      CollectGrows(edges, locks, xs);
      forall m | 0 <= m < |r.0|
        ensures r.0[m].PlugRecord? &&
          exists k :: 0 <= k < |xs| && Kept(edges, xs[k].0, xs[k].1) && r.0[m] == SerializePlug(xs[k].1, xs[k].0, locks)
      {
        if m < |prev.0| {
          assert r.0[m] == prev.0[m];
          var k :| 0 <= k < |init| && Kept(edges, init[k].0, init[k].1) && prev.0[m] == SerializePlug(init[k].1, init[k].0, locks);
          assert xs[k] == init[k];
        } else {
          var k := |xs| - 1;
          assert r.0 == prev.0 + [SerializePlug(xs[k].1, xs[k].0, locks)];
          assert r.0[m] == SerializePlug(xs[k].1, xs[k].0, locks);
        }
      }
    }
  }

  lemma {:induction false} CollectVisitsKept(edges: seq<Edge>, locks: set<PlugRef>, xs: seq<(PlugRef, Plug)>)
    ensures var r := Collect(edges, locks, xs);
      forall k :: 0 <= k < |xs| && Kept(edges, xs[k].0, xs[k].1) ==> xs[k].0 in r.1
    decreases |xs|
  {
    if xs != [] {
      var init := xs[..|xs| - 1];
      CollectVisitsKept(edges, locks, init);
      CollectGrows(edges, locks, xs);
      var r := Collect(edges, locks, xs);
      forall k | 0 <= k < |xs| && Kept(edges, xs[k].0, xs[k].1)
        ensures xs[k].0 in r.1
      {
        if k < |init| {
          assert init[k] == xs[k];
        }
      }
    }
  }

  /** A step of `Collect` keeps what it had and appends to it at most the last plug and its record. */
  lemma CollectGrows(edges: seq<Edge>, locks: set<PlugRef>, xs: seq<(PlugRef, Plug)>)
    requires xs != []
    ensures var prev := Collect(edges, locks, xs[..|xs| - 1]);
      var r := Collect(edges, locks, xs);
      var x := xs[|xs| - 1];
      && (r.1 == prev.1 || r.1 == prev.1 + [x.0])
      && (r.0 == prev.0 || (r.0 == prev.0 + [SerializePlug(x.1, x.0, locks)] && Kept(edges, x.0, x.1)))
  {
  }

  lemma {:induction false} CollectVisitsOnlyKept(edges: seq<Edge>, locks: set<PlugRef>, xs: seq<(PlugRef, Plug)>)
    ensures var r := Collect(edges, locks, xs);
      forall m :: 0 <= m < |r.1| ==> exists k :: 0 <= k < |xs| && xs[k].0 == r.1[m] && Kept(edges, xs[k].0, xs[k].1)
    decreases |xs|
  {
    if xs != [] {
      var init := xs[..|xs| - 1];
      CollectVisitsOnlyKept(edges, locks, init);
      var prev := Collect(edges, locks, init);
      var r := Collect(edges, locks, xs);
      CollectGrows(edges, locks, xs);
      forall m | 0 <= m < |r.1|
        ensures exists k :: 0 <= k < |xs| && xs[k].0 == r.1[m] && Kept(edges, xs[k].0, xs[k].1)
      {
        if m < |prev.1| {
          assert r.1[m] == prev.1[m];
          var k :| 0 <= k < |init| && init[k].0 == prev.1[m] && Kept(edges, init[k].0, init[k].1);
          assert xs[k] == init[k];
        }
      }
    }
  }

  lemma {:induction false} CollectDistinct(edges: seq<Edge>, locks: set<PlugRef>, xs: seq<(PlugRef, Plug)>)
    ensures Distinct(Collect(edges, locks, xs).1)
    decreases |xs|
  {
    if xs != [] {
      CollectDistinct(edges, locks, xs[..|xs| - 1]);
    }
  }

  /** The record of a connection into the node, from the (destination, source) pair `iterConnections` yields. */
  function ConnOf(nodes: map<NodeId, NodeRec>, pair: (PlugRef, PlugRef)): ConnRecord {
    ConnRecord(RefName(nodes, pair.1), RefName(nodes, pair.0), NodePath(nodes, pair.1.node), NodePath(nodes, pair.0.node))
  }

  /** One connection record per pair, in order. */
  function ConnsOf(nodes: map<NodeId, NodeRec>, pairs: seq<(PlugRef, PlugRef)>): (r: seq<ConnRecord>)
    ensures |r| == |pairs|
  {
    seq(|pairs|, k requires 0 <= k < |pairs| => ConnOf(nodes, pairs[k]))
  }

  /** The connection records of node `id`, one per incoming edge of its plugs. */
  function ConnRecords(nodes: map<NodeId, NodeRec>, edges: seq<Edge>, id: NodeId): (r: seq<ConnRecord>)
    ensures |r| == |IterConnections(edges, id, false, true)|
  {
    ConnsOf(nodes, IterConnections(edges, id, false, true))
  }

  /**
   * The dict `serializeNode` gives a live node: its path without its namespace, type, plug-in when
   * it has one, parent path when it is a DAG node, the records of its kept
   * plugs and the records of its incoming connections, each list only when
   * it is not empty.
   */
  function SerializedNode(nodes: map<NodeId, NodeRec>, edges: seq<Edge>, locks: set<PlugRef>, id: NodeId,
                          skip: seq<string>, includeConnections: bool): (d: NodeRecord)
    requires id in nodes
    ensures d.typeName == Some(nodes[id].typeName)
    ensures LastName(d.name) == RemoveAll(nodes[id].name, NamespaceOf(NodePath(nodes, id)) + [':'])
    ensures d.requirements.Some? <==> nodes[id].plugin != ""
    ensures d.requirements.Some? ==> d.requirements.value == nodes[id].plugin
    ensures d.parent.Some? <==> nodes[id].isDag
    ensures d.attributes.Some? ==> d.attributes.value != []
    ensures d.connections.Some? <==> includeConnections && IterConnections(edges, id, false, true) != []
  {
    var n := nodes[id];
    var attributes := Collect(edges, locks, AttrLeaves(n, id, skip, 0)).0;
    var connections := if includeConnections then ConnRecords(nodes, edges, id) else [];
    NodeRecord(StripNamespace(NodePath(nodes, id)), Some(n.typeName), if n.plugin != "" then Some(n.plugin) else None,
               if n.isDag then Some(if n.parent.Some? then NodePath(nodes, n.parent.value) else []) else None,
               if attributes != [] then Some(attributes) else None,
               if connections != [] then Some(connections) else None)
  }

  /** A node whose path has no namespace is written under its full path. */
  lemma SerializedNamePlain(nodes: map<NodeId, NodeRec>, edges: seq<Edge>, locks: set<PlugRef>, id: NodeId,
                            skip: seq<string>, includeConnections: bool)
    requires id in nodes && forall i :: 0 <= i < |NodePath(nodes, id)| ==> ':' !in NodePath(nodes, id)[i]
    ensures SerializedNode(nodes, edges, locks, id, skip, includeConnections).name == NodePath(nodes, id)
  {
    StripNoNamespace(NodePath(nodes, id));
  }

  /** A node named `ns:leaf`, one namespace deep, is written as `leaf`. */
  lemma SerializedNameLeaf(nodes: map<NodeId, NodeRec>, edges: seq<Edge>, locks: set<PlugRef>, id: NodeId,
                           skip: seq<string>, includeConnections: bool, ns: string, leaf: string)
    requires id in nodes && nodes[id].name == ns + [':'] + leaf && ':' !in ns && ':' !in leaf
    ensures LastName(SerializedNode(nodes, edges, locks, id, skip, includeConnections).name) == leaf
  {
    StripOneNamespace(NodePath(nodes, id), ns, leaf);
  }

  /**
   * Each attribute record of a serialised node is the non-empty record of a
   * kept plug of one of the node's attributes that no skip string occurs in.
   */
  lemma SerializedAttributes(nodes: map<NodeId, NodeRec>, edges: seq<Edge>, locks: set<PlugRef>, id: NodeId,
                             skip: seq<string>, includeConnections: bool)
    requires id in nodes
    ensures var d := SerializedNode(nodes, edges, locks, id, skip, includeConnections);
      d.attributes.Some? ==> forall m :: 0 <= m < |d.attributes.value| ==>
        var rec := d.attributes.value[m];
        && rec.PlugRecord? && rec.name.attr in AttrNames(nodes[id].attrs)
        && !Skipped(nodes[id].name + "." + rec.name.attr, skip)
        && !EndsInChild(PlugRef(id, rec.name.attr, rec.name.path))
  {
    var n := nodes[id];
    var xs := AttrLeaves(n, id, skip, 0);
    AttrLeavesFrom(n, id, skip, 0);
    CollectSpec(edges, locks, xs);
  }

  /** The attribute loop of `serializeNode`, over a fixed scene. */
  method CollectLoop(edges: seq<Edge>, locks: set<PlugRef>, plugs: seq<(PlugRef, Plug)>)
    returns (attributes: seq<PlugRecord>, visited: seq<PlugRef>)
    ensures (attributes, visited) == Collect(edges, locks, plugs)
  {
    attributes, visited := [], [];
    var i := 0;
    while i < |plugs|
      invariant 0 <= i <= |plugs|
      invariant (attributes, visited) == Collect(edges, locks, plugs[..i])
    {
      var x := plugs[i].0;
      var p := plugs[i].1;
      assert plugs[..i + 1][..i] == plugs[..i];
      if !(x in visited || (IsDefault(p) && !IsConnected(edges, x)) || EndsInChild(x)) {
        var rec := SerializePlug(p, x, locks);
        if rec.PlugRecord? {
          attributes := attributes + [rec];
        }
        visited := visited + [x];
      }
      i := i + 1;
    }
    assert plugs[..|plugs|] == plugs;
  }

  /** The connection loop of `serializeNode`: one record per incoming pair, in order. */
  method ConnLoop(nodes: map<NodeId, NodeRec>, pairs: seq<(PlugRef, PlugRef)>) returns (connections: seq<ConnRecord>)
    ensures connections == ConnsOf(nodes, pairs)
  {
    connections := [];
    var j := 0;
    while j < |pairs|
      invariant 0 <= j <= |pairs| && |connections| == j
      invariant forall k :: 0 <= k < j ==> connections[k] == ConnOf(nodes, pairs[k])
    {
      connections := connections + [ConnOf(nodes, pairs[j])];
      j := j + 1;
    }
  }

  /**
   * `serializeNode`: the attribute loop and the connection loop, over a live
   * node. A handle to no live node raises `RuntimeError`.
   */
  method SerializeNode(s: Scene, id: NodeId, skip: seq<string>, includeConnections: bool) returns (res: Result<NodeRecord>)
    ensures id !in s.nodes ==> res == Err(RuntimeError)
    ensures id in s.nodes ==> res == Ok(SerializedNode(s.nodes, s.edges, s.locks, id, skip, includeConnections))
  {
    if id !in s.nodes {
      return Err(RuntimeError);
    }
    var n := s.nodes[id];
    var attributes, _ := CollectLoop(s.edges, s.locks, AttrLeaves(n, id, skip, 0));
    var connections: seq<ConnRecord> := [];
    if includeConnections {
      connections := ConnLoop(s.nodes, IterConnections(s.edges, id, false, true));
    }
    var parentPath := if n.parent.Some? then NodePath(s.nodes, n.parent.value) else [];
    res := Ok(NodeRecord(StripNamespace(NodePath(s.nodes, id)), Some(n.typeName), if n.plugin != "" then Some(n.plugin) else None,
                         if n.isDag then Some(parentPath) else None,
                         if attributes != [] then Some(attributes) else None,
                         if connections != [] then Some(connections) else None));
  }
}
