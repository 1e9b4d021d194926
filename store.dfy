/**
 * The host scene as one mutable store: nodes holding trees of plugs, directed
 * edges between plug references, and the set of locked plugs.
 *
 * Each destination plug has at most one incoming edge (`Scene.Valid`). Array
 * plugs are sparse: an element has a logical index, and its position in
 * `elements` is its physical index. An element that a connection or a value
 * write mentions but that does not exist yet is created at the end.
 */
module Store {
  import opened Wrappers
  import opened Kinds

  type NodeId = nat

  /**
   * An attribute value. Numbers, vectors, matrices and unit quantities are
   * opaque tokens: no arithmetic is done on them.
   */
  datatype Value =
    | Nil                       // Python's None
    | Token(id: int)            // a number, vector, matrix or unit quantity
    | Text(s: string)           // a string
    | Items(items: seq<Value>)  // a list or tuple
    | PlugValue(plug: PlugRef)  // a plug given as a value
    | NodeValue(node: NodeId)   // a node handle given as a value

  /** One step from a plug to a sub-plug: an element by logical index, or a child by position. */
  datatype Step = Elem(index: nat) | Child(position: nat)

  /** A plug: a node, one of its top-level attributes, and a path below it. */
  datatype PlugRef = PlugRef(node: NodeId, attr: string, path: seq<Step>)

  datatype Edge = Edge(src: PlugRef, dst: PlugRef)

  /** The static description of an attribute. */
  datatype AttrDef = AttrDef(
    name: string,
    host: HostType,
    isArray: bool,
    isDynamic: bool,
    default: Value,
    min: Option<Value>,
    max: Option<Value>,
    softMin: Option<Value>,
    softMax: Option<Value>,
    fields: map<int, string>,  // enum field names by value
    fieldMin: int,             // an enum's lowest field value
    fieldMax: int)             // an enum's highest field value

  /** A plug's state. An array plug keeps in `children` the children each new element starts with. */
  datatype Plug = Plug(
    def: AttrDef,
    keyable: bool,
    channelBox: bool,
    value: Value,
    elements: seq<Element>,
    children: seq<Plug>)

  datatype Element = Element(index: nat, plug: Plug)

  /** A node type the host knows: the plug-in that defines it ("" for built-in) and its static attributes. */
  datatype NodeType = NodeType(plugin: string, attrs: seq<Plug>)

  datatype NodeRec = NodeRec(
    name: string,
    typeName: string,
    isDag: bool,
    parent: Option<NodeId>,   // None is the world
    plugin: string,           // "" for a built-in node type
    locked: bool,
    attrs: seq<Plug>)

  predicate IsCompound(p: Plug) { p.def.host.family == CompoundAttr }

  /** The plug a new element of the array plug `p` starts as. */
  function Template(p: Plug): (t: Plug)
    ensures !t.def.isArray && t.elements == [] && t.value == p.def.default
  {
    Plug(p.def.(isArray := false), p.keyable, p.channelBox, p.def.default, [], p.children)
  }

  // ---------------------------------------------------------------------------
  // Lookup in a plug tree

  /** The physical position of the element with logical index `i`, or `|els|` when there is none. */
  function FindElem(els: seq<Element>, i: nat): (k: nat)
    ensures k <= |els|
    ensures k < |els| ==> els[k].index == i
    ensures forall j :: 0 <= j < k ==> els[j].index != i
  {
    if els == [] then 0
    else if els[0].index == i then 0
    else 1 + FindElem(els[1..], i)
  }

  /** The logical indices of the elements, in physical order. */
  function Indices(els: seq<Element>): (r: seq<nat>)
    ensures |r| == |els| && forall k :: 0 <= k < |els| ==> r[k] == els[k].index
  {
    if els == [] then [] else [els[0].index] + Indices(els[1..])
  }

  /** The sub-plug at `path`, when every step names an existing element or child. */
  function Get(p: Plug, path: seq<Step>): Option<Plug>
    decreases |path|
  {
    if path == [] then Some(p)
    else match path[0]
      case Elem(i) =>
        var k := FindElem(p.elements, i);
        if p.def.isArray && k < |p.elements| then Get(p.elements[k].plug, path[1..]) else None
      case Child(c) =>
        if !p.def.isArray && c < |p.children| then Get(p.children[c], path[1..]) else None
  }

  /** Like `Get`, but an element that does not exist yet reads as the array's template. */
  function GetOrNew(p: Plug, path: seq<Step>): Option<Plug>
    decreases |path|
  {
    if path == [] then Some(p)
    else match path[0]
      case Elem(i) =>
        var k := FindElem(p.elements, i);
        if !p.def.isArray then None
        else if k < |p.elements| then GetOrNew(p.elements[k].plug, path[1..])
        else GetOrNew(Template(p), path[1..])
      case Child(c) =>
        if !p.def.isArray && c < |p.children| then GetOrNew(p.children[c], path[1..]) else None
  }

  /** `p` with the sub-plug at `path` replaced by `sub`, creating missing elements on the way. */
  function Put(p: Plug, path: seq<Step>, sub: Plug): Plug
    decreases |path|
  {
    if path == [] then sub
    else match path[0]
      case Elem(i) =>
        var k := FindElem(p.elements, i);
        if !p.def.isArray then p
        else if k < |p.elements| then
          p.(elements := p.elements[k := Element(i, Put(p.elements[k].plug, path[1..], sub))])
        else p.(elements := p.elements + [Element(i, Put(Template(p), path[1..], sub))])
      case Child(c) =>
        if !p.def.isArray && c < |p.children| then
          p.(children := p.children[c := Put(p.children[c], path[1..], sub)])
        else p
  }

  lemma FindElemUpdate(els: seq<Element>, k: nat, i: nat, e: Element)
    requires FindElem(els, i) == k < |els| && e.index == i
    ensures FindElem(els[k := e], i) == k
  {
    var r := FindElem(els[k := e], i);
    assert els[k := e][k].index == i;
  }

  lemma FindElemAppend(els: seq<Element>, i: nat, e: Element)
    requires FindElem(els, i) == |els| && e.index == i
    ensures FindElem(els + [e], i) == |els|
  {
    var r := FindElem(els + [e], i);
    assert (els + [e])[|els|].index == i;
  }

  /** What `Put` writes is what `Get` then reads. */
  lemma {:induction false} GetPut(p: Plug, path: seq<Step>, sub: Plug)
    requires GetOrNew(p, path).Some?
    ensures Get(Put(p, path, sub), path) == Some(sub)
    decreases |path|
  {
    if path != [] {
      match path[0]
      case Elem(i) =>
        var k := FindElem(p.elements, i);
        if k < |p.elements| {
          var e := Element(i, Put(p.elements[k].plug, path[1..], sub));
          FindElemUpdate(p.elements, k, i, e);
          GetPut(p.elements[k].plug, path[1..], sub);
        } else {
          var e := Element(i, Put(Template(p), path[1..], sub));
          FindElemAppend(p.elements, i, e);
          GetPut(Template(p), path[1..], sub);
        }
      case Child(c) =>
        GetPut(p.children[c], path[1..], sub);
    }
  }

  /** A plug that exists reads the same when missing elements are allowed. */
  lemma {:induction false} GetIsGetOrNew(p: Plug, path: seq<Step>)
    requires Get(p, path).Some?
    ensures GetOrNew(p, path) == Get(p, path)
    decreases |path|
  {
    if path != [] {
      match path[0]
      case Elem(i) => GetIsGetOrNew(p.elements[FindElem(p.elements, i)].plug, path[1..]);
      case Child(c) => GetIsGetOrNew(p.children[c], path[1..]);
    }
  }

  /** Writing back what is already there changes nothing. */
  lemma {:induction false} PutGet(p: Plug, path: seq<Step>)
    requires Get(p, path).Some?
    ensures Put(p, path, Get(p, path).value) == p
    decreases |path|
  {
    if path != [] {
      match path[0]
      case Elem(i) =>
        var k := FindElem(p.elements, i);
        PutGet(p.elements[k].plug, path[1..]);
        assert p.elements[k := Element(i, p.elements[k].plug)] == p.elements;
      case Child(c) =>
        PutGet(p.children[c], path[1..]);
        assert p.children[c := p.children[c]] == p.children;
    }
  }

  /** The elements other than the one with logical index `i`, in the same order. */
  function WithoutIndex(els: seq<Element>, i: nat): (r: seq<Element>)
    ensures |r| <= |els|
    ensures forall e :: e in r <==> e in els && e.index != i
  {
    if els == [] then []
    else if els[0].index == i then WithoutIndex(els[1..], i)
    else [els[0]] + WithoutIndex(els[1..], i)
  }

  /** The array plug `p` without its element of logical index `i`. */
  function DropElem(p: Plug, i: nat): (q: Plug)
    ensures q.def == p.def && q.children == p.children && q.value == p.value
    ensures forall e :: e in q.elements <==> e in p.elements && e.index != i
  {
    p.(elements := WithoutIndex(p.elements, i))
  }

  // ---------------------------------------------------------------------------
  // Lookup in the node map

  /** The position of the top-level attribute named `name`, or `|attrs|`. */
  function FindAttr(attrs: seq<Plug>, name: string): (k: nat)
    ensures k <= |attrs|
    ensures k < |attrs| ==> attrs[k].def.name == name
    ensures forall j :: 0 <= j < k ==> attrs[j].def.name != name
  {
    if attrs == [] then 0
    else if attrs[0].def.name == name then 0
    else 1 + FindAttr(attrs[1..], name)
  }

  predicate HasAttr(n: NodeRec, name: string) {
    FindAttr(n.attrs, name) < |n.attrs|
  }

  /** The top-level plug of attribute `name`. */
  function AttrPlug(n: NodeRec, name: string): Plug
    requires HasAttr(n, name)
  {
    n.attrs[FindAttr(n.attrs, name)]
  }

  /** The plug `r` refers to, when it exists. */
  function PlugAt(nodes: map<NodeId, NodeRec>, r: PlugRef): Option<Plug> {
    if r.node in nodes && HasAttr(nodes[r.node], r.attr)
    then Get(AttrPlug(nodes[r.node], r.attr), r.path)
    else None
  }

  /** The plug `r` refers to once missing elements on its path are created. */
  function PlugAtOrNew(nodes: map<NodeId, NodeRec>, r: PlugRef): Option<Plug> {
    if r.node in nodes && HasAttr(nodes[r.node], r.attr)
    then GetOrNew(AttrPlug(nodes[r.node], r.attr), r.path)
    else None
  }

  /**
   * The path from `p` to a descendant attribute named `name`, through
   * children only (an array's children are not looked into): depth-first,
   * children in order.
   */
  function FindChild(p: Plug, name: string): (path: Option<seq<Step>>)
    ensures path.Some? ==> path.value != [] && Get(p, path.value).Some? && Get(p, path.value).value.def.name == name
    decreases p, 1
  {
    if p.def.isArray then None else FindChildFrom(p, name, 0)
  }

  function FindChildFrom(p: Plug, name: string, i: nat): (path: Option<seq<Step>>)
    requires !p.def.isArray && i <= |p.children|
    ensures path.Some? ==> path.value != [] && Get(p, path.value).Some? && Get(p, path.value).value.def.name == name
    decreases p, 0, |p.children| - i
  {
    if i == |p.children| then None
    else
      var c := p.children[i];
      assert c in p.children;
      if c.def.name == name then Some([Child(i)])
      else
        var below := FindChild(c, name);
        if below.Some? then
          assert ([Child(i)] + below.value)[1..] == below.value;
          Some([Child(i)] + below.value)
        else FindChildFrom(p, name, i + 1)
  }

  /** The first top-level attribute from position `k` on with a descendant named `name`, as a plug of node `n`. */
  function FindChildPlug(attrs: seq<Plug>, n: NodeId, name: string, k: nat): (r: Option<PlugRef>)
    requires k <= |attrs|
    ensures r.Some? ==>
      && r.value.node == n && FindAttr(attrs, r.value.attr) < |attrs|
      && var top := attrs[FindAttr(attrs, r.value.attr)];
         Get(top, r.value.path).Some? && Get(top, r.value.path).value.def.name == name
    decreases |attrs| - k
  {
    if k == |attrs| then None
    else
      var top := attrs[k].def.name;
      var below := FindChild(attrs[k], name);
      if FindAttr(attrs, top) == k && below.Some? then Some(PlugRef(n, top, below.value))
      else FindChildPlug(attrs, n, name, k + 1)
  }

  /**
   * The host's `findPlug` by name on node `n`: a top-level attribute of that
   * name, else the first child attribute of that name below a top-level
   * attribute that is not an array.
   */
  function FindPlug(nodes: map<NodeId, NodeRec>, n: NodeId, name: string): (r: Option<PlugRef>)
    ensures r.Some? ==> r.value.node == n && PlugAt(nodes, r.value).Some? && PlugAt(nodes, r.value).value.def.name == name
    ensures n in nodes && HasAttr(nodes[n], name) ==> r == Some(PlugRef(n, name, []))
    ensures n !in nodes ==> r.None?
  {
    if n !in nodes then None
    else if HasAttr(nodes[n], name) then Some(PlugRef(n, name, []))
    else FindChildPlug(nodes[n].attrs, n, name, 0)
  }

  /** `nodes` with the plug at `r` replaced by `sub`; unchanged when `r` names no attribute. */
  function PutAt(nodes: map<NodeId, NodeRec>, r: PlugRef, sub: Plug): (m: map<NodeId, NodeRec>)
    ensures m.Keys == nodes.Keys && OnlyAttrs(nodes, m, r.node)
  {
    if r.node in nodes && HasAttr(nodes[r.node], r.attr) then
      var n := nodes[r.node];
      var k := FindAttr(n.attrs, r.attr);
      nodes[r.node := n.(attrs := n.attrs[k := Put(n.attrs[k], r.path, sub)])]
    else nodes
  }

  /** `b` differs from `a` at most in the attributes of node `id`. */
  predicate OnlyAttrs(a: map<NodeId, NodeRec>, b: map<NodeId, NodeRec>, id: NodeId) {
    && a.Keys == b.Keys
    && (forall j :: j in a && j != id ==> b[j] == a[j])
    && (id in a ==> b[id] == a[id].(attrs := b[id].attrs))
  }

  lemma OnlyAttrsTrans(a: map<NodeId, NodeRec>, b: map<NodeId, NodeRec>, c: map<NodeId, NodeRec>, id: NodeId)
    requires OnlyAttrs(a, b, id) && OnlyAttrs(b, c, id)
    ensures OnlyAttrs(a, c, id)
  {
  }

  /** `nodes` with the plug at `r` created if it is a missing element. */
  function Touch(nodes: map<NodeId, NodeRec>, r: PlugRef): (m: map<NodeId, NodeRec>)
    ensures m.Keys == nodes.Keys
  {
    var p := PlugAtOrNew(nodes, r);
    if p.Some? then PutAt(nodes, r, p.value) else nodes
  }

  lemma FindAttrUpdate(attrs: seq<Plug>, k: nat, name: string, q: Plug)
    requires FindAttr(attrs, name) == k < |attrs| && q.def.name == name
    ensures FindAttr(attrs[k := q], name) == k
  {
    var r := FindAttr(attrs[k := q], name);
    assert attrs[k := q][k].def.name == name;
  }

  /** What `PutAt` writes is what `PlugAt` then reads. */
  lemma PlugAtPutAt(nodes: map<NodeId, NodeRec>, r: PlugRef, sub: Plug)
    requires PlugAtOrNew(nodes, r).Some?
    requires r.path == [] ==> sub.def.name == r.attr
    ensures PlugAt(PutAt(nodes, r, sub), r) == Some(sub)
  {
    var n := nodes[r.node];
    var k := FindAttr(n.attrs, r.attr);
    var q := Put(n.attrs[k], r.path, sub);
    if r.path != [] {
      assert q.def == n.attrs[k].def;
    }
    FindAttrUpdate(n.attrs, k, r.attr, q);
    GetPut(n.attrs[k], r.path, sub);
  }

  /** After `Touch`, the plug exists. */
  lemma TouchResolves(nodes: map<NodeId, NodeRec>, r: PlugRef)
    requires PlugAtOrNew(nodes, r).Some?
    ensures PlugAt(Touch(nodes, r), r) == PlugAtOrNew(nodes, r)
  {
    PlugAtPutAt(nodes, r, PlugAtOrNew(nodes, r).value);
  }

  /** Touching a plug that exists changes nothing. */
  lemma TouchExisting(nodes: map<NodeId, NodeRec>, r: PlugRef)
    requires PlugAt(nodes, r).Some?
    ensures Touch(nodes, r) == nodes
  {
    var n := nodes[r.node];
    var k := FindAttr(n.attrs, r.attr);
    GetIsGetOrNew(n.attrs[k], r.path);
    PutGet(n.attrs[k], r.path);
    assert n.attrs[k := n.attrs[k]] == n.attrs;
    assert n.(attrs := n.attrs) == n;
  }

  /** The names of the top-level attributes, in order. */
  function AttrNames(attrs: seq<Plug>): (r: seq<string>)
    ensures |r| == |attrs| && forall i :: 0 <= i < |attrs| ==> r[i] == attrs[i].def.name
  {
    seq(|attrs|, i requires 0 <= i < |attrs| => attrs[i].def.name)
  }

  /** Both maps hold the same nodes, with the same attribute names in the same order. */
  predicate SameNames(a: map<NodeId, NodeRec>, b: map<NodeId, NodeRec>) {
    a.Keys == b.Keys && forall id :: id in a ==> AttrNames(a[id].attrs) == AttrNames(b[id].attrs)
  }

  lemma {:induction false} FindAttrByNames(x: seq<Plug>, y: seq<Plug>, name: string)
    requires AttrNames(x) == AttrNames(y)
    ensures FindAttr(x, name) == FindAttr(y, name)
  {
    if x != [] {
      assert AttrNames(x)[0] == x[0].def.name && AttrNames(y)[0] == y[0].def.name;
      assert AttrNames(x[1..]) == AttrNames(x)[1..] && AttrNames(y[1..]) == AttrNames(y)[1..];
      FindAttrByNames(x[1..], y[1..], name);
    }
  }

  /** Under the same names, a node has the same attributes by name. */
  lemma SameNamesHasAttr(a: map<NodeId, NodeRec>, b: map<NodeId, NodeRec>, id: NodeId, name: string)
    requires SameNames(a, b) && id in a
    ensures id in b && HasAttr(a[id], name) == HasAttr(b[id], name) && FindAttr(a[id].attrs, name) == FindAttr(b[id].attrs, name)
  {
    FindAttrByNames(a[id].attrs, b[id].attrs, name);
  }

  lemma SameNamesTrans(a: map<NodeId, NodeRec>, b: map<NodeId, NodeRec>, c: map<NodeId, NodeRec>)
    requires SameNames(a, b) && SameNames(b, c)
    ensures SameNames(a, c)
  {
  }

  /** Writing below the top level leaves the attribute's definition, flags and value alone. */
  lemma PutKeepsDef(p: Plug, path: seq<Step>, sub: Plug)
    requires path != []
    ensures Put(p, path, sub).def == p.def
    ensures Put(p, path, sub).keyable == p.keyable && Put(p, path, sub).channelBox == p.channelBox
    ensures Put(p, path, sub).value == p.value
  {
  }

  /** A write that keeps a top-level plug's name keeps every node's attribute names. */
  lemma PutAtSameNames(nodes: map<NodeId, NodeRec>, r: PlugRef, sub: Plug)
    requires r.path == [] ==> sub.def.name == r.attr
    ensures SameNames(nodes, PutAt(nodes, r, sub))
  {
    if r.node in nodes && HasAttr(nodes[r.node], r.attr) {
      var n := nodes[r.node];
      var k := FindAttr(n.attrs, r.attr);
      if r.path != [] {
        PutKeepsDef(n.attrs[k], r.path, sub);
      }
      var attrs' := n.attrs[k := Put(n.attrs[k], r.path, sub)];
      assert AttrNames(attrs') == AttrNames(n.attrs);
    }
  }

  lemma TouchSameNames(nodes: map<NodeId, NodeRec>, r: PlugRef)
    ensures SameNames(nodes, Touch(nodes, r))
  {
    var p := PlugAtOrNew(nodes, r);
    if p.Some? {
      PutAtSameNames(nodes, r, p.value);
    }
  }

  // ---------------------------------------------------------------------------
  // Edges

  /** Each destination plug has at most one incoming edge. */
  predicate DestUnique(edges: seq<Edge>) {
    forall i, j :: 0 <= i < j < |edges| ==> edges[i].dst != edges[j].dst
  }

  /** `x` is `r` or lies below it. */
  predicate Under(x: PlugRef, r: PlugRef) {
    x.node == r.node && x.attr == r.attr && |r.path| <= |x.path| && x.path[..|r.path|] == r.path
  }

  /** Which edges an edit removes. */
  datatype Cut =
    | Into(dst: PlugRef)        // the incoming edge of a plug
    | Exactly(edge: Edge)       // one edge
    | Touching(plug: PlugRef)   // every edge at the plug or below it
    | AtNode(node: NodeId)      // every edge at a node

  predicate Cuts(c: Cut, e: Edge) {
    match c
    case Into(d) => e.dst == d
    case Exactly(x) => e == x
    case Touching(r) => Under(e.src, r) || Under(e.dst, r)
    case AtNode(n) => e.src.node == n || e.dst.node == n
  }

  /** `edges` without those `c` removes, in the same order. */
  function Drop(edges: seq<Edge>, c: Cut): (r: seq<Edge>)
    ensures |r| <= |edges|
    ensures forall e :: e in r <==> e in edges && !Cuts(c, e)
  {
    if edges == [] then []
    else if Cuts(c, edges[0]) then Drop(edges[1..], c)
    else [edges[0]] + Drop(edges[1..], c)
  }

  lemma {:induction false} DropUnique(edges: seq<Edge>, c: Cut)
    requires DestUnique(edges)
    ensures DestUnique(Drop(edges, c))
  {
    if edges != [] {
      DropUnique(edges[1..], c);
      var rest := Drop(edges[1..], c);
      if !Cuts(c, edges[0]) {
        forall i, j | 0 <= i < j < |[edges[0]] + rest|
          ensures ([edges[0]] + rest)[i].dst != ([edges[0]] + rest)[j].dst
        {
          if i == 0 {
            var e := rest[j - 1];
            assert e in edges[1..];
            var m :| 0 <= m < |edges[1..]| && edges[1..][m] == e;
            assert edges[m + 1] == e;
          }
        }
      }
    }
  }

  /** The source of the incoming edge of `dst`, if it has one. */
  function SourceOf(edges: seq<Edge>, dst: PlugRef): (r: Option<PlugRef>)
    ensures r.Some? ==> Edge(r.value, dst) in edges
    ensures r.None? <==> forall e :: e in edges ==> e.dst != dst
  {
    if edges == [] then None
    else if edges[0].dst == dst then Some(edges[0].src)
    else SourceOf(edges[1..], dst)
  }

  /** The destinations of `src`'s outgoing edges, in edge order. */
  function Destinations(edges: seq<Edge>, src: PlugRef): (r: seq<PlugRef>)
    ensures forall d :: d in r <==> Edge(src, d) in edges
    ensures |r| <= |edges|
  {
    if edges == [] then []
    else if edges[0].src == src then [edges[0].dst] + Destinations(edges[1..], src)
    else Destinations(edges[1..], src)
  }

  predicate IsConnected(edges: seq<Edge>, r: PlugRef) {
    exists e :: e in edges && (e.src == r || e.dst == r)
  }

  /** Adding an edge into a free destination keeps destinations unique. */
  lemma AppendUnique(edges: seq<Edge>, e: Edge)
    requires DestUnique(edges) && SourceOf(edges, e.dst).None?
    ensures DestUnique(edges + [e])
  {
    forall i, j | 0 <= i < j < |edges + [e]|
      ensures (edges + [e])[i].dst != (edges + [e])[j].dst
    {
      if j == |edges| { assert edges[i] in edges; }
    }
  }

  /** Under unique destinations the incoming edge is the only edge into `dst`. */
  lemma SourceUnique(edges: seq<Edge>, src: PlugRef, dst: PlugRef)
    requires DestUnique(edges) && Edge(src, dst) in edges
    ensures SourceOf(edges, dst) == Some(src)
  {
    var s := SourceOf(edges, dst);
    var i :| 0 <= i < |edges| && edges[i] == Edge(src, dst);
    var j :| 0 <= j < |edges| && edges[j] == Edge(s.value, dst);
    assert i == j;
  }

  /** Every edge that cuts nothing stays. */
  lemma {:induction false} DropNothing(edges: seq<Edge>, c: Cut)
    requires forall e :: e in edges ==> !Cuts(c, e)
    ensures Drop(edges, c) == edges
  {
    if edges != [] {
      assert edges[0] in edges;
      DropNothing(edges[1..], c);
      assert [edges[0]] + edges[1..] == edges;
    }
  }

  /** Under unique destinations, cutting the incoming edge of `dst` is cutting that one edge. */
  lemma {:induction false} DropIntoIsExactly(edges: seq<Edge>, src: PlugRef, dst: PlugRef)
    requires DestUnique(edges) && SourceOf(edges, dst) == Some(src)
    ensures Drop(edges, Into(dst)) == Drop(edges, Exactly(Edge(src, dst)))
  {
    if edges[0].dst == dst {
      forall e | e in edges[1..]
        ensures e.dst != dst
      {
        var m :| 0 <= m < |edges[1..]| && edges[1..][m] == e;
        assert edges[m + 1] == e;
      }
      DropNothing(edges[1..], Into(dst));
      DropNothing(edges[1..], Exactly(Edge(src, dst)));
    } else {
      assert DestUnique(edges[1..]) by {
        forall i, j | 0 <= i < j < |edges[1..]|
          ensures edges[1..][i].dst != edges[1..][j].dst
        {
          assert edges[1..][i] == edges[i + 1] && edges[1..][j] == edges[j + 1];
        }
      }
      DropIntoIsExactly(edges[1..], src, dst);
    }
  }

  /** The locks set without the plugs at or below `r`. */
  function UnlockUnder(locks: set<PlugRef>, r: PlugRef): (l: set<PlugRef>)
    ensures forall x :: x in l <==> x in locks && !Under(x, r)
  {
    set x | x in locks && !Under(x, r)
  }

  // ---------------------------------------------------------------------------
  // The scene and the host's primitive edits

  class Scene {
    var nodes: map<NodeId, NodeRec>
    var edges: seq<Edge>
    var locks: set<PlugRef>     // the plugs whose lock flag is set
    var nextId: NodeId
    var loaded: set<string>     // loaded plug-ins
    const installed: set<string> // plug-ins that load when asked
    const types: map<string, NodeType>

    ghost predicate Valid()
      reads this
    {
      DestUnique(edges) && forall id :: id in nodes ==> id < nextId
    }

    constructor (installed: set<string>, types: map<string, NodeType>)
      ensures Valid() && nodes == map[] && edges == [] && locks == {} && loaded == {}
      ensures this.installed == installed && this.types == types
    {
      nodes := map[];
      edges := [];
      locks := {};
      nextId := 0;
      loaded := {};
      this.installed := installed;
      this.types := types;
    }

    predicate IsLocked(r: PlugRef)
      reads this
    {
      r in locks
    }

    /** Creates a node of a known type, with that type's static attributes, and returns its handle. */
    method CreateNode(name: string, typeName: string, isDag: bool, parent: Option<NodeId>)
      returns (id: NodeId)
      requires Valid() && typeName in types
      modifies this`nodes, this`nextId
      ensures Valid() && id !in old(nodes) && id == old(nextId)
      ensures nodes == old(nodes)[id := Fresh(name, typeName, isDag, parent)]
    {
      id := nextId;
      nodes := nodes[id := Fresh(name, typeName, isDag, parent)];
      nextId := nextId + 1;
    }

    /** The record of a new node of type `typeName`. */
    function Fresh(name: string, typeName: string, isDag: bool, parent: Option<NodeId>): NodeRec
      requires typeName in types
    {
      NodeRec(name, typeName, isDag, parent, types[typeName].plugin, false, types[typeName].attrs)
    }

    /** Deletes a node, its edges and its plugs' lock flags. */
    method DeleteNode(id: NodeId)
      requires Valid()
      modifies this`nodes, this`edges, this`locks
      ensures Valid()
      ensures nodes == old(nodes) - {id}
      ensures edges == Drop(old(edges), AtNode(id))
      ensures locks == set x | x in old(locks) && x.node != id
    {
      DropUnique(edges, AtNode(id));
      nodes := nodes - {id};
      edges := Drop(edges, AtNode(id));
      locks := set x | x in locks && x.node != id;
    }

    method SetNodeLocked(id: NodeId, state: bool)
      requires Valid() && id in nodes
      modifies this`nodes
      ensures Valid() && nodes == old(nodes)[id := old(nodes)[id].(locked := state)]
    {
      nodes := nodes[id := nodes[id].(locked := state)];
    }

    method SetNodeName(id: NodeId, name: string)
      requires Valid() && id in nodes
      modifies this`nodes
      ensures Valid() && nodes == old(nodes)[id := old(nodes)[id].(name := name)]
    {
      nodes := nodes[id := nodes[id].(name := name)];
    }

    method SetNodeParent(id: NodeId, parent: Option<NodeId>)
      requires Valid() && id in nodes
      modifies this`nodes
      ensures Valid() && nodes == old(nodes)[id := old(nodes)[id].(parent := parent)]
    {
      nodes := nodes[id := nodes[id].(parent := parent)];
    }

    /** Adds a top-level attribute after the existing ones. */
    method AddAttr(id: NodeId, p: Plug)
      requires Valid() && id in nodes
      modifies this`nodes
      ensures Valid() && nodes == old(nodes)[id := old(nodes)[id].(attrs := old(nodes)[id].attrs + [p])]
    {
      nodes := nodes[id := nodes[id].(attrs := nodes[id].attrs + [p])];
    }

    /** Deletes a top-level attribute with its edges and lock flags. */
    method RemoveAttr(id: NodeId, name: string)
      requires Valid() && id in nodes && HasAttr(nodes[id], name)
      modifies this`nodes, this`edges, this`locks
      ensures Valid()
      ensures var n := old(nodes)[id]; var k := FindAttr(n.attrs, name);
        nodes == old(nodes)[id := n.(attrs := n.attrs[..k] + n.attrs[k + 1..])]
      ensures edges == Drop(old(edges), Touching(PlugRef(id, name, [])))
      ensures locks == UnlockUnder(old(locks), PlugRef(id, name, []))
    {
      var n := nodes[id];
      var k := FindAttr(n.attrs, name);
      DropUnique(edges, Touching(PlugRef(id, name, [])));
      nodes := nodes[id := n.(attrs := n.attrs[..k] + n.attrs[k + 1..])];
      edges := Drop(edges, Touching(PlugRef(id, name, [])));
      locks := UnlockUnder(locks, PlugRef(id, name, []));
    }

    /** Deletes the element of logical index `i` of the array plug at `r`, with its edges and lock flags. */
    method RemoveElement(r: PlugRef, i: nat)
      requires Valid() && PlugAt(nodes, r).Some?
      modifies this`nodes, this`edges, this`locks
      ensures Valid()
      ensures nodes == PutAt(old(nodes), r, DropElem(PlugAt(old(nodes), r).value, i))
      ensures edges == Drop(old(edges), Touching(PlugRef(r.node, r.attr, r.path + [Elem(i)])))
      ensures locks == UnlockUnder(old(locks), PlugRef(r.node, r.attr, r.path + [Elem(i)]))
    {
      var el := PlugRef(r.node, r.attr, r.path + [Elem(i)]);
      DropUnique(edges, Touching(el));
      nodes := PutAt(nodes, r, DropElem(PlugAt(nodes, r).value, i));
      edges := Drop(edges, Touching(el));
      locks := UnlockUnder(locks, el);
    }

    /** Replaces the plug at `r`. */
    method WritePlug(r: PlugRef, sub: Plug)
      requires Valid()
      modifies this`nodes
      ensures Valid() && nodes == PutAt(old(nodes), r, sub)
    {
      nodes := PutAt(nodes, r, sub);
    }

    method SetLocked(r: PlugRef, state: bool)
      modifies this`locks
      ensures locks == if state then old(locks) + {r} else old(locks) - {r}
    {
      locks := if state then locks + {r} else locks - {r};
    }

    /** Connects two plugs; the host refuses a destination that already has a source. */
    method Connect(src: PlugRef, dst: PlugRef)
      requires Valid() && SourceOf(edges, dst).None?
      modifies this`nodes, this`edges
      ensures Valid()
      ensures edges == old(edges) + [Edge(src, dst)]
      ensures nodes == Touch(Touch(old(nodes), src), dst)
    {
      AppendUnique(edges, Edge(src, dst));
      edges := edges + [Edge(src, dst)];
      nodes := Touch(Touch(nodes, src), dst);
    }

    method Disconnect(src: PlugRef, dst: PlugRef)
      requires Valid()
      modifies this`edges
      ensures Valid() && edges == Drop(old(edges), Exactly(Edge(src, dst)))
    {
      DropUnique(edges, Exactly(Edge(src, dst)));
      edges := Drop(edges, Exactly(Edge(src, dst)));
    }

    /** Loads a plug-in; fails for one that is not installed. */
    method LoadPlugin(name: string) returns (ok: bool)
      modifies this`loaded
      ensures ok == (name in installed)
      ensures loaded == if ok then old(loaded) + {name} else old(loaded)
    {
      ok := name in installed;
      if ok {
        loaded := loaded + {name};
      }
    }
  }
}
