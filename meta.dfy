/**
 * The persistent metadata graph. A meta node is a scene node tagged with the
 * name of the class that wraps it (`mClass`) and linked to its parents and
 * children through message attributes: a parent's `mMetaChildren` plug feeds
 * an element of each child's `mMetaParent` array.
 */
module Meta {
  import opened Wrappers
  import opened Kinds
  import opened Store
  import opened Plugs
  import opened Nodes

  const ClassAttr: string := "mClass"
  const VersionAttr: string := "mVersion"
  const ParentAttr: string := "mMetaParent"
  const ChildrenAttr: string := "mMetaChildren"
  const MetaVersion: string := "1.0.0"
  /** The attribute `connectTo` uses on the target node when none is named. */
  const LinkAttr: string := "metaNode"

  // ---------------------------------------------------------------------------
  // How the meta operations change the node map

  /** `b` holds the nodes of `a`, changed at most in their attributes. */
  predicate AttrsOnly(a: map<NodeId, NodeRec>, b: map<NodeId, NodeRec>) {
    a.Keys == b.Keys && forall j :: j in a ==> b[j] == a[j].(attrs := b[j].attrs)
  }

  lemma AttrsOnlyTrans(a: map<NodeId, NodeRec>, b: map<NodeId, NodeRec>, c: map<NodeId, NodeRec>)
    requires AttrsOnly(a, b) && AttrsOnly(b, c)
    ensures AttrsOnly(a, c)
  {
  }

  lemma OnlyAttrsIsAttrsOnly(a: map<NodeId, NodeRec>, b: map<NodeId, NodeRec>, id: NodeId)
    requires OnlyAttrs(a, b, id)
    ensures AttrsOnly(a, b)
  {
  }

  /** A forced connection changes attributes only, and keeps every node's attribute names. */
  lemma ConnectStepNodes(nodes: map<NodeId, NodeRec>, edges: seq<Edge>, e: Edge)
    ensures AttrsOnly(nodes, ConnectStep(nodes, edges, e).0)
    ensures SameNames(nodes, ConnectStep(nodes, edges, e).0)
  {
    var n1 := Touch(nodes, e.src);
    var n2 := Touch(n1, e.dst);
    assert n2 == ConnectStep(nodes, edges, e).0;
    TouchSameNames(nodes, e.src);
    TouchSameNames(n1, e.dst);
    SameNamesTrans(nodes, n1, n2);
    TouchOnlyAttrs(nodes, e.src);
    TouchOnlyAttrs(n1, e.dst);
    OnlyAttrsIsAttrsOnly(nodes, n1, e.src.node);
    OnlyAttrsIsAttrsOnly(n1, n2, e.dst.node);
    AttrsOnlyTrans(nodes, n1, n2);
  }

  lemma TouchOnlyAttrs(nodes: map<NodeId, NodeRec>, r: PlugRef)
    ensures OnlyAttrs(nodes, Touch(nodes, r), r.node)
  {
    var p := PlugAtOrNew(nodes, r);
    if p.Some? {
      assert Touch(nodes, r) == PutAt(nodes, r, p.value);
    }
  }

  /** Touching a top-level plug writes it back as it was. */
  lemma TouchTop(nodes: map<NodeId, NodeRec>, r: PlugRef)
    requires r.path == []
    ensures Touch(nodes, r) == nodes
  {
    if r.node in nodes && HasAttr(nodes[r.node], r.attr) {
      var n := nodes[r.node];
      var k := FindAttr(n.attrs, r.attr);
      assert n.attrs[k := Put(n.attrs[k], r.path, n.attrs[k])] == n.attrs;
      assert nodes[r.node := n.(attrs := n.attrs)] == nodes;
    }
  }

  /** The top-level plugs of a node read the same in two maps that share its attributes. */
  lemma PlugAtSameAttrs(a: map<NodeId, NodeRec>, b: map<NodeId, NodeRec>, r: PlugRef)
    requires r.node in a && r.node in b && a[r.node].attrs == b[r.node].attrs
    ensures PlugAt(a, r) == PlugAt(b, r)
  {
  }

  /** Names a node has stay with it while its names only grow. */
  lemma KeepsName(a: map<NodeId, NodeRec>, b: map<NodeId, NodeRec>, id: NodeId, name: string)
    requires NamesGrow(a, b) && id in a && HasAttr(a[id], name)
    ensures id in b && HasAttr(b[id], name)
  {
    HasAttrGrows(a[id], b[id], name);
  }

  // ---------------------------------------------------------------------------
  // The registry of meta classes

  /** A Python class as the registry sees it: its name, and whether it derives from `MetaBase`. */
  datatype MetaClass = MetaClass(name: string, isMeta: bool)

  /** A table of meta classes: each is filed under its own name. */
  ghost predicate Filed(types: map<string, MetaClass>) {
    forall n :: n in types ==> types[n].name == n && types[n].isMeta
  }

  /** `types` after `registerMetaClass(c)`: a `MetaBase` class under a name not yet taken. */
  function Register(types: map<string, MetaClass>, c: MetaClass): (r: map<string, MetaClass>)
    ensures forall n :: n in types ==> n in r && r[n] == types[n]
    ensures c.name in r <==> c.name in types || c.isMeta
    ensures r.Keys <= types.Keys + {c.name}
    ensures Filed(types) ==> Filed(r)
  {
    if c.isMeta && c.name !in types then types[c.name := c] else types
  }

  /** `types` after registering `cs` in order. */
  function RegisterAll(types: map<string, MetaClass>, cs: seq<MetaClass>): map<string, MetaClass>
    decreases |cs|
  {
    if cs == [] then types else RegisterAll(Register(types, cs[0]), cs[1..])
  }

  /** The first `MetaBase` class of `cs` named `n`, at position `k`. */
  predicate FirstNamed(cs: seq<MetaClass>, n: string, k: nat) {
    k < |cs| && cs[k].name == n && cs[k].isMeta
    && forall j :: 0 <= j < k ==> !(cs[j].name == n && cs[j].isMeta)
  }

  /**
   * Registering a list never overwrites: a name already filed keeps its class,
   * a new name gets the first `MetaBase` class of that name, and nothing else
   * is added.
   */
  lemma {:induction false} RegisterAllFirstWins(types: map<string, MetaClass>, cs: seq<MetaClass>)
    ensures var r := RegisterAll(types, cs);
      && (forall n :: n in types ==> n in r && r[n] == types[n])
      && (forall k :: 0 <= k < |cs| && cs[k].name !in types && FirstNamed(cs, cs[k].name, k) ==>
            cs[k].name in r && r[cs[k].name] == cs[k])
      && (forall n :: n in r ==> n in types || exists k :: 0 <= k < |cs| && cs[k].name == n && cs[k].isMeta)
    decreases |cs|
  {
    if cs != [] {
      var t1 := Register(types, cs[0]);
      RegisterAllFirstWins(t1, cs[1..]);
      var r := RegisterAll(types, cs);
      assert r == RegisterAll(t1, cs[1..]);
      forall k | 0 <= k < |cs| && cs[k].name !in types && FirstNamed(cs, cs[k].name, k)
        ensures cs[k].name in r && r[cs[k].name] == cs[k]
      {
        if k > 0 {
          assert cs[1..][k - 1] == cs[k];
          assert !(cs[0].name == cs[k].name && cs[0].isMeta);
          assert FirstNamed(cs[1..], cs[k].name, k - 1) by {
            forall j | 0 <= j < k - 1
              ensures !(cs[1..][j].name == cs[k].name && cs[1..][j].isMeta)
            {
              assert cs[1..][j] == cs[j + 1];
            }
          }
        }
      }
      forall n | n in r
        ensures n in types || exists k :: 0 <= k < |cs| && cs[k].name == n && cs[k].isMeta
      {
        if n !in types {
          if n in t1 {
            assert cs[0].name == n && cs[0].isMeta;
          } else {
            var k :| 0 <= k < |cs[1..]| && cs[1..][k].name == n && cs[1..][k].isMeta;
            assert cs[k + 1] == cs[1..][k];
          }
        }
      }
    }
  }

  lemma {:induction false} RegisterAllFiled(types: map<string, MetaClass>, cs: seq<MetaClass>)
    requires Filed(types)
    ensures Filed(RegisterAll(types, cs))
    decreases |cs|
  {
    if cs != [] {
      RegisterAllFiled(Register(types, cs[0]), cs[1..]);
    }
  }

  /** `MetaRegistry`: the process-wide map from class names to meta classes. */
  class Registry {
    var types: map<string, MetaClass>

    ghost predicate Valid()
      reads this
    {
      Filed(types)
    }

    constructor ()
      ensures Valid() && types == map[]
    {
      types := map[];
    }

    predicate IsInRegistry(typeName: string)
      reads this
    {
      typeName in types
    }

    /** `getType`: the class filed under `typeName`, or `None`. */
    function GetType(typeName: string): (r: Option<MetaClass>)
      requires Valid()
      reads this
      ensures r.None? <==> !IsInRegistry(typeName)
      ensures r.Some? ==> r.value.name == typeName && r.value.isMeta
    {
      if typeName in types then Some(types[typeName]) else None
    }

    /** `registerMetaClass`: files a `MetaBase` class under its name unless the name is taken. */
    method RegisterMetaClass(c: MetaClass)
      requires Valid()
      modifies this
      ensures Valid()
      ensures types == Register(old(types), c)
    {
      if c.isMeta && c.name !in types {
        types := types[c.name := c];
      }
    }

    /** `registerMetaClasses`: registers the classes the given paths define, in order. */
    method RegisterMetaClasses(cs: seq<MetaClass>)
      requires Valid()
      modifies this
      ensures Valid()
      ensures types == RegisterAll(old(types), cs)
    {
      var i := 0;
      while i < |cs|
        invariant 0 <= i <= |cs|
        invariant Valid()
        invariant RegisterAll(types, cs[i..]) == RegisterAll(old(types), cs)
      {
        assert cs[i..][1..] == cs[i + 1..];
        RegisterMetaClass(cs[i]);
        i := i + 1;
      }
    }

    /**
     * `registryByEnv`: the variable's paths, as the classes they define, are
     * registered; an unset variable raises `ValueError`.
     */
    method RegistryByEnv(env: Option<seq<MetaClass>>) returns (res: Outcome)
      requires Valid()
      modifies this
      ensures Valid()
      ensures env.None? ==> res == Fail(ValueError) && types == old(types)
      ensures env.Some? ==> res == Pass && types == RegisterAll(old(types), env.value)
    {
      if env.None? {
        return Fail(ValueError);
      }
      RegisterMetaClasses(env.value);
      res := Pass;
    }
  }

  // ---------------------------------------------------------------------------
  // The factory

  /** What `asString` reads from a string plug; an unset string is empty. */
  function TagText(v: Value): string {
    if v.Text? then v.s else ""
  }

  /**
   * `classNameFromPlug` on a live node: the `mClass` string, or `None` when the
   * node has no such attribute (the caught exception is returned, which names
   * no class).
   */
  function ClassTag(nodes: map<NodeId, NodeRec>, id: NodeId): (t: Option<string>)
    requires id in nodes
    ensures t.Some? <==> HasAttr(nodes[id], ClassAttr)
  {
    if HasAttr(nodes[id], ClassAttr) then Some(TagText(AttrPlug(nodes[id], ClassAttr).value)) else None
  }

  /**
   * The class `MetaFactory.__call__` builds for a node carrying `tag`: the
   * called class when the tag names it or names nothing registered, else the
   * registered class.
   */
  function Chosen(types: map<string, MetaClass>, cls: MetaClass, tag: Option<string>): MetaClass {
    if tag == Some(cls.name) then cls
    else if tag.None? || tag.value !in types then cls
    else types[tag.value]
  }

  /**
   * With a filed table, the factory builds the class the tag names exactly
   * when the tag is the called class's name or a registered one; otherwise it
   * falls back to the called class.
   */
  lemma ChosenSpec(types: map<string, MetaClass>, cls: MetaClass, tag: Option<string>)
    requires Filed(types)
    ensures tag.Some? ==> (Chosen(types, cls, tag).name == tag.value <==> tag.value == cls.name || tag.value in types)
    ensures tag.None? || (tag.value != cls.name && tag.value !in types) ==> Chosen(types, cls, tag) == cls
    ensures tag.Some? && tag.value != cls.name && tag.value in types ==> Chosen(types, cls, tag) == types[tag.value]
  {
  }

  /**
   * A node tagged with a registered class is rebuilt as that class whichever
   * class the constructor is called on.
   */
  lemma FactoryRoundTrip(types: map<string, MetaClass>, c: MetaClass, cls: MetaClass)
    requires Filed(types) && c.name in types && types[c.name] == c
    ensures Chosen(types, cls, Some(c.name)) == c || (cls.name == c.name && Chosen(types, cls, Some(c.name)) == cls)
    ensures Chosen(types, cls, Some(c.name)).name == c.name
  {
  }

  /**
   * `MetaFactory.__call__` up to the class choice: the called class is
   * registered first; without a node it is built, and with one the node's tag
   * decides. A handle to no live node raises `RuntimeError`.
   */
  method Construct(reg: Registry, s: Scene, cls: MetaClass, node: Option<NodeId>) returns (res: Result<MetaClass>)
    requires reg.Valid()
    modifies reg
    ensures reg.Valid()
    ensures reg.types == Register(old(reg.types), cls)
    ensures node.None? ==> res == Ok(cls)
    ensures node.Some? && node.value !in s.nodes ==> res == Err(RuntimeError)
    ensures node.Some? && node.value in s.nodes ==> res == Ok(Chosen(reg.types, cls, ClassTag(s.nodes, node.value)))
  {
    if !reg.IsInRegistry(cls.name) {
      reg.RegisterMetaClass(cls);
    }
    if node.None? {
      return Ok(cls);
    }
    if node.value !in s.nodes {
      return Err(RuntimeError);
    }
    var classType := ClassTag(s.nodes, node.value);
    if classType == Some(cls.name) {
      return Ok(cls);
    }
    var registered := if classType.None? then None else reg.GetType(classType.value);
    if registered.None? {
      return Ok(cls);
    }
    res := Ok(registered.value);
  }

  /** The standard attributes `metaAttributes` lists for a class. */
  datatype MetaAttr = MetaAttr(name: string, value: Value, kind: int, isArray: bool, lock: bool)

  /**
   * `metaAttributes`: the class tag and version as locked strings, then the
   * unlocked parent array and children plug as messages.
   */
  /** A message attribute with no value, or a string attribute (not an array) with a string value: `addAttribute` always creates one. */
  predicate PlainAttr(a: MetaAttr) {
    || (a.kind == MessageKind && a.value == Nil)
    || (a.kind == DataString && !a.isArray && a.value.Text?)
  }

  function MetaAttributes(className: string): (r: seq<MetaAttr>)
    ensures |r| == 4
    ensures forall i :: 0 <= i < 4 ==> PlainAttr(r[i])
    ensures forall i, j :: 0 <= i < j < 4 ==> r[i].name != r[j].name
    ensures r[0].name == ClassAttr && r[0].value == Text(className) && r[0].kind == DataString
    ensures forall i :: 0 <= i < 4 ==> !r[i].value.NodeValue? && (r[i].value == Nil || (r[i].kind == DataString && !r[i].isArray))
    ensures forall i :: 0 <= i < 4 ==> (r[i].lock <==> r[i].kind == DataString)
    ensures forall i :: 0 <= i < 4 ==> (r[i].isArray <==> r[i].name == ParentAttr)
  {
    [ MetaAttr(ClassAttr, Text(className), DataString, false, true),
      MetaAttr(VersionAttr, Text(MetaVersion), DataString, false, true),
      MetaAttr(ParentAttr, Nil, MessageKind, true, false),
      MetaAttr(ChildrenAttr, Nil, MessageKind, false, false) ]
  }

  /** `_createInScene`'s name for a new node: the given name or the class name, with `_meta` appended. */
  function MetaName(name: Option<string>, className: string): (r: string)
    ensures |r| >= 5 && r[|r| - 5..] == "_meta"
  {
    (if name.Some? && name.value != "" then name.value else className) + "_meta"
  }

  // ---------------------------------------------------------------------------
  // Host edits the meta layer relies on

  /** `nodes` with node `id` locked or unlocked. */
  function SetNodeLock(nodes: map<NodeId, NodeRec>, id: NodeId, state: bool): (m: map<NodeId, NodeRec>)
    ensures m.Keys == nodes.Keys
    ensures forall j :: j in nodes ==> m[j].attrs == nodes[j].attrs
  {
    if id in nodes then nodes[id := nodes[id].(locked := state)] else nodes
  }

  /** Maps that agree on every node's attributes agree on every plug and every name. */
  lemma SameAttrs(a: map<NodeId, NodeRec>, b: map<NodeId, NodeRec>)
    requires a.Keys == b.Keys && forall j :: j in a ==> b[j].attrs == a[j].attrs
    ensures forall r :: PlugAt(a, r) == PlugAt(b, r)
    ensures SameNames(a, b) && NamesGrow(a, b)
    ensures forall j, name :: j in a ==> (HasAttr(a[j], name) <==> HasAttr(b[j], name))
  {
  }

  /**
   * The lock guard's net effect: the body runs on the node unlocked, and the
   * node's lock flag is put back afterwards if the node still exists. A body
   * that changes attributes only makes the guarded call change attributes only.
   */
  lemma GuardNet(n0: map<NodeId, NodeRec>, n1: map<NodeId, NodeRec>, n2: map<NodeId, NodeRec>, n3: map<NodeId, NodeRec>,
                 h: NodeId, setLocked: bool)
    requires setLocked == (h in n0 && n0[h].locked)
    requires n1 == if setLocked then SetNodeLock(n0, h, false) else n0
    requires AttrsOnly(n1, n2)
    requires n3 == if setLocked then SetNodeLock(n2, h, true) else n2
    ensures AttrsOnly(n0, n3)
    ensures forall j :: j in n2 ==> j in n3 && n3[j].attrs == n2[j].attrs
    ensures n2 == n1 ==> n3 == n0
  {
    if setLocked && n2 == n1 {
      assert n0[h].(locked := false).(locked := true) == n0[h];
      assert n3 == n0;
    }
  }

  /** A removal inside the guard is, across the guard, the same removal from the guarded node. */
  lemma GuardRemoved(n0: map<NodeId, NodeRec>, n1: map<NodeId, NodeRec>, n2: map<NodeId, NodeRec>, n3: map<NodeId, NodeRec>,
                     h: NodeId, name: string, setLocked: bool)
    requires setLocked == (h in n0 && n0[h].locked)
    requires n1 == if setLocked then SetNodeLock(n0, h, false) else n0
    requires h in n0 && HasAttr(n0[h], name) && HasAttr(n1[h], name) && n2 == WithoutAttr(n1, h, name)
    requires n3 == if setLocked then SetNodeLock(n2, h, true) else n2
    ensures n3[h].attrs == WithoutAttr(n0, h, name)[h].attrs
    ensures forall j :: j in n0 && j != h ==> n3[j] == n0[j]
  {
    assert n1[h].attrs == n0[h].attrs;
  }

  /** The attribute names of a node are pairwise different. */
  predicate UniqueNames(n: NodeRec) {
    forall i, j :: 0 <= i < j < |n.attrs| ==> n.attrs[i].def.name != n.attrs[j].def.name
  }

  /** The node without its top-level attribute `name`. */
  function WithoutAttr(nodes: map<NodeId, NodeRec>, id: NodeId, name: string): (m: map<NodeId, NodeRec>)
    requires id in nodes && HasAttr(nodes[id], name)
    ensures OnlyAttrs(nodes, m, id) && AttrsOnly(nodes, m)
  {
    var n := nodes[id];
    var k := FindAttr(n.attrs, name);
    nodes[id := n.(attrs := n.attrs[..k] + n.attrs[k + 1..])]
  }

  /**
   * Removing an attribute keeps every other name, and when the names are
   * unique the removed name is gone.
   */
  lemma WithoutAttrNames(nodes: map<NodeId, NodeRec>, id: NodeId, name: string)
    requires id in nodes && HasAttr(nodes[id], name)
    ensures var m := WithoutAttr(nodes, id, name);
      && (forall other :: other != name && HasAttr(nodes[id], other) ==> HasAttr(m[id], other))
      && (UniqueNames(nodes[id]) ==> !HasAttr(m[id], name))
  {
    var n := nodes[id];
    var k := FindAttr(n.attrs, name);
    var m := WithoutAttr(nodes, id, name);
    var rest := n.attrs[..k] + n.attrs[k + 1..];
    assert m[id].attrs == rest;
    forall other | other != name && HasAttr(n, other)
      ensures HasAttr(m[id], other)
    {
      var i := FindAttr(n.attrs, other);
      assert i != k;
      var at := if i < k then i else i - 1;
      assert rest[at] == n.attrs[i];
      HasAttrNames(m[id], other);
      assert AttrNames(rest)[at] == other;
    }
  }

  /** `cmds.deleteAttr` succeeds on a live node's dynamic, unlocked attribute. */
  predicate Deletable(nodes: map<NodeId, NodeRec>, locks: set<PlugRef>, id: NodeId, name: string) {
    id in nodes && HasAttr(nodes[id], name) && AttrPlug(nodes[id], name).def.isDynamic
    && PlugRef(id, name, []) !in locks
  }

  /**
   * `cmds.deleteAttr` on a plug of attribute `name`: the host deletes the
   * attribute with its edges and lock flags, and raises `RuntimeError` for a
   * missing, static or locked attribute or a node that is gone.
   */
  method DeleteAttr(s: Scene, id: NodeId, name: string) returns (res: Outcome)
    requires s.Valid()
    modifies s`nodes, s`edges, s`locks
    ensures s.Valid()
    ensures !Deletable(old(s.nodes), old(s.locks), id, name) ==>
      res == Fail(RuntimeError) && s.nodes == old(s.nodes) && s.edges == old(s.edges) && s.locks == old(s.locks)
    ensures Deletable(old(s.nodes), old(s.locks), id, name) ==>
      && res == Pass && s.nodes == WithoutAttr(old(s.nodes), id, name)
      && s.edges == Drop(old(s.edges), Touching(PlugRef(id, name, [])))
      && s.locks == UnlockUnder(old(s.locks), PlugRef(id, name, []))
  {
    if !Deletable(s.nodes, s.locks, id, name) {
      return Fail(RuntimeError);
    }
    s.RemoveAttr(id, name);
    res := Pass;
  }

  /** A forced connection changes attributes only. */
  lemma {:induction false} ConnectAllNodes(nodes: map<NodeId, NodeRec>, edges: seq<Edge>, es: seq<Edge>)
    ensures AttrsOnly(nodes, ConnectAll(nodes, edges, es).0)
    decreases |es|
  {
    if es != [] {
      var st := ConnectStep(nodes, edges, es[0]);
      ConnectStepNodes(nodes, edges, es[0]);
      ConnectAllNodes(st.0, st.1, es[1..]);
      AttrsOnlyTrans(nodes, st.0, ConnectAll(st.0, st.1, es[1..]).0);
    }
  }

  /** Adding the keyword-less record to a fresh attribute of any non-compound type raises nothing. */
  lemma PlainApplies(name: string, h: HostType, isArray: bool, r: PlugRef, t: int, locks: set<PlugRef>)
    requires h.family != CompoundAttr
    ensures ApplyPlugInfo(NewPlug(name, h, isArray), r, WithType(NoRecord, t), locks).fault.None?
  {
  }

  /**
   * `setPlugValue` on an existing top-level plug changes attributes only and
   * keeps the plug's definition; a string written to a single string plug is
   * stored without error or connection.
   */
  lemma AssignedPlug(nodes: map<NodeId, NodeRec>, edges: seq<Edge>, r: PlugRef, v: Value)
    requires PlugAt(nodes, r).Some? && r.path == []
    ensures var p := PlugAt(nodes, r).value;
      var a := Assign(p, r, v);
      var m := ConnectAll(PutAt(nodes, r, a.plug), edges, a.connects).0;
      && AttrsOnly(nodes, m)
      && PlugAt(m, r).Some? && PlugAt(m, r).value.def == p.def
      && (!p.def.isArray && p.def.host == HostType(TypedAttr, StringData) && v.Text? ==>
            a.fault.None? && a.connects == [] && PlugAt(m, r) == Some(p.(value := v)))
  {
    var p := PlugAt(nodes, r).value;
    var a := Assign(p, r, v);
    var put := PutAt(nodes, r, a.plug);
    PlugAtName(nodes, r);
    PlugAtPutAt(nodes, r, a.plug);
    ConnectAllNodes(put, edges, a.connects);
    OnlyAttrsIsAttrsOnly(nodes, put, r.node);
    AttrsOnlyTrans(nodes, put, ConnectAll(put, edges, a.connects).0);
    ConnectAllKeepsTop(put, edges, a.connects, r);
    if !p.def.isArray && p.def.host == HostType(TypedAttr, StringData) && v.Text? {
      AssignString(p, r, v);
      assert ConnectAll(put, edges, a.connects).0 == put;
    }
  }

  // ---------------------------------------------------------------------------
  // Links between meta nodes and other nodes

  /** The attribute `connectTo` links into on the target: the given name, or `metaNode` when it is missing or empty. */
  function LinkName(nodeAttributeName: Option<string>): (r: string)
    ensures r != ""
    ensures nodeAttributeName.Some? && nodeAttributeName.value != "" ==> r == nodeAttributeName.value
  {
    if nodeAttributeName.Some? && nodeAttributeName.value != "" then nodeAttributeName.value else LinkAttr
  }

  /** Some edge runs from a plug of `h` into a plug of `node`. */
  predicate Linked(edges: seq<Edge>, h: NodeId, node: NodeId) {
    exists e :: e in edges && e.src.node == h && e.dst.node == node
  }

  /** The position of the first (plug on the node, upstream plug) pair whose upstream plug is on `h`, or `|pairs|`. */
  function FirstFrom(pairs: seq<(PlugRef, PlugRef)>, h: NodeId): (k: nat)
    ensures k <= |pairs|
    ensures k < |pairs| ==> pairs[k].1.node == h
    ensures forall j :: 0 <= j < k ==> pairs[j].1.node != h
  {
    if pairs == [] then 0 else if pairs[0].1.node == h then 0 else 1 + FirstFrom(pairs[1..], h)
  }

  /**
   * Among the node's incoming pairs, one comes from `h` exactly when `h` is
   * linked into the node, and the pair found is such a link.
   */
  lemma FirstFromLinked(edges: seq<Edge>, h: NodeId, node: NodeId)
    requires DestUnique(edges)
    ensures var pairs := IterConnections(edges, node, false, true);
      && (FirstFrom(pairs, h) < |pairs| <==> Linked(edges, h, node))
      && (FirstFrom(pairs, h) < |pairs| ==>
            var c := pairs[FirstFrom(pairs, h)]; Edge(c.1, c.0) in edges && c.0.node == node && c.1.node == h)
  {
    IterConnectionsEdges(edges, node, false, true);
    FirstFromPairs(IterConnections(edges, node, false, true), edges, h, node);
  }

  lemma FirstFromPairs(pairs: seq<(PlugRef, PlugRef)>, edges: seq<Edge>, h: NodeId, node: NodeId)
    requires forall a, b :: (a, b) in pairs <==> a.node == node && Edge(b, a) in edges
    ensures FirstFrom(pairs, h) < |pairs| <==> Linked(edges, h, node)
    ensures FirstFrom(pairs, h) < |pairs| ==>
      var c := pairs[FirstFrom(pairs, h)]; Edge(c.1, c.0) in edges && c.0.node == node && c.1.node == h
  {
    var k := FirstFrom(pairs, h);
    if k < |pairs| {
      var c := pairs[k];
      assert (c.0, c.1) in pairs;
      assert Edge(c.1, c.0) in edges;
    }
    if Linked(edges, h, node) {
      var e :| e in edges && e.src.node == h && e.dst.node == node;
      assert (e.dst, e.src) in pairs;
      var j :| 0 <= j < |pairs| && pairs[j] == (e.dst, e.src);
      assert k <= j;
    }
  }

  /** The first (plug on the node, upstream plug) pair of `iterConnections(node, False, True)` whose upstream plug is on `h`. */
  function LinkFrom(edges: seq<Edge>, h: NodeId, node: NodeId): (r: Option<(PlugRef, PlugRef)>)
    requires DestUnique(edges)
    ensures r.Some? <==> Linked(edges, h, node)
    ensures r.Some? ==> Edge(r.value.1, r.value.0) in edges && r.value.0.node == node && r.value.1.node == h
  {
    FirstFromLinked(edges, h, node);
    var pairs := IterConnections(edges, node, false, true);
    var k := FirstFrom(pairs, h);
    if k < |pairs| then Some(pairs[k]) else None
  }

  /** `e` is `e0` without the edges of `upstream` and without those at or below `plug`. */
  ghost predicate CutAt(e0: seq<Edge>, e: seq<Edge>, upstream: PlugRef, plug: PlugRef) {
    forall x :: x in e <==> x in e0 && x.src != upstream && x.dst != upstream && !Cuts(Touching(plug), x)
  }

  lemma LinkFromFirst(edges: seq<Edge>, h: NodeId, node: NodeId)
    requires DestUnique(edges)
    ensures var pairs := IterConnections(edges, node, false, true);
      LinkFrom(edges, h, node) == if FirstFrom(pairs, h) < |pairs| then Some(pairs[FirstFrom(pairs, h)]) else None
  {
  }

  /**
   * What `MetaBase.addAttribute` promises, from the scene `(n0, e0, l0)` to the
   * scene `(n, e, l)`: a node that is gone raises `RuntimeError` and an
   * existing attribute is returned as it is, both without change; otherwise
   * the attribute is created with the requested type, given its value (a node
   * value is linked to with `connectTo`), and its lock flag is set as asked.
   * Only attributes change, a message or string attribute is always created
   * without error, and no edge moves for a missing value.
   */
  ghost predicate Added(h: NodeId, name: string, value: Value, kind: int, isArray: bool, lock: bool, res: Result<PlugRef>,
                        n0: map<NodeId, NodeRec>, e0: seq<Edge>, l0: set<PlugRef>,
                        n: map<NodeId, NodeRec>, e: seq<Edge>, l: set<PlugRef>)
  {
    var top := PlugRef(h, name, []);
    var created := h in n0 && !HasAttr(n0[h], name);
    && AttrsOnly(n0, n)
    && (h !in n0 ==> res == Err(RuntimeError) && n == n0 && e == e0 && l == l0)
    && (h in n0 && HasAttr(n0[h], name) ==> res == Ok(top) && n == n0 && e == e0 && l == l0)
    && (res.Ok? ==> res.value == top && h in n && HasAttr(n[h], name))
    && (created && res.Ok? ==> (top in l) == lock)
    && (created && res.Ok? && !value.NodeValue? ==>
          PlugAt(n, top).Some? && CreatedType(kind) == Ok(Some(PlugAt(n, top).value.def.host))
          && PlugAt(n, top).value.def.isArray == isArray)
    && (!value.NodeValue? ==> NamesGrow(n0, n))
    && (value == Nil ==> e == e0)
    && (created && res.Ok? && value.NodeValue? ==> SourceOf(e, PlugRef(value.node, LinkAttr, [])) == Some(top))
    && (created && res.Ok? && value.Text? && kind == DataString && !isArray ==>
          PlugAt(n, top).Some? && PlugAt(n, top).value.value == value)
    && (created && ((kind == MessageKind && value == Nil) || (kind == DataString && !isArray && (value == Nil || value.Text?))) ==>
          res.Ok?)
  }

  /** `Added` for a plug that `addAttribute` created and then filled in. */
  lemma FilledAdded(h: NodeId, name: string, value: Value, kind: int, isArray: bool, lock: bool, res: Result<PlugRef>,
                    n0: map<NodeId, NodeRec>, e0: seq<Edge>, l0: set<PlugRef>, n1: map<NodeId, NodeRec>, e1: seq<Edge>,
                    n: map<NodeId, NodeRec>, e: seq<Edge>, l: set<PlugRef>)
    requires h in n0 && !HasAttr(n0[h], name) && e1 == e0
    requires AttrsOnly(n0, n1) && NamesGrow(n0, n1)
    requires var q := PlugAt(n1, PlugRef(h, name, []));
      q.Some? && CreatedType(kind) == Ok(Some(q.value.def.host)) && q.value.def.isArray == isArray
    requires AttrsOnly(n1, n)
    requires var top := PlugRef(h, name, []);
      && (res.Ok? ==> res == Ok(top) && h in n && HasAttr(n[h], name) && (top in l) == lock)
      && (!value.NodeValue? ==>
            && NamesGrow(n1, n) && PlugAt(n, top).Some?
            && PlugAt(n, top).value.def == PlugAt(n1, top).value.def)
      && (value == Nil ==> res.Ok? && e == e1)
      && (res.Ok? && value.NodeValue? ==> SourceOf(e, PlugRef(value.node, LinkAttr, [])) == Some(top))
      && (var p := PlugAt(n1, top).value;
          !p.def.isArray && p.def.host == HostType(TypedAttr, StringData) && value.Text? ==>
            res.Ok? && PlugAt(n, top).value.value == value)
    ensures Added(h, name, value, kind, isArray, lock, res, n0, e0, l0, n, e, l)
  {
    AttrsOnlyTrans(n0, n1, n);
    if !value.NodeValue? {
      NamesGrowTrans(n0, n1, n);
    }
  }

  /** `Added` survives the lock guard around it. */
  lemma GuardAdded(h: NodeId, name: string, value: Value, kind: int, isArray: bool, lock: bool, res: Result<PlugRef>,
                   n0: map<NodeId, NodeRec>, n1: map<NodeId, NodeRec>, n2: map<NodeId, NodeRec>, n3: map<NodeId, NodeRec>,
                   e0: seq<Edge>, l0: set<PlugRef>, e: seq<Edge>, l: set<PlugRef>, setLocked: bool)
    requires setLocked == (h in n0 && n0[h].locked)
    requires n1 == if setLocked then SetNodeLock(n0, h, false) else n0
    requires n3 == if setLocked then SetNodeLock(n2, h, true) else n2
    requires Added(h, name, value, kind, isArray, lock, res, n1, e0, l0, n2, e, l)
    ensures Added(h, name, value, kind, isArray, lock, res, n0, e0, l0, n3, e, l)
  {
    SameAttrs(n0, n1);
    GuardNet(n0, n1, n2, n3, h, setLocked);
    SameAttrs(n2, n3);
    if !value.NodeValue? {
      NamesGrowTrans(n0, n1, n2);
      NamesGrowTrans(n0, n2, n3);
    }
  }

  // ---------------------------------------------------------------------------
  // Parent and child links

  function ParentPlug(h: NodeId): PlugRef { PlugRef(h, ParentAttr, []) }

  function ChildrenPlug(h: NodeId): PlugRef { PlugRef(h, ChildrenAttr, []) }

  /** The element of logical index `i` of `h`'s `mMetaParent` array. */
  function ParentElem(h: NodeId, i: nat): PlugRef { Sub(ParentPlug(h), Elem(i)) }

  /** `findPlug(mMetaParent)` succeeds: the node is alive and has the attribute. */
  predicate HasParentPlug(nodes: map<NodeId, NodeRec>, h: NodeId) {
    PlugAt(nodes, ParentPlug(h)).Some?
  }

  predicate HasChildrenPlug(nodes: map<NodeId, NodeRec>, h: NodeId) {
    h in nodes && HasAttr(nodes[h], ChildrenAttr)
  }

  /** The elements of `h`'s `mMetaParent` array, in physical order. */
  function ParentElems(nodes: map<NodeId, NodeRec>, h: NodeId): seq<Element>
    requires HasParentPlug(nodes, h)
  {
    PlugAt(nodes, ParentPlug(h)).value.elements
  }

  /** The element `addParent` connects into. */
  function ParentSlot(nodes: map<NodeId, NodeRec>, edges: seq<Edge>, h: NodeId): PlugRef
    requires HasParentPlug(nodes, h)
  {
    FreeDestSlot(edges, ParentPlug(h), PlugAt(nodes, ParentPlug(h)).value)
  }

  /**
   * Connecting a parent into the slot gives the slot that parent as its source
   * and keeps the source of every element that already had one.
   */
  lemma AddParentKeepsParents(nodes: map<NodeId, NodeRec>, edges: seq<Edge>, h: NodeId, cp: PlugRef)
    requires DestUnique(edges) && HasParentPlug(nodes, h)
    ensures var slot := ParentSlot(nodes, edges, h);
      var es := ConnectStep(nodes, edges, Edge(cp, slot)).1;
      && SourceOf(es, slot) == Some(cp)
      && forall k :: 0 <= k < |ParentElems(nodes, h)| && SourceOf(edges, ParentElem(h, ParentElems(nodes, h)[k].index)).Some? ==>
           SourceOf(es, ParentElem(h, ParentElems(nodes, h)[k].index)) == SourceOf(edges, ParentElem(h, ParentElems(nodes, h)[k].index))
  {
    var a := PlugAt(nodes, ParentPlug(h)).value;
    var slot := ParentSlot(nodes, edges, h);
    var es := ConnectStep(nodes, edges, Edge(cp, slot)).1;
    ConnectStepSpec(nodes, edges, Edge(cp, slot));
    FreeDestSlotAvoidsTaken(edges, ParentPlug(h), a);
    forall k | 0 <= k < |a.elements| && SourceOf(edges, ParentElem(h, a.elements[k].index)).Some?
      ensures SourceOf(es, ParentElem(h, a.elements[k].index)) == SourceOf(edges, ParentElem(h, a.elements[k].index))
    {
      var d := ParentElem(h, a.elements[k].index);
      assert d == ElemRef(ParentPlug(h), a.elements, k);
      var src := SourceOf(edges, d).value;
      assert Edge(src, d) in es;
      SourceUnique(es, src, d);
    }
  }

  /** The outcome of `removeParent`'s scan: the logical indices it queues for removal, or the exception it raises. */
  datatype Scan = Scan(doomed: seq<nat>, fault: Option<Fault>)

  function Join(queue: seq<nat>, r: Scan): Scan {
    Scan(queue + r.doomed, r.fault)
  }

  function ParentId(parent: Option<MetaBase>): Option<NodeId> {
    if parent.None? then None else Some(parent.value.handle)
  }

  /** Element `i` has a source, on `parent` when one is given. */
  predicate Queued(edges: seq<Edge>, h: NodeId, i: nat, parent: Option<NodeId>) {
    SourceOf(edges, ParentElem(h, i)).Some? && (parent.None? || SourceOf(edges, ParentElem(h, i)).value.node == parent.value)
  }

  /**
   * `removeParent`'s scan of the elements `els` of `h`'s parent array: a
   * connected element whose source is not a live node raises `RuntimeError`;
   * comparing with a parent that is gone raises `ValueError`; otherwise an
   * element is queued when no parent is given or its source is on the parent.
   */
  function ScanParents(nodes: map<NodeId, NodeRec>, edges: seq<Edge>, h: NodeId, els: seq<Element>, parent: Option<NodeId>): (r: Scan)
    ensures r.fault.None? || r.fault == Some(RuntimeError) || (r.fault == Some(ValueError) && parent.Some? && parent.value !in nodes)
    ensures forall j :: j in r.doomed ==> Queued(edges, h, j, parent)
    ensures r.fault.None? ==> forall k :: 0 <= k < |els| && Queued(edges, h, els[k].index, parent) ==> els[k].index in r.doomed
  {
    if els == [] then Scan([], None)
    else
      var el := ParentElem(h, els[0].index);
      assert forall k :: 1 <= k < |els| ==> els[k] == els[1..][k - 1];
      if !IsConnected(edges, el) then
        ScanParents(nodes, edges, h, els[1..], parent)
      else
        var src := SourceOf(edges, el);
        if src.None? || src.value.node !in nodes then Scan([], Some(RuntimeError))
        else if parent.Some? && parent.value !in nodes then Scan([], Some(ValueError))
        else
          var rest := ScanParents(nodes, edges, h, els[1..], parent);
          if parent.None? || src.value.node == parent.value then Scan([els[0].index] + rest.doomed, rest.fault) else rest
  }

  /** `edges` after the queued element removals: every edge at or below a removed element is gone. */
  function DropAll(edges: seq<Edge>, h: NodeId, idx: seq<nat>): (r: seq<Edge>)
    ensures forall e :: e in r <==> e in edges && forall j :: j in idx ==> !Cuts(Touching(ParentElem(h, j)), e)
    ensures DestUnique(edges) ==> DestUnique(r)
    decreases |idx|
  {
    if idx == [] then edges
    else
      var once := Drop(edges, Touching(ParentElem(h, idx[0])));
      assert forall j :: j in idx <==> j == idx[0] || j in idx[1..];
      if DestUnique(edges) then
        DropUnique(edges, Touching(ParentElem(h, idx[0])));
        DropAll(once, h, idx[1..])
      else DropAll(once, h, idx[1..])
  }

  /** The lock flags after the queued element removals: no plug at or below a removed element is locked. */
  function UnlockAll(locks: set<PlugRef>, h: NodeId, idx: seq<nat>): (r: set<PlugRef>)
    ensures forall x :: x in r <==> x in locks && forall j :: j in idx ==> !Under(x, ParentElem(h, j))
  {
    if idx == [] then locks
    else
      assert forall j :: j in idx <==> j == idx[0] || j in idx[1..];
      UnlockAll(UnlockUnder(locks, ParentElem(h, idx[0])), h, idx[1..])
  }

  /** The nodes after the queued element removals: the parent array keeps exactly the elements not queued. */
  function DropElems(nodes: map<NodeId, NodeRec>, h: NodeId, idx: seq<nat>): (m: map<NodeId, NodeRec>)
    requires HasParentPlug(nodes, h)
    ensures HasParentPlug(m, h) && AttrsOnly(nodes, m) && SameNames(nodes, m)
    ensures forall e :: e in ParentElems(m, h) <==> e in ParentElems(nodes, h) && e.index !in idx
  {
    if idx == [] then nodes
    else
      var top := ParentPlug(h);
      var p := PlugAt(nodes, top).value;
      var once := PutAt(nodes, top, DropElem(p, idx[0]));
      PlugAtPutAt(nodes, top, DropElem(p, idx[0]));
      PutAtSameNames(nodes, top, DropElem(p, idx[0]));
      OnlyAttrsIsAttrsOnly(nodes, once, h);
      var m := DropElems(once, h, idx[1..]);
      AttrsOnlyTrans(nodes, once, m);
      SameNamesTrans(nodes, once, m);
      assert forall j :: j in idx <==> j == idx[0] || j in idx[1..];
      m
  }

  /** A removed element has no source left. */
  lemma DropAllClears(edges: seq<Edge>, h: NodeId, idx: seq<nat>, i: nat)
    requires i in idx
    ensures SourceOf(DropAll(edges, h, idx), ParentElem(h, i)).None?
  {
    var d := ParentElem(h, i);
    forall e | e in DropAll(edges, h, idx)
      ensures e.dst != d
    {
      assert !Cuts(Touching(d), e);
      assert d.path[..|d.path|] == d.path;
    }
  }

  /** An element that had no source has none after the removals. */
  lemma DropAllNoSource(edges: seq<Edge>, h: NodeId, idx: seq<nat>, d: PlugRef)
    requires SourceOf(edges, d).None?
    ensures SourceOf(DropAll(edges, h, idx), d).None?
  {
    forall e | e in DropAll(edges, h, idx)
      ensures e.dst != d
    {
      assert e in edges;
    }
  }

  /** An element not removed keeps a source that is not a plug of the node itself. */
  lemma DropAllKeepsSource(edges: seq<Edge>, h: NodeId, idx: seq<nat>, i: nat, src: PlugRef)
    requires DestUnique(edges) && SourceOf(edges, ParentElem(h, i)) == Some(src) && src.node != h
    requires i !in idx
    ensures SourceOf(DropAll(edges, h, idx), ParentElem(h, i)) == Some(src)
  {
    var d := ParentElem(h, i);
    var e := Edge(src, d);
    forall j | j in idx
      ensures !Cuts(Touching(ParentElem(h, j)), e)
    {
      assert j != i && d.path == [Elem(i)] && ParentElem(h, j).path == [Elem(j)];
      assert d.path[..1] == d.path;
    }
    var es := DropAll(edges, h, idx);
    assert e in es;
    SourceUnique(es, src, d);
  }

  /** The first queued removal, then the rest. */
  lemma DropFirst(nodes: map<NodeId, NodeRec>, edges: seq<Edge>, locks: set<PlugRef>, h: NodeId, idx: seq<nat>)
    requires HasParentPlug(nodes, h) && idx != []
    ensures var once := PutAt(nodes, ParentPlug(h), DropElem(PlugAt(nodes, ParentPlug(h)).value, idx[0]));
      && HasParentPlug(once, h)
      && DropElems(nodes, h, idx) == DropElems(once, h, idx[1..])
      && DropAll(edges, h, idx) == DropAll(Drop(edges, Touching(ParentElem(h, idx[0]))), h, idx[1..])
      && UnlockAll(locks, h, idx) == UnlockAll(UnlockUnder(locks, ParentElem(h, idx[0])), h, idx[1..])
  {
    PlugAtPutAt(nodes, ParentPlug(h), DropElem(PlugAt(nodes, ParentPlug(h)).value, idx[0]));
  }

  /** After `removeParent(None)` succeeds, no element the array had keeps a source. */
  lemma RemoveAllParentsClears(nodes: map<NodeId, NodeRec>, edges: seq<Edge>, h: NodeId)
    requires HasParentPlug(nodes, h)
    requires ScanParents(nodes, edges, h, ParentElems(nodes, h), None).fault.None?
    ensures var els := ParentElems(nodes, h);
      var es := DropAll(edges, h, ScanParents(nodes, edges, h, els, None).doomed);
      forall k :: 0 <= k < |els| ==> SourceOf(es, ParentElem(h, els[k].index)).None?
  {
    var els := ParentElems(nodes, h);
    var sc := ScanParents(nodes, edges, h, els, None);
    forall k | 0 <= k < |els|
      ensures SourceOf(DropAll(edges, h, sc.doomed), ParentElem(h, els[k].index)).None?
    {
      if SourceOf(edges, ParentElem(h, els[k].index)).Some? {
        assert Queued(edges, h, els[k].index, None);
        DropAllClears(edges, h, sc.doomed, els[k].index);
      } else {
        DropAllNoSource(edges, h, sc.doomed, ParentElem(h, els[k].index));
      }
    }
  }

  /**
   * After `removeParent(parent)` succeeds, the elements whose source was on
   * the parent have none, and every other element keeps its source (one that
   * is not a plug of the node itself).
   */
  lemma RemoveParentEffect(nodes: map<NodeId, NodeRec>, edges: seq<Edge>, h: NodeId, p: NodeId)
    requires DestUnique(edges) && HasParentPlug(nodes, h)
    requires ScanParents(nodes, edges, h, ParentElems(nodes, h), Some(p)).fault.None?
    ensures var els := ParentElems(nodes, h);
      var es := DropAll(edges, h, ScanParents(nodes, edges, h, els, Some(p)).doomed);
      forall k :: 0 <= k < |els| && SourceOf(edges, ParentElem(h, els[k].index)).Some? ==>
        var src := SourceOf(edges, ParentElem(h, els[k].index)).value;
        && (src.node == p ==> SourceOf(es, ParentElem(h, els[k].index)).None?)
        && (src.node != p && src.node != h ==> SourceOf(es, ParentElem(h, els[k].index)) == Some(src))
  {
    var els := ParentElems(nodes, h);
    var sc := ScanParents(nodes, edges, h, els, Some(p));
    forall k | 0 <= k < |els| && SourceOf(edges, ParentElem(h, els[k].index)).Some?
      ensures var src := SourceOf(edges, ParentElem(h, els[k].index)).value;
        && (src.node == p ==> SourceOf(DropAll(edges, h, sc.doomed), ParentElem(h, els[k].index)).None?)
        && (src.node != p && src.node != h ==> SourceOf(DropAll(edges, h, sc.doomed), ParentElem(h, els[k].index)) == Some(src))
    {
      var i := els[k].index;
      var src := SourceOf(edges, ParentElem(h, i)).value;
      if src.node == p {
        assert Queued(edges, h, i, Some(p));
        DropAllClears(edges, h, sc.doomed, i);
      } else if src.node != h {
        assert !Queued(edges, h, i, Some(p));
        DropAllKeepsSource(edges, h, sc.doomed, i, src);
      }
    }
  }

  /**
   * `metaParents` from the elements `els`: in physical order, the node of the
   * source of each connected element; one whose source is not a live node
   * raises `RuntimeError`.
   */
  function ParentsOf(nodes: map<NodeId, NodeRec>, edges: seq<Edge>, h: NodeId, els: seq<Element>): (r: Result<seq<NodeId>>)
    ensures r.Ok? ==> forall x :: x in r.value ==> x in nodes
    ensures r.Err? ==> r.fault == RuntimeError
  {
    if els == [] then Ok([])
    else
      var el := ParentElem(h, els[0].index);
      if !IsConnected(edges, el) then ParentsOf(nodes, edges, h, els[1..])
      else
        var src := SourceOf(edges, el);
        if src.None? || src.value.node !in nodes then Err(RuntimeError)
        else
          var rest := ParentsOf(nodes, edges, h, els[1..]);
          if rest.Err? then rest else Ok([src.value.node] + rest.value)
  }

  /**
   * `metaParents` and `removeParent(None)` agree: the parents listed are the
   * sources of exactly the elements removed, in the same order, and one fails
   * where the other does.
   */
  lemma {:induction false} ParentsMatchScan(nodes: map<NodeId, NodeRec>, edges: seq<Edge>, h: NodeId, els: seq<Element>)
    ensures var ps := ParentsOf(nodes, edges, h, els);
      var sc := ScanParents(nodes, edges, h, els, None);
      && (ps.Ok? <==> sc.fault.None?)
      && (ps.Ok? ==> |ps.value| == |sc.doomed| && forall i :: 0 <= i < |ps.value| ==>
            SourceOf(edges, ParentElem(h, sc.doomed[i])).Some? &&
            ps.value[i] == SourceOf(edges, ParentElem(h, sc.doomed[i])).value.node)
  {
    if els != [] {
      ParentsMatchScan(nodes, edges, h, els[1..]);
      var el := ParentElem(h, els[0].index);
      if IsConnected(edges, el) {
        var src := SourceOf(edges, el);
        if src.Some? && src.value.node in nodes {
          var rest := ParentsOf(nodes, edges, h, els[1..]);
          var sr := ScanParents(nodes, edges, h, els[1..], None);
          if rest.Ok? {
            var ps := [src.value.node] + rest.value;
            var ds := [els[0].index] + sr.doomed;
            forall i | 0 <= i < |ps|
              ensures SourceOf(edges, ParentElem(h, ds[i])).Some? && ps[i] == SourceOf(edges, ParentElem(h, ds[i])).value.node
            {
              if i > 0 {
                assert ps[i] == rest.value[i - 1] && ds[i] == sr.doomed[i - 1];
              }
            }
          }
        }
      }
    }
  }

  function Prepend(found: seq<NodeId>, r: Result<seq<NodeId>>): Result<seq<NodeId>> {
    if r.Err? then r else Ok(found + r.value)
  }

  /** The loop of `metaParents`, over a fixed scene. */
  method CollectParents(nodes: map<NodeId, NodeRec>, edges: seq<Edge>, h: NodeId, els: seq<Element>) returns (res: Result<seq<NodeId>>)
    ensures res == ParentsOf(nodes, edges, h, els)
  {
    var found: seq<NodeId> := [];
    var i := 0;
    assert els[0..] == els;
    var whole := ParentsOf(nodes, edges, h, els);
    assert whole.Ok? ==> [] + whole.value == whole.value;
    while i < |els|
      invariant 0 <= i <= |els|
      invariant whole == Prepend(found, ParentsOf(nodes, edges, h, els[i..]))
    {
      assert els[i..][1..] == els[i + 1..];
      var el := ParentElem(h, els[i].index);
      if IsConnected(edges, el) {
        var src := SourceOf(edges, el);
        if src.None? || src.value.node !in nodes {
          return Err(RuntimeError);
        }
        var rest := ParentsOf(nodes, edges, h, els[i + 1..]);
        assert rest.Ok? ==> found + ([src.value.node] + rest.value) == (found + [src.value.node]) + rest.value;
        found := found + [src.value.node];
      }
      i := i + 1;
    }
    assert els[|els|..] == [];
    assert found + [] == found;
    res := Ok(found);
  }

  /** The nodes of the plugs, in order. */
  function Owners(ps: seq<PlugRef>): (r: seq<NodeId>)
    ensures |r| == |ps| && forall i :: 0 <= i < |ps| ==> r[i] == ps[i].node
  {
    seq(|ps|, i requires 0 <= i < |ps| => ps[i].node)
  }

  /**
   * `isMetaNode` on a live node: it has an `mClass` attribute whose string is
   * registered.
   */
  predicate IsMetaNode(nodes: map<NodeId, NodeRec>, types: map<string, MetaClass>, id: NodeId) {
    id in nodes && ClassTag(nodes, id).Some? && ClassTag(nodes, id).value in types
  }

  /** The meta tree of a live node `h`, to `depth` levels, going upstream. */
  function Tree(nodes: map<NodeId, NodeRec>, edges: seq<Edge>, types: map<string, MetaClass>, h: NodeId, depth: int): seq<NodeId>
    decreases if depth < 1 then 0 else depth, 1
  {
    if depth < 1 then [] else TreeHops(nodes, edges, types, IterConnections(edges, h, false, true), depth)
  }

  /** For each (plug on the node, upstream plug) pair in turn: an upstream meta node and then its own tree. */
  function TreeHops(nodes: map<NodeId, NodeRec>, edges: seq<Edge>, types: map<string, MetaClass>,
                    pairs: seq<(PlugRef, PlugRef)>, depth: int): seq<NodeId>
    requires depth >= 1
    decreases depth, 0, |pairs|
  {
    if pairs == [] then []
    else
      var n := pairs[0].1.node;
      var rest := TreeHops(nodes, edges, types, pairs[1..], depth);
      if IsMetaNode(nodes, types, n) then [n] + Tree(nodes, edges, types, n, depth - 1) + rest else rest
  }

  lemma {:induction false} TreeYieldsMeta(nodes: map<NodeId, NodeRec>, edges: seq<Edge>, types: map<string, MetaClass>, h: NodeId, depth: int)
    ensures forall x :: x in Tree(nodes, edges, types, h, depth) ==> IsMetaNode(nodes, types, x)
    decreases if depth < 1 then 0 else depth, 1
  {
    if depth >= 1 {
      TreeHopsYieldMeta(nodes, edges, types, IterConnections(edges, h, false, true), depth);
    }
  }

  lemma {:induction false} TreeHopsYieldMeta(nodes: map<NodeId, NodeRec>, edges: seq<Edge>, types: map<string, MetaClass>,
                                             pairs: seq<(PlugRef, PlugRef)>, depth: int)
    requires depth >= 1
    ensures forall x :: x in TreeHops(nodes, edges, types, pairs, depth) ==> IsMetaNode(nodes, types, x)
    decreases depth, 0, |pairs|
  {
    if pairs != [] {
      TreeHopsYieldMeta(nodes, edges, types, pairs[1..], depth);
      var n := pairs[0].1.node;
      if IsMetaNode(nodes, types, n) {
        TreeYieldsMeta(nodes, edges, types, n, depth - 1);
      }
    }
  }

  /** Some pair's upstream plug is on `x`. */
  predicate Upstream(pairs: seq<(PlugRef, PlugRef)>, x: NodeId) {
    exists c :: c in pairs && c.1.node == x
  }

  /** One level of hops yields the meta nodes among the upstream plugs' nodes. */
  lemma {:induction false} TreeHopsOneLevel(nodes: map<NodeId, NodeRec>, edges: seq<Edge>, types: map<string, MetaClass>,
                                            pairs: seq<(PlugRef, PlugRef)>)
    ensures forall x :: x in TreeHops(nodes, edges, types, pairs, 1) <==> IsMetaNode(nodes, types, x) && Upstream(pairs, x)
  {
    if pairs != [] {
      TreeHopsOneLevel(nodes, edges, types, pairs[1..]);
      forall x
        ensures Upstream(pairs, x) <==> pairs[0].1.node == x || Upstream(pairs[1..], x)
      {
        if Upstream(pairs, x) {
          var c :| c in pairs && c.1.node == x;
          if c != pairs[0] {
            var i :| 0 <= i < |pairs| && pairs[i] == c;
            assert pairs[1..][i - 1] == c;
          }
        }
        if Upstream(pairs[1..], x) {
          var c :| c in pairs[1..] && c.1.node == x;
          assert c in pairs;
        }
        assert pairs[0] in pairs;
      }
    }
  }

  /** With unique destinations, a live node's tree at depth 1 is exactly the meta nodes linked into it. */
  lemma TreeOneLevel(nodes: map<NodeId, NodeRec>, edges: seq<Edge>, types: map<string, MetaClass>, h: NodeId)
    requires DestUnique(edges)
    ensures forall x :: x in Tree(nodes, edges, types, h, 1) <==> IsMetaNode(nodes, types, x) && Linked(edges, x, h)
  {
    var pairs := IterConnections(edges, h, false, true);
    IterConnectionsEdges(edges, h, false, true);
    TreeHopsOneLevel(nodes, edges, types, pairs);
    forall x
      ensures Upstream(pairs, x) <==> Linked(edges, x, h)
    {
      if Upstream(pairs, x) {
        var c :| c in pairs && c.1.node == x;
        assert (c.0, c.1) in pairs;
        assert Edge(c.1, c.0) in edges;
      }
      if Linked(edges, x, h) {
        var e :| e in edges && e.src.node == x && e.dst.node == h;
        assert (e.dst, e.src) in pairs;
      }
    }
  }

  /**
   * A meta node 0 whose `message` plug feeds `metaNode` on node 1 is linked
   * into node 1: `disconnectFromNode(1)` should cut that edge, but as written
   * it compares the plug on node 1 of each pair with the meta node, and no
   * pair passes, so it returns `False`.
   */
  lemma DisconnectMissesLink()
    ensures var e := Edge(PlugRef(0, "message", []), PlugRef(1, LinkAttr, []));
      var pairs := IterConnections([e], 1, false, true);
      && DestUnique([e]) && Linked([e], 0, 1)
      && LinkFrom([e], 0, 1) == Some((e.dst, e.src))
      && (e.dst, e.src) in pairs
      && forall j :: 0 <= j < |pairs| ==> pairs[j].0.node != 0
  {
    var e := Edge(PlugRef(0, "message", []), PlugRef(1, LinkAttr, []));
    assert e in [e];
    IterConnectionsEdges([e], 1, false, true);
  }

  // ---------------------------------------------------------------------------
  // Meta nodes

  /** `MetaBase`: a wrapper holding the handle of its scene node and the name of its class. */
  class MetaBase {
    const handle: NodeId
    const className: string
    const isDag: bool  // which function set `_createInScene` chose

    /**
     * `_createInScene`: without a node, a DG `network` node named after the
     * given name (or, when that is empty, the class) with `_meta` appended is
     * created; a given node is wrapped as it is.
     */
    constructor CreateInScene(s: Scene, node: Option<NodeId>, name: Option<string>, className: string)
      requires s.Valid() && "network" in s.types
      modifies s`nodes, s`nextId
      ensures s.Valid() && this.className == className
      ensures node.None? ==>
        && handle !in old(s.nodes) && !isDag
        && s.nodes == old(s.nodes)[handle := s.Fresh(MetaName(name, className), "network", false, None)]
      ensures node.Some? ==>
        && handle == node.value && s.nodes == old(s.nodes)
        && isDag == (node.value in s.nodes && s.nodes[node.value].isDag)
    {
      var id: NodeId;
      if node.None? {
        id := s.CreateNode(MetaName(name, className), "network", false, None);
      } else {
        id := node.value;
      }
      handle := id;
      this.className := className;
      isDag := id in s.nodes && s.nodes[id].isDag;
    }

    /** `exists`: the handle is valid and alive. */
    predicate Exists(s: Scene)
      reads s
    {
      handle in s.nodes
    }

    /** `mobject`: the node, or `ValueError` once it is gone. */
    function Mobject(s: Scene): (r: Result<NodeId>)
      reads s
      ensures r.Ok? <==> Exists(s)
      ensures r.Ok? ==> r.value == handle
      ensures r.Err? ==> r.fault == ValueError
    {
      if handle in s.nodes then Ok(handle) else Err(ValueError)
    }

    /**
     * `__eq__`: `None` is never equal; otherwise both wrappers' nodes are
     * fetched, the other's first, and compared.
     */
    function Equals(s: Scene, other: Option<MetaBase>): Result<bool>
      reads s
    {
      if other.None? then Ok(false)
      else
        var theirs := other.value.Mobject(s);
        if theirs.Err? then Err(theirs.fault)
        else
          var mine := Mobject(s);
          if mine.Err? then Err(mine.fault)
          else Ok(theirs.value == mine.value)
    }

    /**
     * Equality compares the wrapped nodes: on live nodes it is true exactly
     * for the same node, either way round, and a wrapper whose node is gone
     * makes the comparison raise `ValueError` either way round.
     */
    lemma EqualsSpec(s: Scene, other: MetaBase)
      ensures Exists(s) && other.Exists(s) ==>
        Equals(s, Some(other)) == Ok(handle == other.handle) == other.Equals(s, Some(this))
      ensures !(Exists(s) && other.Exists(s)) ==>
        Equals(s, Some(other)) == Err(ValueError) == other.Equals(s, Some(this))
      ensures Equals(s, None) == Ok(false)
    {
    }

    /** A wrapper equals itself exactly while its node exists. */
    lemma EqualsReflexive(s: Scene)
      ensures Equals(s, Some(this)) == Ok(true) <==> Exists(s)
    {
    }

    /**
     * Entering `lockMetaManager`: a live locked node is unlocked, and the
     * guard remembers to lock it again.
     */
    method GuardEnter(s: Scene) returns (setLocked: bool)
      requires s.Valid()
      modifies s`nodes
      ensures s.Valid()
      ensures setLocked == (handle in old(s.nodes) && old(s.nodes)[handle].locked)
      ensures s.nodes == if setLocked then SetNodeLock(old(s.nodes), handle, false) else old(s.nodes)
      ensures handle in s.nodes ==> !s.nodes[handle].locked
    {
      setLocked := false;
      if handle in s.nodes && s.nodes[handle].locked {
        var changed := LockNode(s, handle, false);
        setLocked := true;
      }
    }

    /** Leaving `lockMetaManager` (its `finally`): the node is locked again if it was and still exists. */
    method GuardExit(s: Scene, setLocked: bool)
      requires s.Valid()
      modifies s`nodes
      ensures s.Valid()
      ensures s.nodes == if setLocked then SetNodeLock(old(s.nodes), handle, true) else old(s.nodes)
    {
      if handle in s.nodes && setLocked {
        var changed := LockNode(s, handle, true);
      }
    }

    /**
     * `removeAttribute` (under the lock guard): a missing attribute, or a node
     * that is gone, gives `False` and no change. Otherwise the plug is unlocked
     * and the attribute deleted, giving `True`; the host refuses to delete a
     * static attribute, which leaves the plug unlocked.
     */
    method RemoveAttribute(s: Scene, name: string) returns (res: Result<bool>)
      requires s.Valid()
      modifies s`nodes, s`edges, s`locks
      ensures s.Valid() && AttrsOnly(old(s.nodes), s.nodes)
      ensures var top := PlugRef(handle, name, []);
        if handle !in old(s.nodes) || !HasAttr(old(s.nodes)[handle], name) then
          res == Ok(false) && s.nodes == old(s.nodes) && s.edges == old(s.edges) && s.locks == old(s.locks)
        else if !AttrPlug(old(s.nodes)[handle], name).def.isDynamic then
          res == Err(RuntimeError) && s.nodes == old(s.nodes) && s.edges == old(s.edges) && s.locks == old(s.locks) - {top}
        else
          && res == Ok(true)
          && s.nodes[handle].attrs == WithoutAttr(old(s.nodes), handle, name)[handle].attrs
          && (forall j :: j in old(s.nodes) && j != handle ==> s.nodes[j] == old(s.nodes)[j])
          && s.edges == Drop(old(s.edges), Touching(top))
          && s.locks == UnlockUnder(old(s.locks), top)
    {
      ghost var n0 := s.nodes;
      var setLocked := GuardEnter(s);
      ghost var n1 := s.nodes;
      SameAttrs(n0, n1);
      res := RemoveAttributeUnguarded(s, name);
      ghost var n2 := s.nodes;
      GuardExit(s, setLocked);
      GuardNet(n0, n1, n2, s.nodes, handle, setLocked);
      if handle in n0 && HasAttr(n0[handle], name) && AttrPlug(n0[handle], name).def.isDynamic {
        assert AttrPlug(n1[handle], name) == AttrPlug(n0[handle], name);
        GuardRemoved(n0, n1, n2, s.nodes, handle, name, setLocked);
      }
    }

    /** The body of `removeAttribute`, inside the guard. */
    method RemoveAttributeUnguarded(s: Scene, name: string) returns (res: Result<bool>)
      requires s.Valid()
      modifies s`nodes, s`edges, s`locks
      ensures s.Valid() && AttrsOnly(old(s.nodes), s.nodes)
      ensures var top := PlugRef(handle, name, []);
        if handle !in old(s.nodes) || !HasAttr(old(s.nodes)[handle], name) then
          res == Ok(false) && s.nodes == old(s.nodes) && s.edges == old(s.edges) && s.locks == old(s.locks)
        else if !AttrPlug(old(s.nodes)[handle], name).def.isDynamic then
          res == Err(RuntimeError) && s.nodes == old(s.nodes) && s.edges == old(s.edges) && s.locks == old(s.locks) - {top}
        else
          && res == Ok(true)
          && s.nodes == WithoutAttr(old(s.nodes), handle, name)
          && s.edges == Drop(old(s.edges), Touching(top))
          && s.locks == UnlockUnder(old(s.locks), top)
    {
      var top := PlugRef(handle, name, []);
      if handle !in s.nodes || !HasAttr(s.nodes[handle], name) {
        return Ok(false);
      }
      if top in s.locks {
        s.SetLocked(top, false);
      }
      assert UnlockUnder(s.locks, top) == UnlockUnder(old(s.locks), top);
      var out := DeleteAttr(s, handle, name);
      res := if out.Fail? then Err(out.fault) else Ok(true);
    }

    /** `addAttribute`, under the lock guard. */
    method AddAttribute(s: Scene, name: string, value: Value, kind: int, isArray: bool, lock: bool)
      returns (res: Result<PlugRef>)
      requires s.Valid()
      modifies s`nodes, s`edges, s`locks
      ensures s.Valid()
      ensures Added(handle, name, value, kind, isArray, lock, res, old(s.nodes), old(s.edges), old(s.locks),
                    s.nodes, s.edges, s.locks)
      ensures value == Nil ==> forall j :: j in old(s.nodes) && j != handle ==> s.nodes[j] == old(s.nodes)[j]
      decreases if value.NodeValue? then 2 else 0, 2
    {
      ghost var n0 := s.nodes;
      var setLocked := GuardEnter(s);
      ghost var n1 := s.nodes;
      res := AddAttributeUnguarded(s, name, value, kind, isArray, lock);
      ghost var n2 := s.nodes;
      GuardExit(s, setLocked);
      GuardAdded(handle, name, value, kind, isArray, lock, res, n0, n1, n2, s.nodes,
                 old(s.edges), old(s.locks), s.edges, s.locks, setLocked);
    }

    /** The body of `addAttribute`, inside the guard. */
    method AddAttributeUnguarded(s: Scene, name: string, value: Value, kind: int, isArray: bool, lock: bool)
      returns (res: Result<PlugRef>)
      requires s.Valid()
      modifies s`nodes, s`edges, s`locks
      ensures s.Valid()
      ensures Added(handle, name, value, kind, isArray, lock, res, old(s.nodes), old(s.edges), old(s.locks),
                    s.nodes, s.edges, s.locks)
      ensures value == Nil ==> forall j :: j in old(s.nodes) && j != handle ==> s.nodes[j] == old(s.nodes)[j]
      decreases if value.NodeValue? then 2 else 0, 1
    {
      var top := PlugRef(handle, name, []);
      if handle !in s.nodes {
        return Err(RuntimeError);
      }
      if HasAttr(s.nodes[handle], name) {
        return Ok(top);
      }
      ghost var n0 := s.nodes;
      var made := NewAttribute(s, name, kind, isArray);
      if made.Fail? {
        return Err(made.fault);
      }
      ghost var n1 := s.nodes;
      ghost var e1 := s.edges;
      res := FillAttribute(s, name, value, lock);
      FilledAdded(handle, name, value, kind, isArray, lock, res, n0, old(s.edges), old(s.locks), n1, e1, s.nodes, s.edges, s.locks);
    }

    /** The rest of `addAttribute` once the plug exists: its value or its connection, then its lock. */
    method FillAttribute(s: Scene, name: string, value: Value, lock: bool) returns (res: Result<PlugRef>)
      requires s.Valid() && PlugAt(s.nodes, PlugRef(handle, name, [])).Some?
      modifies s`nodes, s`edges, s`locks
      ensures s.Valid() && AttrsOnly(old(s.nodes), s.nodes)
      ensures var top := PlugRef(handle, name, []);
        && (res.Ok? ==> res == Ok(top) && handle in s.nodes && HasAttr(s.nodes[handle], name) && (top in s.locks) == lock)
        && (!value.NodeValue? ==>
              && NamesGrow(old(s.nodes), s.nodes) && PlugAt(s.nodes, top).Some?
              && PlugAt(s.nodes, top).value.def == PlugAt(old(s.nodes), top).value.def)
        && (value == Nil ==> res.Ok? && s.edges == old(s.edges))
        && (res.Ok? && value.NodeValue? ==> SourceOf(s.edges, PlugRef(value.node, LinkAttr, [])) == Some(top))
        && (var p := PlugAt(old(s.nodes), top).value;
            !p.def.isArray && p.def.host == HostType(TypedAttr, StringData) && value.Text? ==>
              res.Ok? && PlugAt(s.nodes, top).value.value == value)
      ensures value == Nil ==> s.nodes == old(s.nodes)
      decreases if value.NodeValue? then 2 else 0, 0
    {
      var top := PlugRef(handle, name, []);
      ghost var n0 := s.nodes;
      res := Ok(top);
      if value.NodeValue? {
        var r := ConnectTo(s, name, value.node, None);
        if r.Err? {
          res := Err(r.fault);
        }
      } else if value != Nil {
        var o := WriteValue(s, top, value);
        if o.Fail? {
          res := Err(o.fault);
        }
      } else {
        SameNamesGrow(n0, n0);
      }
      if res.Ok? {
        s.SetLocked(top, lock);
      }
    }

    /**
     * The creation step of `addAttribute`: the host's `RuntimeError` is raised
     * again as `ValueError`, and a code that creates no plug makes the later
     * lock assignment on `None` raise `AttributeError`. Message and string
     * attributes are always created.
     */
    method NewAttribute(s: Scene, name: string, kind: int, isArray: bool) returns (res: Outcome)
      requires s.Valid() && handle in s.nodes && !HasAttr(s.nodes[handle], name)
      modifies s`nodes, s`locks
      ensures s.Valid() && AttrsOnly(old(s.nodes), s.nodes) && NamesGrow(old(s.nodes), s.nodes)
      ensures res.Pass? ==>
        var q := PlugAt(s.nodes, PlugRef(handle, name, []));
        q.Some? && CreatedType(kind) == Ok(Some(q.value.def.host)) && q.value.def.isArray == isArray
      ensures kind == MessageKind || kind == DataString ==> res.Pass?
      ensures forall j :: j in old(s.nodes) && j != handle ==> s.nodes[j] == old(s.nodes)[j]
    {
      ghost var n0 := s.nodes;
      ghost var l0 := s.locks;
      ghost var t := CreatedType(kind);
      var c := Nodes.AddAttribute(s, handle, name, kind, isArray, true, NoRecord);
      OnlyAttrsIsAttrsOnly(n0, s.nodes, handle);
      if kind == MessageKind || kind == DataString {
        assert t.Ok? && t.value.Some? && t.value.value.family != CompoundAttr;
        PlainApplies(name, t.value.value, isArray, PlugRef(handle, name, []), kind, l0);
        assert c == t;
      }
      if c.Err? {
        return Fail(if c.fault == RuntimeError then ValueError else c.fault);
      }
      if c.value.None? {
        return Fail(AttributeError);
      }
      res := Pass;
    }

    /** The value step of `addAttribute` for a value that is not a node: `setPlugValue` on the new plug. */
    method WriteValue(s: Scene, top: PlugRef, value: Value) returns (res: Outcome)
      requires s.Valid() && PlugAt(s.nodes, top).Some? && top.path == []
      modifies s`nodes, s`edges
      ensures s.Valid() && AttrsOnly(old(s.nodes), s.nodes) && NamesGrow(old(s.nodes), s.nodes)
      ensures PlugAt(s.nodes, top).Some? && PlugAt(s.nodes, top).value.def == PlugAt(old(s.nodes), top).value.def
      ensures var p := PlugAt(old(s.nodes), top).value;
        !p.def.isArray && p.def.host == HostType(TypedAttr, StringData) && value.Text? ==>
          res.Pass? && PlugAt(s.nodes, top).value.value == value
    {
      AssignedPlug(s.nodes, s.edges, top, value);
      ghost var n0 := s.nodes;
      res := SetPlugValue(s, top, value);
      SameNamesGrow(n0, s.nodes);
    }

    /**
     * `connectTo`: calls `disconnectFromNode(node)` as written, which changes
     * nothing unless `node` is this meta node; then links the attribute
     * `attributeName` of this meta node (a locked message attribute is created
     * if missing) to the attribute `LinkName(nodeAttributeName)` of `node`
     * (created if missing, otherwise cut from all its edges). The destination
     * plug is returned, unlocked for the connection and locked afterwards, and
     * its one source is the meta node's plug. For another live node nothing
     * raises, and the edges are the old ones without those at the destination
     * plug, plus the new link.
     */
    method ConnectTo(s: Scene, attributeName: string, node: NodeId, nodeAttributeName: Option<string>)
      returns (res: Result<PlugRef>)
      requires s.Valid()
      modifies s`nodes, s`edges, s`locks
      ensures s.Valid() && AttrsOnly(old(s.nodes), s.nodes)
      ensures node !in old(s.nodes) ==>
        res == Err(RuntimeError) && s.nodes == old(s.nodes) && s.edges == old(s.edges) && s.locks == old(s.locks)
      ensures node in old(s.nodes) && handle !in old(s.nodes) ==>
        res == Err(ValueError) && s.nodes == old(s.nodes) && s.edges == old(s.edges) && s.locks == old(s.locks)
      ensures node in old(s.nodes) && handle in old(s.nodes) && node != handle ==>
        var dst := PlugRef(node, LinkName(nodeAttributeName), []);
        var src := PlugRef(handle, attributeName, []);
        && res == Ok(dst)
        && forall e :: e in s.edges <==>
             e == Edge(src, dst) || (e in old(s.edges) && e.dst != dst && (HasAttr(old(s.nodes)[node], dst.attr) ==> e.src != dst))
      ensures node in old(s.nodes) && handle in old(s.nodes) && node != handle ==>
        var dst := PlugRef(node, LinkName(nodeAttributeName), []);
        var src := PlugRef(handle, attributeName, []);
        && (!HasAttr(old(s.nodes)[node], dst.attr) ==>
              PlugAt(s.nodes, dst).Some? && PlugAt(s.nodes, dst).value.def.host == HostType(MessageAttr, MessageSub))
        && (!HasAttr(old(s.nodes)[handle], attributeName) ==>
              && PlugAt(s.nodes, src).Some? && PlugAt(s.nodes, src).value.def.host == HostType(MessageAttr, MessageSub)
              && src in s.locks)
      ensures res.Ok? ==>
        var dst := PlugRef(node, LinkName(nodeAttributeName), []);
        var src := PlugRef(handle, attributeName, []);
        && res.value == dst
        && HasAttr(s.nodes[node], dst.attr) && HasAttr(s.nodes[handle], attributeName)
        && SourceOf(s.edges, dst) == Some(src)
        && (dst != src ==> dst in s.locks)
      decreases 1, 1
    {
      var nodeAttr := LinkName(nodeAttributeName);
      if node !in s.nodes {
        return Err(RuntimeError);
      }
      ghost var n0 := s.nodes;
      var d := DisconnectFromNodeAsWritten(s, node);
      if d.Err? {
        return Err(d.fault);
      }
      ghost var n1 := s.nodes;
      var dst := PlugRef(node, nodeAttr, []);
      PrepareTarget(s, dst);
      ghost var n2 := s.nodes;
      var src := PlugRef(handle, attributeName, []);
      PrepareSource(s, attributeName);
      ghost var n3 := s.nodes;
      KeepsName(n2, n3, node, nodeAttr);
      Link(s, src, dst);
      SameNamesHasAttr(n3, s.nodes, node, nodeAttr);
      SameNamesHasAttr(n3, s.nodes, handle, attributeName);
      AttrsOnlyTrans(n0, n1, n2);
      AttrsOnlyTrans(n0, n2, n3);
      AttrsOnlyTrans(n0, n3, s.nodes);
      res := Ok(dst);
    }

    /**
     * The target side of `connectTo`: a missing attribute is added as a message
     * attribute, which never raises; an existing one is cut from all its edges.
     */
    method PrepareTarget(s: Scene, dst: PlugRef)
      requires s.Valid() && dst.node in s.nodes && dst.path == []
      modifies s`nodes, s`edges, s`locks
      ensures s.Valid() && AttrsOnly(old(s.nodes), s.nodes) && NamesGrow(old(s.nodes), s.nodes)
      ensures HasAttr(s.nodes[dst.node], dst.attr)
      ensures forall j :: j in old(s.nodes) && j != dst.node ==> s.nodes[j] == old(s.nodes)[j]
      ensures !HasAttr(old(s.nodes)[dst.node], dst.attr) ==>
        && s.edges == old(s.edges)
        && PlugAt(s.nodes, dst).Some? && PlugAt(s.nodes, dst).value.def.host == HostType(MessageAttr, MessageSub)
      ensures HasAttr(old(s.nodes)[dst.node], dst.attr) ==>
        forall e :: e in s.edges <==> e in old(s.edges) && e.dst != dst && e.src != dst
    {
      if !HasAttr(s.nodes[dst.node], dst.attr) {
        // a message attribute is always created, so neither the call nor `.object()` raises
        PlainApplies(dst.attr, HostType(MessageAttr, MessageSub), false, dst, MessageKind, s.locks);
        ghost var n0 := s.nodes;
        var created := Nodes.AddAttribute(s, dst.node, dst.attr, MessageKind, false, true, NoRecord);
        OnlyAttrsIsAttrsOnly(n0, s.nodes, dst.node);
      } else {
        var ok := DisconnectPlug(s, dst, true, true);
      }
    }

    /**
     * The source side of `connectTo`: a missing attribute is added as a message
     * attribute, locked by `addAttribute`'s default, which never fails. Other
     * nodes are left alone.
     */
    method PrepareSource(s: Scene, attributeName: string)
      requires s.Valid() && handle in s.nodes
      modifies s`nodes, s`edges, s`locks
      ensures s.Valid() && AttrsOnly(old(s.nodes), s.nodes) && NamesGrow(old(s.nodes), s.nodes)
      ensures HasAttr(s.nodes[handle], attributeName)
      ensures s.edges == old(s.edges)
      ensures forall j :: j in old(s.nodes) && j != handle ==> s.nodes[j] == old(s.nodes)[j]
      ensures !HasAttr(old(s.nodes)[handle], attributeName) ==>
        var top := PlugRef(handle, attributeName, []);
        && PlugAt(s.nodes, top).Some? && PlugAt(s.nodes, top).value.def.host == HostType(MessageAttr, MessageSub)
        && top in s.locks
      decreases 1, 0
    {
      if !HasAttr(s.nodes[handle], attributeName) {
        var added := AddAttribute(s, attributeName, Nil, MessageKind, false, true);
      }
    }

    /**
     * The connection of `connectTo`: inside `setLockedContext(src)` the
     * destination is unlocked, force-connected from `src` and locked.
     */
    method Link(s: Scene, src: PlugRef, dst: PlugRef)
      requires s.Valid()
      modifies s`nodes, s`edges, s`locks
      ensures s.Valid() && AttrsOnly(old(s.nodes), s.nodes) && SameNames(old(s.nodes), s.nodes)
      ensures SourceOf(s.edges, dst) == Some(src)
      ensures dst != src ==> dst in s.locks
      ensures dst != src ==> (src in s.locks <==> src in old(s.locks))
      ensures src.path == [] && dst.path == [] ==> s.nodes == old(s.nodes)
      ensures forall e :: e in s.edges <==> e == Edge(src, dst) || (e in old(s.edges) && e.dst != dst)
    {
      ghost var n0 := s.nodes;
      var current := LockedContextEnter(s, src);
      if dst in s.locks {
        s.SetLocked(dst, false);
      }
      var connected := ConnectPlugs(s, src, dst, true);
      ConnectStepNodes(n0, old(s.edges), Edge(src, dst));
      ConnectStepSpec(n0, old(s.edges), Edge(src, dst));
      if src.path == [] && dst.path == [] {
        TouchTop(n0, src);
        TouchTop(Touch(n0, src), dst);
      }
      s.SetLocked(dst, true);
      LockedContextExit(s, src, current);
    }

    /**
     * `disconnectFromNode`, with the pairs of `iterConnections(node, False,
     * True)` read as (plug on the node, upstream plug): the first link from
     * this meta node into `node` is cut at the upstream plug, which loses all
     * its edges, and the attribute at the node's end is deleted. The call
     * `removeAttribute(source.name())` that follows is given a full plug name,
     * which names no attribute, so it changes nothing. A meta node that is gone
     * raises `ValueError`, a target node that is gone raises `RuntimeError` (the
     * host's `MFnDependencyNode` inside `iterConnections`); without a link the
     * result is `False`.
     */
    method DisconnectFromNode(s: Scene, node: NodeId) returns (res: Result<bool>)
      requires s.Valid()
      modifies s`nodes, s`edges, s`locks
      ensures s.Valid() && AttrsOnly(old(s.nodes), s.nodes)
      ensures handle !in old(s.nodes) ==>
        res == Err(ValueError) && s.nodes == old(s.nodes) && s.edges == old(s.edges) && s.locks == old(s.locks)
      ensures handle in old(s.nodes) && node !in old(s.nodes) ==>
        res == Err(RuntimeError) && s.nodes == old(s.nodes) && s.edges == old(s.edges) && s.locks == old(s.locks)
      ensures handle in old(s.nodes) && node in old(s.nodes) && !Linked(old(s.edges), handle, node) ==>
        res == Ok(false) && s.nodes == old(s.nodes) && s.edges == old(s.edges) && s.locks == old(s.locks)
      ensures handle in old(s.nodes) && node in old(s.nodes) && Linked(old(s.edges), handle, node) ==>
        var link := LinkFrom(old(s.edges), handle, node).value;
        && (forall e :: e in s.edges ==> e in old(s.edges) && e.src != link.1 && e.dst != link.1)
        && (res == Ok(true) || res == Err(RuntimeError))
        && (res.Ok? ==>
              && node in old(s.nodes) && HasAttr(old(s.nodes)[node], link.0.attr)
              && s.nodes == WithoutAttr(old(s.nodes), node, link.0.attr)
              && CutAt(old(s.edges), s.edges, link.1, PlugRef(node, link.0.attr, [])))
    {
      if handle !in s.nodes {
        return Err(ValueError);
      }
      if node !in s.nodes {
        return Err(RuntimeError);
      }
      var pairs := IterConnections(s.edges, node, false, true);
      var k := FindLink(pairs);
      LinkFromFirst(s.edges, handle, node);
      if k == |pairs| {
        return Ok(false);
      }
      ghost var link := LinkFrom(s.edges, handle, node).value;
      assert link == pairs[k];
      var out := CutLink(s, pairs[k].0, pairs[k].1);
      res := if out.Fail? then Err(out.fault) else Ok(true);
    }

    /** The loop of `disconnectFromNode` over the node's incoming pairs, stopping at the first from this meta node. */
    method FindLink(pairs: seq<(PlugRef, PlugRef)>) returns (k: nat)
      ensures k == FirstFrom(pairs, handle)
    {
      k := 0;
      while k < |pairs|
        invariant 0 <= k <= |pairs|
        invariant forall j :: 0 <= j < k ==> pairs[j].1.node != handle
      {
        if pairs[k].1.node == handle {
          return;
        }
        k := k + 1;
      }
    }

    /** The found link of `disconnectFromNode`: `disconnectPlug` on the upstream plug, then `deleteAttr` at the node's end. */
    method CutLink(s: Scene, onNode: PlugRef, upstream: PlugRef) returns (res: Outcome)
      requires s.Valid()
      modifies s`nodes, s`edges, s`locks
      ensures s.Valid() && AttrsOnly(old(s.nodes), s.nodes)
      ensures forall e :: e in s.edges ==> e in old(s.edges) && e.src != upstream && e.dst != upstream
      ensures res == Pass || res == Fail(RuntimeError)
      ensures res.Fail? ==> s.nodes == old(s.nodes)
      ensures res.Pass? ==>
        && onNode.node in old(s.nodes) && HasAttr(old(s.nodes)[onNode.node], onNode.attr)
        && s.nodes == WithoutAttr(old(s.nodes), onNode.node, onNode.attr)
        && CutAt(old(s.edges), s.edges, upstream, PlugRef(onNode.node, onNode.attr, []))
    {
      var ok := DisconnectPlug(s, upstream, true, true);
      res := DeleteAttr(s, onNode.node, onNode.attr);
    }

    /**
     * `addParent`: with this node's `mMetaParent` array unlocked meanwhile,
     * force-connects the parent's `mMetaChildren` plug into the free slot of the
     * array. A missing plug on either side raises `RuntimeError`; when it is
     * the parent's, the array stays unlocked, as `setLockedContext` has no
     * `finally`.
     */
    method AddParent(s: Scene, parent: MetaBase) returns (res: Outcome)
      requires s.Valid()
      modifies s`nodes, s`edges, s`locks
      ensures s.Valid()
      ensures res.Pass? <==> HasParentPlug(old(s.nodes), handle) && HasChildrenPlug(old(s.nodes), parent.handle)
      ensures res.Fail? ==> res.fault == RuntimeError && s.nodes == old(s.nodes) && s.edges == old(s.edges)
      ensures !HasParentPlug(old(s.nodes), handle) ==> s.locks == old(s.locks)
      ensures HasParentPlug(old(s.nodes), handle) && !HasChildrenPlug(old(s.nodes), parent.handle) ==>
        s.locks == old(s.locks) - {ParentPlug(handle)}
      ensures res.Pass? ==>
        && (s.nodes, s.edges) == ConnectStep(old(s.nodes), old(s.edges),
                                             Edge(ChildrenPlug(parent.handle), ParentSlot(old(s.nodes), old(s.edges), handle)))
        && s.locks == old(s.locks)
    {
      if !HasParentPlug(s.nodes, handle) {
        return Fail(RuntimeError);
      }
      var top := ParentPlug(handle);
      var slot := FreeDestSlot(s.edges, top, PlugAt(s.nodes, top).value);
      ghost var l0 := s.locks;
      var current := LockedContextEnter(s, top);
      if !HasChildrenPlug(s.nodes, parent.handle) {
        return Fail(RuntimeError);
      }
      var connected := ConnectPlugs(s, ChildrenPlug(parent.handle), slot, true);
      LockedContextExit(s, top, current);
      LockedContextRestores(l0, top);
      res := Pass;
    }

    /**
     * `removeParent`: with the parent array unlocked, scans its elements and
     * queues the disconnection and removal of those whose source is on
     * `parent` (every connected one when `parent` is `None`); the array's lock
     * flag is put back and the queue is then applied. An exception during the
     * scan leaves the array unlocked and nothing removed.
     */
    method RemoveParent(s: Scene, parent: Option<MetaBase>) returns (res: Result<bool>)
      requires s.Valid()
      modifies s`nodes, s`edges, s`locks
      ensures s.Valid()
      ensures !HasParentPlug(old(s.nodes), handle) ==>
        res == Err(RuntimeError) && s.nodes == old(s.nodes) && s.edges == old(s.edges) && s.locks == old(s.locks)
      ensures HasParentPlug(old(s.nodes), handle) ==>
        var sc := ScanParents(old(s.nodes), old(s.edges), handle, ParentElems(old(s.nodes), handle), ParentId(parent));
        if sc.fault.Some? then
          res == Err(sc.fault.value) && s.nodes == old(s.nodes) && s.edges == old(s.edges)
          && s.locks == old(s.locks) - {ParentPlug(handle)}
        else
          && res == Ok(true)
          && s.nodes == DropElems(old(s.nodes), handle, sc.doomed)
          && s.edges == DropAll(old(s.edges), handle, sc.doomed)
          && s.locks == UnlockAll(old(s.locks), handle, sc.doomed)
    {
      if !HasParentPlug(s.nodes, handle) {
        return Err(RuntimeError);
      }
      var top := ParentPlug(handle);
      ghost var l0 := s.locks;
      var els := PlugAt(s.nodes, top).value.elements;
      var pid := ParentId(parent);
      var current := LockedContextEnter(s, top);
      var sc := ScanLoop(s.nodes, s.edges, els, pid);
      if sc.fault.Some? {
        return Err(sc.fault.value);
      }
      LockedContextExit(s, top, current);
      LockedContextRestores(l0, top);
      DropParentElems(s, sc.doomed);
      res := Ok(true);
    }

    /** The loop of `removeParent` over the parent array's elements, in physical order. */
    method ScanLoop(nodes: map<NodeId, NodeRec>, edges: seq<Edge>, els: seq<Element>, pid: Option<NodeId>) returns (sc: Scan)
      ensures sc == ScanParents(nodes, edges, handle, els, pid)
    {
      var queue: seq<nat> := [];
      var i := 0;
      assert els[0..] == els;
      while i < |els|
        invariant 0 <= i <= |els|
        invariant ScanParents(nodes, edges, handle, els, pid) == Join(queue, ScanParents(nodes, edges, handle, els[i..], pid))
      {
        var el := ParentElem(handle, els[i].index);
        assert els[i..][1..] == els[i + 1..];
        if IsConnected(edges, el) {
          var src := SourceOf(edges, el);
          if src.None? || src.value.node !in nodes {
            return Scan(queue, Some(RuntimeError));
          }
          if pid.Some? && pid.value !in nodes {
            return Scan(queue, Some(ValueError));
          }
          if pid.None? || src.value.node == pid.value {
            queue := queue + [els[i].index];
          }
        }
        i := i + 1;
      }
      sc := Scan(queue, None);
    }

    /** `MDGModifier.doIt` on the queued removals of `removeParent`. */
    method DropParentElems(s: Scene, queue: seq<nat>)
      requires s.Valid() && HasParentPlug(s.nodes, handle)
      modifies s`nodes, s`edges, s`locks
      ensures s.Valid()
      ensures s.nodes == DropElems(old(s.nodes), handle, queue)
      ensures s.edges == DropAll(old(s.edges), handle, queue)
      ensures s.locks == UnlockAll(old(s.locks), handle, queue)
    {
      var top := ParentPlug(handle);
      var j := 0;
      while j < |queue|
        invariant 0 <= j <= |queue|
        invariant s.Valid() && HasParentPlug(s.nodes, handle)
        invariant DropElems(s.nodes, handle, queue[j..]) == DropElems(old(s.nodes), handle, queue)
        invariant DropAll(s.edges, handle, queue[j..]) == DropAll(old(s.edges), handle, queue)
        invariant UnlockAll(s.locks, handle, queue[j..]) == UnlockAll(old(s.locks), handle, queue)
      {
        DropFirst(s.nodes, s.edges, s.locks, handle, queue[j..]);
        assert queue[j..][1..] == queue[j + 1..];
        s.RemoveElement(top, queue[j]);
        j := j + 1;
      }
    }

    /**
     * `addChild`: the child loses all its parents, then gets this node as its
     * parent. Afterwards the slot the child's array was given has this node's
     * `mMetaChildren` plug as its source, and no other element the array had
     * keeps a source.
     */
    method AddChild(s: Scene, child: MetaBase) returns (res: Outcome, ghost slot: PlugRef)
      requires s.Valid()
      modifies s`nodes, s`edges, s`locks
      ensures s.Valid()
      ensures !HasParentPlug(old(s.nodes), child.handle) ==> res == Fail(RuntimeError)
      ensures res.Pass? ==>
        && HasParentPlug(old(s.nodes), child.handle)
        && SourceOf(s.edges, slot) == Some(ChildrenPlug(handle))
        && var els := ParentElems(old(s.nodes), child.handle);
           forall k :: 0 <= k < |els| && ParentElem(child.handle, els[k].index) != slot ==>
             SourceOf(s.edges, ParentElem(child.handle, els[k].index)).None?
    {
      ghost var n0 := s.nodes;
      ghost var e0 := s.edges;
      slot := ChildrenPlug(handle);
      var removed := child.RemoveParent(s, None);
      if removed.Err? {
        return Fail(removed.fault), slot;
      }
      ghost var n1 := s.nodes;
      ghost var e1 := s.edges;
      RemoveAllParentsClears(n0, e0, child.handle);
      res := child.AddParent(s, this);
      if res.Pass? {
        slot := ParentSlot(n1, e1, child.handle);
        ConnectStepSpec(n1, e1, Edge(ChildrenPlug(handle), slot));
        var els := ParentElems(n0, child.handle);
        forall k | 0 <= k < |els| && ParentElem(child.handle, els[k].index) != slot
          ensures SourceOf(s.edges, ParentElem(child.handle, els[k].index)).None?
        {
          var d := ParentElem(child.handle, els[k].index);
          assert SourceOf(e1, d).None?;
          forall e | e in s.edges
            ensures e.dst != d
          {
            if e != Edge(ChildrenPlug(handle), slot) {
              assert e in e1;
            }
          }
        }
      }
    }

    /**
     * `metaParents`: the nodes feeding the elements of the parent array, in
     * physical order. A missing array, or a connected element whose source is
     * not a live node, raises `RuntimeError`.
     */
    method MetaParents(s: Scene) returns (res: Result<seq<NodeId>>)
      ensures res == if HasParentPlug(s.nodes, handle) then ParentsOf(s.nodes, s.edges, handle, ParentElems(s.nodes, handle))
                     else Err(RuntimeError)
    {
      if !HasParentPlug(s.nodes, handle) {
        return Err(RuntimeError);
      }
      res := CollectParents(s.nodes, s.edges, handle, ParentElems(s.nodes, handle));
    }

    /**
     * `iterMetaChildren`: the nodes `iterDependencyGraph` reaches going down
     * from this node's `mMetaChildren` plug, each carrying that attribute. A
     * missing plug raises `RuntimeError`.
     */
    function IterMetaChildren(nodes: map<NodeId, NodeRec>, edges: seq<Edge>, depthLimit: int): (r: Result<seq<NodeId>>)
      ensures r.Err? <==> !HasChildrenPlug(nodes, handle)
      ensures r.Err? ==> r.fault == RuntimeError
      ensures r.Ok? ==> forall x :: x in r.value ==> FindPlug(nodes, x, ChildrenAttr).Some?
      ensures r.Ok? && depthLimit < 1 ==> r.value == []
    {
      if !HasChildrenPlug(nodes, handle) then Err(RuntimeError)
      else
        var ps := IterDependencyGraph(nodes, edges, ChildrenPlug(handle), "", depthLimit, true);
        WalkYieldsNamed(nodes, edges, ChildrenPlug(handle), ChildrenAttr, depthLimit, true);
        Ok(Owners(ps.plugs))
    }

    /**
     * Down a chain of meta nodes linked parent to child through
     * `mMetaChildren`, starting at this node, `iterMetaChildren` yields the
     * next `min(depthLimit, n)` nodes of the chain, in order.
     */
    lemma IterMetaChildrenChain(nodes: map<NodeId, NodeRec>, edges: seq<Edge>, ns: seq<NodeId>, depthLimit: int)
      requires Chain(nodes, edges, ns, ChildrenAttr) && ns[0] == handle
      ensures var k := if depthLimit < 1 then 0 else if depthLimit < |ns| - 1 then depthLimit else |ns| - 1;
        IterMetaChildren(nodes, edges, depthLimit) == Ok(ns[1..k + 1])
    {
      var k := if depthLimit < 1 then 0 else if depthLimit < |ns| - 1 then depthLimit else |ns| - 1;
      WalkChain(nodes, edges, ns, ChildrenAttr, depthLimit);
      assert Owners(ChainPlugs(ns, ChildrenAttr, k)) == ns[1..k + 1];
    }

    /**
     * `iterMetaTree`: nothing below depth 1; a meta node that is gone raises
     * `ValueError`; otherwise the meta nodes found upstream, each followed by
     * its own tree one level shallower.
     */
    function IterMetaTree(nodes: map<NodeId, NodeRec>, edges: seq<Edge>, types: map<string, MetaClass>, depthLimit: int)
      : (r: Result<seq<NodeId>>)
      ensures depthLimit < 1 ==> r == Ok([])
      ensures depthLimit >= 1 && handle !in nodes ==> r == Err(ValueError)
      ensures r.Ok? ==> forall x :: x in r.value ==> IsMetaNode(nodes, types, x)
    {
      if depthLimit < 1 then Ok([])
      else if handle !in nodes then Err(ValueError)
      else
        TreeYieldsMeta(nodes, edges, types, handle, depthLimit);
        Ok(Tree(nodes, edges, types, handle, depthLimit))
    }

    /** At depth 1 the tree is exactly the meta nodes linked into this one. */
    lemma IterMetaTreeOneLevel(nodes: map<NodeId, NodeRec>, edges: seq<Edge>, types: map<string, MetaClass>)
      requires DestUnique(edges) && handle in nodes
      ensures IterMetaTree(nodes, edges, types, 1).Ok?
      ensures forall x :: x in IterMetaTree(nodes, edges, types, 1).value <==> IsMetaNode(nodes, types, x) && Linked(edges, x, handle)
    {
      TreeOneLevel(nodes, edges, types, handle);
    }

    /**
     * `disconnectFromNode` as written: the pairs of `iterConnections(node,
     * False, True)` start with the plug on `node`, which the loop calls
     * `source`, so the test `source.node() != metaObj` skips every pair unless
     * `node` is the meta node itself. For any other live node nothing is cut
     * and the result is `False`, linked or not; a target node that is gone
     * raises `RuntimeError` from `iterConnections`, after the meta node's own
     * `ValueError` check. On the meta node itself the first
     * incoming pair is taken: its plug on the meta node loses all its edges,
     * and the upstream attribute is deleted, or raises as `deleteAttr` does.
     */
    method DisconnectFromNodeAsWritten(s: Scene, node: NodeId) returns (res: Result<bool>)
      requires s.Valid()
      modifies s`nodes, s`edges, s`locks
      ensures s.Valid()
      ensures handle !in old(s.nodes) ==>
        res == Err(ValueError) && s.nodes == old(s.nodes) && s.edges == old(s.edges) && s.locks == old(s.locks)
      ensures handle in old(s.nodes) && node !in old(s.nodes) ==>
        res == Err(RuntimeError) && s.nodes == old(s.nodes) && s.edges == old(s.edges) && s.locks == old(s.locks)
      ensures handle in old(s.nodes) && node in old(s.nodes) && (node != handle || IterConnections(old(s.edges), node, false, true) == []) ==>
        res == Ok(false) && s.nodes == old(s.nodes) && s.edges == old(s.edges) && s.locks == old(s.locks)
      ensures handle in old(s.nodes) && node == handle && IterConnections(old(s.edges), node, false, true) != [] ==>
        var c := IterConnections(old(s.edges), node, false, true)[0];
        && (res == Ok(true) || res == Err(RuntimeError))
        && (forall e :: e in s.edges ==> e in old(s.edges) && e.src != c.0 && e.dst != c.0)
        && (res.Ok? ==>
              c.1.node in old(s.nodes) && HasAttr(old(s.nodes)[c.1.node], c.1.attr)
              && s.nodes == WithoutAttr(old(s.nodes), c.1.node, c.1.attr))
        && (res.Err? ==> s.nodes == old(s.nodes))
    {
      if handle !in s.nodes {
        return Err(ValueError);
      }
      if node !in s.nodes {
        return Err(RuntimeError);
      }
      var pairs := IterConnections(s.edges, node, false, true);
      var i := 0;
      while i < |pairs|
        invariant 0 <= i <= |pairs|
        invariant node == handle ==> i == 0
        invariant s.nodes == old(s.nodes) && s.edges == old(s.edges) && s.locks == old(s.locks)
      {
        assert pairs[i] in pairs;
        var source := pairs[i].0;
        var destination := pairs[i].1;
        if source.node == handle {
          var ok := DisconnectPlug(s, source, true, true);
          ghost var e1 := s.edges;
          var out := DeleteAttr(s, destination.node, destination.attr);
          assert forall e :: e in s.edges ==> e in e1;
          return if out.Fail? then Err(out.fault) else Ok(true);
        }
        i := i + 1;
      }
      res := Ok(false);
    }

    /** `addAttribute` on an attribute it always creates: it is there afterwards, unless the node is gone. */
    method AddPlainAttribute(s: Scene, a: MetaAttr) returns (res: Result<PlugRef>)
      requires s.Valid() && PlainAttr(a)
      modifies s`nodes, s`edges, s`locks
      ensures s.Valid() && AttrsOnly(old(s.nodes), s.nodes) && NamesGrow(old(s.nodes), s.nodes)
      ensures handle !in old(s.nodes) ==>
        res == Err(RuntimeError) && s.nodes == old(s.nodes) && s.edges == old(s.edges) && s.locks == old(s.locks)
      ensures handle in old(s.nodes) ==>
        res == Ok(PlugRef(handle, a.name, [])) && handle in s.nodes && HasAttr(s.nodes[handle], a.name)
    {
      res := AddAttribute(s, a.name, a.value, a.kind, a.isArray, a.lock);
    }

    /**
     * `_initMeta`: `addAttribute` for each of the standard attributes in turn,
     * stopping at the first exception. On a live node every one of them is
     * added (or already there) without error, and the four top-level plugs are
     * returned in order; a node that is gone raises `RuntimeError` at once.
     */
    method InitMeta(s: Scene) returns (res: Result<seq<PlugRef>>)
      requires s.Valid()
      modifies s`nodes, s`edges, s`locks
      ensures s.Valid() && AttrsOnly(old(s.nodes), s.nodes) && NamesGrow(old(s.nodes), s.nodes)
      ensures handle !in old(s.nodes) ==>
        res == Err(RuntimeError) && s.nodes == old(s.nodes) && s.edges == old(s.edges) && s.locks == old(s.locks)
      ensures handle in old(s.nodes) ==>
        var wanted := MetaAttributes(className);
        && res.Ok? && |res.value| == |wanted|
        && forall i :: 0 <= i < |wanted| ==>
             res.value[i] == PlugRef(handle, wanted[i].name, []) && HasAttr(s.nodes[handle], wanted[i].name)
      ensures handle in old(s.nodes) ==> forall a :: a in MetaAttributes(className) ==> HasAttr(s.nodes[handle], a.name)
    {
      if handle !in s.nodes {
        // the first `addAttribute` raises, before anything changes
        return Err(RuntimeError);
      }
      var made := AddPlainAttributes(s, MetaAttributes(className));
      res := Ok(made);
    }

    /** The loop of `_initMeta` on a live node: each attribute in turn, each there afterwards. */
    method AddPlainAttributes(s: Scene, wanted: seq<MetaAttr>) returns (made: seq<PlugRef>)
      requires s.Valid() && handle in s.nodes && forall i :: 0 <= i < |wanted| ==> PlainAttr(wanted[i])
      modifies s`nodes, s`edges, s`locks
      ensures s.Valid() && AttrsOnly(old(s.nodes), s.nodes) && NamesGrow(old(s.nodes), s.nodes)
      ensures |made| == |wanted|
      ensures forall i :: 0 <= i < |wanted| ==>
        made[i] == PlugRef(handle, wanted[i].name, []) && HasAttr(s.nodes[handle], wanted[i].name)
    {
      made := [];
      var i := 0;
      while i < |wanted|
        invariant 0 <= i <= |wanted| && |made| == i
        invariant s.Valid() && AttrsOnly(old(s.nodes), s.nodes) && NamesGrow(old(s.nodes), s.nodes)
        invariant forall j :: 0 <= j < i ==>
          made[j] == PlugRef(handle, wanted[j].name, []) && HasAttr(s.nodes[handle], wanted[j].name)
      {
        var a := wanted[i];
        ghost var n0 := s.nodes;
        var r := AddPlainAttribute(s, a);
        forall j | 0 <= j < i
          ensures HasAttr(s.nodes[handle], wanted[j].name)
        {
          KeepsName(n0, s.nodes, handle, wanted[j].name);
        }
        NamesGrowTrans(old(s.nodes), n0, s.nodes);
        AttrsOnlyTrans(old(s.nodes), n0, s.nodes);
        made := made + [r.value];
        i := i + 1;
      }
    }

    /** Deleting a dynamic attribute from a node whose names are unique removes that name and keeps the others. */
    lemma RemoveAttributeRemoves(nodes: map<NodeId, NodeRec>, name: string)
      requires handle in nodes && HasAttr(nodes[handle], name) && UniqueNames(nodes[handle])
      ensures !HasAttr(WithoutAttr(nodes, handle, name)[handle], name)
      ensures forall other :: other != name && HasAttr(nodes[handle], other) ==> HasAttr(WithoutAttr(nodes, handle, name)[handle], other)
    {
      WithoutAttrNames(nodes, handle, name);
    }
  }

  /**
   * `MetaBase.__init__`: the node is created or wrapped, the standard
   * attributes are added unless `initDefaults` is off, and the node is locked
   * when `lock` asks for it and it is not locked yet. An exception from the
   * attributes ends construction there.
   */
  method NewMetaBase(s: Scene, node: Option<NodeId>, name: Option<string>, className: string, initDefaults: bool, lock: bool)
    returns (m: MetaBase, res: Outcome)
    requires s.Valid() && "network" in s.types
    modifies s`nodes, s`edges, s`locks, s`nextId
    ensures s.Valid() && m.className == className
    ensures node.Some? ==> m.handle == node.value
    ensures node.None? ==> m.handle !in old(s.nodes) && m.handle in s.nodes && s.nodes[m.handle].name == MetaName(name, className)
    ensures res.Pass? <==> m.handle in s.nodes || (!initDefaults && !lock)
    ensures res.Fail? ==> res.fault == RuntimeError
    ensures res.Pass? && m.handle in s.nodes ==>
      && (initDefaults ==> forall a :: a in MetaAttributes(className) ==> HasAttr(s.nodes[m.handle], a.name))
      && s.nodes[m.handle].locked == (lock || (m.handle in old(s.nodes) && old(s.nodes)[m.handle].locked))
    ensures !initDefaults && !lock ==> s.edges == old(s.edges) && s.locks == old(s.locks)
  {
    m := new MetaBase.CreateInScene(s, node, name, className);
    ghost var n0 := s.nodes;
    ghost var wanted := MetaAttributes(className);
    if initDefaults {
      var r := m.InitMeta(s);
      if r.Err? {
        return m, Fail(r.fault);
      }
    }
    ghost var n1 := s.nodes;
    if lock {
      if m.handle !in s.nodes {
        return m, Fail(RuntimeError);
      }
      if !s.nodes[m.handle].locked {
        var changed := LockNode(s, m.handle, true);
      }
    }
    if m.handle in s.nodes {
      assert s.nodes[m.handle].attrs == n1[m.handle].attrs;
    }
    res := Pass;
  }
}
