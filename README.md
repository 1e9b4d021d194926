# zoocore_maya attribute-graph layer in Dafny

This project models the typed attribute-graph layer of zoocore_maya, the Maya
tool kit, and proves properties of the model. The layer has three parts:

- **The attribute kind catalog** (`attrtypes.py`). These are the integer kind codes and
  the host attribute family and sub-type each code stands for.
- **The plug and node primitives** (`plugs.py`, `nodes.py`). They cover:
  - reading and writing plug values by kind;
  - defaults, bounds and enum fields;
  - the dict record of a plug and of a node, and rebuilding from it;
  - connecting and disconnecting with a force policy;
  - plug lock flags and the scoped unlock helper;
  - choosing a free array element;
  - creating attributes from kind codes;
  - locking, parenting, renaming and deleting nodes;
  - the depth-bounded walk along same-named plugs.
- **The persistent metadata graph** (`meta/base.py`). It covers:
  - the class registry and the factory that rebuilds a wrapper's class from the node's `mClass` tag;
  - `MetaBase` and its standard attributes;
  - the lock guard decorator;
  - `connectTo` and `disconnectFromNode`;
  - parent/child links through message attributes;
  - the depth-limited child and tree traversals.

The host scene (Maya's `om2` and `cmds`) is foreign code. It is modelled as one
mutable store, `Store.Scene`, with these fields:
- `nodes` maps node ids to records. A record has a name, a type, parenting, a plug-in,
  a lock flag and a sequence of top-level plugs. Each plug is a tree of sparse array
  elements and compound children.
- `edges` is a sequence of directed edges between plug references. The invariant
  `Valid` says each destination has at most one incoming edge.
- `locks` is the set of locked plugs.
- `loaded` holds the loaded plug-ins.

Operations that change the scene are methods on that store. Each one states
its whole new state, in terms of functions the lemmas reason about. Pure
queries are functions.

Files and modules:
- `wrappers.dfy`: `Option`, `Result`, `Outcome` and the exception kinds.
- `kinds.dfy` (`Kinds`): the kind codes and `mayaTypeFromType`.
- `store.dfy` (`Store`): the scene store and the host edits it allows.
- `plugs.dfy` (`Plugs`): the plug primitives.
- `nodes.dfy` (`Nodes`): the node primitives.
- `meta.dfy` (`Meta`): the registry, the factory, `MetaBase` and the meta graph.

Where the code does something other than what its docstrings or its tests
suggest, the model follows the code. Each such case is listed below, or under
"Findings" when it is evidently a bug:
- `MetaBase.__init__` defaults to `lock=False`, although the meta tests expect a locked node.
- `disconnectFromNode` compares the wrong plug with the meta node, and
  `connectTo` calls it as written (`Meta.MetaBase.DisconnectFromNodeAsWritten`).
- `nextAvailableElementPlug` starts its scan at physical index 1.

The exceptions are the three bugs under "Findings" whose corrected form the
rest of the model uses (`delete`, `addAttributesFromList`, and the free slot
`addParent` connects into). The correction of `addAttributesFromList` also
covers nodes.py:860, which sets `isChannelBox` from the record's `"value"`;
the model takes the channel-box flag from the record's `"channelBox"` key.
It also builds the plug from the created attribute's object, as every other
caller of `addAttribute` does, where nodes.py:857 passes the returned function
set to `om2.MPlug` directly.

## Model

| member | source | states |
|---|---|---|
| Kinds.MayaTypeFromType | zoo/libs/maya/api/attrtypes.py:41-113 | A code gives a host type exactly when it is numeric (0-8 except 7, and 25-35), a unit code (9-11), enum (12), typed data (13-21) or message (36). Each kind of code gets its own family and sub-type. Code 3 gives the byte sub-type, and no code gives long. |
| Kinds.CatalogCodes | zoo/libs/maya/api/attrtypes.py:2-38 | The 37 constants take exactly the codes 0..36 except 7, and long and byte share code 3. |
| Plugs.PlugTypeInvertsMayaType | zoo/libs/maya/api/plugs.py:1031-1115 | `plugType` of the host type a catalog code stands for gives that code back. |
| Plugs.MayaTypeInvertsPlugType | zoo/libs/maya/api/plugs.py:1031-1115 | For a numeric, typed, compound or matrix host type with a code, the code leads back to the same host type exactly when the type is not long, compound or a matrix attribute. |
| Plugs.ReadLeafKind | zoo/libs/maya/api/plugs.py:660-709 | A leaf plug reads as its own `plugType` code; a leaf with no code reads as None. |
| Plugs.GetPlugAndType | zoo/libs/maya/api/plugs.py:660-709 | The loop that fills the kind and value lists of arrays and compounds computes the recursive reading `Read`. |
| Plugs.PythonValue | zoo/libs/maya/api/plugs.py:1118-1147 | For a leaf plug, the record value is the plug's own reading. For an array or compound, it is the list of the readings of the parts whose kind is a matrix or a unit quantity, in order; every other part is dropped. |
| Plugs.KeepMatrixAndUnit | zoo/libs/maya/api/plugs.py:1128-1136 | The kept values are exactly the values whose kind is a matrix or a unit quantity, in their original order. |
| Plugs.SetBound | zoo/libs/maya/api/plugs.py:592-653 | `setMin`/`setMax`/`setSoftMin`/`setSoftMax` return True exactly for numeric and unit attributes. Then that bound alone is set. Otherwise the plug is unchanged and the result is False. |
| Plugs.EnumNames | zoo/libs/maya/api/plugs.py:391-411 | A non-enum plug has no names. An enum's names are the fields from its lowest to its highest value, skipping values without a field. |
| Plugs.SetThenRead | zoo/libs/maya/api/plugs.py:911-987 | Writing a storable value to a scalar plug raises nothing and connects nothing. Reading it back gives the value and the plug's code. |
| Plugs.AssignCountMismatch | zoo/libs/maya/api/plugs.py:919-932 | An array or compound whose element or child count differs from the value's length is left alone. |
| Plugs.SerializePlug | zoo/libs/maya/api/plugs.py:314-360 | The record is `{}` exactly for a static plug that is at its default or is an array. Children appear exactly for compounds, bounds exactly for dynamic non-compounds and enum names exactly for enums. Name, flags, lock state, Type, default and value are the plug's own. |
| Plugs.SetPlugDefault | zoo/libs/maya/api/plugs.py:453-491 | The default is taken exactly by numeric and matrix attributes, typed attributes when the kind is a string, unit attributes with a distance, angle or time kind, and enums given an int or a string. Then only the default changes; any other plug is left unchanged. |
| Plugs.SerializeApplyRoundTrip | zoo/libs/maya/api/plugs.py:798-908 | Take a dynamic scalar plug that stores a value and has a value. Apply its record to a plug with the same name, host type and array flag: nothing raises, and the value, the keyable and channel-box flags and the lock come back. The default comes back when it was set and is accepted (always for numeric, unit and matrix attributes), else the target keeps its own. Each bound that was set comes back, and the others stay the target's. |
| Plugs.ApplyPlugInfo | zoo/libs/maya/api/plugs.py:798-908 | Applying a record keeps the attribute name, host type and array flag. An empty record clears both flags and unlocks the plug. A scalar fails exactly as its own steps say. Without a fault, the flags and lock are the record's, the default is the record's when accepted, each bound the record sets is the record's, and a stored single value is the record's. |
| Plugs.ChildrenReceive | zoo/libs/maya/api/plugs.py:830-863 | On a compound without a fault, every child gets its own record when the record lists children (a child whose record is empty or missing is left alone). Otherwise every child gets a copy of the record, cut to that child's entry of a list value and default, and each copy succeeds. |
| Plugs.IterDependencyGraph | zoo/libs/maya/api/plugs.py:278-311 | Going down, a depth limit below 1 yields nothing and nothing raises. Going up from a plug with no source raises RuntimeError, since the host cannot read the node of a null plug; with a source and a depth limit below 1, it yields nothing. |
| Plugs.WalkYieldsNamed | zoo/libs/maya/api/plugs.py:294-311 | Every yielded plug is the plug that `findPlug` resolves the carried name to on its node. |
| Plugs.WalkDepthBound | zoo/libs/maya/api/plugs.py:294-311 | Going down a graph where each named plug has at most one outgoing edge yields at most `depthLimit` plugs. |
| Plugs.WalkUnconnected | zoo/libs/maya/api/plugs.py:294-311 | An unconnected plug yields nothing going down, and raises RuntimeError going up. |
| Plugs.WalkUpHead | zoo/libs/maya/api/plugs.py:294-311 | Going up, reaching a connected plug that has no source yields that plug and then raises RuntimeError. |
| Store.FindPlug | zoo/libs/maya/api/nodes.py:1198-1199 | A resolved name gives a plug on that node carrying that name. A top-level attribute of that name is found before any child attribute, and a dead node gives nothing. |
| Plugs.WalkChain | zoo/libs/maya/api/plugs.py:278-311 | On a chain of n+1 nodes linked by the named plug, the walk from the head yields the next min(depthLimit, n) nodes' plugs, in order. |
| Plugs.ConnectPlugs | zoo/libs/maya/api/plugs.py:32-52 | It fails exactly when `force` is off and the destination has a source. Then it raises ValueError and changes nothing. Otherwise the destination's only source is the new one. |
| Plugs.ConnectStepSpec | zoo/libs/maya/api/plugs.py:32-52 | After a forced connection, the edges are the new edge plus the old edges into other destinations, and destinations stay unique. |
| Plugs.DisconnectPlug | zoo/libs/maya/api/plugs.py:91-121 | It returns the pair `(True, modifier)` in every case; the modifier is applied at once. The incoming edge is gone when `source`, every outgoing edge is gone when `destination`, and no other edge changes. The plug and the neighbours it was cut from are unlocked; no other lock changes. |
| Plugs.LockStep | zoo/libs/maya/api/plugs.py:218-231 | Afterwards the flag equals the requested state. The result is True exactly when the flag changed. No other plug's flag moves. |
| Plugs.LockStepIdempotent | zoo/libs/maya/api/plugs.py:218-231 | Setting the same lock state again reports no change. |
| Plugs.SetLockState | zoo/libs/maya/api/plugs.py:218-231 | The new lock set and result are `LockStep` of the old ones. |
| Plugs.LockedContextEnter | zoo/libs/maya/api/plugs.py:205-215 | Entering records the flag and clears it. |
| Plugs.LockedContextExit | zoo/libs/maya/api/plugs.py:205-215 | Leaving restores the recorded flag. |
| Plugs.RemoveElementPlug | zoo/libs/maya/api/plugs.py:124-154 | An existing element is queued. When `apply` is set, that element is removed with its edges and locks. Otherwise nothing changes. |
| Plugs.SetPlugValue | zoo/libs/maya/api/plugs.py:911-987 | A missing plug raises RuntimeError with no change. Otherwise the plug tree is written, the requested connections are made in order, and a fault is reported. Attribute names never change. |
| Plugs.ConnectEach | zoo/libs/maya/api/plugs.py:981-983 | The scene ends as the requested connections make it, forced in order, each one replacing the destination's old source. |
| Plugs.SetPlugInfoFromDict | zoo/libs/maya/api/plugs.py:798-908 | A missing plug raises RuntimeError with no change. Otherwise the record is applied as `ApplyPlugInfo` says. Only that node's attributes change. |
| Plugs.FirstFree | zoo/libs/maya/api/plugs.py:1172-1211 | Gives the first free element at or after the start, or the element count when there is none. |
| Plugs.NextAvailableElementPlug | zoo/libs/maya/api/plugs.py:1172-1190 | An empty array gives logical element 0. Otherwise the scan starts at physical index 1 for an element that is not a source. |
| Plugs.NextAvailableDestElementPlug | zoo/libs/maya/api/plugs.py:1193-1211 | An empty array gives logical element 0. Otherwise it gives the first element with no incoming edge (on itself or on a compound child), or the element at logical index = element count. |
| Plugs.NextFreeDestination | zoo/libs/maya/api/plugs.py:1193-1211 | When a free element exists, the chosen element has no incoming edge. |
| Plugs.NextDestElementTaken | zoo/libs/maya/api/plugs.py:1208-1211 | As written, a sparse array whose one connected element has logical index 1 gets that occupied element back. |
| Plugs.FreeDestSlotAvoidsTaken | zoo/libs/maya/api/plugs.py:1193-1211 | The corrected slot is never an existing element that has an incoming edge. |
| Plugs.FreeDestSlotAgrees | zoo/libs/maya/api/plugs.py:1193-1211 | Where the array is empty or has a free element, the corrected slot is the element the code returns. |
| Nodes.CreatedType | zoo/libs/maya/api/nodes.py:873-1025 | Code 15 raises AttributeError; it names a function set the host lacks. A code creates nothing exactly when it is neither a code `mayaTypeFromType` knows nor one of 22-24. Code 3 creates a long and no code creates a byte. Code 22, and only 22, creates a compound; 14, and only 14, creates a matrix attribute. |
| Nodes.CreatedTypeAgainstCatalog | zoo/libs/maya/api/nodes.py:873-1025 | The creation chain and `mayaTypeFromType` disagree only on codes 3, 14, 15, 22, 23 and 24. |
| Nodes.CreatedTypeReadsBack | zoo/libs/maya/api/nodes.py:873-1025 | A created attribute reads back under its code, except the int64 and "last" types. |
| Nodes.AddAttribute | zoo/libs/maya/api/nodes.py:873-1025 | A duplicate long name raises ValueError with no change. An unhandled code creates nothing. Otherwise the attribute is appended to the node and the record is applied to it. Only that node changes, and names only grow. |
| Nodes.AddedAttributeExists | zoo/libs/maya/api/nodes.py:873-1025 | After adding, the new name is found, and every earlier one is still found. |
| Nodes.LockNode | zoo/libs/maya/api/nodes.py:191-204 | A dead node raises RuntimeError. Otherwise the result is True exactly when the lock state changed. Afterwards the state is the requested one. With no change, nothing moved. |
| Nodes.SetParent | zoo/libs/maya/api/nodes.py:326-353 | A node given as its own parent gives False with no change. Otherwise it succeeds exactly when the child is a DAG node and the new parent is none, or a live DAG node that is not the child or one of its descendants; then it gives True and changes only the parent. Any other request raises RuntimeError with no change. |
| Nodes.ParentBelowRefused | zoo/libs/maya/api/nodes.py:349-350 | A child of the node is never an acceptable new parent for it, so reparenting cannot close a cycle through parent and child. |
| Nodes.Rename | zoo/libs/maya/api/nodes.py:380-400 | It fails exactly for a dead node. Otherwise only the name changes. |
| Nodes.ValidityInverted | zoo/libs/maya/api/nodes.py:603-605 | The as-written validity test is the negation of the intended one for every handle. |
| Nodes.DeleteAsWritten | zoo/libs/maya/api/nodes.py:608-620 | As written, no node is ever deleted. A live node returns early, and a dead one raises from `lockNode`. |
| Nodes.Delete | zoo/libs/maya/api/nodes.py:608-620 | With the intended test, a live node is unlocked, disconnected and removed with its edges and locks. A dead one is left alone. |
| Nodes.IterConnections | zoo/libs/maya/api/nodes.py:524-543 | The first plug of every pair is on the node. |
| Nodes.IterConnectionsEdges | zoo/libs/maya/api/nodes.py:524-543 | The pairs are exactly the node's outgoing edges when `source` is set, and its incoming edges when `destination` is set. |
| Nodes.SetLockStateOnAttributes | zoo/libs/maya/api/nodes.py:1186-1203 | A dead node raises RuntimeError. Otherwise the plugs that `findPlug` resolves the names to (top-level or child attributes) are locked or unlocked in order, up to the first name it cannot resolve, which raises RuntimeError. No other flag moves. |
| Nodes.ChildPathAtIndex | zoo/libs/maya/api/nodes.py:249-264 | No children gives None. An out-of-range index raises. Otherwise the path is extended by the child at that index, counted from the end when negative. |
| Nodes.SetDefaultRaw | zoo/libs/maya/api/nodes.py:818-870 | Says exactly which default and family combinations raise and with what error. Otherwise only the default changes. |
| Nodes.SetBounds | zoo/libs/maya/api/nodes.py:818-870 | A numeric or unit attribute takes all four bounds. Any other plug is unchanged. |
| Nodes.AddListedAttribute | zoo/libs/maya/api/nodes.py:818-870 | A record that `ListedCheck` rejects raises with no change. Otherwise the attribute is created and then configured from the record. |
| Nodes.CreateListed | zoo/libs/maya/api/nodes.py:843-857 | A record that `ListedCheck` rejects raises with no change. Otherwise the attribute exists afterwards and no other plug or lock moves; on success it is the top-level plug with the created host type and the record's array flag. |
| Nodes.ConfigureListed | zoo/libs/maya/api/nodes.py:858-868 | Without a fault, the plug keeps its host type and array flag and takes the record's channel-box, keyable and lock flags, its default (except for message, compound and generic attributes), its four bounds where the type has bounds, and a single stored value. No other plug or lock moves. |
| Nodes.ListedKept | zoo/libs/maya/api/nodes.py:818-870 | What one record left on its attribute survives adding a later attribute elsewhere. |
| Nodes.ListedAllKept | zoo/libs/maya/api/nodes.py:818-870 | Adding the next record's attribute keeps what every earlier record left on its own attribute. |
| Nodes.AsWrittenCreatesNothing | zoo/libs/maya/api/nodes.py:818-870 | As written, no list but the empty one succeeds. A first record missing a key raises KeyError; one whose keys are there and convert raises AttributeError, because `data.get` is called on the list. Nothing is created either way. |
| Nodes.AddAttributesFromList | zoo/libs/maya/api/nodes.py:818-870 | A first record that `ListedCheck` rejects raises that error with no change. On success every record has added its own attribute, which was absent before and is present after; the names are distinct and the plugs are returned in order. Each of them ends as its record says: the created host type and array flag, the channel-box, keyable and lock flags, the default, the four bounds where the type has bounds, and a single stored value. |
| Nodes.ChildAttrs | zoo/libs/maya/api/nodes.py:775-815 | The children are built exactly when no child record is faulty. Each child is named by its record and is never an array. |
| Nodes.AddCompoundAttribute | zoo/libs/maya/api/nodes.py:775-815 | A faulty child record or a taken name raises with no change. Otherwise the node gains exactly the compound, with the array flag as asked. The new scene and outcome are `CompoundAdded`: the compound gets its keyword record, then each child its own record, and no other plug or lock moves. |
| Nodes.AddConfiguredAttr | zoo/libs/maya/api/nodes.py:808-811 | The node gains exactly the new attribute, as its last name. The stored plug and the locks are what applying its own record gives (`ApplyPlugInfo`), as is the fault. Only that plug and its lock change. |
| Nodes.ApplyChildInfos | zoo/libs/maya/api/nodes.py:812-813 | The scene and outcome are `ChildInfosFrom`: each child record in turn goes to the child plug it names, stopping at the first fault. Attribute names and the compound's own definition and flags are kept. |
| Nodes.ChildInfosStayBelow | zoo/libs/maya/api/nodes.py:812-813 | Applying the child records changes nothing outside the compound and leaves the compound's own definition and flags as they were. |
| Nodes.DeserializeAttribute | zoo/libs/maya/api/nodes.py:1144-1182 | A missing name raises KeyError. Otherwise the result is `RecordApplied`: a record whose name resolves to a plug updates that plug in place, and any other creates a new attribute, which is then reported. |
| Nodes.ApplyToExisting | zoo/libs/maya/api/nodes.py:1171-1175 | The plug the name resolves to becomes what applying the record to it gives (`ApplyPlugInfo`), and so do the locks. A RuntimeError is only logged. Nothing is added to the created list, and only that node's attributes change. |
| Nodes.CreateFromRecord | zoo/libs/maya/api/nodes.py:1176-1182 | The scene is `RecordAttrAdded`: the attribute is created from the record and configured by it. On success the new top-level plug is appended to the created list, which stays distinct, present on the node, and outside the type's static attributes. |
| Nodes.NewRecordAttr | zoo/libs/maya/api/nodes.py:1177-1181 | A record without children and without a "Type" raises KeyError. The scene and outcome are `RecordAttrAdded`; on success the node has the attribute. Names only grow, and only that node's attributes change. |
| Nodes.DeserializeNode | zoo/libs/maya/api/nodes.py:1109-1183 | No type, or a required plug-in that fails to load, gives no node and no change. An unknown type raises TypeError and a bad parent RuntimeError, both with no change. Otherwise the scene is `Deserialized`: exactly one fresh, unlocked node is created with the recorded name, type and plug-in, a DAG node exactly when the record has a parent key, under the given parent, and its records are applied in order as `RecordsApplied` says. The attributes it reports are distinct, present, and not static. No existing node changes. |
| Nodes.BuildNode | zoo/libs/maya/api/nodes.py:1156-1183 | Exactly one fresh node is created, with the recorded name, type and plug-in, unlocked, and a DAG node exactly when the record has a parent key, under the given parent. The scene is `Deserialized`: the node's attribute records are applied to it in order. The attributes it reports are distinct, present, and not static. No existing node changes. |
| Nodes.DeserializeAttributes | zoo/libs/maya/api/nodes.py:1163-1182 | The scene and outcome are `RecordsApplied`: each record in order updates or creates its attribute as `RecordApplied` says, stopping at the first that raises. Only the new node's attributes change, and the reported attributes stay distinct, present, and outside the type's static attributes. |
| Nodes.Leaves | zoo/libs/maya/api/plugs.py:1017-1028 | The list of a plug's leaves is never empty and ends with the plug itself. |
| Nodes.AttrLeavesFrom | zoo/libs/maya/api/nodes.py:491-502 | The plugs visited belong to the node and to one of its attributes, and to none that is skipped. |
| Nodes.CollectSpec | zoo/libs/maya/api/nodes.py:1082-1104 | The records are the non-empty records of the kept plugs; every kept plug is visited once, and no other plug is. |
| Nodes.SerializedNode | zoo/libs/maya/api/nodes.py:1028-1106 | The node record has the type, and its leaf name is the node's name with every `<namespace>:` of its path removed. `requirements` appears exactly with a plug-in and `parent` exactly for DAG nodes. `attributes` appears only when non-empty, and `connections` exactly when asked for and non-empty. |
| Nodes.StripNoNamespace | zoo/libs/maya/api/nodes.py:1076-1078 | A path without a `:` is kept as it is. |
| Nodes.StripOneNamespace | zoo/libs/maya/api/nodes.py:1076-1078 | A leaf `ns:leaf` with a single namespace loses its namespace. |
| Nodes.SerializedNamePlain | zoo/libs/maya/api/nodes.py:1076-1081 | A node whose path has no namespace is recorded under its full path. |
| Nodes.SerializedNameLeaf | zoo/libs/maya/api/nodes.py:1076-1081 | A node named `ns:leaf` is recorded with the leaf name `leaf`. |
| Nodes.SerializedAttributes | zoo/libs/maya/api/nodes.py:1082-1104 | Every attribute record belongs to a node attribute that no skip string matches, and is not a child plug. |
| Nodes.SerializeNode | zoo/libs/maya/api/nodes.py:1028-1106 | A dead node raises RuntimeError. Otherwise the two loops compute `SerializedNode`. |
| Meta.Register | zoo/libs/maya/meta/base.py:258-266 | Only `MetaBase` classes are added, never over an existing name, and nothing else changes. |
| Meta.RegisterAllFirstWins | zoo/libs/maya/meta/base.py:198-212 | Registering a list keeps every existing entry. Each new name gets the first `MetaBase` class of that name, and no other name is added. |
| Meta.Registry.GetType | zoo/libs/maya/meta/base.py:187-195 | An unknown name gives None. A known name gives a `MetaBase` class of that name. |
| Meta.Registry.RegisterMetaClass | zoo/libs/maya/meta/base.py:258-266 | The table becomes `Register` of the old one. |
| Meta.Registry.RegisterMetaClasses | zoo/libs/maya/meta/base.py:198-212 | The loop registers the classes in order. |
| Meta.Registry.RegistryByEnv | zoo/libs/maya/meta/base.py:245-255 | A missing variable raises ValueError with no change. Otherwise its classes are registered. |
| Meta.ClassTag | zoo/libs/maya/meta/base.py:302-317 | A tag is found exactly when the node has an `mClass` attribute. |
| Meta.ChosenSpec | zoo/libs/maya/meta/base.py:273-293 | A tag names the built class exactly when it is the called class's name or a registered one. Otherwise the called class is built. |
| Meta.FactoryRoundTrip | zoo/libs/maya/meta/base.py:273-293 | A node tagged with a registered class is rebuilt as that class, or as the called class when their names match. Whatever class is called, the built class has the tag's name. |
| Meta.Construct | zoo/libs/maya/meta/base.py:273-293 | The called class is registered first. With no node, the called class is built. A dead node raises RuntimeError. A live node builds the class its tag chooses. |
| Meta.MetaAttributes | zoo/libs/maya/meta/base.py:351-356 | There are four distinctly named attributes, and `mClass` comes first, holding the class name as a string. Exactly the string attributes are locked and only `mMetaParent` is an array. No attribute takes a node value: each is a message attribute without a value or a single string attribute holding a string. |
| Meta.MetaName | zoo/libs/maya/meta/base.py:326-334 | A created node's name ends in `_meta`. |
| Meta.GuardNet | zoo/libs/maya/meta/base.py:34-46 | The guard puts the node's lock flag back, and a body that changes nothing leaves the scene as it was. |
| Meta.MetaBase.GuardEnter | zoo/libs/maya/meta/base.py:34-39 | A live locked node is unlocked and remembered. |
| Meta.MetaBase.GuardExit | zoo/libs/maya/meta/base.py:42-44 | The node is locked again if it was locked and still exists. |
| Meta.GuardAdded | zoo/libs/maya/meta/base.py:34-46 | What `addAttribute` promises holds through the guard. |
| Meta.MetaBase.CreateInScene | zoo/libs/maya/meta/base.py:326-334 | With no node given, a fresh DG `network` node named `<name or class>_meta` is created. A given node is wrapped unchanged. |
| Meta.MetaBase.InitMeta | zoo/libs/maya/meta/base.py:336-342 | A dead node raises RuntimeError with no change. On a live node all four standard attributes end up present, the four plugs are returned in order, and names only grow. |
| Meta.MetaBase.AddPlainAttributes | zoo/libs/maya/meta/base.py:339-342 | On a live node every attribute of the list (each a message attribute without a value or a single string attribute with a string) is added and its plug returned, in order. Names only grow and only attributes change. |
| Meta.NewMetaBase | zoo/libs/maya/meta/base.py:319-324 | Construction succeeds exactly when the node is alive or nothing is asked of it. The standard attributes exist when `initDefaults` is set. The node is locked exactly when `lock` is set or it was already locked. |
| Meta.MetaBase.Mobject | zoo/libs/maya/meta/base.py:412-420 | It returns the node exactly while it exists, and ValueError afterwards. |
| Meta.MetaBase.EqualsSpec | zoo/libs/maya/meta/base.py:391-399 | On two live wrappers, equality is symmetric and true exactly for the same node. A dead side raises ValueError either way round. None is never equal. |
| Meta.MetaBase.EqualsReflexive | zoo/libs/maya/meta/base.py:391-399 | A wrapper equals itself exactly while its node exists. |
| Meta.MetaBase.RemoveAttribute | zoo/libs/maya/meta/base.py:550-559 | A missing attribute or a dead node gives False with no change. A static attribute is unlocked and then refused with RuntimeError. Otherwise the attribute and its edges and locks are removed, True is returned, and no other node changes. |
| Meta.MetaBase.RemoveAttributeRemoves | zoo/libs/maya/meta/base.py:550-559 | On a node with unique names, removal takes that name away and keeps every other name. |
| Meta.MetaBase.AddAttribute | zoo/libs/maya/meta/base.py:517-537 | A dead node raises and an existing name is returned unchanged. Otherwise the attribute is created with the requested type and array flag, and locked as asked. A node value is linked by `connectTo`; a string value is stored. Message and string attributes never fail. |
| Meta.MetaBase.NewAttribute | zoo/libs/maya/meta/base.py:522-531 | If it succeeds, the new plug exists with the host type its code creates and the requested array flag. Message and string attributes are always created. Only attributes change and names only grow. |
| Meta.MetaBase.FillAttribute | zoo/libs/maya/meta/base.py:530-537 | Without a value the plug is only locked as asked. A node value is linked by `connectTo`, so the value node's `metaNode` plug has the new plug as its source. A string is stored in a single string plug. On success the lock flag is as asked. For a value that is not a node, the plug keeps its definition and names only grow. |
| Meta.MetaBase.WriteValue | zoo/libs/maya/meta/base.py:533-535 | The plug keeps its definition, and a string written to a string plug is stored. |
| Meta.MetaBase.ConnectTo | zoo/libs/maya/meta/base.py:653-689 | A dead target raises RuntimeError and a dead meta node raises ValueError, both with no change. It calls `disconnectFromNode` as written. On two distinct live nodes it succeeds and returns the destination, the named (default `metaNode`) attribute. The edges are then the new edge from the meta node's plug plus every old edge that neither enters the destination nor, when the destination already existed, leaves it. A target attribute it creates is a message attribute. A source attribute it creates is a message attribute left locked, as `addAttribute`'s default `lock=True` leaves it. The destination is left locked, and only attributes change. |
| Meta.MetaBase.PrepareTarget | zoo/libs/maya/meta/base.py:668-673 | Afterwards the target attribute exists, and no other node changes. A new one is a message attribute and leaves the edges alone; an existing one loses every edge into it and out of it, and no other edge changes. |
| Meta.MetaBase.PrepareSource | zoo/libs/maya/meta/base.py:675-683 | Afterwards the meta node has the source attribute, and no edge and no other node changes. A new one is a message attribute and is locked. |
| Meta.MetaBase.Link | zoo/libs/maya/meta/base.py:684-688 | The destination's only source is the given plug, and it is locked. The source plug's lock flag is restored, and top-level plugs leave the nodes unchanged. The edges are the new edge plus the old edges into other destinations. |
| Meta.LinkName | zoo/libs/maya/meta/base.py:665 | The target attribute name is never empty. A given non-empty name is used as is; otherwise the default `metaNode` is used. |
| Meta.LinkFrom | zoo/libs/maya/meta/base.py:717-735 | A link from the meta node into the target is found exactly when one exists. |
| Meta.MetaBase.DisconnectFromNode | zoo/libs/maya/meta/base.py:717-735 | A dead meta node raises ValueError, and then a dead target raises RuntimeError; no link gives False; all three with no change. Otherwise the first link is cut: no edge at its upstream plug remains and none is added. The result is True or the host's RuntimeError; on True the target's attribute is deleted. |
| Meta.MetaBase.DisconnectFromNodeAsWritten | zoo/libs/maya/meta/base.py:717-735 | A dead meta node raises ValueError, and then a dead target raises RuntimeError, both with no change. As written, every other live node, and a meta node with no incoming link, gives False with no change. On the meta node with an incoming link, the first such link is cut at the meta node's own plug. The result is True, with the upstream node's attribute deleted, or the host's RuntimeError with the nodes unchanged; no edge is added. |
| Meta.DisconnectMissesLink | zoo/libs/maya/meta/base.py:726-735 | A concrete link from meta node 0 into node 1 exists and is found by `LinkFrom`, but no pair the as-written loop scans on node 1 starts on node 0, so the loop never matches it. |
| Meta.MetaBase.AddParent | zoo/libs/maya/meta/base.py:813-822 | It succeeds exactly when this node has `mMetaParent` and the parent has `mMetaChildren`. Then the parent's children plug is connected into the corrected free slot, and the parent array's lock flag is restored. |
| Meta.AddParentKeepsParents | zoo/libs/maya/meta/base.py:813-822 | The slot gets the new parent, and every element that had a parent keeps it. |
| Meta.ScanParents | zoo/libs/maya/meta/base.py:862-870 | Only elements connected to the given parent (or any element, with no parent) are queued. With no error, every such element is queued. Errors are RuntimeError, or ValueError for a dead parent. |
| Meta.DropElems | zoo/libs/maya/meta/base.py:871 | The parent array keeps exactly the elements not queued. |
| Meta.DropAll | zoo/libs/maya/meta/base.py:871 | Every edge at or below a removed element is gone, no other edge is, and destinations stay unique. |
| Meta.MetaBase.RemoveParent | zoo/libs/maya/meta/base.py:855-872 | A missing parent array raises. A failing scan leaves nodes and edges unchanged. Otherwise exactly the queued elements are removed with their edges and locks, and True is returned. |
| Meta.RemoveAllParentsClears | zoo/libs/maya/meta/base.py:855-872 | After `removeParent(None)`, no element of the array has a source. |
| Meta.RemoveParentEffect | zoo/libs/maya/meta/base.py:855-872 | After `removeParent(p)`, the elements fed by p have no source and the others keep theirs. |
| Meta.MetaBase.AddChild | zoo/libs/maya/meta/base.py:809-811 | On success the child's new slot is fed by this node's children plug and no other old element of the child has a source, so the child has exactly this parent. |
| Meta.ParentsOf | zoo/libs/maya/meta/base.py:759-768 | Every listed parent is a live node, and the only error is RuntimeError. |
| Meta.CollectParents | zoo/libs/maya/meta/base.py:761-767 | The loop computes `ParentsOf`. |
| Meta.MetaBase.MetaParents | zoo/libs/maya/meta/base.py:759-768 | A missing parent array raises RuntimeError. Otherwise the result is `ParentsOf` over the parent elements: the source nodes of the connected elements, in physical order. |
| Meta.ParentsMatchScan | zoo/libs/maya/meta/base.py:759-768 | `metaParents` and `removeParent(None)` agree: one fails exactly when the other does, and the parents listed are the sources of exactly the elements removed. |
| Meta.MetaBase.IterMetaChildren | zoo/libs/maya/meta/base.py:779-789 | It raises exactly without `mMetaChildren`. Every yielded node has that attribute, and a depth below 1 yields nothing. |
| Meta.MetaBase.IterMetaChildrenChain | zoo/libs/maya/meta/base.py:779-789 | Over a parent-to-child chain of n nodes, depth d yields the next min(d, n) nodes in order. |
| Meta.TreeYieldsMeta | zoo/libs/maya/meta/base.py:791-807 | Every node the tree yields is a meta node. |
| Meta.TreeOneLevel | zoo/libs/maya/meta/base.py:791-807 | At depth 1, the tree is exactly the meta nodes linked into the node. |
| Meta.MetaBase.IterMetaTree | zoo/libs/maya/meta/base.py:791-807 | A depth below 1 yields nothing and a dead node raises ValueError. Every yielded node is a meta node. |
| Meta.MetaBase.IterMetaTreeOneLevel | zoo/libs/maya/meta/base.py:791-807 | At depth 1, a live node yields exactly the meta nodes linked into it. |

## Left out

- The host's real implementation (`om2`, `cmds`) is not modelled; the scene is the abstract store `Store.Scene`. Modifiers (`MDGModifier`, `MDagModifier`) are applied at once, so a caller-supplied modifier whose `doIt` is deferred is not modelled.
- Attribute values are opaque tokens: unit conversions (degrees and radians, `MAngle`, `MDistance`, `MTime`), matrices and `mayaTypeToPythonType` involve floating point and host types.
- Numeric vector plugs: attributes of codes 25-35 (the 2-, 3- and 4-component numeric types) are modelled as leaf plugs holding one opaque value, with no child plugs (`Store.IsCompound` is true only for the compound family). On the host they are compounds with one numeric child per component. Every path below that tests `isCompound` before the numeric type therefore treats them differently; reading the vector whole (`getPlugAndType`, plugs.py:678) is the one path that tests the numeric type first, and is modelled faithfully. The members affected have their own lines.
- Plugs.SetPlugValue: a numeric vector plug is written whole, where plugs.py:926-932 splits the value over the plug's children, returns without a change when the lengths differ, and raises TypeError at `len(value)` for a value without a length; the vector branch at plugs.py:946-951 is never reached on the host.
- Plugs.SetThenRead: its "raises nothing and reads back the value" covers numeric vector plugs as leaves; on the host a scalar value written to such a plug raises TypeError, and a sequence is split over the children.
- Plugs.SerializePlug: a dynamic numeric vector plug is recorded with `min`/`max`/`softMin`/`softMax` and without `"children"`, where plugs.py:334-338 records the children's records and no bounds; a static one is recorded without `"children"` as well. `Plugs.SerializeApplyRoundTrip` counts such a plug among the scalar plugs it covers.
- Plugs.ApplyPlugInfo: the per-child records of a numeric vector plug are not applied, where plugs.py:832-863 sends each to the vector's children; `Plugs.SetPlugInfoFromDict` inherits this.
- Nodes.Leaves: a numeric vector plug yields only itself, where `iterChildren` (plugs.py:1023-1026) yields its children first; `Nodes.CollectSpec`, `Nodes.SerializedNode` and `Nodes.SerializeNode` therefore visit no child of a vector plug.
- `getNumericValue` and `getTypedValue` are folded into the single reading `Plugs.Read`; their per-type Python conversions are host conversions.
- `hasPlugSoftMax` as written queries the soft-minimum flag; the model treats a bound as present when it is set and does not model the `has*` queries separately.
- Generators (`iterDependencyGraph`, `iterConnections`, `metaParents`, `iterMetaChildren`, `iterMetaTree`) are computed eagerly as sequences; laziness and early abandonment by the caller are not modelled.
- Traversals return node ids instead of constructing `MetaBase` wrappers. Constructing a wrapper (with `initDefaults`) on a visited node that lacks the standard attributes would add them; that side effect of `metaParents`, `removeParent`, `iterMetaChildren` and `iterMetaTree` is not modelled.
- `metaParents(recursive=True)` is not modelled; only the non-recursive listing is.
- Meta.MetaBase.RemoveParent: iterates the parent elements in physical order, where the code iterates `getExistingArrayAttributeIndices` (logical order); the queued removals are the same set.
- `isMetaNode` creating a `MetaRegistry()` when the table is empty (which scans the environment) is not modelled; `Meta.IsMetaNode` reads the given table.
- `MetaRegistry` file, module, package and environment scanning (`registerByModule`, `registerByPackage`, path imports) is Python module import; the classes a path defines are given as a list.
- The `__getattr__`/`__setattr__` proxy of `MetaBase` is replaced by explicit members.
- Meta.MetaBase.GuardEnter: `isLocked` on a node that is gone is treated as unlocked rather than raising.
- `disconnectFromNode` calls `removeAttribute(source.name())` with a full `node.attr` name; `hasAttribute` finds no such attribute, so the call changes nothing and is not modelled.
- `setLockedContext` has no `try/finally`: a body that raises leaves the plug unlocked. The model exposes entry and exit separately (`Plugs.LockedContextEnter`, `Plugs.LockedContextExit`) and callers skip the exit on a fault.
- Meta.DeleteAttr: `cmds.deleteAttr` is modelled as refusing a static or locked attribute; other host refusals are not modelled.
- Meta.MetaBase.AddParent: connects into the corrected slot `Plugs.FreeDestSlot` (see Findings) rather than the occupied element the code can pick.
- Meta.NewMetaBase: follows the code's default `lock=False`; a locked wrapper needs `lock=True`.
- Meta.MetaBase.InitMeta: states that the four standard attributes are present and returned, but not that `mClass` still holds the class name after the later attributes are added.
- Compound child names: `Store.HasAttr`, the existence test behind every duplicate and found check below, sees only top-level attribute names. The host's `hasAttribute` and `MSelectionList.add` also resolve the long name of a compound child; only `Store.FindPlug` (used by `setLockStateOnAttributes` and `iterDependencyGraph`) does so in the model. The members whose contracts differ because of this have their own lines.
- Nodes.AddAttribute: the duplicate test sees only top-level names, so a long name already held by a compound child is added again at top level where nodes.py:894 raises ValueError. Short names are not modelled either.
- Nodes.CreateListed: its `ListedCheck` accepts a record whose name a compound child holds, where nodes.py:894 raises ValueError.
- Nodes.AddAttributesFromList: through `Nodes.CreateListed`, a record whose name a compound child holds is created, not refused with ValueError.
- Nodes.ChildAttrs: a child record whose name is held by another compound's child is not faulty, where `addAttribute`'s `hasAttribute` test (nodes.py:894) raises ValueError.
- Nodes.AddCompoundAttribute: "a taken name" means a top-level name; a name held by a compound child is accepted, where nodes.py:894 refuses it.
- Nodes.DeserializeAttribute: the found test resolves top-level names and array elements only, so a record naming a compound child (which `plugList.add` at nodes.py:1167 finds) creates a new attribute instead of updating the child; `Nodes.DeserializeAttributes`, `Nodes.BuildNode` and `Nodes.DeserializeNode` inherit this through `RecordApplied`.
- Meta.MetaBase.AddAttribute: a name held by a compound child counts as absent, so a new attribute is created where base.py:520 returns the existing child plug.
- Meta.MetaBase.RemoveAttribute: a name held by a compound child gives False, where `hasAttribute` at base.py:553 finds it and the removal goes ahead.
- Meta.MetaBase.PrepareTarget: a target name held by a compound child is created as a new message attribute, where base.py:668 finds it and cuts its edges.
- Meta.MetaBase.PrepareSource: a source name held by a compound child is created anew, where base.py:675 finds the existing plug.
- Meta.MetaBase.ConnectTo: inherits the top-level-only tests of `PrepareTarget` and `PrepareSource`, so a name held by a compound child on either side is created anew instead of reused.
- Nodes.SetParent: `maintainOffset` (a matrix computation) is not modelled.
- Nodes.PathName: the hierarchy walk is bounded by the number of nodes; `Nodes.SetParent` refuses a descendant as the new parent (`Nodes.ParentBelowRefused`), so the bound is not reached from the model's own edits, but a cycle in a given scene would be cut off at that bound.
- Store lock refusal: the host store's primitives `Store.Scene.DeleteNode`, `SetNodeName`, `AddAttr`, `RemoveAttr`, `WritePlug`, `Connect` and `Disconnect` never refuse an edit because a node or plug is locked; only `Meta.DeleteAttr` models the host refusing a locked attribute. The unlock steps of `disconnectPlug`, `connectTo`, `delete` and the lock guard are modelled, but no outcome depends on them. These contracts hold only because the host never refuses on a lock: `Plugs.ConnectPlugs` (fails only for a taken destination without `force`), `Plugs.SetThenRead` (raises nothing), `Nodes.AddAttribute` and `Nodes.Rename` (succeed on a locked node), `Meta.GuardAdded` (which holds with or without the guard), `Meta.MetaBase.ConnectTo` (succeeds on two live nodes even when the target node is locked and must gain an attribute), `Nodes.ConfigureListed` and `Nodes.AddAttributesFromList` (the stored value is written after the record's lock is applied, nodes.py:862-868), `Plugs.SerializeApplyRoundTrip` (applied to a locked target plug), and `Meta.MetaBase.RemoveParent` (the queued removals run at base.py:871, after `setLockedContext` has restored the array's lock).
- Sparse array order: a new array element is appended at the end of the physical order, where the host keeps sparse arrays in logical order. Physical scans (`nextAvailableElementPlug`, `metaParents`, `removeParent`) therefore see elements created out of logical order in creation order.
- Store.FindPlug: resolves a top-level name, then a compound child's own name; it does not search children below array elements, which the host's `findPlug` also resolves.
- SerializeApplyRoundTrip: covers dynamic scalar plugs that store a value; the round trip of arrays and compounds is not stated.
- Nodes.SerializedNode: `getNamespaceFromName(name).split("|")[-1]` is modelled as the text before the last `:` of the last path segment that holds one, and the name loses every occurrence of that namespace followed by `:`, as `str.replace` does; the host's namespace rules beyond that are not modelled.
- Nodes.AddListedAttribute: the array flag is read from the record's `"array"` key (`isArray`), as the corrected reading of nodes.py:857 intends, and the channel-box flag from its `"channelBox"` key rather than from `"value"` as nodes.py:860 writes. The plug is built from the created attribute's object, where nodes.py:857 passes the function set `addAttribute` returns straight to `om2.MPlug`. A record whose name a compound child holds is not refused (see `Nodes.CreateListed`).
- `connectVectorPlugs`, `removeUnConnectedEmptyElements`, `filterConnected*`, `serializeConnection`, `enumIndices` and the rest of `plugs.py` and `nodes.py` outside the operations above, and the transform, matrix and UI code, are not part of this model.

## Findings

| source | as written | input that shows it | evidently intended | confidence | as-written member | corrected member |
|---|---|---|---|---|---|---|
| zoo/libs/maya/api/nodes.py:603-605 | `isValidMObject` returns `not isValid or not isAlive` | any live node: `delete` returns at once | true for a valid, live handle | not executed | Nodes.DeleteAsWritten | Nodes.Delete |
| zoo/libs/maya/api/nodes.py:857 | `data.get("array", False)` is called on the list `data` | any non-empty list whose first record has its keys and converts raises AttributeError (a first record without "Type", "default", "value" or "name" raises KeyError earlier, at nodes.py:843-847) | read `attrData.get("array", False)` from the record, and build the plug from the created attribute's object (`addAttribute` returns the function set, nodes.py:1025) | not executed | Nodes.AsWrittenCreatesNothing | Nodes.AddAttributesFromList |
| zoo/libs/maya/meta/base.py:726-729 | `iterConnections(node, False, True)` yields (plug on node, upstream plug), but the loop names them (source, destination) and compares the node's own plug with the meta node | meta node 0 whose plug feeds `metaNode` on node 1; `disconnectFromNode(1)` returns False and keeps the edge | disconnect the first link from the meta node into `node` | not executed | Meta.MetaBase.DisconnectFromNodeAsWritten | Meta.MetaBase.DisconnectFromNode |
| zoo/libs/maya/api/plugs.py:1208-1211 | when every element is taken, returns the element at logical index = element count | one connected element at logical index 1: the same occupied element is returned, and `addParent` then replaces its parent | an element past the largest logical index | not executed | Plugs.NextDestElementTaken | Plugs.FreeDestSlotAvoidsTaken |
