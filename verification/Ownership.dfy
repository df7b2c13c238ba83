/** Ownership trees, and buildCompositions of discovery.go: from the cluster to the flat list of tree nodes. */
module Ownership {
  import opened Connections
  import opened FieldSearch
  import opened Cluster
  import opened CompositionTree
  import Text

  /** What the program knows about kinds: KindPluralMap, kindVersionMap and kindGroupMap, and compositionMap. */
  datatype Registry = Registry(gvks: map<string, Gvk>, compositions: map<string, seq<string>>)

  /** Where compositions are looked for. */
  datatype View = View(cluster: Cluster, registry: Registry, namespace: string)

  /** getKindAPIDetails: an unknown kind has empty details. */
  function GvkOf(gvks: map<string, Gvk>, kind: string): Gvk {
    if kind in gvks then gvks[kind] else Gvk("", "", "")
  }

  /** unstructured.NestedString(content, "status", "phase"), or "" */
  function Phase(content: Json): string {
    if content.JObject? && "status" in content.fields then
      var status := content.fields["status"];
      if status.JObject? && "phase" in status.fields && status.fields["phase"].JString? then status.fields["phase"].text else ""
    else ""
  }

  predicate OwnedBy(o: Object, kind: string, name: string) {
    OwnerRef(kind, name) in o.owners
  }

  /** The owner fields are filled in only for the parent that was asked about. */
  function MetaOf(o: Object, parentKind: string, parentName: string): Meta {
    if OwnedBy(o, parentKind, parentName) then Meta(o.name, o.namespace, Phase(o.content), parentKind, parentName)
    else Meta(o.name, o.namespace, Phase(o.content), "", "")
  }

  function MetasOf(objects: seq<Object>, parentKind: string, parentName: string): (r: seq<Meta>)
    ensures |r| == |objects|
    ensures forall i :: 0 <= i < |r| ==> r[i] == MetaOf(objects[i], parentKind, parentName)
  {
    if objects == [] then []
    else MetasOf(objects[..|objects| - 1], parentKind, parentName) + [MetaOf(objects[|objects| - 1], parentKind, parentName)]
  }

  /** The objects getResourceMetaData lists; only the namespaced form of List is tried. */
  function Listed(cluster: Cluster, gvk: Gvk, namespace: string): seq<Object> {
    if gvk.resource == "" || gvk.version == "" then []
    else
      var list := List(cluster, gvk, namespace);
      if list.Some? then list.value else []
  }

  method ReadMeta(o: Object, parentKind: string, parentName: string) returns (meta: Meta)
    ensures meta == MetaOf(o, parentKind, parentName)
  {
    meta := Meta(o.name, o.namespace, Phase(o.content), "", "");
    for j := 0 to |o.owners|
      invariant meta == if OwnerRef(parentKind, parentName) in o.owners[..j]
                        then Meta(o.name, o.namespace, Phase(o.content), parentKind, parentName)
                        else Meta(o.name, o.namespace, Phase(o.content), "", "")
    {
      if o.owners[j].kind == parentKind && o.owners[j].name == parentName {
        meta := meta.(ownerKind := o.owners[j].kind, ownerName := o.owners[j].name);
      }
      assert o.owners[..j + 1] == o.owners[..j] + [o.owners[j]];
    }
    assert o.owners[..|o.owners|] == o.owners;
  }

  method GetResourceMetaData(cluster: Cluster, gvk: Gvk, parentKind: string, parentName: string, namespace: string)
    returns (metas: seq<Meta>)
    ensures metas == MetasOf(Listed(cluster, gvk, namespace), parentKind, parentName)
  {
    metas := [];
    if gvk.resource == "" || gvk.version == "" {
      return;
    }
    var list := List(cluster, gvk, namespace);
    if list.None? {
      return;
    }
    var objects := list.value;
    for i := 0 to |objects|
      invariant metas == MetasOf(objects[..i], parentKind, parentName)
    {
      var meta := ReadMeta(objects[i], parentKind, parentName);
      metas := metas + [meta];
      assert objects[..i + 1][..i] == objects[..i];
    }
    assert objects[..|objects|] == objects;
  }

  predicate HasName(metas: seq<Meta>, name: string) {
    exists i :: 0 <= i < |metas| && metas[i].name == name
  }

  /** The children of one parent, the first of every name. */
  function Children(metas: seq<Meta>, parentName: string): (r: seq<Meta>)
    ensures forall m :: m in r ==> m in metas && m.ownerName == parentName
  {
    if metas == [] then []
    else
      var rest := Children(metas[..|metas| - 1], parentName);
      var last := metas[|metas| - 1];
      if last.ownerName == parentName && !HasName(rest, last.name) then rest + [last] else rest
  }

  method FilterChildren(metas: seq<Meta>, parentName: string) returns (r: seq<Meta>)
    ensures r == Children(metas, parentName)
  {
    r := [];
    for i := 0 to |metas|
      invariant r == Children(metas[..i], parentName)
    {
      if metas[i].ownerName == parentName {
        var present := false;
        for j := 0 to |r|
          invariant present == HasName(r[..j], metas[i].name)
        {
          if r[j].name == metas[i].name {
            present := true;
            assert r[..j + 1][j].name == metas[i].name;
          }
          assert r[..j + 1] == r[..j] + [r[j]];
        }
        assert r[..|r|] == r;
        if !present {
          r := r + [metas[i]];
        }
      }
      assert metas[..i + 1][..i] == metas[..i];
    }
    assert metas[..|metas|] == metas;
  }

  /** The objects of kind `childKind` in the namespace that the parent owns. */
  function ChildrenOf(view: View, parentKind: string, parentName: string, childKind: string): seq<Meta> {
    Children(MetasOf(Listed(view.cluster, GvkOf(view.registry.gvks, childKind), view.namespace), parentKind, parentName), parentName)
  }

  function ChildKinds(registry: Registry, kind: string): seq<string> {
    if kind in registry.compositions then registry.compositions[kind] else []
  }

  // ---------------------------------------------------------------- parents and children

  /** The parent (`kind`, `name`) has the child (`childKind`, `childName`). */
  ghost predicate IsChild(view: View, kind: string, name: string, childKind: string, childName: string) {
    && (exists listed :: listed in ChildKinds(view.registry, kind) && Text.TrimSpace(listed) == childKind)
    && exists o :: o in Listed(view.cluster, GvkOf(view.registry.gvks, childKind), view.namespace) && o.name == childName
                   && (name == "" || OwnedBy(o, kind, name))
  }

  /** Of the objects that name the parent as their owner, the first of every name is kept. */
  lemma {:induction false} ChildrenAreFirst(metas: seq<Meta>, parentName: string, m: Meta)
    ensures m in Children(metas, parentName) <==>
            exists i :: 0 <= i < |metas| && metas[i] == m && m.ownerName == parentName
                        && forall j :: 0 <= j < i ==> metas[j].ownerName != parentName || metas[j].name != m.name
  {
    if metas != [] {
      var init, last := metas[..|metas| - 1], metas[|metas| - 1];
      ChildrenAreFirst(init, parentName, m);
      ChildrenHaveNames(init, parentName, last.name);
      assert metas == init + [last];
    }
  }

  lemma ChildrenHaveNames(metas: seq<Meta>, parentName: string, name: string)
    ensures HasName(Children(metas, parentName), name) <==>
            exists i :: 0 <= i < |metas| && metas[i].ownerName == parentName && metas[i].name == name
  {
    if metas != [] {
      var init, last := metas[..|metas| - 1], metas[|metas| - 1];
      ChildrenHaveNames(init, parentName, name);
      var rest := Children(init, parentName);
      assert metas == init + [last];
      if HasName(rest, name) {
        var i :| 0 <= i < |rest| && rest[i].name == name;
        assert Children(metas, parentName)[i].name == name;
      } else if last.ownerName == parentName && last.name == name {
        assert Children(metas, parentName)[|rest|].name == name;
      }
    }
  }

  /** Taking out repeated names loses no child. */
  lemma ChildrenAreChildren(view: View, kind: string, name: string, listed: string, childName: string)
    requires listed in ChildKinds(view.registry, kind)
    ensures HasName(ChildrenOf(view, kind, name, Text.TrimSpace(listed)), childName) ==>
              IsChild(view, kind, name, Text.TrimSpace(listed), childName)
  {
    hide Listed;
    var childKind := Text.TrimSpace(listed);
    var objects := Listed(view.cluster, GvkOf(view.registry.gvks, childKind), view.namespace);
    var metas := MetasOf(objects, kind, name);
    ChildrenHaveNames(metas, name, childName);
    if HasName(Children(metas, name), childName) {
      var i :| 0 <= i < |metas| && metas[i].ownerName == name && metas[i].name == childName;
      assert objects[i] in objects;
    }
  }

  lemma ChildIsListed(view: View, kind: string, name: string, childKind: string, childName: string)
    requires IsChild(view, kind, name, childKind, childName)
    ensures HasName(ChildrenOf(view, kind, name, childKind), childName)
  {
    hide Listed;
    var objects := Listed(view.cluster, GvkOf(view.registry.gvks, childKind), view.namespace);
    var metas := MetasOf(objects, kind, name);
    ChildrenHaveNames(metas, name, childName);
    var o :| o in objects && o.name == childName && (name == "" || OwnedBy(o, kind, name));
    var i :| 0 <= i < |objects| && objects[i] == o;
    assert metas[i].ownerName == name && metas[i].name == childName;
  }

  // ---------------------------------------------------------------- the tree and its preorder

  /** An object with everything it owns, by kind. */
  datatype Owned = Owned(kind: string, meta: Meta, groups: seq<Group>)
  datatype Group = Group(kind: string, members: seq<Owned>)

  function Metas(members: seq<Owned>): (r: seq<Meta>)
    ensures |r| == |members|
    ensures forall i :: 0 <= i < |r| ==> r[i] == members[i].meta
  {
    if members == [] then [] else [members[0].meta] + Metas(members[1..])
  }

  /** `t` is the ownership tree of its root in the cluster. */
  ghost predicate IsTree(view: View, t: Owned)
    decreases t, 0
  {
    var kinds := ChildKinds(view.registry, t.kind);
    && |t.groups| == |kinds|
    && forall i :: 0 <= i < |kinds| ==> IsGroup(view, t.kind, t.meta.name, Text.TrimSpace(kinds[i]), t.groups[i])
  }

  /** `g` holds the trees of all children of one kind. */
  ghost predicate IsGroup(view: View, kind: string, name: string, childKind: string, g: Group)
    decreases g, 0
  {
    && g.kind == childKind
    && Metas(g.members) == ChildrenOf(view, kind, name, childKind)
    && forall i :: 0 <= i < |g.members| ==> g.members[i].kind == childKind && IsTree(view, g.members[i])
  }

  /** The list nodes of everything below an object that stands at `level`. */
  function Preorder(t: Owned, level: int): seq<TreeNode>
    decreases t, 1, 0
  {
    PreorderGroups(t.groups, 0, level + 1)
  }

  /** The nodes of the groups from position i on. */
  function PreorderGroups(groups: seq<Group>, i: nat, level: int): seq<TreeNode>
    requires i <= |groups|
    decreases groups, 0, |groups| - i
  {
    if i == |groups| then [] else PreorderGroup(groups[i], level) + PreorderGroups(groups, i + 1, level)
  }

  function PreorderGroup(g: Group, level: int): seq<TreeNode>
    decreases g, 1, 0
  {
    [TreeNode(level, g.kind, Metas(g.members))] + PreorderMembers(g.members, 0, level)
  }

  function PreorderMembers(members: seq<Owned>, i: nat, level: int): seq<TreeNode>
    requires i <= |members|
    decreases members, 0, |members| - i
  {
    if i == |members| then [] else Preorder(members[i], level) + PreorderMembers(members, i + 1, level)
  }

  // ---------------------------------------------------------------- buildCompositions

  /** The nodes are appended through a slice pointer: the list is shared with the recursive calls. The recursion follows
      the ownership tree, so it ends whenever that tree is finite. */
  method BuildCompositions(view: View, kind: string, meta: Meta, level: int, compositionTree: NodeList, ghost t: Owned)
    requires IsTree(view, t) && t.kind == kind && t.meta == meta
    modifies compositionTree
    ensures compositionTree.nodes == old(compositionTree.nodes) + Preorder(t, level)
    decreases t, 0
  {
    hide IsGroup, PreorderGroup;
    if kind in view.registry.compositions {
      var kinds := view.registry.compositions[kind];
      for i := 0 to |kinds|
        invariant compositionTree.nodes + PreorderGroups(t.groups, i, level + 1) == old(compositionTree.nodes) + Preorder(t, level)
      {
        BuildKind(view, kind, meta, Text.TrimSpace(kinds[i]), level + 1, compositionTree, t.groups[i]);
      }
    }
  }

  /** The loop body of buildCompositions: one kind of children. */
  method BuildKind(view: View, kind: string, meta: Meta, childKind: string, level: int, compositionTree: NodeList, ghost g: Group)
    requires IsGroup(view, kind, meta.name, childKind, g)
    modifies compositionTree
    ensures compositionTree.nodes == old(compositionTree.nodes) + PreorderGroup(g, level)
    decreases g, 1
  {
    hide IsTree, Preorder, PreorderMembers;
    var metas := GetResourceMetaData(view.cluster, GvkOf(view.registry.gvks, childKind), kind, meta.name, view.namespace);
    var childrenList := FilterChildren(metas, meta.name);
    compositionTree.nodes := compositionTree.nodes + [TreeNode(level, childKind, childrenList)];
    BuildChildren(view, childKind, childrenList, level, compositionTree, g.members);
  }

  /** The innermost loop, over the children of one kind. */
  method BuildChildren(view: View, childKind: string, childrenList: seq<Meta>, level: int, compositionTree: NodeList, ghost members: seq<Owned>)
    requires Metas(members) == childrenList
    requires forall i :: 0 <= i < |members| ==> members[i].kind == childKind && IsTree(view, members[i])
    modifies compositionTree
    ensures compositionTree.nodes == old(compositionTree.nodes) + PreorderMembers(members, 0, level)
    decreases members, 1
  {
    hide IsTree, Preorder;
    for i := 0 to |childrenList|
      invariant compositionTree.nodes + PreorderMembers(members, i, level) ==
                old(compositionTree.nodes) + PreorderMembers(members, 0, level)
    {
      BuildCompositions(view, childKind, childrenList[i], level, compositionTree, members[i]);
    }
  }

  // ---------------------------------------------------------------- exactly the owned objects, at their depth

  /** (`kind`, `name`) reaches (`childKind`, `childName`) by `n` steps from parent to child. */
  ghost predicate Chain(view: View, n: nat, kind: string, name: string, childKind: string, childName: string) {
    if n == 0 then kind == childKind && name == childName
    else exists k, m :: IsChild(view, kind, name, k, m) && Chain(view, n - 1, k, m, childKind, childName)
  }

  /** Some node of the list has the object at `level`. */
  ghost predicate Holds(nodes: seq<TreeNode>, level: int, kind: string, name: string) {
    exists i :: 0 <= i < |nodes| && nodes[i].level == level && nodes[i].childKind == kind && HasName(nodes[i].children, name)
  }

  lemma HoldsConcat(a: seq<TreeNode>, b: seq<TreeNode>, level: int, kind: string, name: string)
    ensures Holds(a + b, level, kind, name) <==> Holds(a, level, kind, name) || Holds(b, level, kind, name)
  {
    var all := a + b;
    if Holds(all, level, kind, name) {
      var i :| 0 <= i < |all| && all[i].level == level && all[i].childKind == kind && HasName(all[i].children, name);
      assert i < |a| ==> a[i] == all[i];
      assert i >= |a| ==> b[i - |a|] == all[i];
    }
    if Holds(a, level, kind, name) {
      var i :| 0 <= i < |a| && a[i].level == level && a[i].childKind == kind && HasName(a[i].children, name);
      assert all[i] == a[i];
    }
    if Holds(b, level, kind, name) {
      var i :| 0 <= i < |b| && b[i].level == level && b[i].childKind == kind && HasName(b[i].children, name);
      assert all[|a| + i] == b[i];
    }
  }

  /** The list names an object at a level exactly when the object is that deep down an owner chain. */
  lemma {:induction false} PreorderExact(view: View, t: Owned, level: int, l: int, kind: string, name: string)
    requires IsTree(view, t)
    ensures Holds(Preorder(t, level), l, kind, name) <==> l > level && Chain(view, l - level, t.kind, t.meta.name, kind, name)
    decreases t, 1, 0
  {
    GroupsExact(view, t, 0, level + 1, l, kind, name);
    if BelowSome(view, t.groups, 0, level + 1, l, kind, name) {
      BelowIsChain(view, t, level, l, kind, name);
    }
    if l > level && Chain(view, l - level, t.kind, t.meta.name, kind, name) {
      ChainIsBelow(view, t, level, l, kind, name);
    }
  }

  /** Some member of `g`, which stands at `level`, is that many steps above the object. */
  ghost predicate Below(view: View, g: Group, level: int, l: int, kind: string, name: string) {
    l >= level && exists p :: 0 <= p < |g.members| && Chain(view, l - level, g.kind, g.members[p].meta.name, kind, name)
  }

  ghost predicate BelowSome(view: View, groups: seq<Group>, i: nat, level: int, l: int, kind: string, name: string) {
    exists j :: i <= j < |groups| && Below(view, groups[j], level, l, kind, name)
  }

  lemma BelowIsChain(view: View, t: Owned, level: int, l: int, kind: string, name: string)
    requires IsTree(view, t)
    requires BelowSome(view, t.groups, 0, level + 1, l, kind, name)
    ensures l > level && Chain(view, l - level, t.kind, t.meta.name, kind, name)
  {
    var j :| 0 <= j < |t.groups| && Below(view, t.groups[j], level + 1, l, kind, name);
    var g := t.groups[j];
    var listed := ChildKinds(view.registry, t.kind)[j];
    assert IsGroup(view, t.kind, t.meta.name, Text.TrimSpace(listed), g);
    var p :| 0 <= p < |g.members| && Chain(view, l - (level + 1), g.kind, g.members[p].meta.name, kind, name);
    assert Metas(g.members)[p].name == g.members[p].meta.name;
    ChildrenAreChildren(view, t.kind, t.meta.name, listed, g.members[p].meta.name);
  }

  lemma ChainIsBelow(view: View, t: Owned, level: int, l: int, kind: string, name: string)
    requires IsTree(view, t)
    requires l > level && Chain(view, l - level, t.kind, t.meta.name, kind, name)
    ensures BelowSome(view, t.groups, 0, level + 1, l, kind, name)
  {
    var k, m :| IsChild(view, t.kind, t.meta.name, k, m) && Chain(view, l - level - 1, k, m, kind, name);
    var kinds := ChildKinds(view.registry, t.kind);
    var j :| 0 <= j < |kinds| && Text.TrimSpace(kinds[j]) == k;
    var g := t.groups[j];
    assert IsGroup(view, t.kind, t.meta.name, k, g);
    ChildIsListed(view, t.kind, t.meta.name, k, m);
    var p :| 0 <= p < |Metas(g.members)| && Metas(g.members)[p].name == m;
    assert Chain(view, l - (level + 1), g.kind, g.members[p].meta.name, kind, name);
    assert Below(view, g, level + 1, l, kind, name);
  }

  lemma {:induction false} GroupsExact(view: View, t: Owned, i: nat, level: int, l: int, kind: string, name: string)
    requires IsTree(view, t) && i <= |t.groups|
    ensures Holds(PreorderGroups(t.groups, i, level), l, kind, name) <==> BelowSome(view, t.groups, i, level, l, kind, name)
    decreases t, 0, |t.groups| - i
  {
    if i < |t.groups| {
      GroupExact(view, t.kind, t.meta.name, Text.TrimSpace(ChildKinds(view.registry, t.kind)[i]), t.groups[i], level, l, kind, name);
      GroupsExact(view, t, i + 1, level, l, kind, name);
      HoldsConcat(PreorderGroup(t.groups[i], level), PreorderGroups(t.groups, i + 1, level), l, kind, name);
      BelowSomeStep(view, t.groups, i, level, l, kind, name);
    }
  }

  lemma BelowSomeStep(view: View, groups: seq<Group>, i: nat, level: int, l: int, kind: string, name: string)
    requires i < |groups|
    ensures BelowSome(view, groups, i, level, l, kind, name) <==>
            Below(view, groups[i], level, l, kind, name) || BelowSome(view, groups, i + 1, level, l, kind, name)
  {
  }

  lemma {:induction false} GroupExact(view: View, parentKind: string, parentName: string, childKind: string, g: Group, level: int, l: int, kind: string, name: string)
    requires IsGroup(view, parentKind, parentName, childKind, g)
    ensures Holds(PreorderGroup(g, level), l, kind, name) <==> Below(view, g, level, l, kind, name)
    decreases g, 1, 0
  {
    hide Holds, Chain, IsTree, Metas, PreorderMembers;
    MembersExact(view, childKind, g.members, 0, level, l, kind, name);
    HoldsConcat([TreeNode(level, g.kind, Metas(g.members))], PreorderMembers(g.members, 0, level), l, kind, name);
    OwnNode(view, g, level, l, kind, name);
  }

  /** The node of the group itself holds its members. */
  lemma OwnNode(view: View, g: Group, level: int, l: int, kind: string, name: string)
    ensures Holds([TreeNode(level, g.kind, Metas(g.members))], l, kind, name) <==> l == level && Below(view, g, level, l, kind, name)
  {
    var node := TreeNode(level, g.kind, Metas(g.members));
    assert Holds([node], l, kind, name) <==> l == level && g.kind == kind && HasName(node.children, name) by {
      assert [node][0] == node;
    }
    hide Holds;
    if l == level && g.kind == kind && HasName(node.children, name) {
      var p :| 0 <= p < |node.children| && node.children[p].name == name;
      assert Chain(view, l - level, g.kind, g.members[p].meta.name, kind, name);
    }
    if l == level && Below(view, g, level, l, kind, name) {
      var p :| 0 <= p < |g.members| && Chain(view, 0, g.kind, g.members[p].meta.name, kind, name);
      assert node.children[p].name == name;
    }
  }

  /** Some member from position i on is that many steps above the object, and strictly so. */
  ghost predicate BelowMember(view: View, members: seq<Owned>, childKind: string, i: nat, level: int, l: int, kind: string, name: string) {
    l > level && exists p :: i <= p < |members| && Chain(view, l - level, childKind, members[p].meta.name, kind, name)
  }

  lemma {:induction false} MembersExact(view: View, childKind: string, members: seq<Owned>, i: nat, level: int, l: int, kind: string, name: string)
    requires i <= |members|
    requires forall p :: 0 <= p < |members| ==> members[p].kind == childKind && IsTree(view, members[p])
    ensures Holds(PreorderMembers(members, i, level), l, kind, name) <==> BelowMember(view, members, childKind, i, level, l, kind, name)
    decreases members, 0, |members| - i
  {
    if i < |members| {
      PreorderExact(view, members[i], level, l, kind, name);
      MembersExact(view, childKind, members, i + 1, level, l, kind, name);
      HoldsConcat(Preorder(members[i], level), PreorderMembers(members, i + 1, level), l, kind, name);
      BelowMemberStep(view, members, childKind, i, level, l, kind, name);
    }
  }

  lemma BelowMemberStep(view: View, members: seq<Owned>, childKind: string, i: nat, level: int, l: int, kind: string, name: string)
    requires i < |members|
    ensures BelowMember(view, members, childKind, i, level, l, kind, name) <==>
            || (l > level && Chain(view, l - level, childKind, members[i].meta.name, kind, name))
            || BelowMember(view, members, childKind, i + 1, level, l, kind, name)
  {
  }

  /** An object from which ownership runs into a cycle has no finite tree: there buildCompositions does not return. */
  lemma {:induction false} CycleHasNoTree(view: View, t: Owned, n: nat, kind: string, name: string, period: nat)
    requires Chain(view, n, t.kind, t.meta.name, kind, name)
    requires period > 0 && Chain(view, period, kind, name, kind, name)
    ensures !IsTree(view, t)
    decreases t
  {
    hide IsTree, IsChild;
    if IsTree(view, t) {
      var steps := if n == 0 then period else n;
      var child := NextOnChain(view, t, steps, kind, name);
      CycleHasNoTree(view, child, steps - 1, kind, name, period);
    }
  }

  lemma NextOnChain(view: View, t: Owned, n: nat, kind: string, name: string) returns (child: Owned)
    requires n > 0 && Chain(view, n, t.kind, t.meta.name, kind, name)
    requires IsTree(view, t)
    ensures IsTree(view, child) && child < t && Chain(view, n - 1, child.kind, child.meta.name, kind, name)
  {
    var k, m :| IsChild(view, t.kind, t.meta.name, k, m) && Chain(view, n - 1, k, m, kind, name);
    var kinds := ChildKinds(view.registry, t.kind);
    var i :| 0 <= i < |kinds| && Text.TrimSpace(kinds[i]) == k;
    var g := t.groups[i];
    assert IsGroup(view, t.kind, t.meta.name, k, g);
    ChildIsListed(view, t.kind, t.meta.name, k, m);
    var p :| 0 <= p < |Metas(g.members)| && Metas(g.members)[p].name == m;
    child := g.members[p];
  }
}
