/** When getComposition gives back the tree that buildCompositions flattened. */
module RoundTrip {
  import opened CompositionTree
  import opened Ownership
  import Text

  // ---------------------------------------------------------------- the tree as it should be shown

  function Shown(t: Owned, level: int): Composition
    decreases t, 1, 0
  {
    Composition(level, t.kind, t.meta.name, t.meta.namespace, t.meta.status, ShownGroups(t.groups, 0, level + 1))
  }

  function ShownGroups(groups: seq<Group>, i: nat, level: int): seq<Composition>
    requires i <= |groups|
    decreases groups, 0, |groups| - i
  {
    if i == |groups| then [] else ShownMembers(groups[i].members, 0, level) + ShownGroups(groups, i + 1, level)
  }

  function ShownMembers(members: seq<Owned>, i: nat, level: int): (r: seq<Composition>)
    requires i <= |members|
    ensures |r| == |members| - i
    ensures forall j :: 0 <= j < |r| ==> r[j] == Shown(members[i + j], level)
    decreases members, 0, |members| - i
  {
    if i == |members| then [] else [Shown(members[i], level)] + ShownMembers(members, i + 1, level)
  }

  // ---------------------------------------------------------------- the condition

  /** The members of a group are of its kind. */
  ghost predicate Kinded(t: Owned)
    decreases t
  {
    forall i, p :: 0 <= i < |t.groups| && 0 <= p < |t.groups[i].members| ==>
                     t.groups[i].members[p].kind == t.groups[i].kind && Kinded(t.groups[i].members[p])
  }

  /** The object owns nothing. */
  predicate Bare(t: Owned) {
    FirstGroup(t.groups, 0) == |t.groups|
  }

  /** The first group from position i on that has members, or the number of groups. */
  function FirstGroup(groups: seq<Group>, i: nat): (r: nat)
    requires i <= |groups|
    ensures i <= r <= |groups|
    ensures forall j :: i <= j < r ==> groups[j].members == []
    ensures r < |groups| ==> groups[r].members != []
    decreases |groups| - i
  {
    if i == |groups| || groups[i].members != [] then i else FirstGroup(groups, i + 1)
  }

  /** Some object below `t` is of kind `kind`. */
  ghost predicate KindBelow(t: Owned, kind: string)
    decreases t, 0
  {
    exists j :: 0 <= j < |t.groups| && KindInGroup(t.groups[j], kind)
  }

  ghost predicate KindInGroup(g: Group, kind: string)
    decreases g, 1
  {
    g.members != [] && (g.kind == kind || KindInMembers(g.members, 0, kind))
  }

  ghost predicate KindInMembers(members: seq<Owned>, i: nat, kind: string)
    decreases members, 0
  {
    exists p :: i <= p < |members| && KindBelow(members[p], kind)
  }

  ghost predicate BareFrom(members: seq<Owned>, i: nat) {
    forall p :: i <= p < |members| ==> Bare(members[p])
  }

  /** Groups with members, from position i on, have kinds different from each other and own nothing further. */
  ghost predicate FlatFrom(groups: seq<Group>, i: nat) {
    && (forall j, k :: i <= j < k < |groups| && groups[j].members != [] && groups[k].members != [] ==> groups[j].kind != groups[k].kind)
    && (forall j :: i <= j < |groups| ==> BareFrom(groups[j].members, 0))
  }

  /** Only the very first child owns anything, no kind is listed twice at one place, and the first kind does not occur again
      further down. */
  ghost predicate Spine(t: Owned)
    decreases t
  {
    var i := FirstGroup(t.groups, 0);
    i == |t.groups| || (
      && BareFrom(t.groups[i].members, 1)
      && FlatFrom(t.groups, i + 1)
      && (forall j :: i < j < |t.groups| && t.groups[j].members != [] ==> t.groups[j].kind != t.groups[i].kind)
      && !KindBelow(t.groups[i].members[0], t.groups[i].kind)
      && Spine(t.groups[i].members[0]))
  }

  // ---------------------------------------------------------------- empty nodes do not matter

  function NonEmpty(nodes: seq<TreeNode>): (r: seq<TreeNode>)
    ensures forall n :: n in r <==> n in nodes && n.children != []
  {
    if nodes == [] then [] else if nodes[0].children == [] then NonEmpty(nodes[1..]) else [nodes[0]] + NonEmpty(nodes[1..])
  }

  lemma {:induction false} NonEmptyConcat(a: seq<TreeNode>, b: seq<TreeNode>)
    ensures NonEmpty(a + b) == NonEmpty(a) + NonEmpty(b)
  {
    if a == [] {
      assert a + b == b;
    } else {
      assert (a + b)[1..] == a[1..] + b;
      NonEmptyConcat(a[1..], b);
    }
  }

  lemma {:induction false} NonEmptyTrimmed(nodes: seq<TreeNode>, level: int, kind: string)
    ensures NonEmpty(Trimmed(nodes, level, kind)) == Trimmed(NonEmpty(nodes), level, kind)
  {
    if nodes != [] {
      NonEmptyTrimmed(nodes[1..], level, kind);
      var rest := NonEmpty(nodes[1..]);
      assert ([nodes[0]] + rest)[1..] == rest;
    }
  }

  lemma {:induction false} ComposeNonEmpty(kind: string, meta: Meta, level: int, tree: seq<TreeNode>, processedList: seq<TreeNode>)
    ensures Compose(kind, meta, level, tree, processedList) == Compose(kind, meta, level, NonEmpty(tree), processedList)
    decreases |tree|, 2, 0
  {
    ComposeNodesNonEmpty(tree, tree, processedList);
  }

  lemma {:induction false} ComposeItemsNonEmpty(node: TreeNode, items: seq<Meta>, current: seq<TreeNode>, processedList: seq<TreeNode>)
    requires current == [] || (node in current && node.children != [])
    ensures ComposeItems(node, items, current, processedList) == ComposeItems(node, items, NonEmpty(current), processedList)
    decreases if current == [] then 1 else |current|, 0, |items|
  {
    if items != [] {
      var trimmed := Trimmed(current, node.level, node.childKind);
      ComposeNonEmpty(node.childKind, items[0], node.level, trimmed, processedList + [node]);
      NonEmptyTrimmed(current, node.level, node.childKind);
      ComposeNonEmpty(node.childKind, items[0], node.level, trimmed, processedList + [node]);
    }
  }

  lemma {:induction false} ComposeNodesNonEmpty(nodes: seq<TreeNode>, current: seq<TreeNode>, processedList: seq<TreeNode>)
    requires current == [] || forall n :: n in nodes ==> n in current
    ensures ComposeNodes(nodes, current, processedList) == ComposeNodes(NonEmpty(nodes), NonEmpty(current), processedList)
    decreases if current == [] && nodes != [] then 1 else |current|, 1, |nodes|
  {
    if nodes != [] {
      var node, tail := nodes[0], nodes[1..];
      if node.children == [] {
        ComposeSkips(nodes, current, processedList);
        ComposeNodesNonEmpty(tail, current, processedList);
      } else {
        assert NonEmpty(nodes)[0] == node && NonEmpty(nodes)[1..] == NonEmpty(tail);
        if Processed(processedList, node) {
          ComposeNodesNonEmpty(tail, current, processedList);
        } else {
          ComposeItemsNonEmpty(node, node.children, current, processedList);
          ComposeNodesNonEmpty(tail, [], ComposeItems(node, node.children, current, processedList).1);
        }
      }
    }
  }

  // ---------------------------------------------------------------- without a tree pointer all children are leaves

  function Leaf(kind: string, level: int, meta: Meta): Composition {
    Composition(level, kind, meta.name, meta.namespace, meta.status, [])
  }

  function Leaves(kind: string, level: int, metas: seq<Meta>): (r: seq<Composition>)
    ensures |r| == |metas|
    ensures forall j :: 0 <= j < |r| ==> r[j] == Leaf(kind, level, metas[j])
  {
    if metas == [] then [] else [Leaf(kind, level, metas[0])] + Leaves(kind, level, metas[1..])
  }

  /** The children contributed by `nodes` when nothing is put below them. */
  ghost function LeafScan(nodes: seq<TreeNode>, done: set<Pair>): seq<Composition> {
    if nodes == [] then []
    else if Skipped(nodes[0], done) then LeafScan(nodes[1..], done)
    else Leaves(nodes[0].childKind, nodes[0].level, nodes[0].children) + LeafScan(nodes[1..], done + {PairOf(nodes[0])})
  }

  lemma {:induction false} ItemsAreLeaves(node: TreeNode, items: seq<Meta>, processedList: seq<TreeNode>)
    ensures var r := ComposeItems(node, items, [], processedList);
            && r.0 == Leaves(node.childKind, node.level, items)
            && Pairs(r.1) == Pairs(processedList) + (if items == [] then {} else {PairOf(node)})
    decreases |items|
  {
    if items != [] {
      ItemsAreLeaves(node, items[1..], processedList + [node]);
      PairsSnoc(processedList, node);
      assert ComposeNodes([], [], processedList + [node]) == ([], processedList + [node]);
      assert Compose(node.childKind, items[0], node.level, [], processedList + [node]) ==
             (Leaf(node.childKind, node.level, items[0]), processedList + [node]);
    }
  }

  lemma ProcessedIffPair(processedList: seq<TreeNode>, node: TreeNode)
    ensures Processed(processedList, node) <==> PairOf(node) in Pairs(processedList)
  {
  }

  lemma {:induction false} NodesAreLeaves(nodes: seq<TreeNode>, processedList: seq<TreeNode>)
    ensures ComposeNodes(nodes, [], processedList).0 == LeafScan(nodes, Pairs(processedList))
  {
    if nodes != [] {
      ProcessedIffPair(processedList, nodes[0]);
      if Skipped(nodes[0], Pairs(processedList)) {
        ComposeSkips(nodes, [], processedList);
        NodesAreLeaves(nodes[1..], processedList);
      } else {
        ItemsAreLeaves(nodes[0], nodes[0].children, processedList);
        NodesAreLeaves(nodes[1..], ComposeItems(nodes[0], nodes[0].children, [], processedList).1);
      }
    }
  }

  /** The children below a root whose list starts with an unprocessed, non-empty node. */
  lemma ComposeHead(kind: string, meta: Meta, level: int, n: TreeNode, rest: seq<TreeNode>, processedList: seq<TreeNode>)
    requires !Skipped(n, Pairs(processedList))
    ensures var trimmed := Trimmed(rest, n.level, n.childKind);
            Compose(kind, meta, level, [n] + rest, processedList).0.children ==
            [Compose(n.childKind, n.children[0], n.level, trimmed, processedList + [n]).0]
            + Leaves(n.childKind, n.level, n.children[1..])
            + LeafScan(rest, Pairs(processedList) + {PairOf(n)} + Used(trimmed))
  {
    var tree := [n] + rest;
    var trimmed := Trimmed(rest, n.level, n.childKind);
    assert tree[1..] == rest;
    ProcessedIffPair(processedList, n);
    var first := Compose(n.childKind, n.children[0], n.level, trimmed, processedList + [n]);
    var others := ComposeItems(n, n.children[1..], [], first.1);
    assert ComposeItems(n, n.children, tree, processedList) == ([first.0] + others.0, others.1);
    ItemsAreLeaves(n, n.children[1..], first.1);
    PairsSnoc(processedList, n);
    ComposeConserves(n.childKind, n.children[0], n.level, trimmed, processedList + [n]);
    assert Pairs(others.1) == Pairs(processedList) + {PairOf(n)} + Used(trimmed);
    NodesAreLeaves(rest, others.1);
  }

  lemma {:induction false} LeafScanConcat(a: seq<TreeNode>, b: seq<TreeNode>, done: set<Pair>)
    ensures LeafScan(a + b, done) == LeafScan(a, done) + LeafScan(b, done + Used(a))
  {
    if a == [] {
      assert a + b == b && done + Used(a) == done;
    } else {
      assert (a + b)[1..] == a[1..] + b;
      UsedCons(a);
      if Skipped(a[0], done) {
        LeafScanConcat(a[1..], b, done);
        assert done + Used(a) == done + Used(a[1..]);
      } else {
        LeafScanConcat(a[1..], b, done + {PairOf(a[0])});
        assert done + Used(a) == done + {PairOf(a[0])} + Used(a[1..]);
      }
    }
  }

  /** Nothing comes of the nodes exactly when all their pairs are done. */
  lemma {:induction false} LeafScanEmpty(nodes: seq<TreeNode>, done: set<Pair>)
    ensures LeafScan(nodes, done) == [] <==> Used(nodes) <= done
    ensures LeafScan(nodes, done) != [] ==> exists n :: n in nodes && LeafScan(nodes, done)[0].level == n.level
  {
    if nodes != [] {
      UsedCons(nodes);
      if Skipped(nodes[0], done) {
        LeafScanEmpty(nodes[1..], done);
      } else {
        assert LeafScan(nodes, done)[0] == Leaf(nodes[0].childKind, nodes[0].level, nodes[0].children[0]);
        assert nodes[0] in nodes;
        assert PairOf(nodes[0]) in Used(nodes);
      }
    }
  }

  // ---------------------------------------------------------------- the non-empty nodes of a tree

  /** The nodes of the groups that have members, from position i on. */
  function GroupNodes(groups: seq<Group>, i: nat, level: int): seq<TreeNode>
    requires i <= |groups|
    decreases |groups| - i
  {
    if i == |groups| then []
    else if groups[i].members == [] then GroupNodes(groups, i + 1, level)
    else [NodeOf(groups[i], level)] + GroupNodes(groups, i + 1, level)
  }

  function NodeOf(g: Group, level: int): TreeNode {
    TreeNode(level, g.kind, Metas(g.members))
  }

  lemma GroupNonEmpty(g: Group, level: int)
    ensures NonEmpty(PreorderGroup(g, level)) ==
            (if g.members == [] then [] else [NodeOf(g, level)]) + NonEmpty(PreorderMembers(g.members, 0, level))
  {
    NonEmptyConcat([NodeOf(g, level)], PreorderMembers(g.members, 0, level));
  }

  /** Leading groups without members contribute nothing. */
  lemma {:induction false} EmptyGroups(groups: seq<Group>, a: nat, i: nat, level: int)
    requires a <= i <= |groups|
    requires forall j :: a <= j < i ==> groups[j].members == []
    ensures NonEmpty(PreorderGroups(groups, a, level)) == NonEmpty(PreorderGroups(groups, i, level))
    ensures ShownGroups(groups, a, level) == ShownGroups(groups, i, level)
    decreases i - a
  {
    hide NonEmpty, PreorderGroups, ShownGroups;
    if a < i {
      EmptyGroups(groups, a + 1, i, level);
      EmptyGroup(groups, a, level);
    }
  }

  lemma EmptyGroup(groups: seq<Group>, a: nat, level: int)
    requires a < |groups| && groups[a].members == []
    ensures NonEmpty(PreorderGroups(groups, a, level)) == NonEmpty(PreorderGroups(groups, a + 1, level))
    ensures ShownGroups(groups, a, level) == ShownGroups(groups, a + 1, level)
  {
    hide PreorderGroup;
    NonEmptyConcat(PreorderGroup(groups[a], level), PreorderGroups(groups, a + 1, level));
    GroupNonEmpty(groups[a], level);
    assert NonEmpty(PreorderGroup(groups[a], level)) == [];
    assert ShownMembers(groups[a].members, 0, level) == [];
  }

  lemma BareHasNothing(t: Owned, level: int)
    ensures Bare(t) ==> NonEmpty(Preorder(t, level)) == []
    ensures Bare(t) <==> Shown(t, level).children == []
  {
    var i := FirstGroup(t.groups, 0);
    EmptyGroups(t.groups, 0, i, level + 1);
    if i < |t.groups| {
      assert ShownGroups(t.groups, i, level + 1)[0] == Shown(t.groups[i].members[0], level + 1);
    }
  }

  lemma {:induction false} BareMembers(members: seq<Owned>, i: nat, level: int)
    requires i <= |members| && BareFrom(members, i)
    ensures NonEmpty(PreorderMembers(members, i, level)) == []
    decreases |members| - i
  {
    if i < |members| {
      BareHasNothing(members[i], level);
      BareMembers(members, i + 1, level);
      NonEmptyConcat(Preorder(members[i], level), PreorderMembers(members, i + 1, level));
    }
  }

  lemma {:induction false} FlatGroups(groups: seq<Group>, i: nat, level: int)
    requires i <= |groups|
    requires forall j :: i <= j < |groups| ==> BareFrom(groups[j].members, 0)
    ensures NonEmpty(PreorderGroups(groups, i, level)) == GroupNodes(groups, i, level)
    decreases |groups| - i
  {
    hide Bare, PreorderMembers, PreorderGroup;
    if i < |groups| {
      GroupNonEmpty(groups[i], level);
      BareMembers(groups[i].members, 0, level);
      FlatGroups(groups, i + 1, level);
      NonEmptyConcat(PreorderGroup(groups[i], level), PreorderGroups(groups, i + 1, level));
    }
  }

  /** The non-empty nodes of a tree whose first group with members is group i. */
  lemma HeadNodes(t: Owned, i: nat, level: int)
    requires i == FirstGroup(t.groups, 0) < |t.groups|
    ensures NonEmpty(Preorder(t, level)) ==
            [NodeOf(t.groups[i], level + 1)]
            + (NonEmpty(PreorderMembers(t.groups[i].members, 0, level + 1)) + NonEmpty(PreorderGroups(t.groups, i + 1, level + 1)))
    ensures ShownGroups(t.groups, 0, level + 1) ==
            ShownMembers(t.groups[i].members, 0, level + 1) + ShownGroups(t.groups, i + 1, level + 1)
  {
    EmptyGroups(t.groups, 0, i, level + 1);
    HeadGroup(t.groups, i, level + 1);
  }

  lemma HeadGroup(groups: seq<Group>, i: nat, level: int)
    requires i < |groups| && groups[i].members != []
    ensures NonEmpty(PreorderGroups(groups, i, level)) ==
            [NodeOf(groups[i], level)]
            + (NonEmpty(PreorderMembers(groups[i].members, 0, level)) + NonEmpty(PreorderGroups(groups, i + 1, level)))
  {
    var head, rest := PreorderGroup(groups[i], level), PreorderGroups(groups, i + 1, level);
    assert PreorderGroups(groups, i, level) == head + rest;
    hide PreorderGroups, PreorderMembers, PreorderGroup, NonEmpty;
    GroupNonEmpty(groups[i], level);
    NonEmptyConcat(head, rest);
  }

  lemma OnlyFirstMember(members: seq<Owned>, level: int)
    requires members != [] && BareFrom(members, 1)
    ensures NonEmpty(PreorderMembers(members, 0, level)) == NonEmpty(Preorder(members[0], level))
  {
    BareMembers(members, 1, level);
    NonEmptyConcat(Preorder(members[0], level), PreorderMembers(members, 1, level));
  }

  /** Everything below an object stands at a deeper level. */
  lemma {:induction false} Deeper(t: Owned, level: int)
    ensures forall n :: n in Preorder(t, level) ==> n.level > level
    decreases t, 1, 0
  {
    DeeperGroups(t.groups, 0, level + 1);
  }

  lemma {:induction false} DeeperGroups(groups: seq<Group>, i: nat, level: int)
    requires i <= |groups|
    ensures forall n :: n in PreorderGroups(groups, i, level) ==> n.level >= level
    decreases groups, 0, |groups| - i
  {
    if i < |groups| {
      DeeperMembers(groups[i].members, 0, level);
      DeeperGroups(groups, i + 1, level);
    }
  }

  lemma {:induction false} DeeperMembers(members: seq<Owned>, i: nat, level: int)
    requires i <= |members|
    ensures forall n :: n in PreorderMembers(members, i, level) ==> n.level > level
    decreases members, 0, |members| - i
  {
    if i < |members| {
      Deeper(members[i], level);
      DeeperMembers(members, i + 1, level);
    }
  }

  ghost predicate HasKind(nodes: seq<TreeNode>, kind: string) {
    exists n :: n in nodes && n.childKind == kind
  }

  lemma HasKindConcat(a: seq<TreeNode>, b: seq<TreeNode>, kind: string)
    ensures HasKind(NonEmpty(a + b), kind) <==> HasKind(NonEmpty(a), kind) || HasKind(NonEmpty(b), kind)
  {
    NonEmptyConcat(a, b);
    var x, y := NonEmpty(a), NonEmpty(b);
    if HasKind(x, kind) {
      var n :| n in x && n.childKind == kind;
      assert n in x + y;
    }
    if HasKind(y, kind) {
      var n :| n in y && n.childKind == kind;
      assert n in x + y;
    }
  }

  /** A kind occurs in the list exactly when it occurs in the tree. */
  lemma {:induction false} KindsListed(t: Owned, level: int, kind: string)
    ensures HasKind(NonEmpty(Preorder(t, level)), kind) <==> KindBelow(t, kind)
    decreases t, 1, 0
  {
    KindsListedGroups(t.groups, 0, level + 1, kind);
  }

  lemma {:induction false} KindsListedGroups(groups: seq<Group>, i: nat, level: int, kind: string)
    requires i <= |groups|
    ensures HasKind(NonEmpty(PreorderGroups(groups, i, level)), kind) <==> exists j :: i <= j < |groups| && KindInGroup(groups[j], kind)
    decreases groups, 0, |groups| - i
  {
    hide KindInGroup, HasKind, NonEmpty, PreorderGroup, PreorderMembers;
    NothingListed(kind);
    if i < |groups| {
      KindsListedGroups(groups, i + 1, level, kind);
      KindsListedMembers(groups[i].members, 0, level, kind);
      KindsListedGroup(groups[i], level, kind);
      KindsListedStep(groups, i, level, kind);
    }
  }

  lemma NothingListed(kind: string)
    ensures !HasKind(NonEmpty([]), kind)
  {
  }

  lemma KindsListedStep(groups: seq<Group>, i: nat, level: int, kind: string)
    requires i < |groups|
    ensures HasKind(NonEmpty(PreorderGroups(groups, i, level)), kind) <==>
            HasKind(NonEmpty(PreorderGroup(groups[i], level)), kind) || HasKind(NonEmpty(PreorderGroups(groups, i + 1, level)), kind)
  {
    hide HasKind, NonEmpty, PreorderGroup;
    HasKindConcat(PreorderGroup(groups[i], level), PreorderGroups(groups, i + 1, level), kind);
  }

  lemma KindsListedGroup(g: Group, level: int, kind: string)
    requires HasKind(NonEmpty(PreorderMembers(g.members, 0, level)), kind) <==> KindInMembers(g.members, 0, kind)
    ensures HasKind(NonEmpty(PreorderGroup(g, level)), kind) <==> KindInGroup(g, kind)
  {
    var node := NodeOf(g, level);
    HasKindConcat([node], PreorderMembers(g.members, 0, level), kind);
    if g.members != [] {
      assert NonEmpty([node]) == [node];
      assert HasKind([node], kind) <==> g.kind == kind by {
        assert node in [node];
      }
    }
  }

  lemma {:induction false} KindsListedMembers(members: seq<Owned>, i: nat, level: int, kind: string)
    requires i <= |members|
    ensures HasKind(NonEmpty(PreorderMembers(members, i, level)), kind) <==> KindInMembers(members, i, kind)
    decreases members, 0, |members| - i
  {
    hide KindBelow, HasKind, NonEmpty, Preorder;
    NothingListed(kind);
    if i < |members| {
      HasKindConcat(Preorder(members[i], level), PreorderMembers(members, i + 1, level), kind);
      KindsListed(members[i], level, kind);
      KindsListedMembers(members, i + 1, level, kind);
    }
  }

  // ---------------------------------------------------------------- groups that own nothing further

  /** Bare members are shown as leaves, and only they are. */
  lemma {:induction false} LeavesShown(kind: string, members: seq<Owned>, i: nat, level: int)
    requires i <= |members| && forall p :: 0 <= p < |members| ==> members[p].kind == kind
    ensures Leaves(kind, level, Metas(members)[i..]) == ShownMembers(members, i, level) <==> BareFrom(members, i)
  {
    var leaves, shown := Leaves(kind, level, Metas(members)[i..]), ShownMembers(members, i, level);
    forall p | i <= p < |members|
      ensures leaves[p - i] == shown[p - i] <==> Bare(members[p])
    {
      BareHasNothing(members[p], level);
    }
    if BareFrom(members, i) {
      assert forall q :: 0 <= q < |leaves| ==> leaves[q] == shown[q] by {
        forall q | 0 <= q < |leaves|
          ensures leaves[q] == shown[q]
        {
          assert Bare(members[q + i]);
        }
      }
    }
  }

  lemma {:induction false} LeafScanLeaves(nodes: seq<TreeNode>, done: set<Pair>)
    ensures forall c :: c in LeafScan(nodes, done) ==> c.children == []
  {
    if nodes != [] {
      LeafScanLeaves(nodes[1..], done);
      LeafScanLeaves(nodes[1..], done + {PairOf(nodes[0])});
    }
  }

  lemma {:induction false} ShownAsLeaves(groups: seq<Group>, i: nat, level: int)
    requires i <= |groups|
    requires forall c :: c in ShownGroups(groups, i, level) ==> c.children == []
    ensures forall j :: i <= j < |groups| ==> BareFrom(groups[j].members, 0)
    decreases |groups| - i
  {
    if i < |groups| {
      var shown := ShownMembers(groups[i].members, 0, level);
      forall p | 0 <= p < |groups[i].members|
        ensures Bare(groups[i].members[p])
      {
        assert shown[p] in shown;
        BareHasNothing(groups[i].members[p], level);
      }
      ShownAsLeaves(groups, i + 1, level);
    }
  }

  /** The kinds of the groups from position i on differ from each other and are not done. */
  ghost predicate NewKinds(groups: seq<Group>, i: nat, level: int, done: set<Pair>) {
    && (forall j, k :: i <= j < k < |groups| && groups[j].members != [] && groups[k].members != [] ==> groups[j].kind != groups[k].kind)
    && (forall j :: i <= j < |groups| && groups[j].members != [] ==> Pair(level, groups[j].kind) !in done)
  }

  lemma NewKindsStep(groups: seq<Group>, i: nat, level: int, done: set<Pair>)
    requires i < |groups| && groups[i].members != []
    ensures NewKinds(groups, i, level, done) <==>
            Pair(level, groups[i].kind) !in done && NewKinds(groups, i + 1, level, done + {Pair(level, groups[i].kind)})
  {
  }

  lemma {:induction false} FlatLeaves(groups: seq<Group>, i: nat, level: int, done: set<Pair>)
    requires i <= |groups|
    requires forall j :: i <= j < |groups| ==> BareFrom(groups[j].members, 0)
    requires forall j, p :: i <= j < |groups| && 0 <= p < |groups[j].members| ==> groups[j].members[p].kind == groups[j].kind
    ensures FlatAs(groups, i, level, done)
    decreases |groups| - i
  {
    if i < |groups| {
      FlatLeaves(groups, i + 1, level, done);
      FlatLeaves(groups, i + 1, level, done + {Pair(level, groups[i].kind)});
      if groups[i].members != [] {
        FlatLeavesStep(groups, i, level, done);
      }
    }
  }

  lemma FlatLeavesStep(groups: seq<Group>, i: nat, level: int, done: set<Pair>)
    requires i < |groups| && groups[i].members != [] && BareFrom(groups[i].members, 0)
    requires forall p :: 0 <= p < |groups[i].members| ==> groups[i].members[p].kind == groups[i].kind
    requires FlatAs(groups, i + 1, level, done) && FlatAs(groups, i + 1, level, done + {Pair(level, groups[i].kind)})
    ensures FlatAs(groups, i, level, done)
  {
    hide Bare, NewKinds;
    var g := groups[i];
    var p := Pair(level, g.kind);
    var nodes, rest := GroupNodes(groups, i, level), GroupNodes(groups, i + 1, level);
    assert nodes[0] == NodeOf(g, level) && nodes[1..] == rest;
    NewKindsStep(groups, i, level, done);
    LeavesShown(g.kind, g.members, 0, level);
    assert Metas(g.members)[0..] == Metas(g.members);
    if p !in done {
      SameHead(ShownMembers(g.members, 0, level), LeafScan(rest, done + {p}), ShownGroups(groups, i + 1, level));
    }
  }

  /** Groups shown as leaves come out complete exactly when their kinds are new. */
  ghost predicate FlatAs(groups: seq<Group>, i: nat, level: int, done: set<Pair>)
    requires i <= |groups|
  {
    && |LeafScan(GroupNodes(groups, i, level), done)| <= |ShownGroups(groups, i, level)|
    && (LeafScan(GroupNodes(groups, i, level), done) == ShownGroups(groups, i, level) <==> NewKinds(groups, i, level, done))
  }

  lemma SameHead(head: seq<Composition>, a: seq<Composition>, b: seq<Composition>)
    ensures head + a == head + b <==> a == b
  {
    if head + a == head + b {
      assert a == (head + a)[|head|..] && b == (head + b)[|head|..];
    }
  }

  lemma {:induction false} ShownLevels(groups: seq<Group>, i: nat, level: int)
    requires i <= |groups|
    ensures forall c :: c in ShownGroups(groups, i, level) ==> c.level == level
    decreases |groups| - i
  {
    if i < |groups| {
      ShownLevels(groups, i + 1, level);
    }
  }

  lemma {:induction false} GroupNodesTrimmed(groups: seq<Group>, i: nat, level: int, kind: string)
    requires i <= |groups|
    ensures Trimmed(GroupNodes(groups, i, level), level, kind) == []
    decreases |groups| - i
  {
    if i < |groups| {
      GroupNodesTrimmed(groups, i + 1, level, kind);
      if groups[i].members != [] {
        assert GroupNodes(groups, i, level)[1..] == GroupNodes(groups, i + 1, level);
      }
    }
  }

  lemma {:induction false} NothingTrimmed(nodes: seq<TreeNode>, level: int, kind: string)
    requires forall n :: n in nodes ==> n.level != level && n.childKind != kind
    ensures Trimmed(nodes, level, kind) == nodes
  {
    if nodes != [] {
      NothingTrimmed(nodes[1..], level, kind);
    }
  }

  // ---------------------------------------------------------------- the round trip

  /** What is left of the list once its first node is taken, when nothing but the first child owns anything. */
  lemma RestOfScan(groups: seq<Group>, i: nat, level: int, kind: string, below: seq<TreeNode>, done: set<Pair>)
    requires i <= |groups|
    requires forall j :: i <= j < |groups| ==> BareFrom(groups[j].members, 0)
    requires forall j, p :: i <= j < |groups| && 0 <= p < |groups[j].members| ==> groups[j].members[p].kind == groups[j].kind
    requires forall n :: n in below ==> n.level > level && n.children != []
    requires forall p :: p in done ==> p.level < level
    ensures var rest := below + GroupNodes(groups, i, level);
            var trimmed := Trimmed(rest, level, kind);
            && trimmed == Trimmed(below, level, kind)
            && (LeafScan(rest, done + {Pair(level, kind)} + Used(trimmed)) == ShownGroups(groups, i, level) <==>
                !HasKind(below, kind) && NewKinds(groups, i, level, {Pair(level, kind)}))
  {
    var g := GroupNodes(groups, i, level);
    TrimmedConcat(below, g, level, kind);
    GroupNodesTrimmed(groups, i, level, kind);
    var trimmed := Trimmed(below, level, kind);
    assert Trimmed(below + g, level, kind) == trimmed;
    var all := done + {Pair(level, kind)} + Used(trimmed);
    LeafScanConcat(below, g, all);
    LeafScanEmpty(below, all);
    ShownLevels(groups, i, level);
    if HasKind(below, kind) {
      UsedTrimmed(below, level, kind);
      var n :| n in below && n.childKind == kind;
      var k :| 0 <= k < |below| && below[k] == n;
      assert PairOf(n) in Used(below) && PairOf(n) !in all;
      assert LeafScan(below + g, all)[0].level > level;
      if ShownGroups(groups, i, level) != [] {
        assert ShownGroups(groups, i, level)[0] in ShownGroups(groups, i, level);
      }
    } else {
      NothingTrimmed(below, level, kind);
      FlatLeaves(groups, i, level, all + Used(below));
      NewKindsDone(groups, i, level, kind, below, done);
    }
  }

  lemma NewKindsDone(groups: seq<Group>, i: nat, level: int, kind: string, below: seq<TreeNode>, done: set<Pair>)
    requires forall n :: n in below ==> n.level > level
    requires forall p :: p in done ==> p.level < level
    ensures NewKinds(groups, i, level, done + {Pair(level, kind)} + Used(below) + Used(below)) <==> NewKinds(groups, i, level, {Pair(level, kind)})
  {
    forall p | p in Used(below)
      ensures p.level > level
    {
      var k :| 0 <= k < |below| && PairOf(below[k]) == p;
      assert below[k] in below;
    }
  }

  /** getComposition gives back the flattened tree exactly when the tree is a spine. */
  lemma {:induction false} RoundTripAt(t: Owned, level: int, processedList: seq<TreeNode>)
    requires Kinded(t)
    requires forall p :: p in Pairs(processedList) ==> p.level <= level
    ensures Compose(t.kind, t.meta, level, Preorder(t, level), processedList).0 == Shown(t, level) <==> Spine(t)
    decreases t
  {
    var i := FirstGroup(t.groups, 0);
    ComposeNonEmpty(t.kind, t.meta, level, Preorder(t, level), processedList);
    if i == |t.groups| {
      BareHasNothing(t, level);
      assert ComposeNodes([], [], processedList) == ([], processedList);
    } else {
      var first := t.groups[i].members[0];
      var n := NodeOf(t.groups[i], level + 1);
      RoundTripAt(first, level + 1, processedList + [n]);
      RoundTripHead(t, i, level, processedList);
    }
  }

  /** Nothing but the first child of group i, the first group with members, owns anything. */
  ghost predicate OthersBare(t: Owned, i: nat)
    requires i < |t.groups|
  {
    BareFrom(t.groups[i].members, 1) && forall j :: i < j < |t.groups| ==> BareFrom(t.groups[j].members, 0)
  }

  /** The three parts of the children that getComposition puts below the root. */
  lemma ThreeParts(t: Owned, i: nat, level: int, rest: seq<TreeNode>, processedList: seq<TreeNode>)
    requires i == FirstGroup(t.groups, 0) < |t.groups|
    requires forall p :: p in Pairs(processedList) ==> p.level <= level
    requires NonEmpty(Preorder(t, level)) == [NodeOf(t.groups[i], level + 1)] + rest
    ensures var g, n := t.groups[i], NodeOf(t.groups[i], level + 1);
            var trimmed := Trimmed(rest, level + 1, g.kind);
            Compose(t.kind, t.meta, level, NonEmpty(Preorder(t, level)), processedList).0 == Shown(t, level) <==>
            && Compose(g.kind, g.members[0].meta, level + 1, trimmed, processedList + [n]).0 == Shown(g.members[0], level + 1)
            && Leaves(g.kind, level + 1, Metas(g.members)[1..]) == ShownMembers(g.members, 1, level + 1)
            && LeafScan(rest, Pairs(processedList) + {Pair(level + 1, g.kind)} + Used(trimmed)) == ShownGroups(t.groups, i + 1, level + 1)
  {
    var g, n := t.groups[i], NodeOf(t.groups[i], level + 1);
    HeadNodes(t, i, level);
    ComposeHead(t.kind, t.meta, level, n, rest, processedList);
    var trimmed := Trimmed(rest, level + 1, g.kind);
    SameParts(Compose(g.kind, g.members[0].meta, level + 1, trimmed, processedList + [n]).0, Shown(g.members[0], level + 1),
              Leaves(g.kind, level + 1, Metas(g.members)[1..]), ShownMembers(g.members, 1, level + 1),
              LeafScan(rest, Pairs(processedList) + {Pair(level + 1, g.kind)} + Used(trimmed)), ShownGroups(t.groups, i + 1, level + 1));
  }

  lemma SameParts(a: Composition, b: Composition, l: seq<Composition>, m: seq<Composition>, s: seq<Composition>, r: seq<Composition>)
    requires |l| == |m|
    ensures [a] + l + s == [b] + m + r <==> a == b && l == m && s == r
  {
    var x, y := [a] + l + s, [b] + m + r;
    if x == y {
      assert a == x[0] && b == y[0];
      assert l == x[1..1 + |l|] && m == y[1..1 + |l|];
      assert s == x[1 + |l|..] && r == y[1 + |l|..];
    }
  }

  /** One level of the round trip, given the round trip of the first child. */
  lemma RoundTripHead(t: Owned, i: nat, level: int, processedList: seq<TreeNode>)
    requires Kinded(t) && i == FirstGroup(t.groups, 0) < |t.groups|
    requires forall p :: p in Pairs(processedList) ==> p.level <= level
    requires var first, n := t.groups[i].members[0], NodeOf(t.groups[i], level + 1);
             Compose(first.kind, first.meta, level + 1, Preorder(first, level + 1), processedList + [n]).0 == Shown(first, level + 1) <==> Spine(first)
    ensures Compose(t.kind, t.meta, level, NonEmpty(Preorder(t, level)), processedList).0 == Shown(t, level) <==> Spine(t)
  {
    var g := t.groups[i];
    var rest := NonEmpty(PreorderMembers(g.members, 0, level + 1)) + NonEmpty(PreorderGroups(t.groups, i + 1, level + 1));
    HeadNodes(t, i, level);
    ThreeParts(t, i, level, rest, processedList);
    LeavesShown(g.kind, g.members, 1, level + 1);
    if OthersBare(t, i) {
      FirstChildRoundTrip(t, i, level, processedList);
      OnlyFirstMember(g.members, level + 1);
      FlatGroups(t.groups, i + 1, level + 1);
    } else {
      var done := Pairs(processedList) + {Pair(level + 1, g.kind)} + Used(Trimmed(rest, level + 1, g.kind));
      LeafScanLeaves(rest, done);
      if LeafScan(rest, done) == ShownGroups(t.groups, i + 1, level + 1) {
        ShownAsLeaves(t.groups, i + 1, level + 1);
      }
    }
  }

  /** The case in which nothing but the first child owns anything. */
  lemma FirstChildRoundTrip(t: Owned, i: nat, level: int, processedList: seq<TreeNode>)
    requires Kinded(t) && i == FirstGroup(t.groups, 0) < |t.groups|
    requires forall p :: p in Pairs(processedList) ==> p.level <= level
    requires OthersBare(t, i)
    requires var first, n := t.groups[i].members[0], NodeOf(t.groups[i], level + 1);
             Compose(first.kind, first.meta, level + 1, Preorder(first, level + 1), processedList + [n]).0 == Shown(first, level + 1) <==> Spine(first)
    ensures var g, n := t.groups[i], NodeOf(t.groups[i], level + 1);
            var rest := NonEmpty(Preorder(g.members[0], level + 1)) + GroupNodes(t.groups, i + 1, level + 1);
            var trimmed := Trimmed(rest, level + 1, g.kind);
            && Compose(g.kind, g.members[0].meta, level + 1, trimmed, processedList + [n]).0 == Shown(g.members[0], level + 1)
            && LeafScan(rest, Pairs(processedList) + {Pair(level + 1, g.kind)} + Used(trimmed)) == ShownGroups(t.groups, i + 1, level + 1)
            <==> Spine(t)
  {
    var g, n := t.groups[i], NodeOf(t.groups[i], level + 1);
    var first := g.members[0];
    var below := NonEmpty(Preorder(first, level + 1));
    Deeper(first, level + 1);
    RestOfScan(t.groups, i + 1, level + 1, g.kind, below, Pairs(processedList));
    KindsListed(first, level + 1, g.kind);
    SpineStep(t, i, level);
    if !KindBelow(first, g.kind) {
      NothingTrimmed(below, level + 1, g.kind);
      ComposeNonEmpty(first.kind, first.meta, level + 1, Preorder(first, level + 1), processedList + [n]);
    }
  }

  lemma SpineStep(t: Owned, i: nat, level: int)
    requires i == FirstGroup(t.groups, 0) < |t.groups| && OthersBare(t, i)
    ensures Spine(t) <==> NewKinds(t.groups, i + 1, level + 1, {Pair(level + 1, t.groups[i].kind)})
                          && !KindBelow(t.groups[i].members[0], t.groups[i].kind) && Spine(t.groups[i].members[0])
  {
  }

  lemma {:induction false} TreeIsKinded(view: View, t: Owned)
    requires IsTree(view, t)
    ensures Kinded(t)
  {
    forall i, p | 0 <= i < |t.groups| && 0 <= p < |t.groups[i].members|
      ensures t.groups[i].members[p].kind == t.groups[i].kind && Kinded(t.groups[i].members[p])
    {
      assert IsGroup(view, t.kind, t.meta.name, Text.TrimSpace(ChildKinds(view.registry, t.kind)[i]), t.groups[i]);
      TreeIsKinded(view, t.groups[i].members[p]);
    }
  }

  /** What GetCompositions shows of an object is its ownership tree exactly when that tree is a spine. */
  lemma RoundTrip(view: View, t: Owned)
    requires IsTree(view, t)
    ensures Compose(t.kind, t.meta, 1, Preorder(t, 1), []).0 == Shown(t, 1) <==> Spine(t)
  {
    TreeIsKinded(view, t);
    RoundTripAt(t, 1, []);
  }
}
