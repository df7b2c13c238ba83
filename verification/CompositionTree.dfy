/** Composition trees, and getComposition of discovery.go: from the flat list of tree nodes back to a tree. */
module CompositionTree {

  /** MetaDataAndOwnerReferences */
  datatype Meta = Meta(name: string, namespace: string, status: string, ownerKind: string, ownerName: string)

  /** CompositionTreeNode: the objects of one kind below one parent. */
  datatype TreeNode = TreeNode(level: int, childKind: string, children: seq<Meta>)

  datatype Composition = Composition(level: int, kind: string, name: string, namespace: string, status: string, children: seq<Composition>)

  /** What `processed` compares. */
  datatype Pair = Pair(level: int, kind: string)

  function PairOf(node: TreeNode): Pair {
    Pair(node.level, node.childKind)
  }

  predicate Processed(processedList: seq<TreeNode>, node: TreeNode) {
    exists i :: 0 <= i < |processedList| && PairOf(processedList[i]) == PairOf(node)
  }

  /** The nodes that differ in level and in kind. */
  function Trimmed(tree: seq<TreeNode>, level: int, childKind: string): (r: seq<TreeNode>)
    ensures |r| <= |tree|
    ensures forall n :: n in tree && (n.level == level || n.childKind == childKind) ==> |r| < |tree|
    ensures forall n :: n in r ==> n in tree
  {
    if tree == [] then []
    else
      var rest := Trimmed(tree[1..], level, childKind);
      if tree[0].level != level && tree[0].childKind != childKind then [tree[0]] + rest else rest
  }

  lemma {:induction false} TrimmedSnoc(tree: seq<TreeNode>, n: TreeNode, level: int, childKind: string)
    ensures Trimmed(tree + [n], level, childKind) == Trimmed(tree, level, childKind) + Trimmed([n], level, childKind)
  {
    if tree != [] {
      assert (tree + [n])[1..] == tree[1..] + [n];
      TrimmedSnoc(tree[1..], n, level, childKind);
    } else {
      assert tree + [n] == [n];
    }
  }

  // ---------------------------------------------------------------- the computation as functions

  /** The tree below one object, and the processed list afterwards. */
  function Compose(kind: string, meta: Meta, level: int, tree: seq<TreeNode>, processedList: seq<TreeNode>): (Composition, seq<TreeNode>)
    decreases |tree|, 2, 0
  {
    var r := ComposeNodes(tree, tree, processedList);
    (Composition(level, kind, meta.name, meta.namespace, meta.status, r.0), r.1)
  }

  /** The children contributed by the nodes `nodes`, when the tree pointer stands at `current`. */
  function ComposeNodes(nodes: seq<TreeNode>, current: seq<TreeNode>, processedList: seq<TreeNode>): (seq<Composition>, seq<TreeNode>)
    requires current == [] || forall n :: n in nodes ==> n in current
    decreases if current == [] && nodes != [] then 1 else |current|, 1, |nodes|
  {
    if nodes == [] then ([], processedList)
    else if Processed(processedList, nodes[0]) then ComposeNodes(nodes[1..], current, processedList)
    else
      var one := ComposeItems(nodes[0], nodes[0].children, current, processedList);
      var rest := ComposeNodes(nodes[1..], if nodes[0].children == [] then current else [], one.1);
      (one.0 + rest.0, rest.1)
  }

  /** The children contributed by the objects of one node: the first of them empties the tree pointer. */
  function ComposeItems(node: TreeNode, items: seq<Meta>, current: seq<TreeNode>, processedList: seq<TreeNode>): (seq<Composition>, seq<TreeNode>)
    requires current == [] || node in current
    decreases if current == [] then 1 else |current|, 0, |items|
  {
    if items == [] then ([], processedList)
    else
      var child := Compose(node.childKind, items[0], node.level, Trimmed(current, node.level, node.childKind), processedList + [node]);
      var rest := ComposeItems(node, items[1..], [], child.1);
      ([child.0] + rest.0, rest.1)
  }

  // ---------------------------------------------------------------- the computation as the program runs it

  /** The list that getComposition shares with its recursive calls. */
  class NodeList {
    var nodes: seq<TreeNode>

    constructor ()
      ensures nodes == []
    {
      nodes := [];
    }

    method Contains(nodeToCheck: TreeNode) returns (result: bool)
      ensures result == Processed(nodes, nodeToCheck)
    {
      result := false;
      for i := 0 to |nodes|
        invariant result == Processed(nodes[..i], nodeToCheck)
      {
        if nodes[i].level == nodeToCheck.level && nodes[i].childKind == nodeToCheck.childKind {
          result := true;
          assert PairOf(nodes[..i + 1][i]) == PairOf(nodeToCheck);
        }
        assert nodes[..i + 1] == nodes[..i] + [nodes[i]];
      }
      assert nodes[..|nodes|] == nodes;
    }
  }

  method Trim(tree: seq<TreeNode>, level: int, childKind: string) returns (trimmedTree: seq<TreeNode>)
    ensures trimmedTree == Trimmed(tree, level, childKind)
  {
    trimmedTree := [];
    for i := 0 to |tree|
      invariant trimmedTree == Trimmed(tree[..i], level, childKind)
    {
      TrimmedSnoc(tree[..i], tree[i], level, childKind);
      assert tree[..i + 1] == tree[..i] + [tree[i]];
      if tree[i].level != level && tree[i].childKind != childKind {
        trimmedTree := trimmedTree + [tree[i]];
      }
    }
    assert tree[..|tree|] == tree;
  }

  method GetComposition(kind: string, meta: Meta, level: int, compositionTree: seq<TreeNode>, processedList: NodeList)
    returns (parentComposition: Composition)
    modifies processedList
    ensures (parentComposition, processedList.nodes) == Compose(kind, meta, level, compositionTree, old(processedList.nodes))
    decreases |compositionTree|, 1
  {
    hide ComposeItems;
    var children: seq<Composition> := [];
    var current := compositionTree;
    ghost var whole := ComposeNodes(compositionTree, compositionTree, processedList.nodes);
    assert compositionTree[0..] == compositionTree;
    for i := 0 to |compositionTree|
      invariant current == [] || current == compositionTree
      invariant var rest := ComposeNodes(compositionTree[i..], current, processedList.nodes);
                whole.0 == children + rest.0 && whole.1 == rest.1
    {
      var node := compositionTree[i];
      assert compositionTree[i..][0] == node && compositionTree[i..][1..] == compositionTree[i + 1..];
      var processed := processedList.Contains(node);
      if processed {
        continue;
      }
      var added := AddChildren(node, current, processedList);
      children := children + added;
      if node.children != [] {
        current := [];
      }
    }
    assert children == whole.0;
    parentComposition := Composition(level, kind, meta.name, meta.namespace, meta.status, children);
  }

  /** The inner loop of getComposition. After the first child the tree pointer is at an empty list. */
  method AddChildren(node: TreeNode, compositionTree: seq<TreeNode>, processedList: NodeList)
    returns (children: seq<Composition>)
    requires compositionTree == [] || node in compositionTree
    modifies processedList
    ensures (children, processedList.nodes) == ComposeItems(node, node.children, compositionTree, old(processedList.nodes))
    decreases if compositionTree == [] then 1 else |compositionTree|, 0
  {
    hide Compose, ComposeNodes, Trimmed;
    children := [];
    var current := compositionTree;
    ghost var whole := ComposeItems(node, node.children, compositionTree, processedList.nodes);
    assert node.children[0..] == node.children;
    for j := 0 to |node.children|
      invariant current == if j == 0 then compositionTree else []
      invariant var rest := ComposeItems(node, node.children[j..], current, processedList.nodes);
                whole.0 == children + rest.0 && whole.1 == rest.1
    {
      assert node.children[j..][0] == node.children[j] && node.children[j..][1..] == node.children[j + 1..];
      var trimmedTree := Trim(current, node.level, node.childKind);
      processedList.nodes := processedList.nodes + [node];
      var child := GetComposition(node.childKind, node.children[j], node.level, trimmedTree, processedList);
      children := children + [child];
      current := [];
    }
    assert children == whole.0;
  }

  // ---------------------------------------------------------------- conservation

  /** One object as getComposition prints it. */
  datatype Item = Item(pair: Pair, name: string, namespace: string, status: string)

  ghost function ItemsBelow(children: seq<Composition>): multiset<Item> {
    if children == [] then multiset{}
    else ItemsOf(children[0]) + ItemsBelow(children[1..])
  }

  /** The composition's own item and all items below it. */
  ghost function ItemsOf(c: Composition): multiset<Item> {
    multiset{Item(Pair(c.level, c.kind), c.name, c.namespace, c.status)} + ItemsBelow(c.children)
  }

  ghost function NodeItems(pair: Pair, metas: seq<Meta>): multiset<Item> {
    if metas == [] then multiset{}
    else multiset{Item(pair, metas[0].name, metas[0].namespace, metas[0].status)} + NodeItems(pair, metas[1..])
  }

  /** One scan of the list that keeps the first non-empty node of every pair outside `done`. */
  ghost function FirstItems(tree: seq<TreeNode>, done: set<Pair>): multiset<Item> {
    if tree == [] then multiset{}
    else if Skipped(tree[0], done) then FirstItems(tree[1..], done)
    else NodeItems(PairOf(tree[0]), tree[0].children) + FirstItems(tree[1..], done + {PairOf(tree[0])})
  }

  ghost predicate Skipped(node: TreeNode, done: set<Pair>) {
    PairOf(node) in done || node.children == []
  }

  ghost function Pairs(nodes: seq<TreeNode>): set<Pair> {
    set i | 0 <= i < |nodes| :: PairOf(nodes[i])
  }

  /** The pairs that have a non-empty node. */
  ghost function Used(nodes: seq<TreeNode>): set<Pair> {
    set i | 0 <= i < |nodes| && nodes[i].children != [] :: PairOf(nodes[i])
  }

  lemma PairsSnoc(nodes: seq<TreeNode>, n: TreeNode)
    ensures Pairs(nodes + [n]) == Pairs(nodes) + {PairOf(n)}
  {
    var all := nodes + [n];
    assert all[|nodes|] == n;
    assert forall i :: 0 <= i < |nodes| ==> all[i] == nodes[i];
  }

  lemma UsedCons(nodes: seq<TreeNode>)
    requires nodes != []
    ensures Used(nodes) == Used(nodes[1..]) + (if nodes[0].children == [] then {} else {PairOf(nodes[0])})
  {
    var tail := nodes[1..];
    assert forall i :: 0 <= i < |tail| ==> tail[i] == nodes[i + 1];
    forall p | p in Used(nodes)
      ensures p in Used(tail) || (nodes[0].children != [] && p == PairOf(nodes[0]))
    {
      var i :| 0 <= i < |nodes| && nodes[i].children != [] && PairOf(nodes[i]) == p;
      if i > 0 {
        assert tail[i - 1] == nodes[i];
      }
    }
  }

  /** Pairs that no node of the list has do not matter. */
  lemma {:induction false} IrrelevantPair(tree: seq<TreeNode>, done: set<Pair>, p: Pair)
    requires forall i :: 0 <= i < |tree| ==> PairOf(tree[i]) != p
    ensures FirstItems(tree, done + {p}) == FirstItems(tree, done)
  {
    if tree != [] {
      assert PairOf(tree[0]) != p;
      if Skipped(tree[0], done) {
        IrrelevantPair(tree[1..], done, p);
      } else {
        IrrelevantPair(tree[1..], done + {PairOf(tree[0])}, p);
        assert done + {p} + {PairOf(tree[0])} == done + {PairOf(tree[0])} + {p};
      }
    }
  }

  lemma TrimmedMembers(tree: seq<TreeNode>, level: int, childKind: string)
    ensures forall n :: n in Trimmed(tree, level, childKind) ==> n.level != level && n.childKind != childKind
  {
  }

  lemma UsedTrimmed(tree: seq<TreeNode>, level: int, childKind: string)
    ensures Used(Trimmed(tree, level, childKind)) <= Used(tree)
    ensures forall p :: p in Used(Trimmed(tree, level, childKind)) ==> p.level != level && p.kind != childKind
  {
    var trimmed := Trimmed(tree, level, childKind);
    TrimmedMembers(tree, level, childKind);
    forall p | p in Used(trimmed)
      ensures p in Used(tree) && p.level != level && p.kind != childKind
    {
      var i :| 0 <= i < |trimmed| && trimmed[i].children != [] && PairOf(trimmed[i]) == p;
      assert trimmed[i] in trimmed;
      var j :| 0 <= j < |tree| && tree[j] == trimmed[i];
    }
  }

  ghost predicate ScansInTwo(tree: seq<TreeNode>, done: set<Pair>, level: int, childKind: string) {
    var trimmed := Trimmed(tree, level, childKind);
    FirstItems(tree, done) == FirstItems(trimmed, done) + FirstItems(tree, done + Used(trimmed))
  }

  /** A scan of the list is a scan of the trimmed list, followed by a scan for what the trimmed list did not have. */
  lemma {:induction false} ScanInTwo(tree: seq<TreeNode>, done: set<Pair>, level: int, childKind: string)
    ensures ScansInTwo(tree, done, level, childKind)
  {
    if tree != [] {
      if Skipped(tree[0], done) {
        ScanInTwo(tree[1..], done, level, childKind);
        ScanSkipped(tree, done, level, childKind);
      } else {
        ScanInTwo(tree[1..], done + {PairOf(tree[0])}, level, childKind);
        if tree[0].level != level && tree[0].childKind != childKind {
          ScanKept(tree, done, level, childKind);
        } else {
          ScanTrimmed(tree, done, level, childKind);
        }
      }
    }
  }

  lemma ScanSkipped(tree: seq<TreeNode>, done: set<Pair>, level: int, childKind: string)
    requires tree != [] && Skipped(tree[0], done)
    requires ScansInTwo(tree[1..], done, level, childKind)
    ensures ScansInTwo(tree, done, level, childKind)
  {
    var trimmed, rest := Trimmed(tree, level, childKind), Trimmed(tree[1..], level, childKind);
    if trimmed != rest {
      UsedCons(trimmed);
    }
    assert done + Used(trimmed) == done + Used(rest);
  }

  lemma ScanKept(tree: seq<TreeNode>, done: set<Pair>, level: int, childKind: string)
    requires tree != [] && !Skipped(tree[0], done)
    requires tree[0].level != level && tree[0].childKind != childKind
    requires ScansInTwo(tree[1..], done + {PairOf(tree[0])}, level, childKind)
    ensures ScansInTwo(tree, done, level, childKind)
  {
    var trimmed, rest := Trimmed(tree, level, childKind), Trimmed(tree[1..], level, childKind);
    UsedCons(trimmed);
    assert done + Used(trimmed) == done + {PairOf(tree[0])} + Used(rest);
    assert Skipped(tree[0], done + Used(trimmed));
  }

  lemma ScanTrimmed(tree: seq<TreeNode>, done: set<Pair>, level: int, childKind: string)
    requires tree != [] && !Skipped(tree[0], done)
    requires tree[0].level == level || tree[0].childKind == childKind
    requires ScansInTwo(tree[1..], done + {PairOf(tree[0])}, level, childKind)
    ensures ScansInTwo(tree, done, level, childKind)
  {
    var p, rest := PairOf(tree[0]), Trimmed(tree[1..], level, childKind);
    TrimmedMembers(tree[1..], level, childKind);
    UsedTrimmed(tree[1..], level, childKind);
    forall i | 0 <= i < |rest|
      ensures PairOf(rest[i]) != p
    {
      assert rest[i] in rest;
    }
    IrrelevantPair(rest, done, p);
    assert done + Used(rest) + {p} == done + {p} + Used(rest);
    assert !Skipped(tree[0], done + Used(rest));
  }

  /** Leading nodes that are skipped may be left out, trimmed or not. */
  lemma {:induction false} SkippedPrefix(prefix: seq<TreeNode>, nodes: seq<TreeNode>, done: set<Pair>)
    requires forall i :: 0 <= i < |prefix| ==> Skipped(prefix[i], done)
    ensures FirstItems(prefix + nodes, done) == FirstItems(nodes, done)
  {
    if prefix == [] {
      assert prefix + nodes == nodes;
    } else {
      assert (prefix + nodes)[1..] == prefix[1..] + nodes;
      SkippedPrefix(prefix[1..], nodes, done);
    }
  }

  lemma {:induction false} ItemsBelowConcat(a: seq<Composition>, b: seq<Composition>)
    ensures ItemsBelow(a + b) == ItemsBelow(a) + ItemsBelow(b)
  {
    if a == [] {
      assert a + b == b;
    } else {
      assert (a + b)[1..] == a[1..] + b;
      ItemsBelowConcat(a[1..], b);
    }
  }

  /** What one call of getComposition prints below its root, and what it has processed after it. */
  lemma {:induction false} ComposeConserves(kind: string, meta: Meta, level: int, tree: seq<TreeNode>, processedList: seq<TreeNode>)
    ensures var r := Compose(kind, meta, level, tree, processedList);
            NodesConserved(tree, Pairs(processedList), (r.0.children, r.1))
    decreases |tree|, 2, 0
  {
    assert [] + tree == tree;
    ComposeNodesConserves([], tree, tree, processedList);
  }

  /** What the objects of one node contribute: themselves and, under the first of them, the trimmed list. */
  ghost predicate ItemsConserved(node: TreeNode, items: seq<Meta>, trimmed: seq<TreeNode>, done: set<Pair>, r: (seq<Composition>, seq<TreeNode>)) {
    && ItemsBelow(r.0) == NodeItems(PairOf(node), items) + FirstItems(trimmed, done + {PairOf(node)})
    && Pairs(r.1) == done + {PairOf(node)} + Used(trimmed)
  }

  lemma {:induction false} ComposeItemsConserves(node: TreeNode, items: seq<Meta>, current: seq<TreeNode>, processedList: seq<TreeNode>)
    requires current == [] || node in current
    requires items != []
    ensures ItemsConserved(node, items, Trimmed(current, node.level, node.childKind), Pairs(processedList),
                           ComposeItems(node, items, current, processedList))
    decreases if current == [] then 1 else |current|, 0, |items|
  {
    var trimmed := Trimmed(current, node.level, node.childKind);
    ComposeConserves(node.childKind, items[0], node.level, trimmed, processedList + [node]);
    PairsSnoc(processedList, node);
    var child := Compose(node.childKind, items[0], node.level, trimmed, processedList + [node]);
    if items[1..] != [] {
      ComposeItemsConserves(node, items[1..], [], child.1);
      LeavesConserved(node, items[1..], Pairs(child.1), ComposeItems(node, items[1..], [], child.1));
    }
    ItemsStep(node, items, trimmed, Pairs(processedList), child, ComposeItems(node, items[1..], [], child.1));
  }

  lemma ItemsStep(node: TreeNode, items: seq<Meta>, trimmed: seq<TreeNode>, done: set<Pair>,
                  child: (Composition, seq<TreeNode>), rest: (seq<Composition>, seq<TreeNode>))
    requires items != []
    requires Item(Pair(child.0.level, child.0.kind), child.0.name, child.0.namespace, child.0.status) ==
             Item(PairOf(node), items[0].name, items[0].namespace, items[0].status)
    requires ItemsBelow(child.0.children) == FirstItems(trimmed, done + {PairOf(node)})
    requires Pairs(child.1) == done + {PairOf(node)} + Used(trimmed)
    requires ItemsBelow(rest.0) == NodeItems(PairOf(node), items[1..]) && Pairs(rest.1) == Pairs(child.1)
    ensures ItemsConserved(node, items, trimmed, done, ([child.0] + rest.0, rest.1))
  {
    hide Pairs, FirstItems;
    ItemsBelowConcat([child.0], rest.0);
    assert ItemsBelow([child.0]) == ItemsOf(child.0);
  }

  /** With the tree pointer at the empty list the objects have nothing below them. */
  lemma LeavesConserved(node: TreeNode, items: seq<Meta>, done: set<Pair>, r: (seq<Composition>, seq<TreeNode>))
    requires PairOf(node) in done && ItemsConserved(node, items, [], done, r)
    ensures ItemsBelow(r.0) == NodeItems(PairOf(node), items) && Pairs(r.1) == done
  {
    assert Used([]) == {};
  }

  lemma {:induction false} ComposeNodesConserves(prefix: seq<TreeNode>, nodes: seq<TreeNode>, current: seq<TreeNode>, processedList: seq<TreeNode>)
    requires current == [] || current == prefix + nodes
    requires forall i :: 0 <= i < |prefix| ==> Skipped(prefix[i], Pairs(processedList))
    ensures NodesConserved(nodes, Pairs(processedList), ComposeNodes(nodes, current, processedList))
    decreases if current == [] && nodes != [] then 1 else |current|, 1, |nodes|
  {
    hide ItemsConserved, TakenAccounts;
    if nodes != [] {
      var node, tail := nodes[0], nodes[1..];
      assert prefix + nodes == prefix + [node] + tail && nodes == [node] + tail;
      if Processed(processedList, node) || node.children == [] {
        ComposeNodesConserves(prefix + [node], tail, current, processedList);
        ComposeSkips(nodes, current, processedList);
        UsedCons(nodes);
      } else {
        ComposeItemsConserves(node, node.children, current, processedList);
        var one := ComposeItems(node, node.children, current, processedList);
        ComposeNodesConserves([], tail, [], one.1);
        TakenNode(prefix, node, tail, current, Pairs(processedList));
        NodesStep(nodes, Trimmed(current, node.level, node.childKind), Pairs(processedList), one, ComposeNodes(tail, [], one.1));
      }
    }
  }

  ghost predicate NodesConserved(nodes: seq<TreeNode>, done: set<Pair>, r: (seq<Composition>, seq<TreeNode>)) {
    ItemsBelow(r.0) == FirstItems(nodes, done) && Pairs(r.1) == done + Used(nodes)
  }

  lemma NodesStep(nodes: seq<TreeNode>, trimmed: seq<TreeNode>, done: set<Pair>,
                  one: (seq<Composition>, seq<TreeNode>), rest: (seq<Composition>, seq<TreeNode>))
    requires nodes != [] && nodes[0].children != []
    requires ItemsConserved(nodes[0], nodes[0].children, trimmed, done, one)
    requires NodesConserved(nodes[1..], Pairs(one.1), rest)
    requires TakenAccounts(nodes, trimmed, done)
    ensures NodesConserved(nodes, done, (one.0 + rest.0, rest.1))
  {
    UsedCons(nodes);
    ItemsBelowConcat(one.0, rest.0);
  }

  ghost predicate TakenAccounts(nodes: seq<TreeNode>, trimmed: seq<TreeNode>, done: set<Pair>)
    requires nodes != []
  {
    var p := PairOf(nodes[0]);
    && FirstItems(nodes, done) ==
       NodeItems(p, nodes[0].children) + FirstItems(trimmed, done + {p}) + FirstItems(nodes[1..], done + {p} + Used(trimmed))
    && Used(trimmed) <= Used(nodes[1..]) + done
  }

  lemma ComposeSkips(nodes: seq<TreeNode>, current: seq<TreeNode>, processedList: seq<TreeNode>)
    requires nodes != [] && (current == [] || forall n :: n in nodes ==> n in current)
    requires Processed(processedList, nodes[0]) || nodes[0].children == []
    ensures ComposeNodes(nodes, current, processedList) == ComposeNodes(nodes[1..], current, processedList)
  {
    var rest := ComposeNodes(nodes[1..], current, processedList);
    assert [] + rest.0 == rest.0;
  }

  /** The items of a node that is taken, of the trimmed list behind it, and of the rest of the scan: nothing twice, nothing lost. */
  lemma TakenNode(prefix: seq<TreeNode>, node: TreeNode, tail: seq<TreeNode>, current: seq<TreeNode>, done: set<Pair>)
    requires current == [] || current == prefix + [node] + tail
    requires forall i :: 0 <= i < |prefix| ==> Skipped(prefix[i], done)
    requires !Skipped(node, done)
    ensures TakenAccounts([node] + tail, Trimmed(current, node.level, node.childKind), done)
  {
    var p := PairOf(node);
    var trimmed := Trimmed(current, node.level, node.childKind);
    assert ([node] + tail)[1..] == tail;
    if current == [] {
      assert done + {p} + Used(trimmed) == done + {p};
    } else {
      var before, after := Trimmed(prefix, node.level, node.childKind), Trimmed(tail, node.level, node.childKind);
      TrimmedConcat(prefix, [node] + tail, node.level, node.childKind);
      assert current == prefix + ([node] + tail);
      assert trimmed == before + after;
      forall i | 0 <= i < |before|
        ensures Skipped(before[i], done + {p}) && (before[i].children != [] ==> PairOf(before[i]) in done)
      {
        assert before[i] in before;
        var j :| 0 <= j < |prefix| && prefix[j] == before[i];
      }
      SkippedPrefix(before, after, done + {p});
      UsedConcat(before, after);
      UsedTrimmed(tail, node.level, node.childKind);
      ScanInTwo(tail, done + {p}, node.level, node.childKind);
      assert done + {p} + Used(trimmed) == done + {p} + Used(after);
    }
  }

  lemma {:induction false} TrimmedConcat(a: seq<TreeNode>, b: seq<TreeNode>, level: int, childKind: string)
    ensures Trimmed(a + b, level, childKind) == Trimmed(a, level, childKind) + Trimmed(b, level, childKind)
  {
    if a == [] {
      assert a + b == b;
    } else {
      assert (a + b)[1..] == a[1..] + b;
      TrimmedConcat(a[1..], b, level, childKind);
    }
  }

  lemma UsedConcat(a: seq<TreeNode>, b: seq<TreeNode>)
    ensures Used(a + b) == Used(a) + Used(b)
  {
    var all := a + b;
    forall p | p in Used(a) + Used(b)
      ensures p in Used(all)
    {
      if p in Used(a) {
        var i :| 0 <= i < |a| && a[i].children != [] && PairOf(a[i]) == p;
        assert all[i] == a[i];
      } else {
        var i :| 0 <= i < |b| && b[i].children != [] && PairOf(b[i]) == p;
        assert all[|a| + i] == b[i];
      }
    }
  }

  // ---------------------------------------------------------------- the law, stated per item

  /** The first non-empty node for a pair, as its position. */
  ghost function FirstNode(tree: seq<TreeNode>, p: Pair): (i: nat)
    ensures i <= |tree|
    ensures i < |tree| ==> PairOf(tree[i]) == p && tree[i].children != []
    ensures forall j :: 0 <= j < i ==> PairOf(tree[j]) != p || tree[j].children == []
  {
    if tree == [] || (PairOf(tree[0]) == p && tree[0].children != []) then 0 else 1 + FirstNode(tree[1..], p)
  }

  /** How often `item` stands in the first non-empty node of its pair. */
  ghost function InFirstNode(tree: seq<TreeNode>, item: Item): nat {
    var i := FirstNode(tree, item.pair);
    if i < |tree| then NodeItems(item.pair, tree[i].children)[item] else 0
  }

  lemma {:induction false} NodeItemsPair(p: Pair, metas: seq<Meta>, item: Item)
    requires item.pair != p
    ensures NodeItems(p, metas)[item] == 0
  {
    if metas != [] {
      NodeItemsPair(p, metas[1..], item);
    }
  }

  lemma {:induction false} FirstItemsCount(tree: seq<TreeNode>, done: set<Pair>, item: Item)
    ensures FirstItems(tree, done)[item] == if item.pair in done then 0 else InFirstNode(tree, item)
  {
    if tree != [] {
      if Skipped(tree[0], done) {
        FirstItemsCount(tree[1..], done, item);
      } else {
        FirstItemsCount(tree[1..], done + {PairOf(tree[0])}, item);
        if item.pair != PairOf(tree[0]) {
          NodeItemsPair(PairOf(tree[0]), tree[0].children, item);
        }
      }
    }
  }

  /** Conservation: below the root each item stands exactly as often as in the first non-empty list node of its level and kind. */
  lemma Conservation(kind: string, meta: Meta, level: int, tree: seq<TreeNode>, item: Item)
    ensures ItemsBelow(Compose(kind, meta, level, tree, []).0.children)[item] == InFirstNode(tree, item)
  {
    ComposeConserves(kind, meta, level, tree, []);
    assert Pairs([]) == {};
    FirstItemsCount(tree, {}, item);
  }

  ghost function AllItems(tree: seq<TreeNode>): multiset<Item> {
    if tree == [] then multiset{} else NodeItems(PairOf(tree[0]), tree[0].children) + AllItems(tree[1..])
  }

  ghost predicate OneNodePerPair(tree: seq<TreeNode>) {
    forall i, j :: 0 <= i < j < |tree| && tree[i].children != [] && tree[j].children != [] ==> PairOf(tree[i]) != PairOf(tree[j])
  }

  lemma {:induction false} AllItemsOfRepeated(tree: seq<TreeNode>, done: set<Pair>)
    requires OneNodePerPair(tree)
    requires forall i :: 0 <= i < |tree| && tree[i].children != [] ==> PairOf(tree[i]) !in done
    ensures FirstItems(tree, done) == AllItems(tree)
  {
    if tree != [] {
      var tail := tree[1..];
      assert forall i :: 0 <= i < |tail| ==> tail[i] == tree[i + 1];
      AllItemsOfRepeated(tail, if tree[0].children == [] then done else done + {PairOf(tree[0])});
    }
  }

  /** Nothing is lost and nothing doubled exactly when no level and kind has two non-empty nodes. */
  lemma EverythingOnce(kind: string, meta: Meta, level: int, tree: seq<TreeNode>)
    ensures ItemsBelow(Compose(kind, meta, level, tree, []).0.children) == AllItems(tree) <==> OneNodePerPair(tree)
  {
    ComposeConserves(kind, meta, level, tree, []);
    assert Pairs([]) == {};
    if OneNodePerPair(tree) {
      AllItemsOfRepeated(tree, {});
    } else {
      RepeatedLoses(tree, {});
    }
  }

  lemma {:induction false} FirstItemsAtMost(tree: seq<TreeNode>, done: set<Pair>)
    ensures |FirstItems(tree, done)| <= |AllItems(tree)|
    ensures (exists i :: 0 <= i < |tree| && tree[i].children != [] && PairOf(tree[i]) in done) ==> |FirstItems(tree, done)| < |AllItems(tree)|
  {
    if tree != [] {
      var tail := tree[1..];
      FirstItemsAtMost(tail, done);
      FirstItemsAtMost(tail, done + {PairOf(tree[0])});
      if i :| 0 <= i < |tree| && tree[i].children != [] && PairOf(tree[i]) in done {
        if i > 0 {
          assert tail[i - 1] == tree[i];
        }
      }
    }
  }

  lemma {:induction false} RepeatedLoses(tree: seq<TreeNode>, done: set<Pair>)
    requires !OneNodePerPair(tree)
    ensures |FirstItems(tree, done)| < |AllItems(tree)|
  {
    var i, j :| 0 <= i < j < |tree| && tree[i].children != [] && tree[j].children != [] && PairOf(tree[i]) == PairOf(tree[j]);
    var tail := tree[1..];
    assert tail[j - 1] == tree[j];
    if i == 0 {
      FirstItemsAtMost(tree, done);
      FirstItemsAtMost(tail, done + {PairOf(tree[0])});
    } else {
      assert tail[i - 1] == tree[i];
      RepeatedLoses(tail, done);
      RepeatedLoses(tail, done + {PairOf(tree[0])});
    }
  }
}
