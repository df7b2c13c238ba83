/** The visited list of a run: appendConnections1 of utils.go and filterConnections of relationships.go. */
module LevelList {
  import opened Connections
  import opened EdgeList

  /** Position of the first entry for `node`, or the length of the list. */
  function Position(all: seq<Connection>, node: Node): (i: nat)
    ensures i <= |all|
    ensures i < |all| ==> all[i].node == node
    ensures forall j :: 0 <= j < i ==> all[j].node != node
  {
    if all == [] || all[0].node == node then 0 else 1 + Position(all[1..], node)
  }

  /** One addition: a known node keeps its place and the lower of the two levels, a new one goes to the end. */
  function MergeOne(all: seq<Connection>, c: Connection): seq<Connection> {
    var i := Position(all, c.node);
    if i == |all| then all + [c]
    else if all[i].level > c.level then all[i := all[i].(level := c.level)]
    else all
  }

  function Merged(all: seq<Connection>, additions: seq<Connection>): seq<Connection> {
    if additions == [] then all
    else MergeOne(Merged(all, additions[..|additions| - 1]), additions[|additions| - 1])
  }

  method AppendConnections1(allConnections: seq<Connection>, connections: seq<Connection>) returns (all: seq<Connection>)
    ensures all == Merged(allConnections, connections)
  {
    all := allConnections;
    for i := 0 to |connections|
      invariant all == Merged(allConnections, connections[..i])
    {
      var conn := connections[i];
      var present := false;
      var before := all;
      var j := 0;
      while j < |before| && !present
        invariant j <= |before|
        invariant !present ==> all == before && forall k :: 0 <= k < j ==> before[k].node != conn.node
        invariant present ==> Position(before, conn.node) < |before| && all == MergeOne(before, conn)
        decreases |before| - j, !present
      {
        present := conn.node == before[j].node;
        if present {
          assert Position(before, conn.node) == j;
          if before[j].level > conn.level {
            all := all[j := before[j].(level := conn.level)];
          }
        } else {
          j := j + 1;
        }
      }
      if !present {
        all := all + [conn];
      }
      assert connections[..i + 1][..i] == connections[..i];
    }
    assert connections[..|connections|] == connections;
  }

  // ---------------------------------------------------------------- the list as a map from nodes to levels

  /** Every entry keeps its place, its node, its peer and its relation type, and its level does not rise. */
  ghost predicate Grows(before: seq<Connection>, after: seq<Connection>) {
    && |before| <= |after|
    && forall i :: 0 <= i < |before| ==> after[i] == before[i].(level := after[i].level) && after[i].level <= before[i].level
  }

  /** Some entry gives the node this level or a lower one. */
  ghost predicate HasAtMost(list: seq<Connection>, node: Node, level: int) {
    exists i :: 0 <= i < |list| && list[i].node == node && list[i].level <= level
  }

  lemma HasAtMostStays(before: seq<Connection>, after: seq<Connection>, node: Node, level: int)
    requires Grows(before, after) && HasAtMost(before, node, level)
    ensures HasAtMost(after, node, level)
  {
    var i :| 0 <= i < |before| && before[i].node == node && before[i].level <= level;
    assert after[i].node == node;
  }

  /** Whatever was added has its level or a lower one. */
  lemma {:induction false} MergedAtMost(all: seq<Connection>, additions: seq<Connection>, c: Connection)
    requires c in additions
    ensures HasAtMost(Merged(all, additions), c.node, c.level)
  {
    var init, last := additions[..|additions| - 1], additions[|additions| - 1];
    var merged := Merged(all, init);
    MergeOneGrows(merged, last);
    if c in init {
      MergedAtMost(all, init, c);
      HasAtMostStays(merged, Merged(all, additions), c.node, c.level);
    } else {
      assert c == last;
      assert MergeOne(merged, c)[Position(merged, c.node)].node == c.node;
    }
  }

  lemma MergeOneGrows(all: seq<Connection>, c: Connection)
    ensures Grows(all, MergeOne(all, c))
  {
  }

  /** A connection to a new node is added as it is. */
  lemma MergedNew(all: seq<Connection>, c: Connection)
    requires c.node !in Nodes(all)
    ensures Merged(all, [c]) == all + [c]
  {
    assert [c][..0] == [] && Merged(all, []) == all;
  }

  /** Some entry of `list` gives `node` the level `level`. */
  ghost predicate HasLevel(list: seq<Connection>, node: Node, level: int) {
    exists i :: 0 <= i < |list| && list[i].node == node && list[i].level == level
  }

  ghost function Levels(all: seq<Connection>): (m: map<Node, int>)
    ensures m.Keys == Nodes(all)
  {
    map node | node in Nodes(all) :: all[Position(all, node)].level
  }

  /** `m` gives each node of `before` or `additions` the lowest level either of them has for it. */
  ghost predicate IsMinimum(m: map<Node, int>, before: map<Node, int>, additions: seq<Connection>) {
    && m.Keys == before.Keys + Nodes(additions)
    && (forall node :: node in m ==> (node in before && m[node] == before[node]) || HasLevel(additions, node, m[node]))
    && (forall node :: node in before ==> m[node] <= before[node])
    && (forall i :: 0 <= i < |additions| ==> m[additions[i].node] <= additions[i].level)
  }

  lemma UniquePosition(all: seq<Connection>, c: Connection)
    requires UniqueNodes(all) && c in all
    ensures Position(all, c.node) < |all| && all[Position(all, c.node)] == c
  {
  }

  lemma MergeOneKeeps(all: seq<Connection>, c: Connection)
    requires UniqueNodes(all)
    ensures UniqueNodes(MergeOne(all, c)) && Grows(all, MergeOne(all, c))
    ensures Nodes(MergeOne(all, c)) == Nodes(all) + {c.node}
  {
    var r := MergeOne(all, c);
    var i := Position(all, c.node);
    assert forall k :: 0 <= k < |r| && k != i ==> k < |all| && r[k] == all[k];
    assert i < |r| && r[i].node == c.node;
    forall node | node in Nodes(all)
      ensures node in Nodes(r)
    {
      var k :| 0 <= k < |all| && all[k].node == node;
      assert r[k].node == node;
    }
  }

  lemma LevelAt(all: seq<Connection>, i: nat)
    requires UniqueNodes(all) && i < |all|
    ensures all[i].node in Nodes(all) && Levels(all)[all[i].node] == all[i].level
  {
    assert all[i] in all;
    UniquePosition(all, all[i]);
  }

  /** On the level map an addition is a minimum. */
  lemma MergeOneLevels(all: seq<Connection>, c: Connection)
    requires UniqueNodes(all)
    ensures Levels(MergeOne(all, c)) == Lowered(Levels(all), c)
  {
    hide UniqueNodes, Grows, MergeOne, Levels;
    MergeOneKeeps(all, c);
    forall node | node in Nodes(MergeOne(all, c))
      ensures Levels(MergeOne(all, c))[node] == Lowered(Levels(all), c)[node]
    {
      MergeOneLevelAt(all, c, Position(MergeOne(all, c), node));
    }
  }

  lemma MergeOneLevelAt(all: seq<Connection>, c: Connection, k: nat)
    requires UniqueNodes(all) && k < |MergeOne(all, c)|
    ensures var r := MergeOne(all, c);
            && r[k].node in Levels(r) && r[k].node in Lowered(Levels(all), c)
            && Levels(r)[r[k].node] == Lowered(Levels(all), c)[r[k].node]
  {
    hide Grows, Levels;
    MergeOneKeeps(all, c);
    LevelAt(MergeOne(all, c), k);
    if k < |all| {
      LevelAt(all, k);
    } else {
      assert c.node !in Nodes(all);
    }
  }

  function Lowered(m: map<Node, int>, c: Connection): map<Node, int> {
    m[c.node := if c.node in m && m[c.node] <= c.level then m[c.node] else c.level]
  }

  /** Nodes stay unique and in order, and the node set is the union. */
  lemma {:induction false} MergedKeeps(all: seq<Connection>, additions: seq<Connection>)
    requires UniqueNodes(all)
    ensures UniqueNodes(Merged(all, additions)) && Grows(all, Merged(all, additions))
    ensures Nodes(Merged(all, additions)) == Nodes(all) + Nodes(additions)
  {
    if additions != [] {
      var init, c := additions[..|additions| - 1], additions[|additions| - 1];
      assert additions == init + [c];
      NodesOfSnoc(init, c);
      MergedKeeps(all, init);
      MergeOneKeeps(Merged(all, init), c);
    }
  }

  lemma NodesOfSnoc(init: seq<Connection>, c: Connection)
    ensures Nodes(init + [c]) == Nodes(init) + {c.node}
  {
    var all := init + [c];
    assert all[|init|] == c && all[..|init|] == init;
    forall node | node in Nodes(init)
      ensures node in Nodes(all)
    {
      var i :| 0 <= i < |init| && init[i].node == node;
      assert all[i].node == node;
    }
  }

  /** No level is invented. */
  lemma {:induction false} MergedLevels(all: seq<Connection>, additions: seq<Connection>, i: nat)
    requires i < |Merged(all, additions)|
    ensures var e := Merged(all, additions)[i]; HasLevel(all, e.node, e.level) || HasLevel(additions, e.node, e.level)
  {
    if additions != [] {
      var init, c := additions[..|additions| - 1], additions[|additions| - 1];
      var mid := Merged(all, init);
      var e := Merged(all, additions)[i];
      if i < |mid| && mid[i].level == e.level {
        MergedLevels(all, init, i);
        if !HasLevel(all, e.node, e.level) {
          var n :| 0 <= n < |init| && init[n].node == e.node && init[n].level == e.level;
          assert additions[n] == init[n];
        }
      } else {
        assert additions[|additions| - 1].node == e.node;
      }
    }
  }

  /** The refinement: the levels of the merged list are the minimum map. */
  lemma {:induction false} MergedIsMinimum(all: seq<Connection>, additions: seq<Connection>)
    requires UniqueNodes(all)
    ensures IsMinimum(Levels(Merged(all, additions)), Levels(all), additions)
  {
    if additions != [] {
      var init, c := additions[..|additions| - 1], additions[|additions| - 1];
      assert additions == init + [c];
      MergedKeeps(all, init);
      MergedIsMinimum(all, init);
      MergeOneLevels(Merged(all, init), c);
      MinimumStep(Levels(Merged(all, init)), Levels(Merged(all, additions)), Levels(all), init, c);
    }
  }

  lemma MinimumStep(mid: map<Node, int>, m: map<Node, int>, before: map<Node, int>, init: seq<Connection>, c: Connection)
    requires IsMinimum(mid, before, init)
    requires m == Lowered(mid, c)
    ensures IsMinimum(m, before, init + [c])
  {
    var additions := init + [c];
    NodesOfSnoc(init, c);
    forall node | node in m
      ensures (node in before && m[node] == before[node]) || HasLevel(additions, node, m[node])
    {
      if node == c.node && m[node] == c.level {
        assert additions[|init|] == c;
      } else if HasLevel(init, node, m[node]) {
        var n :| 0 <= n < |init| && init[n].node == node && init[n].level == m[node];
        assert additions[n] == init[n];
      }
    }
    forall i | 0 <= i < |additions|
      ensures m[additions[i].node] <= additions[i].level
    {
      if i < |init| {
        assert mid[init[i].node] <= init[i].level;
      }
    }
  }

  /** Neither the order nor the multiplicity of the additions matters to the levels. */
  lemma OrderOfAdditions(all: seq<Connection>, additions: seq<Connection>, shuffled: seq<Connection>)
    requires UniqueNodes(all)
    requires forall c :: c in additions <==> c in shuffled
    ensures Levels(Merged(all, additions)) == Levels(Merged(all, shuffled))
  {
    hide IsMinimum, Levels, Merged, UniqueNodes;
    MergedIsMinimum(all, additions);
    MergedIsMinimum(all, shuffled);
    var m, n := Levels(Merged(all, additions)), Levels(Merged(all, shuffled));
    AtMost(m, n, Levels(all), additions, shuffled);
    AtMost(n, m, Levels(all), shuffled, additions);
    assert forall node :: node in m ==> m[node] == n[node];
  }

  lemma AtMost(m: map<Node, int>, n: map<Node, int>, before: map<Node, int>, additions: seq<Connection>, shuffled: seq<Connection>)
    requires IsMinimum(m, before, additions) && IsMinimum(n, before, shuffled)
    requires forall c :: c in additions <==> c in shuffled
    ensures m.Keys == n.Keys
    ensures forall node :: node in m ==> m[node] <= n[node]
  {
    SameNodes(additions, shuffled);
    SameNodes(shuffled, additions);
    forall node | node in m
      ensures m[node] <= n[node]
    {
      if HasLevel(shuffled, node, n[node]) {
        var i :| 0 <= i < |shuffled| && shuffled[i].node == node && shuffled[i].level == n[node];
        assert shuffled[i] in additions;
        var j :| 0 <= j < |additions| && additions[j] == shuffled[i];
      }
    }
  }

  lemma SameNodes(some: seq<Connection>, all: seq<Connection>)
    requires forall c :: c in some ==> c in all
    ensures Nodes(some) <= Nodes(all)
  {
    forall node | node in Nodes(some)
      ensures node in Nodes(all)
    {
      var i :| 0 <= i < |some| && some[i].node == node;
      assert some[i] in all;
    }
  }

  // ---------------------------------------------------------------- what is new and what is not

  /** The connections of `current` to nodes `known` does not hold (`unseen`), or does hold (`!unseen`), in order. */
  function Select(known: seq<Connection>, current: seq<Connection>, unseen: bool): (r: seq<Connection>)
    ensures forall c :: c in r <==> c in current && (unseen <==> c.node !in Nodes(known))
  {
    if current == [] then []
    else
      var rest := Select(known, current[..|current| - 1], unseen);
      var c := current[|current| - 1];
      if unseen <==> Position(known, c.node) == |known| then rest + [c] else rest
  }

  /** Both parts keep the order, and together they are as many. */
  lemma {:induction false} SelectedInOrder(known: seq<Connection>, current: seq<Connection>)
    ensures forall unseen :: Subsequence(Select(known, current, unseen), current)
    ensures |Select(known, current, true)| + |Select(known, current, false)| == |current|
  {
    hide Subsequence;
    if current == [] {
      NothingIsSubsequence(current);
    } else {
      var init, c := current[..|current| - 1], current[|current| - 1];
      SelectedInOrder(known, init);
      assert current == init + [c];
      SubsequenceSnoc(Select(known, init, true), init, c);
      SubsequenceSnoc(Select(known, init, false), init, c);
    }
  }

  /** First those to new nodes, then those to known ones. */
  function Parts(known: seq<Connection>, current: seq<Connection>): (r: seq<Connection>)
    ensures forall c :: c in r <==> c in current
  {
    Select(known, current, true) + Select(known, current, false)
  }

  method FilterConnections(allConnections: seq<Connection>, currentConnections: seq<Connection>)
    returns (connectionsToSearch: seq<Connection>, existingConnections: seq<Connection>)
    ensures connectionsToSearch == Select(allConnections, currentConnections, true)
    ensures existingConnections == Select(allConnections, currentConnections, false)
  {
    connectionsToSearch, existingConnections := [], [];
    for i := 0 to |currentConnections|
      invariant connectionsToSearch == Select(allConnections, currentConnections[..i], true)
      invariant existingConnections == Select(allConnections, currentConnections[..i], false)
    {
      var currentConn := currentConnections[i];
      var found := false;
      for j := 0 to |allConnections|
        invariant !found && Position(allConnections, currentConn.node) >= j
      {
        if currentConn.node == allConnections[j].node {
          found := true;
          break;
        }
      }
      if found {
        existingConnections := existingConnections + [currentConn];
      } else {
        connectionsToSearch := connectionsToSearch + [currentConn];
      }
      assert currentConnections[..i + 1][..i] == currentConnections[..i];
    }
    assert currentConnections[..|currentConnections|] == currentConnections;
  }
}
