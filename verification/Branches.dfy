/** How the edge list is printed: printConnections and printPath of utils.go, without the text. */
module Branches {
  import opened Connections
  import opened EdgeList

  /** The position of the first Level-1 entry, or the length of the list. */
  function FirstLevelOne(connections: seq<Connection>): (i: nat)
    ensures i <= |connections|
    ensures i < |connections| ==> connections[i].level == 1
    ensures forall j :: 0 <= j < i ==> connections[j].level != 1
  {
    if connections == [] || connections[0].level == 1 then 0 else 1 + FirstLevelOne(connections[1..])
  }

  /** A branch: the head of the list, a Level-1 entry, and entries of other levels. */
  predicate IsBranch(branch: seq<Connection>, head: Connection) {
    && |branch| >= 2
    && branch[0] == head && branch[1].level == 1
    && forall k :: 2 <= k < |branch| ==> branch[k].level != 1
  }

  /** All branches one after the other, without their heads. */
  function Tails(branches: seq<seq<Connection>>): seq<Connection> {
    if branches == [] then []
    else
      var last := branches[|branches| - 1];
      Tails(branches[..|branches| - 1]) + if last == [] then [] else last[1..]
  }

  /** The paths that are handed to printPath. */
  method PrintConnections(connections: seq<Connection>) returns (branches: seq<seq<Connection>>)
    ensures FirstLevelOne(connections) == |connections| ==> branches == [[]]
    ensures FirstLevelOne(connections) < |connections| ==>
              && (forall b :: 0 <= b < |branches| ==> IsBranch(branches[b], connections[0]))
              && Tails(branches) == connections[FirstLevelOne(connections)..]
  {
    branches := [];
    var path: seq<Connection> := [];
    var pathnum := 0;
    ghost var first := FirstLevelOne(connections);
    for i := 0 to |connections|
      invariant pathnum > 0 <==> i > first
      invariant pathnum == 0 ==> branches == [] && path == []
      invariant pathnum > 0 ==>
                  && (forall b :: 0 <= b < |branches| ==> IsBranch(branches[b], connections[0]))
                  && IsBranch(path, connections[0])
                  && Tails(branches) + path[1..] == connections[first..i]
    {
      var connection := connections[i];
      ghost var before, branch := branches, path;
      if connection.level == 1 {
        if pathnum > 0 {
          branches := branches + [path];
          assert branches[..|branches| - 1] == before;
          assert Tails(branches) == Tails(before) + path[1..];
        }
        pathnum := pathnum + 1;
        path := [connections[0]];
      }
      if pathnum > 0 {
        path := path + [connection];
        assert i > first && connection.level != 1 ==> path[1..] == branch[1..] + [connection];
        assert i >= first ==> connections[first..i + 1] == connections[first..i] + [connection];
      }
    }
    ghost var before := branches;
    branches := branches + [path];
    assert branches[..|branches| - 1] == before;
    assert connections[first..|connections|] == connections[first..];
  }

  /** What sort.Slice may make of a path: it is not stable. */
  ghost predicate SortedByLevel(path: seq<Connection>, sorted: seq<Connection>) {
    && multiset(sorted) == multiset(path)
    && forall i, j :: 0 <= i < j < |sorted| ==> sorted[i].level <= sorted[j].level
  }

  /** However a branch of a rooted list is sorted, it starts with the root and goes on with its Level-1 entry. */
  lemma SortedBranchStartsAtRoot(connections: seq<Connection>, root: Node, branch: seq<Connection>, sorted: seq<Connection>)
    requires Rooted(connections, root)
    requires IsBranch(branch, connections[0]) && (forall k :: 1 <= k < |branch| ==> branch[k] in connections[1..])
    requires SortedByLevel(branch, sorted)
    ensures |sorted| == |branch| && sorted[0] == connections[0] && sorted[1] == branch[1]
    ensures forall k :: 2 <= k < |sorted| ==> sorted[k].level > 1
  {
    var rest := branch[2..];
    assert branch == [branch[0]] + [branch[1]] + rest;
    forall e | e in rest
      ensures e.level > 1
    {
      var k :| 0 <= k < |rest| && rest[k] == e;
      assert e == branch[k + 2];
    }
    assert branch[1] in connections[1..];
    SortedHead(branch, sorted);
    assert branch[1..][1..] == rest;
    SortedHead(branch[1..], sorted[1..]);
    assert sorted[1..][1..] == sorted[2..];
    forall k | 2 <= k < |sorted|
      ensures sorted[k].level > 1
    {
      assert sorted[k] == sorted[2..][k - 2];
      assert sorted[k] in multiset(sorted[2..]);
    }
  }

  /** A head of strictly lowest level stays the head. */
  lemma SortedHead(path: seq<Connection>, sorted: seq<Connection>)
    requires path != [] && SortedByLevel(path, sorted)
    requires forall e :: e in path[1..] ==> e.level > path[0].level
    ensures |sorted| == |path| && sorted[0] == path[0] && SortedByLevel(path[1..], sorted[1..])
  {
    assert |multiset(sorted)| == |multiset(path)|;
    assert forall k :: 1 <= k < |path| ==> path[k] == path[1..][k - 1];
    SortedMinimum(path, sorted);
    MultisetTail(path);
    MultisetTail(sorted);
  }

  lemma SortedMinimum(path: seq<Connection>, sorted: seq<Connection>)
    requires path != [] && sorted != [] && SortedByLevel(path, sorted)
    requires forall k :: 1 <= k < |path| ==> path[k].level > path[0].level
    ensures sorted[0] == path[0]
  {
    assert path[0] in multiset(sorted) && sorted[0] in multiset(path);
    var i :| 0 <= i < |sorted| && sorted[i] == path[0];
    var j :| 0 <= j < |path| && path[j] == sorted[0];
  }

  lemma MultisetTail(list: seq<Connection>)
    requires list != []
    ensures multiset(list[1..]) == multiset(list) - multiset{list[0]}
  {
    assert list == [list[0]] + list[1..];
  }

  /** Every entry from the first Level-1 entry on is in exactly one branch, as often as in the list. */
  lemma {:induction false} TailsMembers(branches: seq<seq<Connection>>, c: Connection)
    requires forall b :: 0 <= b < |branches| ==> |branches[b]| >= 1
    ensures c in Tails(branches) <==> exists b :: 0 <= b < |branches| && c in branches[b][1..]
  {
    if branches != [] {
      var init, last := branches[..|branches| - 1], branches[|branches| - 1];
      TailsMembers(init, c);
      assert forall b :: 0 <= b < |init| ==> init[b] == branches[b];
    }
  }
}
