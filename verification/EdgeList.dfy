/** The output edge list of a run: AppendConnections of utils.go. */
module EdgeList {
  import opened Connections

  /** `entry` runs between the ends of `connection` the other way round. Namespaces and relation types are ignored. */
  predicate Reverses(entry: Connection, connection: Connection) {
    && entry.peer.Some? && connection.peer.Some?
    && entry.node.kind == connection.peer.value.kind && entry.node.name == connection.peer.value.name
    && entry.peer.value.kind == connection.node.kind && entry.peer.value.name == connection.node.name
  }

  /** compareConnectionsRelType: the kind of the peer is ignored. */
  predicate SameLink(entry: Connection, connection: Connection)
    requires ComparesSafely(entry, connection)
  {
    && entry.node == connection.node
    && entry.relationType == connection.relationType
    && entry.peer.value.name == connection.peer.value.name
  }

  /** compareConnectionsRelType looks at the peers only after everything else agreed. */
  predicate ComparesSafely(entry: Connection, connection: Connection) {
    entry.node == connection.node && entry.relationType == connection.relationType ==>
      entry.peer.Some? && connection.peer.Some?
  }

  /** AppendConnections follows no nil peer. */
  predicate NoNilPeer(all: seq<Connection>, connection: Connection) {
    forall i :: 0 <= i < |all| ==>
      && ComparesSafely(all[i], connection)
      && ((connection.peer.Some? && all[i].node.kind == connection.peer.value.kind
           && all[i].node.name == connection.peer.value.name) ==> all[i].peer.Some?)
  }

  /** The position of the first entry that reverses `connection`, or the length of the list. */
  function FirstReverse(all: seq<Connection>, connection: Connection): (i: nat)
    ensures i <= |all|
    ensures forall j :: 0 <= j < i ==> !Reverses(all[j], connection)
    ensures i < |all| ==> Reverses(all[i], connection)
  {
    if all == [] then 0
    else if Reverses(all[0], connection) then 0
    else 1 + FirstReverse(all[1..], connection)
  }

  /** The list after adding `connection`. */
  function Appended(all: seq<Connection>, connection: Connection): seq<Connection>
    requires NoNilPeer(all, connection)
  {
    var i := FirstReverse(all, connection);
    if i < |all| then
      if connection.level == 1 then all[..i] + all[i + 1..] + [connection] else all
    else if exists j :: 0 <= j < |all| && SameLink(all[j], connection) then all
    else all + [connection]
  }

  method AppendConnections(allConnections: seq<Connection>, connection: Connection) returns (all: seq<Connection>)
    requires NoNilPeer(allConnections, connection)
    ensures all == Appended(allConnections, connection)
  {
    all := allConnections;
    var present := false;
    var i := 0;
    while i < |allConnections| && !present
      invariant i <= |allConnections|
      invariant !present ==> all == allConnections && FirstReverse(allConnections, connection) >= i
      invariant present ==> FirstReverse(allConnections, connection) < |allConnections|
                            && all == Appended(allConnections, connection)
      decreases |allConnections| - i, !present
    {
      var conn := allConnections[i];
      if connection.peer.Some? {
        if conn.node.kind == connection.peer.value.kind && conn.node.name == connection.peer.value.name {
          if conn.peer.value.kind == connection.node.kind && conn.peer.value.name == connection.node.name {
            present := true;
          }
        }
      }
      if present {
        if connection.level == 1 {
          // The new connection replaces the old one and moves to the end.
          all := allConnections[..i] + allConnections[i + 1..] + [connection];
        }
      } else {
        i := i + 1;
      }
    }
    if !present {
      var present2 := false;
      for j := 0 to |allConnections|
        invariant !present2
        invariant forall k :: 0 <= k < j ==> !SameLink(allConnections[k], connection)
      {
        present2 := SameLink(allConnections[j], connection);
        if present2 {
          break;
        }
      }
      if !present2 {
        all := all + [connection];
      }
    }
  }

  // ---------------------------------------------------------------- what changes stands at the end

  /** `r` is `all`, or ends with `c` behind all of `all` but, for Level 1, an entry between the same two ends the other way round. */
  ghost predicate PutAtEnd(all: seq<Connection>, c: Connection, r: seq<Connection>) {
    || r == all
    || (r != [] && r[|r| - 1] == c
        && (|| r[..|r| - 1] == all
            || (c.level == 1 && exists i :: 0 <= i < |all| && LeadsBack(all[i], c) && r[..|r| - 1] == all[..i] + all[i + 1..])))
  }

  predicate LeadsBack(entry: Connection, c: Connection) {
    match (entry, c)
    case (Connection(_, Node(kind, name, _), _, Some(Node(peerKind, peerName, _))), Connection(_, Node(k, n, _), _, Some(Node(pk, pn, _)))) =>
      kind == pk && name == pn && peerKind == k && peerName == n
    case _ => false
  }

  /** Whatever an insertion adds or moves is the last entry of the list, and nothing else is moved. */
  lemma AppendedAtEnd(all: seq<Connection>, c: Connection)
    requires NoNilPeer(all, c)
    ensures PutAtEnd(all, c, Appended(all, c))
    ensures c.peer.Some? && (forall i :: 0 <= i < |all| ==> !LeadsBack(all[i], c) && all[i].node != c.node) ==> Appended(all, c) == all + [c]
    ensures (exists i :: 0 <= i < |all| && LeadsBack(all[i], c)) && c.level != 1 ==> Appended(all, c) == all
    ensures (exists i :: 0 <= i < |all| && LeadsBack(all[i], c)) && c.level == 1 ==>
              |Appended(all, c)| == |all| && Appended(all, c)[|all| - 1] == c
  {
    var i, r := FirstReverse(all, c), Appended(all, c);
    assert forall entry :: LeadsBack(entry, c) <==> Reverses(entry, c);
    if i < |all| && c.level == 1 {
      assert r[..|r| - 1] == all[..i] + all[i + 1..];
    } else if r != all {
      assert r[..|r| - 1] == all;
    }
  }

  /** Of connections to one resource, one for each relation type and name of a peer is kept, whatever the peer's kind. */
  lemma AppendedOnce(all: seq<Connection>, c: Connection)
    requires NoNilPeer(all, c) && c.peer.Some? && forall i :: 0 <= i < |all| ==> !LeadsBack(all[i], c)
    ensures var known := exists e :: e in all && e.node.kind == c.node.kind && e.node.name == c.node.name && e.node.namespace == c.node.namespace
                                     && e.relationType == c.relationType && e.peer.Some? && e.peer.value.name == c.peer.value.name;
            Appended(all, c) == if known then all else all + [c]
  {
    assert forall entry :: LeadsBack(entry, c) <==> Reverses(entry, c);
    if i :| 0 <= i < |all| && SameLink(all[i], c) {
      assert all[i] in all;
    }
  }

  /** `at` says where in `b` the elements of `a` stand, one after the other. */
  ghost predicate Picks(a: seq<Connection>, b: seq<Connection>, at: seq<nat>) {
    && |at| == |a| && (forall i :: 0 <= i < |at| ==> at[i] < |b| && b[at[i]] == a[i])
    && forall i, j :: 0 <= i < j < |at| ==> at[i] < at[j]
  }

  ghost predicate Subsequence(a: seq<Connection>, b: seq<Connection>) {
    exists at :: Picks(a, b, at)
  }

  lemma NothingIsSubsequence(b: seq<Connection>)
    ensures Subsequence([], b)
  {
    assert Picks([], b, []);
  }

  lemma SubsequenceMembers(a: seq<Connection>, b: seq<Connection>)
    requires Subsequence(a, b)
    ensures forall c :: c in a ==> c in b
  {
  }

  lemma SubsequenceSnoc(a: seq<Connection>, b: seq<Connection>, c: Connection)
    requires Subsequence(a, b)
    ensures Subsequence(a, b + [c]) && Subsequence(a + [c], b + [c])
  {
    var at: seq<nat> :| Picks(a, b, at);
    var last: nat := |b|;
    var more: seq<nat> := at + [last];
    assert Picks(a, b + [c], at);
    assert Picks(a + [c], b + [c], more);
  }

  lemma SubsequenceWithout(a: seq<Connection>, b: seq<Connection>, i: nat)
    requires i < |a| && Subsequence(a, b)
    ensures Subsequence(a[..i] + a[i + 1..], b)
  {
    var at: seq<nat> :| Picks(a, b, at);
    var fewer: seq<nat> := at[..i] + at[i + 1..];
    assert Picks(a[..i] + a[i + 1..], b, fewer);
  }

  lemma SubsequenceConcat(a: seq<Connection>, b: seq<Connection>, c: seq<Connection>, d: seq<Connection>)
    requires Subsequence(a, b) && Subsequence(c, d)
    ensures Subsequence(a + c, b + d)
  {
    var at: seq<nat> :| Picks(a, b, at);
    var more: seq<nat> :| Picks(c, d, more);
    var shifted: seq<nat> := seq(|more|, i requires 0 <= i < |more| => |b| + more[i]);
    var all: seq<nat> := at + shifted;
    assert Picks(a + c, b + d, all);
  }

  /** Insertions keep the entries in the order in which they were handed over. */
  lemma AppendedInOrder(all: seq<Connection>, c: Connection, r: seq<Connection>, found: seq<Connection>)
    requires all != [] && PutAtEnd(all, c, r) && Subsequence(all[1..], found)
    requires r != [] && r[0] == all[0] && !LeadsBack(all[0], c)
    ensures Subsequence(r[1..], found + [c])
  {
    hide Subsequence, LeadsBack;
    SubsequenceSnoc(all[1..], found, c);
    if r != all {
      if r[..|r| - 1] == all {
        assert r[1..] == all[1..] + [c];
      } else {
        var i :| 0 <= i < |all| && LeadsBack(all[i], c) && r[..|r| - 1] == all[..i] + all[i + 1..];
        SubsequenceWithout(all[1..], found, i - 1);
        SubsequenceSnoc(all[1..][..i - 1] + all[1..][i..], found, c);
        assert r == all[..i] + all[i + 1..] + [c];
        assert r[1..] == all[1..][..i - 1] + all[1..][i..] + [c];
      }
    }
  }

  // ---------------------------------------------------------------- no link is lost

  /** `entry` tells that `c` exists, from one end or from the other. */
  predicate Tells(entry: Connection, c: Connection) {
    && entry.peer.Some? && c.peer.Some?
    && (|| (entry.node.kind == c.node.kind && entry.node.name == c.node.name
            && entry.peer.value.name == c.peer.value.name)
        || (entry.node.name == c.peer.value.name
            && entry.peer.value.kind == c.node.kind && entry.peer.value.name == c.node.name))
  }

  predicate Linked(all: seq<Connection>, c: Connection) {
    exists i :: 0 <= i < |all| && Tells(all[i], c)
  }

  /** The list tells of a connection to `n` with the peer `peer`. Levels and relation types do not matter to that. */
  predicate Told(all: seq<Connection>, n: Node, peer: Node) {
    Linked(all, Connection(0, n, Unset, Some(peer)))
  }

  lemma LinkedIsTold(all: seq<Connection>, c: Connection)
    requires c.peer.Some?
    ensures Linked(all, c) <==> Told(all, c.node, c.peer.value)
  {
  }

  /** A connection that was added is told of, whichever branch was taken. */
  lemma AddedIsLinked(all: seq<Connection>, c: Connection)
    requires NoNilPeer(all, c) && c.peer.Some?
    ensures Linked(Appended(all, c), c)
  {
    var r := Appended(all, c);
    var i := FirstReverse(all, c);
    if i < |all| {
      if c.level == 1 {
        assert Tells(r[|r| - 1], c);
      } else {
        assert Tells(r[i], c);
      }
    } else if j :| 0 <= j < |all| && SameLink(all[j], c) {
      assert Tells(r[j], c);
    } else {
      assert Tells(r[|r| - 1], c);
    }
  }

  /** Whatever is added later, by deletion and re-append or otherwise, a link once told of stays told of. */
  lemma LinkSurvives(all: seq<Connection>, added: Connection, c: Connection)
    requires NoNilPeer(all, added)
    requires Linked(all, c)
    ensures Linked(Appended(all, added), c)
  {
    var r := Appended(all, added);
    var k :| 0 <= k < |all| && Tells(all[k], c);
    var i := FirstReverse(all, added);
    if i < |all| && added.level == 1 {
      if k < i {
        assert Tells(r[k], c);
      } else if k == i {
        assert Tells(r[|r| - 1], c);
      } else {
        assert Tells(r[k - 1], c);
      }
    } else {
      assert Tells(r[k], c);
    }
  }

  // ---------------------------------------------------------------- the list as a set of undirected links

  /** Two entries that should not both be in the list. */
  predicate Clash(a: Connection, b: Connection) {
    || Reverses(a, b)
    || (a.node == b.node && a.relationType == b.relationType && a.peer.Some? && b.peer.Some?
        && a.peer.value.name == b.peer.value.name && a.peer.value.kind == b.peer.value.kind)
  }

  predicate ClashFree(all: seq<Connection>) {
    forall i, j :: 0 <= i < j < |all| ==> !Clash(all[i], all[j])
  }

  /** At most one entry of `all` reverses `c`. */
  predicate AtMostOneReverse(all: seq<Connection>, c: Connection) {
    forall i, j :: 0 <= i < j < |all| ==> !(Reverses(all[i], c) && Reverses(all[j], c))
  }

  /** An insertion keeps the list clash-free exactly when it is not a Level-1 insertion with two reversing entries. */
  lemma AppendedClashFree(all: seq<Connection>, c: Connection)
    requires NoNilPeer(all, c) && c.peer.Some?
    requires ClashFree(all)
    ensures ClashFree(Appended(all, c)) <==> (c.level == 1 ==> AtMostOneReverse(all, c))
  {
    var r := Appended(all, c);
    var i := FirstReverse(all, c);
    if i < |all| && c.level == 1 {
      var last := |r| - 1;
      forall j | 0 <= j < last
        ensures r[j] == all[if j < i then j else j + 1]
        ensures Clash(r[j], c) ==> Reverses(all[if j < i then j else j + 1], c)
      {
        // An entry equal to `c` would itself clash with the entry at i.
        assert j < i ==> !Clash(all[j], all[i]);
        assert j >= i ==> !Clash(all[i], all[j + 1]);
      }
      if AtMostOneReverse(all, c) {
        assert forall j :: 0 <= j < last ==> !Clash(r[j], c);
      } else {
        var m, n :| 0 <= m < n < |all| && Reverses(all[m], c) && Reverses(all[n], c);
        assert Clash(r[n - 1], r[last]);
      }
    } else if i == |all| {
      assert forall j :: 0 <= j < |all| ==> !Reverses(all[j], c);
    }
  }

  /** The length never drops and grows by at most one. */
  lemma AppendedLength(all: seq<Connection>, c: Connection)
    requires NoNilPeer(all, c)
    ensures |all| <= |Appended(all, c)| <= |all| + 1
    ensures forall e :: e in Appended(all, c) ==> e in all || e == c
  {
  }

  // ---------------------------------------------------------------- the root entry

  /** The root at the head has Level 0 and no peer, everything after it was found at Level 1 or more from a peer. */
  predicate Rooted(all: seq<Connection>, root: Node) {
    && |all| > 0
    && all[0] == Connection(0, root, Unset, Some(NOBODY))
    && forall i :: 0 < i < |all| ==> all[i].level >= 1 && all[i].peer.Some?
  }

  /** No insertion of a named connection with a peer moves or deletes the root. */
  lemma AppendedRooted(all: seq<Connection>, c: Connection, root: Node)
    requires Rooted(all, root)
    requires c.level >= 1 && c.peer.Some? && c.node.name != ""
    ensures NoNilPeer(all, c)
    ensures Rooted(Appended(all, c), root)
    ensures |all| <= |Appended(all, c)|
  {
    assert !Reverses(all[0], c);
  }

  // ---------------------------------------------------------------- the first branch

  /** `n` is the resource at the head of the list; namespaces are not compared. */
  predicate IsHead(all: seq<Connection>, n: Node)
    requires all != []
  {
    n.kind == all[0].node.kind && n.name == all[0].node.name
  }

  /** Entry k leads away from the head, and it and everything between the head and it has Level 1. */
  ghost predicate AnchoredAt(all: seq<Connection>, k: int) {
    && 0 < k < |all| && !IsHead(all, all[k].node) && all[k].node.name != ""
    && forall j :: 0 < j <= k ==> all[j].level == 1
  }

  ghost predicate Anchored(all: seq<Connection>) {
    exists k :: AnchoredAt(all, k)
  }

  ghost predicate FromHead(all: seq<Connection>, c: Connection)
    requires all != []
  {
    c.peer.Some? && (IsHead(all, c.peer.value) || c.peer.value == NOBODY)
  }

  /** There are only Level-1 entries that lead from the head back to it. */
  ghost predicate OnlyLoops(all: seq<Connection>) {
    all != [] && forall j :: 0 < j < |all| ==> all[j].level == 1 && IsHead(all, all[j].node) && FromHead(all, all[j])
  }

  /** When Level-1 connections are found from the head, and others only after one that leads away from it, then what follows
      the head is always at Level 1, although Level-1 insertions take entries out. */
  lemma AppendedAnchored(all: seq<Connection>, c: Connection, root: Node)
    requires Rooted(all, root) && root.name != "" && NoNilPeer(all, c) && c.node.name != ""
    requires Anchored(all) || OnlyLoops(all)
    requires if c.level == 1 then FromHead(all, c) else Anchored(all)
    ensures Anchored(Appended(all, c)) || OnlyLoops(Appended(all, c))
    ensures Anchored(all) || !IsHead(all, c.node) ==> Anchored(Appended(all, c))
  {
    assert !Reverses(all[0], c);
    assert Appended(all, c)[0] == all[0];
    if k :| AnchoredAt(all, k) {
      AnchorStays(all, c, k);
    } else if IsHead(all, c.node) {
      LoopsStay(all, c);
    } else {
      assert forall j :: 0 <= j < |all| ==> !Reverses(all[j], c) && !SameLink(all[j], c);
      assert AnchoredAt(Appended(all, c), |all|);
    }
  }

  lemma AnchorStays(all: seq<Connection>, c: Connection, k: nat)
    requires NoNilPeer(all, c) && AnchoredAt(all, k) && (c.level == 1 ==> FromHead(all, c)) && !Reverses(all[0], c)
    ensures Anchored(Appended(all, c))
  {
    var r := Appended(all, c);
    var i := FirstReverse(all, c);
    assert c.level == 1 ==> !Reverses(all[k], c);
    if i < |all| && c.level == 1 && i < k {
      assert forall j :: 0 <= j <= k - 1 ==> r[j] == all[if j < i then j else j + 1];
      assert AnchoredAt(r, k - 1);
    } else {
      assert forall j :: 0 <= j <= k ==> r[j] == all[j];
      assert AnchoredAt(r, k);
    }
  }

  lemma LoopsStay(all: seq<Connection>, c: Connection)
    requires NoNilPeer(all, c) && OnlyLoops(all) && c.level == 1 && FromHead(all, c) && IsHead(all, c.node)
    requires Appended(all, c) != [] && Appended(all, c)[0] == all[0] && !Reverses(all[0], c)
    ensures OnlyLoops(Appended(all, c))
  {
    var r := Appended(all, c);
    assert forall j :: 0 < j < |r| ==> r[j] in all[1..] || r[j] == c;
    assert forall e :: e in all[1..] ==> e.level == 1 && IsHead(all, e.node) && FromHead(all, e);
  }

  /** The list after inserting `conns`, one by one, into the list of the root alone. */
  ghost predicate BuiltFrom(root: Node, conns: seq<Connection>, all: seq<Connection>) {
    if conns == [] then all == [Connection(0, root, Unset, Some(NOBODY))]
    else
      var last := conns[|conns| - 1];
      exists before :: BuiltFrom(root, conns[..|conns| - 1], before) && NoNilPeer(before, last) && all == Appended(before, last)
  }

  lemma BuiltMore(root: Node, conns: seq<Connection>, before: seq<Connection>, c: Connection)
    requires BuiltFrom(root, conns, before) && NoNilPeer(before, c)
    ensures BuiltFrom(root, conns + [c], Appended(before, c))
  {
    var more := conns + [c];
    assert more[|more| - 1] == c && more[..|more| - 1] == conns;
    assert BuiltFrom(root, more[..|more| - 1], before) && NoNilPeer(before, more[|more| - 1]);
  }

  /** Neither suppresses the other: an insertion of the second into a list with the first goes to the end. */
  predicate Apart(e: Connection, c: Connection) {
    !Reverses(e, c) && !(e.node == c.node && e.relationType == c.relationType) && e.peer.Some? && c.peer.Some?
  }

  lemma AddedAtEnd(all: seq<Connection>, c: Connection)
    requires forall i :: 0 <= i < |all| ==> Apart(all[i], c)
    ensures NoNilPeer(all, c) && Appended(all, c) == all + [c]
  {
    assert forall i :: 0 <= i < |all| ==> !Reverses(all[i], c);
    assert FirstReverse(all, c) == |all|;
  }

  lemma {:induction false} BuiltInOrder(root: Node, conns: seq<Connection>)
    requires var all := [Connection(0, root, Unset, Some(NOBODY))] + conns; forall i, j :: 0 <= i < j < |all| ==> Apart(all[i], all[j])
    ensures BuiltFrom(root, conns, [Connection(0, root, Unset, Some(NOBODY))] + conns)
  {
    hide Apart, Appended, NoNilPeer;
    if conns != [] {
      var init, c := conns[..|conns| - 1], conns[|conns| - 1];
      var before := [Connection(0, root, Unset, Some(NOBODY))] + init;
      var all := [Connection(0, root, Unset, Some(NOBODY))] + conns;
      assert forall i :: 0 <= i < |before| ==> before[i] == all[i];
      assert all[|before|] == c;
      BuiltInOrder(root, init);
      AddedAtEnd(before, c);
      assert conns == init + [c] && before + [c] == all;
      BuiltMore(root, init, before, c);
    }
  }

  /** `far` is found from the start by way of `near`, and the start from `far` by two relations. */
  function TwoWays(start: Node, near: Node, far: Node): seq<Connection> {
    [Connection(1, near, Label, Some(start)), Connection(2, far, Label, Some(near)),
     Connection(3, start, Label, Some(far)), Connection(3, start, EnvVariable, Some(far))]
  }

  lemma TwoWaysAreApart(start: Node, near: Node, far: Node)
    requires start.name != near.name && near.name != far.name && start.name != far.name
    requires start.name != "" && near.name != "" && far.name != ""
    ensures var all := [Connection(0, start, Unset, Some(NOBODY))] + TwoWays(start, near, far);
            && (forall i, j :: 0 <= i < j < |all| ==> Apart(all[i], all[j])) && ClashFree(all)
  {
    var all := [Connection(0, start, Unset, Some(NOBODY))] + TwoWays(start, near, far);
    assert all == [Connection(0, start, Unset, Some(NOBODY)), Connection(1, near, Label, Some(start)), Connection(2, far, Label, Some(near)),
                   Connection(3, start, Label, Some(far)), Connection(3, start, EnvVariable, Some(far))];
  }

  /** The exception is real: when `far` is then found from the start itself, at Level 1, a clash is left. All these insertions
      start from the list of the root alone. */
  lemma TwoRelationsClash(start: Node, near: Node, far: Node)
    requires start.name != near.name && near.name != far.name && start.name != far.name
    requires start.name != "" && near.name != "" && far.name != ""
    ensures var conns, c := TwoWays(start, near, far), Connection(1, far, Annotation, Some(start));
            exists before, all ::
              && BuiltFrom(start, conns, before) && ClashFree(before)
              && BuiltFrom(start, conns + [c], all) && !ClashFree(all)
  {
    var conns, c := TwoWays(start, near, far), Connection(1, far, Annotation, Some(start));
    var all := [Connection(0, start, Unset, Some(NOBODY))] + conns;
    TwoWaysAreApart(start, near, far);
    BuiltInOrder(start, conns);
    assert all[3] == conns[2] && all[4] == conns[3];
    hide BuiltFrom, ClashFree, Appended;
    assert Reverses(all[3], c) && Reverses(all[4], c);
    assert !AtMostOneReverse(all, c);
    assert NoNilPeer(all, c);
    AppendedClashFree(all, c);
    BuiltMore(start, conns, all, c);
  }
}
