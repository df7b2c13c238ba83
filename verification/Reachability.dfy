/** Walks in one namespace. */
module Reachability {
  import opened Connections
  import opened Cluster
  import opened Graph

  /** `b` is found from `a`, in the namespace of both. */
  ghost predicate Joined(w: World, sure: bool, a: Node, b: Node) {
    exists ty :: Edge(w, a, b, ty, a.namespace, sure)
  }

  /** A walk of at most `n` edges from `a` to `x`; only its last node may be ignored. */
  ghost predicate Walk(w: World, sure: bool, n: nat, a: Node, x: Node) {
    x == a || (n > 0 && exists y :: Walk(w, sure, n - 1, a, y) && !Ignored(w, y) && Joined(w, sure, y, x))
  }

  ghost predicate Reachable(w: World, sure: bool, a: Node, x: Node) {
    exists n: nat :: Walk(w, sure, n, a, x)
  }

  lemma {:induction false} WalkMore(w: World, sure: bool, n: nat, m: nat, a: Node, x: Node)
    requires n <= m && Walk(w, sure, n, a, x)
    ensures Walk(w, sure, m, a, x)
    decreases n
  {
    hide Joined, Ignored;
    if x != a {
      var y :| Walk(w, sure, n - 1, a, y) && !Ignored(w, y) && Joined(w, sure, y, x);
      WalkMore(w, sure, n - 1, m - 1, a, y);
    }
  }

  lemma {:induction false} WalkConcat(w: World, sure: bool, n: nat, m: nat, a: Node, y: Node, x: Node)
    requires Walk(w, sure, n, a, y) && Walk(w, sure, m, y, x)
    ensures Walk(w, sure, n + m, a, x)
    decreases m
  {
    hide Joined, Ignored;
    if x == y {
      WalkMore(w, sure, n, n + m, a, y);
    } else {
      var z :| Walk(w, sure, m - 1, y, z) && !Ignored(w, z) && Joined(w, sure, z, x);
      WalkConcat(w, sure, n, m - 1, a, y, z);
    }
  }

  lemma {:induction false} WalkStaysInNamespace(w: World, sure: bool, n: nat, a: Node, x: Node)
    requires Walk(w, sure, n, a, x)
    ensures x.namespace == a.namespace
  {
    hide Ignored;
    if x != a {
      var y :| Walk(w, sure, n - 1, a, y) && !Ignored(w, y) && Joined(w, sure, y, x);
      WalkStaysInNamespace(w, sure, n - 1, a, y);
    }
  }

  /** All edges from what can be reached are sure. */
  ghost predicate Settled(w: World, start: Node) {
    forall a, b, ty :: (Reachable(w, false, start, a) && !Ignored(w, a) && Edge(w, a, b, ty, a.namespace, false)) ==>
                         Edge(w, a, b, ty, a.namespace, true)
  }

  /** Then all walks are. */
  lemma {:induction false} SettledWalks(w: World, n: nat, start: Node, x: Node)
    requires Settled(w, start) && Walk(w, false, n, start, x)
    ensures Walk(w, true, n, start, x)
  {
    hide Edge, Ignored;
    if x != start {
      var y :| Walk(w, false, n - 1, start, y) && !Ignored(w, y) && Joined(w, false, y, x);
      SettledWalks(w, n - 1, start, y);
      var ty :| Edge(w, y, x, ty, y.namespace, false);
      assert Edge(w, y, x, ty, y.namespace, true);
    }
  }

  /** Unambiguous fields are enough for that, wherever in the namespace one starts. */
  lemma UnambiguousIsSettled(w: World, start: Node)
    requires WellFormed(w.cluster) && Unambiguous(w, start.namespace)
    ensures Settled(w, start)
  {
    hide WellFormed, Unambiguous, Edge, Ignored, Walk;
    forall a, b, ty | Reachable(w, false, start, a) && Edge(w, a, b, ty, a.namespace, false)
      ensures Edge(w, a, b, ty, a.namespace, true)
    {
      var n: nat :| Walk(w, false, n, start, a);
      WalkStaysInNamespace(w, false, n, start, a);
      UnambiguousEdges(w, a, b, ty, a.namespace);
    }
  }
}
