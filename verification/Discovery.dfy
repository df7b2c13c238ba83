/** The depth-first search of relationships.go. */
module Discovery {
  import opened Connections
  import opened EdgeList
  import opened LevelList
  import opened Cluster
  import opened Relationships
  import opened CompositionTree
  import opened Graph
  import opened Searches
  import opened Progress
  import CompositionStore
  import Text

  /** One run, with TotalClusterConnections and NamespaceToSearch as fields. */
  class Discovery {
    ghost const env: Env
    const world: World
    const cache: Cache
    var total: seq<Connection>
    var namespaceToSearch: string
    ghost var found: seq<Connection>
    ghost var entered: set<Node>
    ghost var active: seq<Node>

    constructor (ghost env: Env, world: World, cache: Cache)
      ensures this.env == env && this.world == world && this.cache == cache
      ensures total == [] && namespaceToSearch == "" && found == [] && entered == {} && active == []
    {
      this.env := env;
      this.world := world;
      this.cache := cache;
      total := [];
      namespaceToSearch := "";
      found := [];
      entered, active := {}, [];
    }

    ghost function Now(visited: seq<Connection>): State
      reads this
    {
      State(visited, total, namespaceToSearch, found, entered, active)
    }

    ghost predicate Prepared()
      reads cache
    {
      env.world == world && EnvOk(env) && Ready(world, cache)
    }

    /** What holds between any two calls of a run. */
    ghost predicate Good(visited: seq<Connection>, pending: set<Node>)
      reads this, cache
    {
      Prepared() && Ok(env, Now(visited)) && Closed(env, Now(visited), pending)
    }

    // -------------------------------------------------------------- a run

    /** The command: the root is inserted, and everything starts from it at Level 1. */
    method Run(kind: string, instance: string, namespace: string) returns (visited: seq<Connection>)
      requires Prepared() && total == [] && namespaceToSearch == "" && found == [] && entered == {} && active == []
      requires env.world.original == Node(kind, instance, namespace) && env.start == FrameNode(kind, instance, namespace)
      modifies this, cache
      ensures Good(visited, {}) && active == []
      ensures if Ignored(env.world, env.start) then visited == [] && total == [Connection(0, env.world.original, Unset, Some(NOBODY))]
              else env.start in Nodes(visited) && env.start in entered
    {
      hide Within, Ignored, Edge, WorldOk, ScopesClosed, NamespacesUnowned, Universe, Callable, Done, Anchored, Linked, Founded;
      var root := Connection(0, Node(kind, instance, namespace), Unset, Some(NOBODY));
      total := AppendConnections(total, root);
      assert total[1..] == [];
      NoNodes();
      StartCallable(env, Now([]));
      NothingIsSubsequence(found);
      visited := GetRelatives([], 1, kind, instance, kind, instance, namespace, Unset, {});
      assert {} - {env.start} == {};
    }

    // -------------------------------------------------------------- recording what was found

    method Append(visited: seq<Connection>, c: Connection, ghost pending: set<Node>)
      requires Good(visited, pending)
      requires Founded(env, found, c) && c.node.name != "" && (c.level > 1 ==> Anchored(total))
      modifies this
      ensures !IsHead(old(total), c.node) ==> Anchored(total)
      ensures Good(visited, pending) && Advances(env, old(Now(visited)), Now(visited))
      ensures PutAtEnd(old(total), c, total) && found == old(found) + [c] && namespaceToSearch == old(namespaceToSearch)
    {
      hide Ok, Closed, Extends, Steady, EnvOk, Founded, Anchored, IsHead, Appended;
      Recorded(env, Now(visited), c, pending);
      AppendedAtEnd(total, c);
      total := AppendConnections(total, c);
      found := found + [c];
    }

    /** The loop over the relatives that were seen before. */
    method AppendAll(visited: seq<Connection>, level: int, a: Node, conns: seq<Connection>, ghost pending: set<Node>)
      requires Good(visited, pending)
      requires Exploring(env, Now(visited), level, a) && AreRelatives(env, a, level, conns)
      modifies this
      ensures Good(visited, pending) && Advances(env, old(Now(visited)), Now(visited))
      ensures found == old(found) + conns && namespaceToSearch == old(namespaceToSearch)
    {
      hide Ok, Closed, Extends, Steady, EnvOk, Within, Ignored, Edge, IsRelative, Founded, Anchored, IsHead, Exploring, PutAtEnd;
      ghost var s0 := Now(visited);
      AdvancesReflexive(env, s0);
      for i := 0 to |conns|
        invariant Good(visited, pending) && Advances(env, s0, Now(visited))
        invariant found == old(found) + conns[..i] && namespaceToSearch == old(namespaceToSearch)
      {
        ExploringStays(env, s0, Now(visited), level, a);
        ReadyToAppend(env, Now(visited), a, level, conns[i]);
        ghost var s1 := Now(visited);
        Append(visited, conns[i], pending);
        AdvancesTransitive(env, s0, s1, Now(visited));
        assert conns[..i + 1] == conns[..i] + [conns[i]];
      }
      assert conns[..|conns|] == conns;
    }

    // -------------------------------------------------------------- GetRelatives

    method CheckIgnored(kind: string, instance: string) returns (ignored: bool)
      ensures forall namespace :: ignored == Ignored(world, Node(kind, instance, namespace))
    {
      hide Ignores;
      var ignoredRels := Text.Split(world.relsToIgnore, ',');
      for i := 0 to |ignoredRels|
        invariant forall j :: 0 <= j < i ==> !Ignores(ignoredRels[j], kind, instance)
      {
        assert ignoredRels[i] in ignoredRels;
        var matches := MatchesIgnored(ignoredRels[i], kind, instance);
        if matches {
          return true;
        }
      }
      return false;
    }

    /** One entry of the ignore list. */
    method MatchesIgnored(rel: string, kind: string, instance: string) returns (matches: bool)
      ensures matches == Ignores(rel, kind, instance)
    {
      var parts := Text.Split(rel, ':');
      if |parts| > 1 {
        if parts[1] == ANY {
          return kind == parts[0];
        }
        return kind + ":" + instance == rel;
      }
      return false;
    }

    method GetRelatives(visited: seq<Connection>, level: int, kind: string, instance: string, origkind: string, originstance: string,
                        namespace: string, relType: RelType, ghost pending: set<Node>)
      returns (v: seq<Connection>)
      requires Good(visited, pending)
      requires Callable(env, Now(visited), level, FrameNode(kind, instance, namespace)) && (level > 1 ==> Anchored(total))
      modifies this, cache
      ensures var k := FrameNode(kind, instance, namespace);
              Good(v, pending - {k}) && (Ignored(env.world, k) || (k in Nodes(v) && k in entered))
      ensures Extends(old(Now(visited)), Now(v))
      ensures kind != NAMESPACE ==> Steady(env, old(Now(visited)), Now(v))
      ensures var k := FrameNode(kind, instance, namespace);
              !Ignored(env.world, k) ==>
                HasAtMost(v, k, level)
                && (k !in Nodes(visited) ==>
                      NewEntry(visited, v, k, relType, if kind == origkind || instance == originstance then NOBODY
                                                       else Node(origkind, originstance, k.namespace)))
      ensures Ignored(env.world, FrameNode(kind, instance, namespace)) ==> v == visited && Now(v) == old(Now(visited))
      decreases Fuel(env, visited, FrameNode(kind, instance, namespace)), Flag(namespace, namespaceToSearch), 8
    {
      hide Ok, Closed, Extends, Within, Ignored, EnvOk, Universe, Steady, Nodes, Fuel, Callable, Ready, Anchored;
      ghost var s0 := Now(visited);
      var ignored := CheckIgnored(kind, instance);
      if ignored {
        IgnoredNotPending(env, s0, pending, FrameNode(kind, instance, namespace));
        AdvancesReflexive(env, s0);
        return visited;
      }
      var ns := namespace;
      if kind == NAMESPACE {
        namespaceToSearch := instance;
        ns := instance;
      }
      var peer := if kind != origkind && instance != originstance then Node(origkind, originstance, ns) else NOBODY;
      var inputInstance := Connection(level, Node(kind, instance, ns), relType, Some(peer));
      v := Enter(visited, level, inputInstance, pending, s0);
    }

    /** The end of GetRelatives: its node is visited and its relatives are found. `s0` is the state in which the call began. */
    method Enter(visited: seq<Connection>, level: int, entry: Connection, ghost pending: set<Node>, ghost s0: State)
      returns (v: seq<Connection>)
      requires Prepared() && Ok(env, s0) && Closed(env, s0, pending)
      requires Now(visited) == if entry.node.kind == NAMESPACE then s0.(namespaceToSearch := entry.node.name) else s0
      requires entry.node.kind == NAMESPACE ==> entry.node.namespace == entry.node.name
      requires Callable(env, s0, level, entry.node) && entry.level == level && !Ignored(env.world, entry.node)
      requires level > 1 ==> Anchored(total)
      modifies this, cache
      ensures Good(v, pending - {entry.node}) && entry.node in Nodes(v) && entry.node in entered
      ensures Extends(s0, Now(v)) && (entry.node.kind != NAMESPACE ==> Steady(env, s0, Now(v)))
      ensures HasAtMost(v, entry.node, level)
      ensures entry.peer.Some? && entry.node !in Nodes(visited) ==> NewEntry(visited, v, entry.node, entry.relationType, entry.peer.value)
      decreases Fuel(env, visited, entry.node), Flag(entry.node.namespace, namespaceToSearch), 7
    {
      hide Ok, Closed, Extends, Within, Ignored, EnvOk, Universe, Merged, Steady, Exploring, Nodes, Room, Fuel, Done, Anchored, Flag,
           Callable, Entry, Ready, HandsOverGroups, HasAtMost, NewEntry;
      var a := entry.node;
      Entered(env, s0, entry, level, pending);
      v := AppendConnections1(visited, [entry]);
      entered, active := entered + {a}, active + [a];
      ghost var s1 := Now(v);
      EntryIs(s0, entry);
      assert s1 == Entry(s0, entry);
      ghost var groups;
      v, groups := FindRelatives(v, level, a, pending + {a});
      CallReturns(env, s0, s1, Now(v), a, pending);
      EntryStays(visited, s1, Now(v), entry);
      active := s0.active;
    }

    // -------------------------------------------------------------- the relatives of one node

    method FindRelatives(visited: seq<Connection>, level: int, a: Node, ghost pending: set<Node>)
      returns (v: seq<Connection>, ghost groups: Groups)
      requires Good(visited, pending) && a in pending
      requires Exploring(env, Now(visited), level, a)
      modifies this, cache
      ensures Good(v, pending - {a}) && Advances(env, old(Now(visited)), Now(v))
      ensures a in Nodes(v) && Done(env, Now(v), a)
      ensures HandsOverGroups(env, old(Now(visited)), Now(v), level, a, groups)
      decreases Room(env, visited), Flag(a.namespace, namespaceToSearch), 6
    {
      hide Ok, Closed, Extends, Steady, EnvOk, Within, Ignored, Noted, RelNoted, OwnersNoted, ChildrenNoted, ComponentsNoted, DownNoted, UpNoted, Room, Done,
           HandsOver, Relate, OwnersOnly, ChildrenOnly, ComponentsOnly, HandsOverGroups;
      ghost var s0 := Now(visited);
      ghost var down, up, owners, children, components;
      v, down := FindDownstreamRelatives(visited, level, a, RelsOf(world, a.kind), pending);
      ghost var s1 := Now(v);
      Continue(env, s0, s0, s1, level, a);
      v, up := FindAllUpstream(v, level, a, pending);
      ghost var s2 := Now(v);
      Continue(env, s0, s1, s2, level, a);
      v, owners := FindParentConnections(v, level, a, pending);
      ghost var s3 := Now(v);
      Continue(env, s0, s2, s3, level, a);
      v, children := FindChildrenConnections(v, level, a, pending);
      ghost var s4 := Now(v);
      Continue(env, s0, s3, s4, level, a);
      v, components := FindCompositionConnections(v, level, a, pending);
      Continue(env, s0, s4, Now(v), level, a);
      groups := Groups(down, up, owners, children, components);
      InTheirTurn(env, s0, s1, s2, s3, s4, Now(v), level, a, groups);
      GroupsAreDone(env, s0, Now(v), level, a, groups);
      assert pending - {a} + {a} == pending;
      ClosedWith(env, Now(v), pending - {a}, a);
      assert pending - {a} - {a} == pending - {a};
    }

    method FindDownstreamRelatives(visited: seq<Connection>, level: int, a: Node, relStringList: seq<Relationship>, ghost pending: set<Node>)
      returns (v: seq<Connection>, ghost own: seq<Connection>)
      requires Good(visited, pending)
      requires Exploring(env, Now(visited), level, a) && relStringList == RelsOf(env.world, a.kind)
      modifies this, cache
      ensures Good(v, pending) && Advances(env, old(Now(visited)), Now(v))
      ensures HandsOver(old(Now(visited)), Now(v), own) && Relate(env, true, level, a, own)
      ensures DownNoted(env, Own(Now(v), own), a)
      decreases Room(env, visited), Flag(a.namespace, namespaceToSearch), 4
    {
      hide Ok, Closed, Extends, Steady, EnvOk, Within, Ignored, RelNoted, Room, Relate, HandsOver;
      v, own := visited, [];
      ghost var s0 := Now(visited);
      AdvancesReflexive(env, s0);
      HandsOverNothing(s0, s0);
      RelateNothing(env, true, level, a);
      for i := 0 to |relStringList|
        invariant Good(v, pending) && Advances(env, s0, Now(v))
        invariant HandsOver(s0, Now(v), own) && Relate(env, true, level, a, own)
        invariant DownUpTo(env, Own(Now(v), own), a, relStringList, i)
      {
        ghost var s1 := Now(v);
        Continue(env, s0, s0, s1, level, a);
        ghost var more;
        v, more := FollowDown(v, level, a, relStringList[i], pending);
        AdvancesTransitive(env, s0, s1, Now(v));
        HandsOverStep(s0, s1, Now(v), own, more);
        OwnExtends(s1, Now(v), own, more);
        RelateConcat(env, true, level, a, own, more);
        DownUpToStays(env, Own(s1, own), Own(Now(v), own + more), a, relStringList, i);
        KindsNotedIn(env, Now(v), more, own + more, true, a, relStringList[i]);
        own := own + more;
      }
    }

    /** The loop over the target kinds of one relationship. */
    method FollowDown(visited: seq<Connection>, level: int, a: Node, rel: Relationship, ghost pending: set<Node>)
      returns (v: seq<Connection>, ghost own: seq<Connection>)
      requires Good(visited, pending)
      requires Exploring(env, Now(visited), level, a) && rel in RelsOf(env.world, a.kind)
      modifies this, cache
      ensures Good(v, pending) && Advances(env, old(Now(visited)), Now(v))
      ensures HandsOver(old(Now(visited)), Now(v), own) && Relate(env, true, level, a, own)
      ensures forall kind :: kind in rel.targetKinds ==> RelNoted(env, Own(Now(v), own), true, a, rel, kind)
      decreases Room(env, visited), Flag(a.namespace, namespaceToSearch), 3
    {
      hide Ok, Closed, Extends, Steady, EnvOk, Within, Ignored, RelNoted, Room, Finds, Relate, HandsOver, Done, Parts, Leads;
      v, own := visited, [];
      ghost var s0 := Now(visited);
      AdvancesReflexive(env, s0);
      HandsOverNothing(s0, s0);
      RelateNothing(env, true, level, a);
      for i := 0 to |rel.targetKinds|
        invariant Good(v, pending) && Advances(env, s0, Now(v))
        invariant HandsOver(s0, Now(v), own) && Relate(env, true, level, a, own)
        invariant KindsUpTo(env, Own(Now(v), own), a, rel, i)
      {
        ghost var s1 := Now(v);
        Continue(env, s0, s0, s1, level, a);
        TargetNamespaceInScopes(env, s1, a);
        EnvWorld(env);
        var conns := SearchDown(world, cache, level, a, rel, rel.targetKinds[i], namespaceToSearch);
        ghost var targetNamespace := TargetNamespace(namespaceToSearch, a.namespace);
        FoundRelatives(env, true, level, a, rel, rel.targetKinds[i], targetNamespace, conns);
        ghost var before := v;
        ghost var more := Parts(v, conns);
        v := BuildGraph(v, level, a, conns, rel.targetKinds[i], TypeOf(rel), pending);
        AdvancesTransitive(env, s0, s1, Now(v));
        HandsOverStep(s0, s1, Now(v), own, more);
        OwnExtends(s1, Now(v), own, more);
        RelateParts(env, true, level, a, before, conns);
        RelateConcat(env, true, level, a, own, more);
        KindsUpToStays(env, Own(s1, own), Own(Now(v), own + more), a, rel, i);
        own := own + more;
        FoundNoted(env, Own(Now(v), own), true, level, a, rel, rel.targetKinds[i], targetNamespace, conns);
      }
    }

    /** The kinds that have a relationship with the given target. The relationship map is visited in any order. */
    method FindRelatedKinds(kind: string) returns (relatedKinds: seq<string>)
      ensures forall related :: related in relatedKinds <==>
                related in world.relationships && exists rel :: rel in world.relationships[related] && kind in rel.targetKinds
    {
      relatedKinds := [];
      var keys := world.relationships.Keys;
      while keys != {}
        invariant keys <= world.relationships.Keys
        invariant forall related :: related in relatedKinds <==>
                    related in world.relationships.Keys - keys && exists rel :: rel in world.relationships[related] && kind in rel.targetKinds
        decreases |keys|
      {
        var key :| key in keys;
        keys := keys - {key};
        var rels := world.relationships[key];
        ghost var before := relatedKinds;
        for i := 0 to |rels|
          invariant forall related :: related in relatedKinds <==>
                      related in before || (related == key && exists j :: 0 <= j < i && kind in rels[j].targetKinds)
        {
          for j := 0 to |rels[i].targetKinds|
            invariant forall related :: related in relatedKinds <==>
                        || related in before
                        || (related == key && exists k :: 0 <= k < i && kind in rels[k].targetKinds)
                        || (related == key && kind in rels[i].targetKinds[..j])
          {
            if rels[i].targetKinds[j] == kind {
              relatedKinds := relatedKinds + [key];
            }
            assert rels[i].targetKinds[..j + 1] == rels[i].targetKinds[..j] + [rels[i].targetKinds[j]];
          }
          assert rels[i].targetKinds[..|rels[i].targetKinds|] == rels[i].targetKinds;
        }
      }
    }

    /** The loop over related kinds in findRelatives. */
    method FindAllUpstream(visited: seq<Connection>, level: int, a: Node, ghost pending: set<Node>)
      returns (v: seq<Connection>, ghost own: seq<Connection>)
      requires Good(visited, pending)
      requires Exploring(env, Now(visited), level, a)
      modifies this, cache
      ensures Good(v, pending) && Advances(env, old(Now(visited)), Now(v))
      ensures HandsOver(old(Now(visited)), Now(v), own) && Relate(env, false, level, a, own)
      ensures forall kind :: UpNoted(env, Own(Now(v), own), a, kind)
      decreases Room(env, visited), Flag(a.namespace, namespaceToSearch), 5
    {
      hide Ok, Closed, Extends, Steady, EnvOk, Within, Ignored, RelNoted, Room, Relate, HandsOver;
      v, own := visited, [];
      ghost var s0 := Now(visited);
      AdvancesReflexive(env, s0);
      HandsOverNothing(s0, s0);
      RelateNothing(env, false, level, a);
      var relatedKindList := FindRelatedKinds(a.kind);
      for i := 0 to |relatedKindList|
        invariant Good(v, pending) && Advances(env, s0, Now(v))
        invariant HandsOver(s0, Now(v), own) && Relate(env, false, level, a, own)
        invariant forall j :: 0 <= j < i ==> UpNoted(env, Own(Now(v), own), a, relatedKindList[j])
      {
        ghost var s1 := Now(v);
        Continue(env, s0, s0, s1, level, a);
        ghost var more;
        v, more := FindUpstreamRelatives(v, level, relatedKindList[i], a, RelsOf(world, relatedKindList[i]), pending);
        AdvancesTransitive(env, s0, s1, Now(v));
        HandsOverStep(s0, s1, Now(v), own, more);
        OwnExtends(s1, Now(v), own, more);
        RelateConcat(env, false, level, a, own, more);
        forall j | 0 <= j < i
          ensures UpNoted(env, Own(Now(v), own + more), a, relatedKindList[j])
        {
          UpNotedStays(env, Own(s1, own), Own(Now(v), own + more), a, relatedKindList[j]);
        }
        UpNotedIn(env, Now(v), more, own + more, a, relatedKindList[i]);
        own := own + more;
      }
      forall kind
        ensures UpNoted(env, Own(Now(v), own), a, kind)
      {
        if kind in relatedKindList {
          var i :| 0 <= i < |relatedKindList| && relatedKindList[i] == kind;
        }
      }
    }

    method FindUpstreamRelatives(visited: seq<Connection>, level: int, relatedKind: string, a: Node, relStringList: seq<Relationship>,
                                 ghost pending: set<Node>)
      returns (v: seq<Connection>, ghost own: seq<Connection>)
      requires Good(visited, pending)
      requires Exploring(env, Now(visited), level, a) && relStringList == RelsOf(env.world, relatedKind)
      modifies this, cache
      ensures Good(v, pending) && Advances(env, old(Now(visited)), Now(v))
      ensures HandsOver(old(Now(visited)), Now(v), own) && Relate(env, false, level, a, own)
      ensures UpNoted(env, Own(Now(v), own), a, relatedKind)
      decreases Room(env, visited), Flag(a.namespace, namespaceToSearch), 4
    {
      hide Ok, Closed, Extends, Steady, EnvOk, Within, Ignored, RelNoted, Room, Relate, HandsOver;
      v, own := visited, [];
      ghost var s0 := Now(visited);
      AdvancesReflexive(env, s0);
      HandsOverNothing(s0, s0);
      RelateNothing(env, false, level, a);
      for i := 0 to |relStringList|
        invariant Good(v, pending) && Advances(env, s0, Now(v))
        invariant HandsOver(s0, Now(v), own) && Relate(env, false, level, a, own)
        invariant UpUpTo(env, Own(Now(v), own), a, relatedKind, relStringList, i)
      {
        ghost var s1 := Now(v);
        Continue(env, s0, s0, s1, level, a);
        ghost var more;
        v, more := FollowUp(v, level, relatedKind, a, relStringList[i], pending);
        AdvancesTransitive(env, s0, s1, Now(v));
        HandsOverStep(s0, s1, Now(v), own, more);
        OwnExtends(s1, Now(v), own, more);
        RelateConcat(env, false, level, a, own, more);
        UpUpToStays(env, Own(s1, own), Own(Now(v), own + more), a, relatedKind, relStringList, i);
        if a.kind in relStringList[i].targetKinds {
          RelNotedIn(env, Now(v), more, own + more, false, a, relStringList[i], relatedKind);
        }
        own := own + more;
      }
    }

    /** The loop over the target kinds of one relationship, for those that are the kind of `a`. */
    method FollowUp(visited: seq<Connection>, level: int, relatedKind: string, a: Node, rel: Relationship, ghost pending: set<Node>)
      returns (v: seq<Connection>, ghost own: seq<Connection>)
      requires Good(visited, pending)
      requires Exploring(env, Now(visited), level, a) && rel in RelsOf(env.world, relatedKind)
      modifies this, cache
      ensures Good(v, pending) && Advances(env, old(Now(visited)), Now(v))
      ensures HandsOver(old(Now(visited)), Now(v), own) && Relate(env, false, level, a, own)
      ensures a.kind in rel.targetKinds ==> RelNoted(env, Own(Now(v), own), false, a, rel, relatedKind)
      decreases Room(env, visited), Flag(a.namespace, namespaceToSearch), 3
    {
      hide Ok, Closed, Extends, Steady, EnvOk, Within, Ignored, RelNoted, Room, Finds, Relate, HandsOver, Done, Parts, Leads;
      v, own := visited, [];
      ghost var s0 := Now(visited);
      AdvancesReflexive(env, s0);
      HandsOverNothing(s0, s0);
      RelateNothing(env, false, level, a);
      for i := 0 to |rel.targetKinds|
        invariant Good(v, pending) && Advances(env, s0, Now(v))
        invariant HandsOver(s0, Now(v), own) && Relate(env, false, level, a, own)
        invariant a.kind in rel.targetKinds[..i] ==> RelNoted(env, Own(Now(v), own), false, a, rel, relatedKind)
      {
        assert rel.targetKinds[..i + 1] == rel.targetKinds[..i] + [rel.targetKinds[i]];
        if rel.targetKinds[i] == a.kind {
          ghost var s1 := Now(v);
          Continue(env, s0, s0, s1, level, a);
          TargetNamespaceInScopes(env, s1, a);
          EnvWorld(env);
          var conns := SearchUp(world, cache, level, a, rel, relatedKind, namespaceToSearch);
          ghost var targetNamespace := TargetNamespace(namespaceToSearch, a.namespace);
          FoundRelatives(env, false, level, a, rel, relatedKind, targetNamespace, conns);
          ghost var before := v;
          ghost var more := Parts(v, conns);
          v := BuildGraph(v, level, a, conns, relatedKind, TypeOf(rel), pending);
          AdvancesTransitive(env, s0, s1, Now(v));
          HandsOverStep(s0, s1, Now(v), own, more);
          RelateParts(env, false, level, a, before, conns);
          RelateConcat(env, false, level, a, own, more);
          own := own + more;
          FoundNoted(env, Own(Now(v), own), false, level, a, rel, relatedKind, targetNamespace, conns);
        }
      }
      assert rel.targetKinds[..|rel.targetKinds|] == rel.targetKinds;
    }

    // -------------------------------------------------------------- marked relatives

    /** The relatives are marked as visited before they are explored. */
    method BuildGraph(visited: seq<Connection>, level: int, a: Node, relatives: seq<Connection>, targetKind: string, relType: RelType,
                      ghost pending: set<Node>)
      returns (v: seq<Connection>)
      requires Good(visited, pending)
      requires Exploring(env, Now(visited), level, a) && AreRelatives(env, a, level, relatives)
      requires forall c :: c in relatives ==> c.node.kind == targetKind
      modifies this, cache
      ensures Good(v, pending) && Advances(env, old(Now(visited)), Now(v))
      ensures forall c :: c in relatives ==> c.node in Nodes(v) && HasAtMost(v, c.node, level)
      ensures HandsOver(old(Now(visited)), Now(v), Parts(visited, relatives))
      decreases Room(env, visited), Flag(a.namespace, namespaceToSearch), 2
    {
      var unseenRelatives, seenRelatives := FilterConnections(visited, relatives);
      ghost var s0 := Now(visited);
      RelativesPlaced(env, s0, a, level, relatives);
      Marked(env, s0, relatives, pending);
      v := AppendConnections1(visited, relatives);
      ghost var s1 := Now(v);
      UnseenPending(env, visited, relatives, unseenRelatives, pending, s1);
      ExploringStays(env, s0, s1, level, a);
      SelectRelatives(env, a, level, visited, relatives);
      UnseenGrow(env, s0, s1, relatives, unseenRelatives);
      v := SearchNextLevel(v, level, unseenRelatives, a, targetKind, relType, pending, Room(env, visited), Flag(a.namespace, namespaceToSearch));
      ghost var s2 := Now(v);
      ExtendsTransitive(s0, s1, s2);
      ExploringStays(env, s0, s2, level, a);
      AppendAll(v, level, a, seenRelatives, pending);
      ExtendsTransitive(s0, s2, Now(v));
      HandsOverAll(s2, Now(v), seenRelatives);
      HandsOverStep(s0, s2, Now(v), unseenRelatives, seenRelatives);
      MarkedAtMost(env, visited, v, level, a, relatives);
    }

    method SearchNextLevel(visited: seq<Connection>, level: int, relatives: seq<Connection>, a: Node, targetKind: string, relType: RelType,
                           ghost pending: set<Node>, ghost room: nat, ghost flag: nat)
      returns (v: seq<Connection>)
      requires Good(visited, pending + Nodes(relatives))
      requires Exploring(env, Now(visited), level, a) && AreRelatives(env, a, level, relatives)
      requires forall c :: c in relatives ==> c.node.kind == targetKind && c.node != a && (Constant(env) ==> c.node !in active)
      requires relatives != [] ==> Room(env, visited) < room
      modifies this, cache
      ensures Good(v, pending) && Extends(old(Now(visited)), Now(v))
      ensures relatives == [] ==> Now(v) == old(Now(visited))
      ensures HandsOver(old(Now(visited)), Now(v), relatives)
      decreases room, flag, 1
    {
      hide Ok, Closed, Within, Ignored, EnvOk, Edge, Universe, Nodes, Constant, Founded, Anchored, IsHead, IsRelative, Callable, Room, Fuel,
           Grows, HandsOver, PutAtEnd;
      v := visited;
      ghost var s0 := Now(visited);
      AdvancesReflexive(env, s0);
      var namespace := a.namespace;
      assert relatives[0..] == relatives && relatives[..0] == [];
      HandsOverNothing(s0, s0);
      for i := 0 to |relatives|
        invariant Good(v, pending + Nodes(relatives[i..])) && Extends(s0, Now(v))
        invariant namespace in env.scopes && (namespace == a.namespace || namespaceToSearch != "")
        invariant i == 0 ==> Now(v) == s0
        invariant HandsOver(s0, Now(v), relatives[..i])
      {
        var c := relatives[i];
        ghost var s1 := Now(v);
        ExploringStays(env, s0, s1, level, a);
        ReadyToAppend(env, s1, a, level, c);
        Append(v, c, pending + Nodes(relatives[i..]));
        ghost var s2 := Now(v);
        ghost var before := namespace;
        if namespaceToSearch != "" {
          namespace := namespaceToSearch;
        }
        ExtendsTransitive(s0, s1, s2);
        ReadyToCallMarked(env, s0, s1, s2, a, level, c, before, namespace);
        v := GetRelatives(v, level + 1, targetKind, c.node.name, a.kind, a.name, namespace, relType, pending + Nodes(relatives[i..]));
        OneLessPending(env, Now(v), pending, relatives, i, FrameNode(targetKind, c.node.name, namespace));
        ExtendsTransitive(s0, s2, Now(v));
        HandsOverOne(s1, s2, Now(v), c);
        HandsOverStep(s0, s1, Now(v), relatives[..i], [c]);
        assert relatives[..i + 1] == relatives[..i] + [c];
      }
      assert relatives[|relatives|..] == [] && relatives[..|relatives|] == relatives;
      NoNodes();
      assert pending + {} == pending;
    }

    // -------------------------------------------------------------- owners, children and components

    method FindParentConnections(visited: seq<Connection>, level: int, a: Node, ghost pending: set<Node>)
      returns (v: seq<Connection>, ghost own: seq<Connection>)
      requires Good(visited, pending)
      requires Exploring(env, Now(visited), level, a)
      modifies this, cache
      ensures Good(v, pending) && Advances(env, old(Now(visited)), Now(v))
      ensures HandsOver(old(Now(visited)), Now(v), own) && OwnersOnly(env, level, a, own)
      ensures OwnersNoted(env, Own(Now(v), own), a)
      decreases Room(env, visited), Flag(a.namespace, namespaceToSearch), 4
    {
      hide Ok, Closed, Extends, Steady, Within, Ignored, Room, Noted;
      v, own := visited, [];
      AdvancesReflexive(env, Now(visited));
      HandsOverNothing(Now(visited), Now(visited));
      var o := cache.GetKubeObject(a.kind, a.name, a.namespace, GvkOf(world, a.kind));
      var owner := if o.Some? then OwnerOf(o.value) else OwnerRef("", "");
      if owner.kind != "" && owner.name != "" {
        var peer := OwnerPeer(a, Node(owner.kind, owner.name, a.namespace));
        var ownerConn := Connection(level, Node(owner.kind, owner.name, a.namespace), OwnerReference, Some(peer));
        OwnerRelative(env, level, a, ownerConn);
        own := Parts(visited, [ownerConn]);
        v := SearchUnmarked(visited, level, a, [ownerConn], pending);
        assert ownerConn in [ownerConn];
        OwnerNoted(env, Own(Now(v), own), a, ownerConn);
      }
    }

    /** The target kinds of all owner references. */
    method FindChildKinds() returns (childKinds: seq<string>)
      ensures forall kind :: kind in childKinds <==> kind in ChildKinds(world)
    {
      childKinds := [];
      var keys := world.relationships.Keys;
      while keys != {}
        invariant keys <= world.relationships.Keys
        invariant forall kind :: kind in childKinds <==>
                    exists key, rel :: key in world.relationships.Keys - keys && rel in world.relationships[key]
                                       && rel.relType == OwnerReference && kind in rel.targetKinds
        decreases |keys|
      {
        var key :| key in keys;
        keys := keys - {key};
        var rels := world.relationships[key];
        ghost var before := childKinds;
        for i := 0 to |rels|
          invariant forall kind :: kind in childKinds <==>
                      kind in before || exists j :: 0 <= j < i && rels[j].relType == OwnerReference && kind in rels[j].targetKinds
        {
          if rels[i].relType == OwnerReference {
            childKinds := childKinds + rels[i].targetKinds;
          }
        }
      }
    }

    method FindChildrenConnections(visited: seq<Connection>, level: int, a: Node, ghost pending: set<Node>)
      returns (v: seq<Connection>, ghost own: seq<Connection>)
      requires Good(visited, pending)
      requires Exploring(env, Now(visited), level, a)
      modifies this, cache
      ensures Good(v, pending) && Advances(env, old(Now(visited)), Now(v))
      ensures HandsOver(old(Now(visited)), Now(v), own) && ChildrenOnly(env, level, a, own)
      ensures ChildrenNoted(env, Own(Now(v), own), a)
      decreases Room(env, visited), Flag(a.namespace, namespaceToSearch), 4
    {
      hide Ok, Closed, Extends, Steady, Within, Ignored, Room, Noted, EnvOk;
      var relatedKindList := FindChildKinds();
      var childs: seq<Connection> := [];
      for i := 0 to |relatedKindList|
        invariant Good(visited, pending) && Now(visited) == old(Now(visited))
        invariant ChildrenUpTo(env, level, a, relatedKindList, i, childs)
      {
        var children := GetObjects(world, cache, relatedKindList[i], ANY, a.namespace);
        ghost var before := childs;
        for j := 0 to |children|
          invariant childs == before + ChildConnections(level, a, relatedKindList[i], children[..j])
        {
          if OwnerOf(children[j]) == OwnerRef(a.kind, a.name) {
            childs := childs + [Connection(level, Node(relatedKindList[i], children[j].name, a.namespace), OwnerReference, Some(a))];
          }
          assert children[..j + 1][..j] == children[..j];
        }
        assert children[..|children|] == children;
        ChildrenStep(env, level, a, relatedKindList, i, before, children);
      }
      ChildRelatives(env, Now(visited), level, a, relatedKindList, childs);
      own := Parts(visited, childs);
      v := SearchUnmarked(visited, level, a, childs, pending);
      ChildrenAllNoted(env, Own(Now(v), own), level, a, relatedKindList, childs);
    }

    method FindCompositionConnections(visited: seq<Connection>, level: int, a: Node, ghost pending: set<Node>)
      returns (v: seq<Connection>, ghost own: seq<Connection>)
      requires Good(visited, pending)
      requires Exploring(env, Now(visited), level, a)
      modifies this, cache
      ensures Good(v, pending) && Advances(env, old(Now(visited)), Now(v))
      ensures HandsOver(old(Now(visited)), Now(v), own) && ComponentsOnly(env, level, a, own)
      ensures ComponentsNoted(env, Own(Now(v), own), a)
      decreases Room(env, visited), Flag(a.namespace, namespaceToSearch), 4
    {
      hide Ok, Closed, Extends, Steady, Within, Ignored, Room, Noted, EnvOk;
      v, own := visited, [];
      AdvancesReflexive(env, Now(visited));
      HandsOverNothing(Now(visited), Now(visited));
      if a.kind in world.crdKinds {
        var composition := CompositionStore.GetCompositions(world.compositions, a);
        var childrenConnections: seq<Connection> := [];
        for i := 0 to |composition|
          invariant childrenConnections == ComponentConnections(level, a, composition[..i])
        {
          ghost var before := childrenConnections;
          if composition[i].level == 1 {
            var children := composition[i].children;
            for j := 0 to |children|
              invariant childrenConnections == before + ConnectionsOf(level, a, children[..j])
            {
              var child := children[j];
              childrenConnections := childrenConnections
                + [Connection(level, Node(child.kind, child.name, child.namespace), OwnerReference, Some(a))];
              assert children[..j + 1][..j] == children[..j];
            }
            assert children[..|children|] == children;
          }
          assert composition[..i + 1][..i] == composition[..i];
        }
        assert composition[..|composition|] == composition;
        ComponentRelatives(env, Now(visited), level, a, childrenConnections);
        own := Parts(visited, childrenConnections);
        v := SearchUnmarked(visited, level, a, childrenConnections, pending);
        ComponentsAllNoted(env, Own(Now(v), own), level, a, childrenConnections);
      }
    }

    /** The three loops over owners, children and components: these relatives are marked only when they are entered. */
    method SearchUnmarked(visited: seq<Connection>, level: int, a: Node, conns: seq<Connection>, ghost pending: set<Node>)
      returns (v: seq<Connection>)
      requires Good(visited, pending)
      requires Exploring(env, Now(visited), level, a) && AreRelatives(env, a, level, conns)
      requires forall c :: c in conns ==> c.node.kind != NAMESPACE || Constant(env)
      modifies this, cache
      ensures Good(v, pending) && Advances(env, old(Now(visited)), Now(v))
      ensures forall c :: c in conns ==> Arrived(env, Now(v), c.node)
      ensures HandsOver(old(Now(visited)), Now(v), Parts(visited, conns))
      decreases Room(env, visited), Flag(a.namespace, namespaceToSearch), 2
    {
      hide Ok, Closed, Steady, EnvOk, Within, Ignored, Edge, Room, Flag, Arrived;
      var toSearch, seenRelatives := FilterConnections(visited, conns);
      ghost var s0 := Now(visited);
      SelectRelatives(env, a, level, visited, conns);
      v := SearchUnseen(visited, level, a, toSearch, pending);
      ghost var s1 := Now(v);
      ExploringStays(env, s0, s1, level, a);
      AppendAll(v, level, a, seenRelatives, pending);
      AdvancesTransitive(env, s0, s1, Now(v));
      AllArrived(env, s0, s1, Now(v), conns, toSearch, seenRelatives);
      HandsOverAll(s1, Now(v), seenRelatives);
      HandsOverStep(s0, s1, Now(v), toSearch, seenRelatives);
    }

    method SearchUnseen(visited: seq<Connection>, level: int, a: Node, conns: seq<Connection>, ghost pending: set<Node>)
      returns (v: seq<Connection>)
      requires Good(visited, pending)
      requires Exploring(env, Now(visited), level, a) && AreRelatives(env, a, level, conns)
      requires forall c :: c in conns ==> c.node !in Nodes(visited) && c.node != a && (c.node.kind != NAMESPACE || Constant(env))
      modifies this, cache
      ensures Good(v, pending) && Advances(env, old(Now(visited)), Now(v))
      ensures forall c :: c in conns ==> Arrived(env, Now(v), c.node)
      ensures HandsOver(old(Now(visited)), Now(v), conns)
      decreases Room(env, visited), Flag(a.namespace, namespaceToSearch), 1
    {
      hide Ok, Closed, Steady, EnvOk, Within, Ignored, Edge, Room, Flag, Fuel, Arrived, Founded, Anchored, IsHead, Universe, Callable,
           Grows, Nodes, IsRelative, FirstNamespace, HandsOver, PutAtEnd;
      v := visited;
      ghost var s0 := Now(visited);
      AdvancesReflexive(env, s0);
      var namespace := a.namespace;
      FirstNamespaceHolds(env, s0, a);
      HandsOverNothing(s0, s0);
      for i := 0 to |conns|
        invariant Good(v, pending) && Advances(env, s0, Now(v))
        invariant FirstNamespace(env, s0, Now(v), a, namespace) && (namespace == a.namespace || namespaceToSearch != "")
        invariant forall j :: 0 <= j < i ==> Arrived(env, Now(v), conns[j].node)
        invariant HandsOver(s0, Now(v), conns[..i])
      {
        var c := conns[i];
        ghost var s1 := Now(v);
        ExploringStays(env, s0, s1, level, a);
        ReadyToAppend(env, s1, a, level, c);
        Append(v, c, pending);
        ghost var s2 := Now(v);
        AdvancesTransitive(env, s0, s1, s2);
        ghost var before := namespace;
        if namespaceToSearch != "" {
          namespace := namespaceToSearch;
        }
        ReadyToCallUnmarked(env, s0, s1, s2, a, level, c, before, namespace);
        v := GetRelatives(v, level + 1, c.node.kind, c.node.name, a.kind, a.name, namespace, OwnerReference, pending);
        ghost var k := FrameNode(c.node.kind, c.node.name, namespace);
        ClosedMore(env, Now(v), pending - {k}, pending);
        SteadyInConstant(env, s2, Now(v));
        AdvancesTransitive(env, s0, s2, Now(v));
        FrameArrived(env, Now(v), c.node, namespace);
        StillArrived(env, s1, Now(v), conns, i);
        FirstNamespaceStays(env, s0, s2, Now(v), a, namespace);
        HandsOverOne(s1, s2, Now(v), c);
        HandsOverStep(s0, s1, Now(v), conns[..i], [c]);
        assert conns[..i + 1] == conns[..i] + [c];
      }
      assert conns[..|conns|] == conns;
    }
  }
}
