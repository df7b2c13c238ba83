/** The store of compositions, kept across rebuilds: storeCompositions, purgeCompositionOfDeletedItems and
    BuildCompositionTree of discovery.go. */
module CompositionStore {
  import opened Connections
  import opened Cluster
  import opened CompositionTree
  import opened Finiteness
  import FieldSearch
  import opened Ownership

  /** One stored object with its status and the flat list of its tree. */
  datatype Compositions = Compositions(key: Node, status: string, compositionTree: seq<TreeNode>)

  /** What the store holds for a key. */
  datatype Entry = Entry(status: string, compositionTree: seq<TreeNode>)

  ghost predicate UniqueKeys(list: seq<Compositions>) {
    forall i, j :: 0 <= i < j < |list| ==> list[i].key != list[j].key
  }

  function IndexOf(list: seq<Compositions>, key: Node): (i: nat)
    ensures i <= |list|
    ensures i < |list| ==> list[i].key == key
    ensures forall j :: 0 <= j < i ==> list[j].key != key
  {
    if list == [] || list[0].key == key then 0 else 1 + IndexOf(list[1..], key)
  }

  ghost function Keys(list: seq<Compositions>): set<Node> {
    set i | 0 <= i < |list| :: list[i].key
  }

  /** The list as a map. */
  ghost function AsMap(list: seq<Compositions>): (m: map<Node, Entry>)
    ensures m.Keys == Keys(list)
  {
    map key | key in Keys(list) :: var c := list[IndexOf(list, key)]; Entry(c.status, c.compositionTree)
  }

  lemma MapsTo(list: seq<Compositions>, i: nat)
    requires UniqueKeys(list) && i < |list|
    ensures list[i].key in AsMap(list) && AsMap(list)[list[i].key] == Entry(list[i].status, list[i].compositionTree)
  {
    assert IndexOf(list, list[i].key) == i;
  }

  /** A map is the map of a list with unique keys when they agree at each position. */
  lemma IsMapOf(list: seq<Compositions>, m: map<Node, Entry>)
    requires UniqueKeys(list)
    requires m.Keys == Keys(list)
    requires forall i :: 0 <= i < |list| ==> m[list[i].key] == Entry(list[i].status, list[i].compositionTree)
    ensures AsMap(list) == m
  {
    forall key | key in m
      ensures AsMap(list)[key] == m[key]
    {
      MapsTo(list, IndexOf(list, key));
    }
  }

  // ---------------------------------------------------------------- what the store should hold

  /** The top-level objects of a kind, in the namespace of the view. */
  ghost function TopLevel(view: View, kind: string): seq<Object> {
    Listed(view.cluster, GvkOf(view.registry.gvks, kind), view.namespace)
  }

  ghost predicate IsLive(view: View, kind: string, o: Object) {
    kind in view.registry.compositions && o in TopLevel(view, kind)
  }

  ghost function KeyOf(kind: string, o: Object): Node {
    Node(kind, o.name, o.namespace)
  }

  ghost function LiveKeys(view: View): set<Node> {
    set kind, o | kind in view.registry.compositions && o in TopLevel(view, kind) :: KeyOf(kind, o)
  }

  ghost function LiveNames(view: View): set<string> {
    set kind, o | kind in view.registry.compositions && o in TopLevel(view, kind) :: o.name
  }

  /** An object is looked at in its own namespace. */
  ghost function At(view: View, o: Object): View {
    view.(namespace := o.namespace)
  }

  ghost predicate IsTreeOf(view: View, kind: string, o: Object, t: Owned) {
    IsTree(At(view, o), t) && t.kind == kind && t.meta == MetaOf(o, "", "")
  }

  /** The ownership below every top-level object is finite. */
  ghost predicate Finite(view: View) {
    forall kind, o :: IsLive(view, kind, o) ==> exists t :: IsTreeOf(view, kind, o, t)
  }

  /** That is so if and only if no chain of owners leads from a top-level object into a cycle. */
  lemma FiniteIffAcyclic(view: View)
    ensures Finite(view) <==> forall kind, o :: IsLive(view, kind, o) ==> !Cyclic(At(view, o), kind, o.name)
  {
    hide IsLive, IsTree, Cyclic;
    forall kind, o | IsLive(view, kind, o)
      ensures (exists t :: IsTreeOf(view, kind, o, t)) <==> !Cyclic(At(view, o), kind, o.name)
    {
      TreeIffAcyclic(At(view, o), kind, MetaOf(o, "", ""));
      assert forall t :: IsTree(At(view, o), t) && t.kind == kind && t.meta == MetaOf(o, "", "") <==> IsTreeOf(view, kind, o, t);
    }
  }

  ghost function TreeOf(view: View, kind: string, o: Object): (t: Owned)
    requires Finite(view) && IsLive(view, kind, o)
    ensures IsTreeOf(view, kind, o, t)
  {
    var t :| IsTreeOf(view, kind, o, t);
    t
  }

  /** The current entry of a live object. */
  ghost function Current(view: View, kind: string, o: Object): Entry
    requires Finite(view) && IsLive(view, kind, o)
  {
    Entry(Phase(o.content), Preorder(TreeOf(view, kind, o), 1))
  }

  /** The map after a rebuild: the live objects with their current trees, and of the earlier entries those whose name is live. */
  ghost function Rebuilt(m: map<Node, Entry>, view: View): map<Node, Entry>
    requires Finite(view)
  {
    map key | key in m.Keys + LiveKeys(view) && key.name in LiveNames(view) ::
      if key in LiveKeys(view) then CurrentAt(view, key) else m[key]
  }

  ghost function LiveAt(view: View, key: Node): (o: Object)
    requires key in LiveKeys(view)
    ensures IsLive(view, key.kind, o) && KeyOf(key.kind, o) == key
  {
    var o :| IsLive(view, key.kind, o) && KeyOf(key.kind, o) == key;
    o
  }

  ghost function CurrentAt(view: View, key: Node): Entry
    requires Finite(view) && key in LiveKeys(view)
  {
    Current(view, key.kind, LiveAt(view, key))
  }

  /** The key of a live object belongs to no other object. */
  lemma CurrentIsUnique(view: View, kind: string, o: Object)
    requires WellFormed(view.cluster) && Finite(view) && IsLive(view, kind, o)
    ensures KeyOf(kind, o) in LiveKeys(view) && o.name in LiveNames(view)
    ensures CurrentAt(view, KeyOf(kind, o)) == Current(view, kind, o)
  {
    var key := KeyOf(kind, o);
    var other := LiveAt(view, key);
    FoundIsUnique(view.cluster, o);
    FoundIsUnique(view.cluster, other);
  }

  // ---------------------------------------------------------------- one tree per object

  lemma {:induction false} TreeIsUnique(view: View, t: Owned, u: Owned)
    requires IsTree(view, t) && IsTree(view, u) && t.kind == u.kind && t.meta == u.meta
    ensures t == u
    decreases t
  {
    forall i | 0 <= i < |t.groups|
      ensures t.groups[i] == u.groups[i]
    {
      GroupIsUnique(view, t.kind, t.meta.name, t.groups[i], u.groups[i]);
    }
  }

  lemma {:induction false} GroupIsUnique(view: View, kind: string, name: string, g: Group, h: Group)
    requires g.kind == h.kind && IsGroup(view, kind, name, g.kind, g) && IsGroup(view, kind, name, g.kind, h)
    ensures g == h
    decreases g
  {
    hide IsTree, ChildrenOf;
    assert |g.members| == |Metas(g.members)| == |h.members|;
    forall p | 0 <= p < |g.members|
      ensures g.members[p] == h.members[p]
    {
      assert g.members[p].meta == Metas(g.members)[p] == h.members[p].meta;
      TreeIsUnique(view, g.members[p], h.members[p]);
    }
  }

  // ---------------------------------------------------------------- purging

  predicate HasLiveName(live: seq<Meta>, name: string) {
    exists i :: 0 <= i < |live| && live[i].name == name
  }

  ghost predicate UniqueNames(live: seq<Meta>) {
    forall i, j :: 0 <= i < j < |live| ==> live[i].name != live[j].name
  }

  /** One copy of `item` for each live object of its name. */
  function Copies(item: Compositions, live: seq<Meta>): seq<Compositions> {
    if live == [] then []
    else Copies(item, live[..|live| - 1]) + (if live[|live| - 1].name == item.key.name then [item] else [])
  }

  function Purged(list: seq<Compositions>, live: seq<Meta>): seq<Compositions> {
    if list == [] then [] else Purged(list[..|list| - 1], live) + Copies(list[|list| - 1], live)
  }

  lemma {:induction false} OneCopy(item: Compositions, live: seq<Meta>)
    requires UniqueNames(live)
    ensures Copies(item, live) == if HasLiveName(live, item.key.name) then [item] else []
  {
    if live != [] {
      OneCopy(item, live[..|live| - 1]);
      if HasLiveName(live[..|live| - 1], item.key.name) {
        var i :| 0 <= i < |live| - 1 && live[..|live| - 1][i].name == item.key.name;
        assert live[i].name == item.key.name;
      }
    }
  }

  ghost function WithNames(m: map<Node, Entry>, names: set<string>): map<Node, Entry> {
    map key | key in m && key.name in names :: m[key]
  }

  /** With distinct live names purging is a restriction of the map. */
  lemma {:induction false} PurgedRestricts(list: seq<Compositions>, live: seq<Meta>, names: set<string>)
    requires UniqueKeys(list) && UniqueNames(live)
    requires forall name :: name in names <==> HasLiveName(live, name)
    ensures UniqueKeys(Purged(list, live))
    ensures forall c :: c in Purged(list, live) <==> c in list && c.key.name in names
    ensures AsMap(Purged(list, live)) == WithNames(AsMap(list), names)
  {
    PurgedMembers(list, live, names);
    var r := Purged(list, live);
    var m := WithNames(AsMap(list), names);
    forall key | key in m
      ensures key in Keys(r)
    {
      var i := IndexOf(list, key);
      assert list[i] in r;
    }
    forall i | 0 <= i < |r|
      ensures r[i].key in m && m[r[i].key] == Entry(r[i].status, r[i].compositionTree)
    {
      assert r[i] in r;
      var j :| 0 <= j < |list| && list[j] == r[i];
      MapsTo(list, j);
    }
    IsMapOf(r, m);
  }

  lemma {:induction false} PurgedMembers(list: seq<Compositions>, live: seq<Meta>, names: set<string>)
    requires UniqueKeys(list) && UniqueNames(live)
    requires forall name :: name in names <==> HasLiveName(live, name)
    ensures UniqueKeys(Purged(list, live))
    ensures forall c :: c in Purged(list, live) <==> c in list && c.key.name in names
  {
    if list != [] {
      var init, last := list[..|list| - 1], list[|list| - 1];
      assert list == init + [last];
      PurgedMembers(init, live, names);
      OneCopy(last, live);
      assert Purged(list, live) == Purged(init, live) + Copies(last, live);
      hide Purged, Copies, HasLiveName, UniqueNames;
      NewKey(list, Purged(init, live));
    }
  }

  lemma NewKey(list: seq<Compositions>, kept: seq<Compositions>)
    requires list != [] && UniqueKeys(list) && forall c :: c in kept ==> c in list[..|list| - 1]
    ensures forall i :: 0 <= i < |kept| ==> kept[i].key != list[|list| - 1].key
  {
    forall i | 0 <= i < |kept|
      ensures kept[i].key != list[|list| - 1].key
    {
      assert kept[i] in kept;
      var j :| 0 <= j < |list| - 1 && list[..|list| - 1][j] == kept[i];
      assert list[j] == kept[i];
    }
  }

  // ---------------------------------------------------------------- the store

  /** The map `m` with the current entries of the live keys `keys`. */
  ghost function Overlay(m: map<Node, Entry>, view: View, keys: set<Node>): map<Node, Entry>
    requires Finite(view) && keys <= LiveKeys(view)
  {
    map key | key in m.Keys + keys :: if key in keys then CurrentAt(view, key) else m[key]
  }

  /** `keys` has the key of every live object of the kinds `done`. */
  ghost predicate Covers(view: View, done: set<string>, keys: set<Node>) {
    forall kind, o :: kind in done && IsLive(view, kind, o) ==> KeyOf(kind, o) in keys
  }

  ghost predicate CoversNames(view: View, done: set<string>, names: set<string>) {
    forall kind, o :: kind in done && IsLive(view, kind, o) ==> o.name in names
  }

  ghost function NamesOf(metas: seq<Meta>): set<string> {
    set i | 0 <= i < |metas| :: metas[i].name
  }

  lemma OverlayStep(m: map<Node, Entry>, view: View, keys: set<Node>, kind: string, o: Object)
    requires WellFormed(view.cluster) && Finite(view) && keys <= LiveKeys(view) && IsLive(view, kind, o)
    ensures KeyOf(kind, o) in LiveKeys(view) && o.name in LiveNames(view)
    ensures Overlay(m, view, keys + {KeyOf(kind, o)}) == Overlay(m, view, keys)[KeyOf(kind, o) := Current(view, kind, o)]
  {
    hide LiveKeys, LiveNames, CurrentAt, Current, Overlay;
    CurrentIsUnique(view, kind, o);
    OverlayPut(m, view, keys, KeyOf(kind, o));
  }

  lemma OverlayPut(m: map<Node, Entry>, view: View, keys: set<Node>, key: Node)
    requires Finite(view) && keys <= LiveKeys(view) && key in LiveKeys(view)
    ensures Overlay(m, view, keys + {key}) == Overlay(m, view, keys)[key := CurrentAt(view, key)]
  {
    hide LiveKeys, CurrentAt, Finite;
  }

  /** The second loop over a kind's objects: the names that are not there yet are added. */
  method AddNames(resourceInCluster: seq<Meta>, metas: seq<Meta>) returns (r: seq<Meta>)
    requires UniqueNames(resourceInCluster)
    ensures UniqueNames(r)
    ensures NamesOf(r) == NamesOf(resourceInCluster) + NamesOf(metas)
  {
    r := resourceInCluster;
    for i := 0 to |metas|
      invariant UniqueNames(r)
      invariant NamesOf(r) == NamesOf(resourceInCluster) + NamesOf(metas[..i])
    {
      var present := false;
      for j := 0 to |r|
        invariant present <==> exists k :: 0 <= k < j && r[k].name == metas[i].name
      {
        if r[j].name == metas[i].name {
          present := true;
        }
      }
      NamesSnoc(metas[..i], metas[i]);
      assert metas[..i + 1] == metas[..i] + [metas[i]];
      NamesSnoc(r, metas[i]);
      if !present {
        r := r + [metas[i]];
      }
    }
    assert metas[..|metas|] == metas;
  }

  lemma NamesSnoc(metas: seq<Meta>, m: Meta)
    ensures NamesOf(metas + [m]) == NamesOf(metas) + {m.name}
  {
    var all := metas + [m];
    assert all[|metas|] == m;
    assert forall i :: 0 <= i < |metas| ==> all[i] == metas[i];
  }

  /** The compositions GetCompositions shows, for one name or for all ("*") of a kind. */
  function ShownCompositions(list: seq<Compositions>, key: Node): seq<Composition> {
    if list == [] then []
    else
      var item := list[|list| - 1];
      var rest := ShownCompositions(list[..|list| - 1], key);
      if Asked(item, key) then rest + [ShownComposition(item)] else rest
  }

  predicate Asked(item: Compositions, key: Node) {
    item.key.namespace == key.namespace && item.key.kind == key.kind && (key.name == "*" || item.key.name == key.name)
  }

  function ShownComposition(item: Compositions): Composition {
    Compose(item.key.kind, Meta(item.key.name, item.key.namespace, item.status, "", ""), 1, item.compositionTree, []).0
  }

  method GetCompositions(list: seq<Compositions>, key: Node) returns (compositions: seq<Composition>)
    ensures compositions == ShownCompositions(list, key)
  {
    compositions := [];
    for i := 0 to |list|
      invariant compositions == ShownCompositions(list[..i], key)
    {
      var item := list[i];
      if Asked(item, key) {
        var processedList := new NodeList();
        var meta := Meta(item.key.name, item.key.namespace, item.status, "", "");
        var composition := GetComposition(item.key.kind, meta, 1, item.compositionTree, processedList);
        compositions := compositions + [composition];
      }
      assert list[..i + 1][..i] == list[..i];
    }
    assert list[..|list|] == list;
  }

  /** What is shown are the trees of the entries of the kind and the namespace, for "*" of all, and for a name of that name. */
  lemma {:induction false} ShownExactly(list: seq<Compositions>, key: Node, c: Composition)
    ensures c in ShownCompositions(list, key) <==>
            exists item :: item in list && item.key.kind == key.kind && item.key.namespace == key.namespace
                           && (key.name == "*" || item.key == key) && c == ShownComposition(item)
  {
    hide ShownComposition;
    if list != [] {
      var init, item := list[..|list| - 1], list[|list| - 1];
      ShownExactly(init, key, c);
      assert list == init + [item];
    }
  }

  /** They are shown at Level 1, with their stored names and status. */
  lemma ShownHead(item: Compositions)
    ensures var c := ShownComposition(item);
            c.level == 1 && c.status == item.status && Node(c.kind, c.name, c.namespace) == item.key
  {
  }

  class ClusterCompositions {
    var clusterCompositions: seq<Compositions>

    ghost predicate Valid()
      reads this
    {
      UniqueKeys(clusterCompositions)
    }

    constructor ()
      ensures Valid() && AsMap(clusterCompositions) == map[]
    {
      clusterCompositions := [];
    }

    method StoreCompositions(topLevelObject: Meta, key: Node, compositionTree: seq<TreeNode>)
      requires Valid()
      modifies this
      ensures Valid()
      ensures AsMap(clusterCompositions) == old(AsMap(clusterCompositions))[key := Entry(topLevelObject.status, compositionTree)]
    {
      var compositions := Compositions(key, topLevelObject.status, compositionTree);
      var present := false;
      for i := 0 to |clusterCompositions|
        invariant |clusterCompositions| == |old(clusterCompositions)|
        invariant present <==> exists j :: 0 <= j < i && old(clusterCompositions)[j].key == key
        invariant forall j :: 0 <= j < |clusterCompositions| ==>
                                clusterCompositions[j] == if j < i && old(clusterCompositions)[j].key == key then compositions
                                                          else old(clusterCompositions)[j]
      {
        if clusterCompositions[i].key == key {
          present := true;
          clusterCompositions := clusterCompositions[i := clusterCompositions[i].(compositionTree := compositionTree,
                                                                                  status := topLevelObject.status)];
        }
      }
      if !present {
        assert clusterCompositions == old(clusterCompositions);
        clusterCompositions := clusterCompositions + [compositions];
        AddedMap(old(clusterCompositions), compositions);
      } else {
        ReplacedMap(old(clusterCompositions), compositions, clusterCompositions);
      }
    }

    method PurgeCompositionOfDeletedItems(live: seq<Meta>)
      modifies this
      ensures clusterCompositions == Purged(old(clusterCompositions), live)
    {
      var presentList: seq<Compositions> := [];
      for i := 0 to |clusterCompositions|
        invariant presentList == Purged(clusterCompositions[..i], live)
      {
        ghost var before := presentList;
        var item := clusterCompositions[i];
        for j := 0 to |live|
          invariant presentList == before + Copies(item, live[..j])
        {
          if live[j].name == item.key.name {
            presentList := presentList + [item];
          }
          assert live[..j + 1][..j] == live[..j];
        }
        assert live[..|live|] == live;
        assert clusterCompositions[..i + 1][..i] == clusterCompositions[..i];
      }
      assert clusterCompositions[..|clusterCompositions|] == clusterCompositions;
      clusterCompositions := presentList;
    }

    /** A rebuild. The kinds are visited in any order; `readable` says whether the kinds could be read at all. */
    method BuildCompositionTree(view: View, readable: bool)
      requires Valid() && WellFormed(view.cluster) && Finite(view)
      modifies this
      ensures Valid()
      ensures AsMap(clusterCompositions) == if readable then Rebuilt(old(AsMap(clusterCompositions)), view)
                                            else old(AsMap(clusterCompositions))
    {
      hide Overlay, AsMap, LiveKeys, LiveNames, UniqueKeys, UniqueNames, Listed, Finite, Rebuilt, IsLive, NamesOf, Purged, WellFormed;
      if !readable {
        return;
      }
      NothingStored(view, AsMap(clusterCompositions));
      var kinds := view.registry.compositions.Keys;
      var resourceInCluster: seq<Meta> := [];
      ghost var keys: set<Node> := {};
      while kinds != {}
        invariant kinds <= view.registry.compositions.Keys
        invariant Valid() && keys <= LiveKeys(view)
        invariant AsMap(clusterCompositions) == Overlay(old(AsMap(clusterCompositions)), view, keys)
        invariant Covers(view, view.registry.compositions.Keys - kinds, keys)
        invariant UniqueNames(resourceInCluster)
        invariant NamesOf(resourceInCluster) <= LiveNames(view)
        invariant CoversNames(view, view.registry.compositions.Keys - kinds, NamesOf(resourceInCluster))
        decreases |kinds|
      {
        var kind :| kind in kinds;
        var metas := GetResourceMetaData(view.cluster, GvkOf(view.registry.gvks, kind), "", "", view.namespace);
        ghost var stored := StoreKind(view, kind, metas, keys, old(AsMap(clusterCompositions)));
        ghost var done := view.registry.compositions.Keys - kinds;
        CoversMore(view, done, kind, keys, stored, NamesOf(resourceInCluster), metas);
        resourceInCluster := AddNames(resourceInCluster, metas);
        keys := stored;
        kinds := kinds - {kind};
        assert view.registry.compositions.Keys - kinds == done + {kind};
      }
      ghost var stored := clusterCompositions;
      PurgeCompositionOfDeletedItems(resourceInCluster);
      RebuildDone(view, keys, resourceInCluster, stored, old(AsMap(clusterCompositions)));
    }

    /** The first loop over a kind's objects: each gets its tree built and stored. */
    method StoreKind(view: View, kind: string, metas: seq<Meta>, ghost keys: set<Node>, ghost m: map<Node, Entry>)
      returns (ghost stored: set<Node>)
      requires Valid() && WellFormed(view.cluster) && Finite(view)
      requires kind in view.registry.compositions && metas == MetasOf(TopLevel(view, kind), "", "")
      requires keys <= LiveKeys(view) && AsMap(clusterCompositions) == Overlay(m, view, keys)
      modifies this
      ensures Valid()
      ensures keys <= stored <= LiveKeys(view) && AsMap(clusterCompositions) == Overlay(m, view, stored)
      ensures Covers(view, {kind}, stored)
    {
      hide Overlay, AsMap, LiveKeys, Finite, TopLevel;
      stored := keys;
      ghost var objects := TopLevel(view, kind);
      for i := 0 to |metas|
        invariant Valid()
        invariant keys <= stored <= LiveKeys(view) && AsMap(clusterCompositions) == Overlay(m, view, stored)
        invariant forall j :: 0 <= j < i ==> KeyOf(kind, objects[j]) in stored
      {
        StoreObject(view, kind, metas[i], objects[i], stored, m);
        stored := stored + {KeyOf(kind, objects[i])};
      }
    }

    method StoreObject(view: View, kind: string, meta: Meta, ghost o: Object, ghost keys: set<Node>, ghost m: map<Node, Entry>)
      requires Valid() && WellFormed(view.cluster) && Finite(view)
      requires IsLive(view, kind, o) && meta == MetaOf(o, "", "")
      requires keys <= LiveKeys(view) && AsMap(clusterCompositions) == Overlay(m, view, keys)
      modifies this
      ensures Valid()
      ensures KeyOf(kind, o) in LiveKeys(view) && AsMap(clusterCompositions) == Overlay(m, view, keys + {KeyOf(kind, o)})
    {
      OverlayStep(m, view, keys, kind, o);
      ghost var t := TreeOf(view, kind, o);
      hide Overlay, AsMap, LiveKeys, Finite, IsLive, IsTree, Preorder;
      var compositionTree := new NodeList();
      BuildCompositions(View(view.cluster, view.registry, meta.namespace), kind, meta, 1, compositionTree, t);
      assert compositionTree.nodes == Preorder(t, 1);
      StoreCompositions(meta, Node(kind, meta.name, meta.namespace), compositionTree.nodes);
    }
  }

  lemma NothingStored(view: View, m: map<Node, Entry>)
    requires Finite(view)
    ensures {} <= LiveKeys(view) && Overlay(m, view, {}) == m
    ensures Covers(view, {}, {}) && CoversNames(view, {}, NamesOf([])) && NamesOf([]) <= LiveNames(view)
    ensures UniqueNames([])
  {
  }

  lemma CoversMore(view: View, done: set<string>, kind: string, keys: set<Node>, stored: set<Node>, names: set<string>, metas: seq<Meta>)
    requires kind in view.registry.compositions && metas == MetasOf(TopLevel(view, kind), "", "")
    requires Covers(view, done, keys) && keys <= stored && Covers(view, {kind}, stored)
    requires CoversNames(view, done, names) && names <= LiveNames(view)
    ensures Covers(view, done + {kind}, stored)
    ensures CoversNames(view, done + {kind}, names + NamesOf(metas))
    ensures names + NamesOf(metas) <= LiveNames(view)
  {
    hide Listed;
    var objects := TopLevel(view, kind);
    forall o | IsLive(view, kind, o)
      ensures o.name in NamesOf(metas)
    {
      var i :| 0 <= i < |objects| && objects[i] == o;
      assert metas[i].name == o.name;
    }
    forall name | name in NamesOf(metas)
      ensures name in LiveNames(view)
    {
      var i :| 0 <= i < |metas| && metas[i].name == name;
      assert IsLive(view, kind, objects[i]);
    }
  }

  /** When all kinds are covered, what is stored and then purged is the rebuilt map. */
  lemma RebuildDone(view: View, keys: set<Node>, live: seq<Meta>, stored: seq<Compositions>, m: map<Node, Entry>)
    requires Finite(view) && UniqueKeys(stored) && UniqueNames(live)
    requires Covers(view, view.registry.compositions.Keys, keys) && keys <= LiveKeys(view)
    requires CoversNames(view, view.registry.compositions.Keys, NamesOf(live)) && NamesOf(live) <= LiveNames(view)
    requires AsMap(stored) == Overlay(m, view, keys)
    ensures UniqueKeys(Purged(stored, live)) && AsMap(Purged(stored, live)) == Rebuilt(m, view)
  {
    AllCovered(view, keys, NamesOf(live));
    forall name
      ensures name in LiveNames(view) <==> HasLiveName(live, name)
    {
      if name in NamesOf(live) {
        var i :| 0 <= i < |live| && live[i].name == name;
      }
    }
    PurgedRestricts(stored, live, LiveNames(view));
    RebuiltIsRestricted(view, m);
  }

  lemma AllCovered(view: View, keys: set<Node>, names: set<string>)
    requires Covers(view, view.registry.compositions.Keys, keys) && keys <= LiveKeys(view)
    requires CoversNames(view, view.registry.compositions.Keys, names) && names <= LiveNames(view)
    ensures keys == LiveKeys(view) && names == LiveNames(view)
  {
  }

  lemma RebuiltIsRestricted(view: View, m: map<Node, Entry>)
    requires Finite(view)
    ensures WithNames(Overlay(m, view, LiveKeys(view)), LiveNames(view)) == Rebuilt(m, view)
  {
    hide LiveKeys, LiveNames, CurrentAt, Finite;
  }

  /** `all` is `list` with the entry of its key replaced by `stored`. */
  lemma ReplacedMap(list: seq<Compositions>, stored: Compositions, all: seq<Compositions>)
    requires UniqueKeys(list) && stored.key in Keys(list)
    requires |all| == |list| && forall j :: 0 <= j < |list| ==> all[j] == if list[j].key == stored.key then stored else list[j]
    ensures UniqueKeys(all)
    ensures AsMap(all) == AsMap(list)[stored.key := Entry(stored.status, stored.compositionTree)]
  {
    assert forall j :: 0 <= j < |list| ==> all[j].key == list[j].key;
    assert Keys(all) == Keys(list);
    StoredMap(list, stored, all);
  }

  lemma AddedMap(list: seq<Compositions>, stored: Compositions)
    requires UniqueKeys(list) && stored.key !in Keys(list)
    ensures UniqueKeys(list + [stored])
    ensures AsMap(list + [stored]) == AsMap(list)[stored.key := Entry(stored.status, stored.compositionTree)]
  {
    var all := list + [stored];
    assert all[|list|] == stored;
    assert forall j :: 0 <= j < |list| ==> all[j] == list[j] && all[j].key in Keys(list);
    forall key | key in Keys(list) + {stored.key}
      ensures key in Keys(all)
    {
      if key in Keys(list) {
        var j :| 0 <= j < |list| && list[j].key == key;
        assert all[j].key == key;
      }
    }
    StoredMap(list, stored, all);
  }

  lemma StoredMap(list: seq<Compositions>, stored: Compositions, all: seq<Compositions>)
    requires UniqueKeys(list) && UniqueKeys(all) && Keys(all) == Keys(list) + {stored.key}
    requires forall j :: 0 <= j < |all| ==> all[j] == stored || (j < |list| && all[j] == list[j] && all[j].key != stored.key)
    ensures AsMap(all) == AsMap(list)[stored.key := Entry(stored.status, stored.compositionTree)]
  {
    hide UniqueKeys, AsMap, Keys;
    var m := AsMap(list)[stored.key := Entry(stored.status, stored.compositionTree)];
    forall i | 0 <= i < |all|
      ensures all[i].key in m && m[all[i].key] == Entry(all[i].status, all[i].compositionTree)
    {
      if all[i] != stored {
        MapsTo(list, i);
      }
    }
    IsMapOf(all, m);
  }

  // ---------------------------------------------------------------- any sequence of rebuilds

  ghost function RebuiltAll(m: map<Node, Entry>, views: seq<View>): map<Node, Entry>
    requires forall i :: 0 <= i < |views| ==> Finite(views[i])
  {
    if views == [] then m else Rebuilt(RebuiltAll(m, views[..|views| - 1]), views[|views| - 1])
  }

  /** After a rebuild every live object has its current tree, and only live names are left. */
  lemma RebuiltIsCurrent(m: map<Node, Entry>, view: View)
    requires WellFormed(view.cluster) && Finite(view)
    ensures forall kind, o :: IsLive(view, kind, o) ==>
                                KeyOf(kind, o) in Rebuilt(m, view) && Rebuilt(m, view)[KeyOf(kind, o)] == Current(view, kind, o)
    ensures forall key :: key in Rebuilt(m, view) ==> key.name in LiveNames(view)
  {
    forall kind, o | IsLive(view, kind, o)
      ensures KeyOf(kind, o) in Rebuilt(m, view) && Rebuilt(m, view)[KeyOf(kind, o)] == Current(view, kind, o)
    {
      CurrentIsUnique(view, kind, o);
    }
  }

  /** An object that is not live in any of the rebuilds keeps its old entry exactly as long as objects of its name live,
      of whatever kind: purging looks at names only. */
  lemma {:induction false} StaleEntry(m: map<Node, Entry>, views: seq<View>, key: Node)
    requires forall i :: 0 <= i < |views| ==> Finite(views[i]) && key !in LiveKeys(views[i])
    ensures key in RebuiltAll(m, views) <==> key in m && forall i :: 0 <= i < |views| ==> key.name in LiveNames(views[i])
    ensures key in RebuiltAll(m, views) ==> RebuiltAll(m, views)[key] == m[key]
  {
    hide LiveKeys, LiveNames, Finite, CurrentAt;
    if views != [] {
      var init := views[..|views| - 1];
      assert forall i :: 0 <= i < |init| ==> init[i] == views[i];
      StaleEntry(m, init, key);
    }
  }

  /** A cluster with one object, of kind `B`, where the kinds `A` and `B` have compositions. */
  function OneObject(): View {
    var a, b := Gvk("", "v1", "as"), Gvk("", "v1", "bs");
    View(Cluster([Object("B", "x", "ns", map[], map[], [], FieldSearch.JOther)], map[a := Resource("A", true), b := Resource("B", true)]),
         Registry(map["A" := a, "B" := b], map["A" := [], "B" := []]), "ns")
  }

  /** The entry of a deleted object `A/x` stays, because `B/x` lives. */
  lemma DeletedEntryStays(entry: Entry)
    ensures Finite(OneObject())
    ensures var key := Node("A", "x", "ns");
            key !in LiveKeys(OneObject()) && key in Rebuilt(map[key := entry], OneObject())
  {
    var view := OneObject();
    var o := view.cluster.objects[0];
    forall kind, p | IsLive(view, kind, p)
      ensures exists t :: IsTreeOf(view, kind, p, t)
    {
      assert IsTreeOf(view, kind, p, Owned(kind, MetaOf(p, "", ""), []));
    }
    assert "A"[0] != "B"[0];
    assert IsLive(view, "B", o);
    assert TopLevel(view, "A") == [];
  }
}
