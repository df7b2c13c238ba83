/** The searches of relationships.go: from one resource to the resources it is related to by one relationship string. */
module Searches {
  import opened Connections
  import opened FieldSearch
  import opened Cluster
  import opened Relationships
  import opened Graph
  import LevelList
  import ObjectCache
  import Text

  type Cache = ObjectCache.KubeObjectCache

  ghost predicate Ready(w: World, cache: Cache)
    reads cache
  {
    cache.Valid() && cache.cluster == w.cluster
  }

  /** All of `r` were found at the same level, of one kind, in one way and from one peer. */
  ghost predicate Alike(r: seq<Connection>, level: int, kind: string, namespace: string, ty: RelType, peer: Node) {
    forall i :: 0 <= i < |r| ==> r[i] == Connection(level, Node(kind, r[i].node.name, namespace), ty, Some(peer))
  }

  ghost function FoundNames(r: seq<Connection>): set<string> {
    set i | 0 <= i < |r| :: r[i].node.name
  }

  lemma FoundConcat(r: seq<Connection>, s: seq<Connection>)
    ensures FoundNames(r + s) == FoundNames(r) + FoundNames(s)
  {
    var all := r + s;
    assert forall i :: 0 <= i < |r| ==> all[i] == r[i];
    forall name | name in FoundNames(s)
      ensures name in FoundNames(all)
    {
      var i :| 0 <= i < |s| && s[i].node.name == name;
      assert all[|r| + i] == s[i];
    }
  }

  lemma FoundOne(c: Connection)
    ensures FoundNames([c]) == {c.node.name}
  {
    assert [c][0] == c;
  }

  // ---------------------------------------------------------------- small searches

  method GetObjects(w: World, cache: Cache, kind: string, instance: string, namespace: string) returns (r: seq<Object>)
    requires Ready(w, cache)
    modifies cache
    ensures Ready(w, cache)
    ensures r == Instances(w, kind, instance, namespace)
  {
    if instance == ANY {
      var list := cache.GetKubeObjectList(kind, namespace, GvkOf(w, kind));
      r := if list.Some? then list.value else [];
    } else {
      var o := cache.GetKubeObject(kind, instance, namespace, GvkOf(w, kind));
      r := if o.Some? then [o.value] else [];
    }
  }

  method GetLabels(w: World, cache: Cache, n: Node) returns (labels: map<string, string>)
    requires Ready(w, cache)
    ensures labels == LabelsOf(w, n)
  {
    var o := cache.GetKubeObject(n.kind, n.name, n.namespace, GvkOf(w, n.kind));
    labels := if o.Some? then o.value.labels else map[];
  }

  method SubsetMatchMaps(map1: map<string, string>, map2: map<string, string>) returns (matches: bool)
    ensures matches == Selects(map1, map2)
  {
    if map1 == map[] {
      return false;
    }
    var keys := map1.Keys;
    while keys != {}
      invariant keys <= map1.Keys
      invariant forall k :: k in map1 && k !in keys ==> k in map2 && map2[k] == map1[k]
      decreases |keys|
    {
      var key :| key in keys;
      if key !in map2 {
        return false;
      }
      if map2[key] != map1[key] {
        return false;
      }
      keys := keys - {key};
    }
    return true;
  }

  method SearchNameInLabels(name: string, labels: map<string, string>) returns (matches: bool)
    ensures matches == NamedInLabels(name, labels)
  {
    var keys := labels.Keys;
    while keys != {}
      invariant keys <= labels.Keys
      invariant forall k :: k in labels && k !in keys ==> labels[k] != name
      decreases |keys|
    {
      var key :| key in keys;
      if labels[key] == name {
        return true;
      }
      keys := keys - {key};
    }
    return false;
  }

  // ---------------------------------------------------------------- labels

  method SearchLabels(w: World, cache: Cache, level: int, source: Node, labelMap: map<string, string>, targetKind: string)
    returns (r: seq<Connection>)
    requires Ready(w, cache)
    modifies cache
    ensures Ready(w, cache)
    ensures Alike(r, level, targetKind, source.namespace, Label, source)
    ensures forall name :: name in FoundNames(r) <==>
              exists o :: o in Objects(w, targetKind, source.namespace) && o.name == name && Labelled(labelMap, source.name, o.labels)
  {
    r := [];
    var list := GetObjects(w, cache, targetKind, ANY, source.namespace);
    for i := 0 to |list|
      invariant Ready(w, cache)
      invariant Alike(r, level, targetKind, source.namespace, Label, source)
      invariant forall name :: name in FoundNames(r) <==>
                  exists j :: 0 <= j < i && list[j].name == name && Labelled(labelMap, source.name, list[j].labels)
    {
      var matches: bool;
      if labelMap != map[] {
        matches := SubsetMatchMaps(labelMap, list[i].labels);
      } else {
        matches := SearchNameInLabels(source.name, list[i].labels);
      }
      if matches {
        var conn := Connection(level, Node(targetKind, list[i].name, source.namespace), Label, Some(source));
        FoundConcat(r, [conn]);
        FoundOne(conn);
        r := r + [conn];
      }
    }
  }

  method SearchSelectors(w: World, cache: Cache, level: int, sourceKind: string, labelMap: map<string, string>, target: Node)
    returns (r: seq<Connection>)
    requires Ready(w, cache)
    modifies cache
    ensures Ready(w, cache)
    ensures Alike(r, level, sourceKind, target.namespace, Label, target)
    ensures forall name :: name in FoundNames(r) <==>
              exists o :: o in Objects(w, sourceKind, target.namespace) && o.name == name && Selects(SelectorOf(o.content), labelMap)
  {
    r := [];
    var list := GetObjects(w, cache, sourceKind, ANY, target.namespace);
    for i := 0 to |list|
      invariant Ready(w, cache)
      invariant Alike(r, level, sourceKind, target.namespace, Label, target)
      invariant forall name :: name in FoundNames(r) <==>
                  exists j :: 0 <= j < i && list[j].name == name && Selects(SelectorOf(list[j].content), labelMap)
    {
      var selectorMap := SelectorOf(list[i].content);
      var matches := false;
      if selectorMap != map[] {
        matches := SubsetMatchMaps(selectorMap, labelMap);
      }
      if matches {
        var conn := Connection(level, Node(sourceKind, list[i].name, target.namespace), Label, Some(target));
        FoundConcat(r, [conn]);
        FoundOne(conn);
        r := r + [conn];
      }
    }
  }

  // ---------------------------------------------------------------- searches from either side

  /** A search runs over pairs of objects, with one of the two sides fixed. */
  datatype Sides = Sides(kind: string, instance: string, targetKind: string, targetInstance: string, namespace: string)

  predicate OneFixed(s: Sides) {
    (s.instance == ANY) != (s.targetInstance == ANY)
  }

  /** The kind that is searched for: the connection found is named after the side that is not fixed. */
  function FoundKind(s: Sides): string {
    if s.instance == ANY then s.kind else s.targetKind
  }

  function FixedNode(s: Sides): Node {
    if s.instance == ANY then Node(s.targetKind, s.targetInstance, s.namespace) else Node(s.kind, s.instance, s.namespace)
  }

  function FoundName(s: Sides, source: Object, target: Object): string {
    if s.instance == ANY then source.name else target.name
  }

  function FoundConnection(s: Sides, level: int, ty: RelType, source: Object, target: Object): Connection {
    if s.instance == ANY then
      Connection(level, Node(s.kind, source.name, s.namespace), ty, Some(Node(s.targetKind, target.name, s.namespace)))
    else
      Connection(level, Node(s.targetKind, target.name, s.namespace), ty, Some(Node(s.kind, source.name, s.namespace)))
  }

  /** The objects of a fixed side have its name. */
  ghost predicate FixedSide(s: Sides, source: Object, target: Object) {
    if s.instance == ANY then target.name == s.targetInstance else source.name == s.instance
  }

  lemma FoundConnectionAlike(s: Sides, level: int, ty: RelType, source: Object, target: Object)
    requires FixedSide(s, source, target)
    ensures FoundConnection(s, level, ty, source, target) ==
            Connection(level, Node(FoundKind(s), FoundName(s, source, target), s.namespace), ty, Some(FixedNode(s)))
  {
  }

  /** The fields of one source object, against all target objects. */
  method ConnectField(s: Sides, level: int, rel: Relationship, source: Object, targets: seq<Object>) returns (r: seq<Connection>)
    requires forall o :: o in targets ==> FixedSide(s, source, o)
    requires rel.lhs != "env"
    ensures Alike(r, level, FoundKind(s), s.namespace, SpecProperty, FixedNode(s))
    ensures forall name :: name in FoundNames(r) ==>
              rel.rhs == "name" && exists o :: o in targets && SpecPair(rel, source, o, false) && FoundName(s, source, o) == name
    ensures forall o :: o in targets && rel.rhs == "name" && SpecPair(rel, source, o, true) ==> FoundName(s, source, o) in FoundNames(r)
  {
    r := [];
    var value: string;
    var found: bool;
    if rel.lhs == "namespace" {
      value, found := source.namespace, true;
    } else {
      value, found := FindFieldValue(source.content, rel.lhs);
    }
    if found {
      for i := 0 to |targets|
        invariant r == []
        invariant rel.rhs == "name" ==> forall j :: 0 <= j < i ==> targets[j].name != value
      {
        if rel.rhs == "name" {
          if value == targets[i].name {
            var conn := FoundConnection(s, level, SpecProperty, source, targets[i]);
            FoundConnectionAlike(s, level, SpecProperty, source, targets[i]);
            FoundOne(conn);
            r := r + [conn];
            assert r == [conn] && FieldIs(source, rel.lhs, targets[i].name, false);
            break;
          }
        }
      }
    }
    forall o | o in targets && rel.rhs == "name" && SpecPair(rel, source, o, true)
      ensures FoundName(s, source, o) in FoundNames(r)
    {
      assert found && value == o.name;
    }
  }

  /** The names found by a search over the pairs of two lists. */
  ghost predicate FoundAmong(s: Sides, sources: seq<Object>, targets: seq<Object>, rel: Relationship, name: string, sure: bool) {
    rel.rhs == "name" && exists l, o :: l in sources && o in targets && SpecPair(rel, l, o, sure) && FoundName(s, l, o) == name
  }

  lemma FoundAmongSnoc(s: Sides, sources: seq<Object>, source: Object, targets: seq<Object>, rel: Relationship, name: string, sure: bool)
    ensures FoundAmong(s, sources + [source], targets, rel, name, sure) <==>
            FoundAmong(s, sources, targets, rel, name, sure) || FoundAmong(s, [source], targets, rel, name, sure)
  {
    assert source in [source] && source in sources + [source];
    assert forall l :: l in sources ==> l in sources + [source];
  }

  method SearchSpecPropertyField(w: World, cache: Cache, level: int, s: Sides, rel: Relationship) returns (r: seq<Connection>)
    requires Ready(w, cache) && OneFixed(s) && rel.lhs != "env"
    modifies cache
    ensures Ready(w, cache)
    ensures Alike(r, level, FoundKind(s), s.namespace, SpecProperty, FixedNode(s))
    ensures SpecFound(w, s, rel, r)
  {
    r := [];
    var sources := GetObjects(w, cache, s.kind, s.instance, s.namespace);
    var targetNamespace := if s.targetKind == NAMESPACE then w.original.namespace else s.namespace;
    var targets := GetObjects(w, cache, s.targetKind, s.targetInstance, targetNamespace);
    for i := 0 to |sources|
      invariant Ready(w, cache)
      invariant Alike(r, level, FoundKind(s), s.namespace, SpecProperty, FixedNode(s))
      invariant forall name :: name in FoundNames(r) ==> FoundAmong(s, sources[..i], targets, rel, name, false)
      invariant forall name :: FoundAmong(s, sources[..i], targets, rel, name, true) ==> name in FoundNames(r)
    {
      SidesFixed(w, s, sources[i], targets, targetNamespace);
      var conns := ConnectField(s, level, rel, sources[i], targets);
      FoundConcat(r, conns);
      assert sources[..i + 1] == sources[..i] + [sources[i]];
      forall name, sure
        ensures FoundAmong(s, sources[..i + 1], targets, rel, name, sure) <==>
                FoundAmong(s, sources[..i], targets, rel, name, sure) || FoundAmong(s, [sources[i]], targets, rel, name, sure)
      {
        FoundAmongSnoc(s, sources[..i], sources[i], targets, rel, name, sure);
      }
      FoundAmongOne(s, sources[i], targets, rel, FoundNames(conns));
      r := r + conns;
    }
    assert sources[..|sources|] == sources;
  }

  lemma SidesFixed(w: World, s: Sides, source: Object, targets: seq<Object>, targetNamespace: string)
    requires OneFixed(s)
    requires source in Instances(w, s.kind, s.instance, s.namespace)
             || source in Instances(w, s.kind, s.instance, AnnotationNamespace(w, s.kind, s.instance, s.namespace))
    requires targets == Instances(w, s.targetKind, s.targetInstance, targetNamespace)
    ensures forall o :: o in targets ==> FixedSide(s, source, o)
  {
    InstancesAreObjects(w, s.kind, s.instance, s.namespace);
    InstancesAreObjects(w, s.kind, s.instance, AnnotationNamespace(w, s.kind, s.instance, s.namespace));
    InstancesAreObjects(w, s.targetKind, s.targetInstance, targetNamespace);
  }

  lemma FoundAmongOne(s: Sides, source: Object, targets: seq<Object>, rel: Relationship, names: set<string>)
    requires forall name :: name in names ==>
               rel.rhs == "name" && exists o :: o in targets && SpecPair(rel, source, o, false) && FoundName(s, source, o) == name
    requires forall o :: o in targets && rel.rhs == "name" && SpecPair(rel, source, o, true) ==> FoundName(s, source, o) in names
    ensures forall name :: name in names ==> FoundAmong(s, [source], targets, rel, name, false)
    ensures forall name :: FoundAmong(s, [source], targets, rel, name, true) ==> name in names
  {
    assert source in [source];
  }

  /** What a specproperty search has to find. */
  ghost predicate SpecFound(w: World, s: Sides, rel: Relationship, r: seq<Connection>) {
    var sources := Instances(w, s.kind, s.instance, s.namespace);
    var targets := Instances(w, s.targetKind, s.targetInstance, SpecNamespace(w, rel, s.targetKind, s.namespace));
    && (forall name :: name in FoundNames(r) ==> FoundAmong(s, sources, targets, rel, name, false))
    && (forall name :: FoundAmong(s, sources, targets, rel, name, true) ==> name in FoundNames(r))
  }

  // ---------------------------------------------------------------- environment variables

  /** The values of the environment variables of all containers. */
  method EnvValues(content: Json) returns (values: seq<string>)
    requires EnvTyped(content)
    ensures forall value :: value in values <==> HasEnvValue(content, value)
  {
    values := [];
    var containerList := Containers(content);
    for i := 0 to |containerList|
      invariant forall value :: value in values <==> exists j :: 0 <= j < i && ContainerHasEnvValue(containerList[j], value)
    {
      var envVarList := Items(Field(containerList[i], "env"));
      var ofContainer: seq<string> := [];
      for j := 0 to |envVarList|
        invariant forall value :: value in ofContainer <==> exists k :: 0 <= k < j && EnvValue(envVarList[k]) == value
      {
        ofContainer := ofContainer + [EnvValue(envVarList[j])];
      }
      assert forall value :: value in ofContainer <==> ContainerHasEnvValue(containerList[i], value);
      values := values + ofContainer;
    }
  }

  lemma MergeAlike(all: seq<Connection>, level: int, kind: string, namespace: string, ty: RelType, peer: Node, c: Connection)
    requires Alike(all, level, kind, namespace, ty, peer)
    requires c == Connection(level, Node(kind, c.node.name, namespace), ty, Some(peer))
    ensures Alike(LevelList.Merged(all, [c]), level, kind, namespace, ty, peer)
    ensures FoundNames(LevelList.Merged(all, [c])) == FoundNames(all) + {c.node.name}
  {
    assert [c][..0] == [] && [c][0] == c;
    assert LevelList.Merged(all, [c]) == LevelList.MergeOne(all, c);
    var i := LevelList.Position(all, c.node);
    if i < |all| {
      assert LevelList.MergeOne(all, c) == all;
      assert all[i].node.name == c.node.name;
    } else {
      FoundConcat(all, [c]);
      FoundOne(c);
    }
  }

  method SearchSpecPropertyEnv(w: World, cache: Cache, level: int, s: Sides, rel: Relationship) returns (r: seq<Connection>)
    requires Ready(w, cache) && OneFixed(s) && rel.lhs == "env" && WorldOk(w)
    modifies cache
    ensures Ready(w, cache)
    ensures Alike(r, level, FoundKind(s), s.namespace, EnvVariable, FixedNode(s))
    ensures SpecFound(w, s, rel, r)
  {
    r := [];
    var sources := GetObjects(w, cache, s.kind, s.instance, s.namespace);
    var targets := GetObjects(w, cache, s.targetKind, s.targetInstance, s.namespace);
    for i := 0 to |sources|
      invariant Ready(w, cache)
      invariant Alike(r, level, FoundKind(s), s.namespace, EnvVariable, FixedNode(s))
      invariant forall name :: name in FoundNames(r) <==> FoundAmong(s, sources[..i], targets, rel, name, false)
    {
      SidesFixed(w, s, sources[i], targets, s.namespace);
      InstancesAreObjects(w, s.kind, s.instance, s.namespace);
      ghost var before := FoundNames(r);
      r := ConnectEnv(s, level, rel, sources[i], targets, r);
      assert sources[..i + 1] == sources[..i] + [sources[i]];
      forall name
        ensures name in FoundNames(r) <==> FoundAmong(s, sources[..i + 1], targets, rel, name, false)
      {
        FoundAmongSnoc(s, sources[..i], sources[i], targets, rel, name, false);
      }
    }
    assert sources[..|sources|] == sources;
    forall name
      ensures FoundAmong(s, sources, targets, rel, name, true) <==> FoundAmong(s, sources, targets, rel, name, false)
    {
    }
  }

  /** The environment of one source object, against all target objects. */
  method ConnectEnv(s: Sides, level: int, rel: Relationship, source: Object, targets: seq<Object>, found: seq<Connection>)
    returns (r: seq<Connection>)
    requires forall o :: o in targets ==> FixedSide(s, source, o)
    requires rel.lhs == "env" && EnvTyped(source.content)
    requires Alike(found, level, FoundKind(s), s.namespace, EnvVariable, FixedNode(s))
    ensures Alike(r, level, FoundKind(s), s.namespace, EnvVariable, FixedNode(s))
    ensures forall name :: name in FoundNames(r) <==> name in FoundNames(found) || FoundAmong(s, [source], targets, rel, name, false)
  {
    r := found;
    var values := EnvValues(source.content);
    for i := 0 to |values|
      invariant Alike(r, level, FoundKind(s), s.namespace, EnvVariable, FixedNode(s))
      invariant forall name :: name in FoundNames(r) <==>
                  name in FoundNames(found) || exists k, o :: 0 <= k < i && EnvNamed(s, rel, source, o, targets, values[k], name)
    {
      r := ConnectEnvValue(s, level, rel, source, targets, values[i], r);
    }
    forall name
      ensures FoundAmong(s, [source], targets, rel, name, false) <==>
              exists k, o :: 0 <= k < |values| && EnvNamed(s, rel, source, o, targets, values[k], name)
    {
      if FoundAmong(s, [source], targets, rel, name, false) {
        var l, o :| l in [source] && o in targets && SpecPair(rel, l, o, false) && FoundName(s, l, o) == name;
        var k :| 0 <= k < |values| && values[k] == o.name;
        assert EnvNamed(s, rel, source, o, targets, values[k], name);
      }
      if k, o :| 0 <= k < |values| && EnvNamed(s, rel, source, o, targets, values[k], name) {
        assert values[k] in values && source in [source];
      }
    }
  }

  ghost predicate EnvNamed(s: Sides, rel: Relationship, source: Object, o: Object, targets: seq<Object>, value: string, name: string) {
    rel.rhs == "name" && o in targets && o.name == value && FoundName(s, source, o) == name
  }

  method ConnectEnvValue(s: Sides, level: int, rel: Relationship, source: Object, targets: seq<Object>, value: string, found: seq<Connection>)
    returns (r: seq<Connection>)
    requires forall o :: o in targets ==> FixedSide(s, source, o)
    requires Alike(found, level, FoundKind(s), s.namespace, EnvVariable, FixedNode(s))
    ensures Alike(r, level, FoundKind(s), s.namespace, EnvVariable, FixedNode(s))
    ensures forall name :: name in FoundNames(r) <==>
              name in FoundNames(found) || exists o :: EnvNamed(s, rel, source, o, targets, value, name)
  {
    r := found;
    for i := 0 to |targets|
      invariant Alike(r, level, FoundKind(s), s.namespace, EnvVariable, FixedNode(s))
      invariant forall name :: name in FoundNames(r) <==>
                  name in FoundNames(found) || exists j :: 0 <= j < i && EnvNamed(s, rel, source, targets[j], targets, value, name)
    {
      if rel.rhs == "name" {
        if value == targets[i].name {
          var conn := FoundConnection(s, level, EnvVariable, source, targets[i]);
          FoundConnectionAlike(s, level, EnvVariable, source, targets[i]);
          MergeAlike(r, level, FoundKind(s), s.namespace, EnvVariable, FixedNode(s), conn);
          r := LevelList.AppendConnections1(r, [conn]);
        }
      }
    }
  }

  // ---------------------------------------------------------------- annotations

  ghost predicate MentionedAmong(s: Sides, sources: seq<Object>, targets: seq<Object>, rel: Relationship, name: string) {
    exists l, o :: l in sources && o in targets && AnnotationPair(rel, s.kind, s.instance, l, o) && FoundName(s, l, o) == name
  }

  lemma MentionedAmongSnoc(s: Sides, sources: seq<Object>, source: Object, targets: seq<Object>, rel: Relationship, name: string)
    ensures MentionedAmong(s, sources + [source], targets, rel, name) <==>
            MentionedAmong(s, sources, targets, rel, name) || MentionedAmong(s, [source], targets, rel, name)
  {
    assert source in [source] && source in sources + [source];
    assert forall l :: l in sources ==> l in sources + [source];
  }

  method SearchAnnotations(w: World, cache: Cache, level: int, s: Sides, rel: Relationship, namespaceToSearch: string)
    returns (r: seq<Connection>)
    requires Ready(w, cache) && OneFixed(s)
    modifies cache
    ensures Ready(w, cache)
    ensures Alike(r, level, FoundKind(s), s.namespace, Annotation, FixedNode(s))
    ensures forall name :: name in FoundNames(r) <==>
              MentionedAmong(s, Instances(w, s.kind, s.instance, AnnotationNamespace(w, s.kind, s.instance, s.namespace)),
                             Instances(w, s.targetKind, s.targetInstance, if namespaceToSearch != "" then namespaceToSearch else s.namespace),
                             rel, name)
  {
    r := [];
    var sourceNamespace := s.namespace;
    if s.kind == w.original.kind && s.instance == w.original.name {
      sourceNamespace := w.original.namespace;
    }
    var sources := GetObjects(w, cache, s.kind, s.instance, sourceNamespace);
    var targetNamespace := s.namespace;
    if namespaceToSearch != "" {
      targetNamespace := namespaceToSearch;
    }
    var targets := GetObjects(w, cache, s.targetKind, s.targetInstance, targetNamespace);
    for i := 0 to |sources|
      invariant Ready(w, cache)
      invariant Alike(r, level, FoundKind(s), s.namespace, Annotation, FixedNode(s))
      invariant forall name :: name in FoundNames(r) <==> MentionedAmong(s, sources[..i], targets, rel, name)
    {
      SidesFixed(w, s, sources[i], targets, targetNamespace);
      var conns := ConnectAnnotations(s, level, rel, sources[i], targets);
      FoundConcat(r, conns);
      assert sources[..i + 1] == sources[..i] + [sources[i]];
      forall name
        ensures name in FoundNames(r + conns) <==> MentionedAmong(s, sources[..i + 1], targets, rel, name)
      {
        MentionedAmongSnoc(s, sources[..i], sources[i], targets, rel, name);
      }
      r := r + conns;
    }
    assert sources[..|sources|] == sources;
  }

  /** One source object against the annotations of all target objects. The annotations are visited in any order. */
  method ConnectAnnotations(s: Sides, level: int, rel: Relationship, source: Object, targets: seq<Object>) returns (r: seq<Connection>)
    requires forall o :: o in targets ==> FixedSide(s, source, o)
    ensures Alike(r, level, FoundKind(s), s.namespace, Annotation, FixedNode(s))
    ensures forall name :: name in FoundNames(r) <==> MentionedAmong(s, [source], targets, rel, name)
  {
    r := [];
    for i := 0 to |targets|
      invariant Alike(r, level, FoundKind(s), s.namespace, Annotation, FixedNode(s))
      invariant forall name :: name in FoundNames(r) <==>
                  exists j :: 0 <= j < i && AnnotationPair(rel, s.kind, s.instance, source, targets[j]) && FoundName(s, source, targets[j]) == name
    {
      var conns := ConnectAnnotation(s, level, rel, source, targets[i]);
      FoundConcat(r, conns);
      r := r + conns;
    }
    assert source in [source];
  }

  method ConnectAnnotation(s: Sides, level: int, rel: Relationship, source: Object, target: Object) returns (r: seq<Connection>)
    requires FixedSide(s, source, target)
    ensures Alike(r, level, FoundKind(s), s.namespace, Annotation, FixedNode(s))
    ensures FoundNames(r) == if AnnotationPair(rel, s.kind, s.instance, source, target) then {FoundName(s, source, target)} else {}
  {
    r := [];
    var conn := FoundConnection(s, level, Annotation, source, target);
    FoundConnectionAlike(s, level, Annotation, source, target);
    FoundOne(conn);
    var fqvalue := Text.ToLower(s.kind) + "-" + source.name;
    var keys := target.annotations.Keys;
    while keys != {}
      invariant keys <= target.annotations.Keys
      invariant r == if rel.lhs !in keys && AnnotationPair(rel, s.kind, s.instance, source, target) then [conn] else []
      decreases |keys|
    {
      var key :| key in keys;
      keys := keys - {key};
      var value := target.annotations[key];
      if s.instance == ANY {
        if key == rel.lhs && (value == source.name || value == fqvalue || Text.Contains(value, source.name)) {
          r := r + [conn];
        }
      } else {
        if key == rel.lhs && (value == s.instance || value == fqvalue || Text.Contains(value, s.instance)) {
          r := r + [conn];
        }
      }
    }
  }

  // ---------------------------------------------------------------- one relationship, from one node

  /** The outcome of a search from `a`: nothing but what `rel` leads to, and everything it surely leads to. */
  ghost predicate Finds(w: World, down: bool, level: int, a: Node, rel: Relationship, kind: string, targetNamespace: string, r: seq<Connection>) {
    && Alike(r, level, kind, a.namespace, TypeOf(rel), a)
    && (forall name :: name in FoundNames(r) ==> Leads(w, down, a, rel, Node(kind, name, a.namespace), targetNamespace, false))
    && (forall name :: Leads(w, down, a, rel, Node(kind, name, a.namespace), targetNamespace, true) ==> name in FoundNames(r))
  }

  function TargetNamespace(namespaceToSearch: string, namespace: string): string {
    if namespaceToSearch != "" then namespaceToSearch else namespace
  }

  lemma SpecDown(w: World, a: Node, rel: Relationship, kind: string, name: string, sure: bool)
    requires a.name != ANY
    ensures FoundAmong(Sides(a.kind, a.name, kind, ANY, a.namespace), Instances(w, a.kind, a.name, a.namespace),
                       Instances(w, kind, ANY, SpecNamespace(w, rel, kind, a.namespace)), rel, name, sure) <==>
            SpecLinked(w, rel, a.kind, a.name, kind, ANY, a.namespace, a.name, name, sure)
  {
    InstancesAreObjects(w, a.kind, a.name, a.namespace);
    hide Instances, SpecPair;
  }

  lemma SpecUp(w: World, a: Node, rel: Relationship, kind: string, name: string, sure: bool)
    requires a.name != ANY
    ensures FoundAmong(Sides(kind, ANY, a.kind, a.name, a.namespace), Instances(w, kind, ANY, a.namespace),
                       Instances(w, a.kind, a.name, SpecNamespace(w, rel, a.kind, a.namespace)), rel, name, sure) <==>
            SpecLinked(w, rel, kind, ANY, a.kind, a.name, a.namespace, name, a.name, sure)
  {
    InstancesAreObjects(w, a.kind, a.name, SpecNamespace(w, rel, a.kind, a.namespace));
    hide Instances, SpecPair;
  }

  lemma AnnotationDown(w: World, a: Node, rel: Relationship, kind: string, name: string, targetNamespace: string)
    requires a.name != ANY
    ensures MentionedAmong(Sides(a.kind, a.name, kind, ANY, a.namespace),
                           Instances(w, a.kind, a.name, AnnotationNamespace(w, a.kind, a.name, a.namespace)),
                           Instances(w, kind, ANY, targetNamespace), rel, name) <==>
            AnnotationLinked(w, rel, a.kind, a.name, kind, ANY, a.namespace, targetNamespace, a.name, name)
  {
    InstancesAreObjects(w, a.kind, a.name, AnnotationNamespace(w, a.kind, a.name, a.namespace));
    hide Instances, AnnotationPair;
  }

  lemma AnnotationUp(w: World, a: Node, rel: Relationship, kind: string, name: string, targetNamespace: string)
    requires a.name != ANY
    ensures MentionedAmong(Sides(kind, ANY, a.kind, a.name, a.namespace),
                           Instances(w, kind, ANY, AnnotationNamespace(w, kind, ANY, a.namespace)),
                           Instances(w, a.kind, a.name, targetNamespace), rel, name) <==>
            AnnotationLinked(w, rel, kind, ANY, a.kind, a.name, a.namespace, targetNamespace, name, a.name)
  {
    InstancesAreObjects(w, a.kind, a.name, targetNamespace);
    hide Instances, AnnotationPair;
  }

  /** searchSpecProperty */
  method SearchSpecProperty(w: World, cache: Cache, level: int, s: Sides, rel: Relationship) returns (r: seq<Connection>)
    requires Ready(w, cache) && OneFixed(s) && WorldOk(w)
    modifies cache
    ensures Ready(w, cache)
    ensures Alike(r, level, FoundKind(s), s.namespace, if rel.lhs == "env" then EnvVariable else SpecProperty, FixedNode(s))
    ensures SpecFound(w, s, rel, r)
  {
    if rel.lhs == "env" {
      r := SearchSpecPropertyEnv(w, cache, level, s, rel);
    } else {
      r := SearchSpecPropertyField(w, cache, level, s, rel);
    }
  }

  /** The three searches of findDownstreamRelatives. */
  method SearchDown(w: World, cache: Cache, level: int, a: Node, rel: Relationship, targetKind: string, namespaceToSearch: string)
    returns (r: seq<Connection>)
    requires Ready(w, cache) && WorldOk(w) && a.name != ANY
    modifies cache
    ensures Ready(w, cache)
    ensures Finds(w, true, level, a, rel, targetKind, TargetNamespace(namespaceToSearch, a.namespace), r)
  {
    hide WorldOk, Objects, Instances, SpecLinked, AnnotationLinked, FoundAmong, MentionedAmong;
    var s := Sides(a.kind, a.name, targetKind, ANY, a.namespace);
    if rel.relType == Label {
      var labelMap := SelectorLabels(w, a);
      r := SearchLabels(w, cache, level, a, labelMap, targetKind);
    } else if rel.relType == SpecProperty {
      r := SearchSpecProperty(w, cache, level, s, rel);
      ghost var sources := Instances(w, a.kind, a.name, a.namespace);
      ghost var targets := Instances(w, targetKind, ANY, SpecNamespace(w, rel, targetKind, a.namespace));
      forall name, sure
        ensures FoundAmong(s, sources, targets, rel, name, sure) <==>
                SpecLinked(w, rel, a.kind, a.name, targetKind, ANY, a.namespace, a.name, name, sure)
      {
        SpecDown(w, a, rel, targetKind, name, sure);
      }
    } else if rel.relType == Annotation {
      r := SearchAnnotations(w, cache, level, s, rel, namespaceToSearch);
      var targetNamespace := TargetNamespace(namespaceToSearch, a.namespace);
      forall name
        ensures MentionedAmong(s, Instances(w, a.kind, a.name, AnnotationNamespace(w, a.kind, a.name, a.namespace)),
                               Instances(w, targetKind, ANY, targetNamespace), rel, name) <==>
                AnnotationLinked(w, rel, a.kind, a.name, targetKind, ANY, a.namespace, targetNamespace, a.name, name)
      {
        AnnotationDown(w, a, rel, targetKind, name, targetNamespace);
      }
    } else {
      r := [];
    }
  }

  /** The three searches of findUpstreamRelatives. */
  method SearchUp(w: World, cache: Cache, level: int, a: Node, rel: Relationship, relatedKind: string, namespaceToSearch: string)
    returns (r: seq<Connection>)
    requires Ready(w, cache) && WorldOk(w) && a.name != ANY
    modifies cache
    ensures Ready(w, cache)
    ensures Finds(w, false, level, a, rel, relatedKind, TargetNamespace(namespaceToSearch, a.namespace), r)
  {
    hide WorldOk, Objects, Instances, SpecLinked, AnnotationLinked, FoundAmong, MentionedAmong;
    var s := Sides(relatedKind, ANY, a.kind, a.name, a.namespace);
    if rel.relType == Label {
      var labelMap := GetLabels(w, cache, a);
      r := SearchSelectors(w, cache, level, relatedKind, labelMap, a);
    } else if rel.relType == SpecProperty {
      r := SearchSpecProperty(w, cache, level, s, rel);
      ghost var sources := Instances(w, relatedKind, ANY, a.namespace);
      ghost var targets := Instances(w, a.kind, a.name, SpecNamespace(w, rel, a.kind, a.namespace));
      forall name, sure
        ensures FoundAmong(s, sources, targets, rel, name, sure) <==>
                SpecLinked(w, rel, relatedKind, ANY, a.kind, a.name, a.namespace, name, a.name, sure)
      {
        SpecUp(w, a, rel, relatedKind, name, sure);
      }
    } else if rel.relType == Annotation {
      r := SearchAnnotations(w, cache, level, s, rel, namespaceToSearch);
      var targetNamespace := TargetNamespace(namespaceToSearch, a.namespace);
      forall name
        ensures MentionedAmong(s, Instances(w, relatedKind, ANY, AnnotationNamespace(w, relatedKind, ANY, a.namespace)),
                               Instances(w, a.kind, a.name, targetNamespace), rel, name) <==>
                AnnotationLinked(w, rel, relatedKind, ANY, a.kind, a.name, a.namespace, targetNamespace, name, a.name)
      {
        AnnotationUp(w, a, rel, relatedKind, name, targetNamespace);
      }
    } else {
      r := [];
    }
  }
}
