/** What the program reads out of an object, written out on its JSON and its fields. */
module Readings {
  import opened Connections
  import opened FieldSearch
  import opened Cluster
  import opened Graph
  import opened Relationships
  import CompositionStore
  import CompositionTree
  import Ownership
  import Searches
  import Text

  /** unstructured.NestedFieldNoCopy: one entry after the other. */
  function Nested(content: Json, names: seq<string>): Option<Json> {
    if names == [] then Some(content)
    else if content.JObject? && names[0] in content.fields then Nested(content.fields[names[0]], names[1..])
    else None
  }

  lemma NestedOne(content: Json, name: string)
    ensures Nested(content, [name]) == if content.JObject? && name in content.fields then Some(content.fields[name]) else None
  {
  }

  lemma NestedTwo(content: Json, one: string, two: string)
    ensures Nested(content, [one, two]) == match Nested(content, [one]) case Some(c) => Nested(c, [two]) case None => None
  {
    assert [one, two][1..] == [two];
  }

  // ---------------------------------------------------------------- environment variables

  /** `envVar` has this value, or none that is a string, which counts as "". */
  predicate ValueIs(envVar: Json, value: string) {
    match Nested(envVar, ["value"])
    case Some(JString(text)) => value == text
    case _ => value == ""
  }

  lemma ContainerRead(container: Json, value: string)
    ensures ContainerHasEnvValue(container, value) <==>
            exists envVars, envVar :: Nested(container, ["env"]) == Some(JArray(envVars)) && envVar in envVars && ValueIs(envVar, value)
  {
    NestedOne(container, "env");
    forall envVar
      ensures EnvValue(envVar) == value <==> ValueIs(envVar, value)
    {
      NestedOne(envVar, "value");
    }
    hide EnvValue, ValueIs;
  }

  /** Among the values of environment variables are those under `value` of the elements of `env` of the elements of
      `spec.containers`, and no others. */
  lemma EnvValuesRead(content: Json, value: string)
    ensures HasEnvValue(content, value) <==>
            exists containers, container, envVars, envVar ::
              && Nested(content, ["spec", "containers"]) == Some(JArray(containers)) && container in containers
              && Nested(container, ["env"]) == Some(JArray(envVars)) && envVar in envVars && ValueIs(envVar, value)
  {
    NestedTwo(content, "spec", "containers");
    forall container
      ensures ContainerHasEnvValue(container, value) <==>
              exists envVars, envVar :: Nested(container, ["env"]) == Some(JArray(envVars)) && envVar in envVars && ValueIs(envVar, value)
    {
      ContainerRead(container, value);
    }
    hide ContainerHasEnvValue, ValueIs;
  }

  // ---------------------------------------------------------------- selectors and labels

  predicate IsStringMap(content: Option<Json>) {
    content.Some? && content.value.JObject? && forall k :: k in content.value.fields ==> content.value.fields[k].JString?
  }

  ghost predicate SameStrings(m: map<string, string>, fields: map<string, Json>) {
    m.Keys == fields.Keys && forall k :: k in m ==> fields[k] == JString(m[k])
  }

  /** A selector is what stands under `spec.selector` if that has strings only, or else under `spec.selector.matchLabels`. */
  lemma SelectorRead(content: Json)
    ensures var direct, matchLabels := Nested(content, ["spec", "selector"]), Nested(content, ["spec", "selector", "matchLabels"]);
            if IsStringMap(direct) then SameStrings(SelectorOf(content), direct.value.fields)
            else if IsStringMap(matchLabels) then SameStrings(SelectorOf(content), matchLabels.value.fields)
            else SelectorOf(content) == map[]
  {
    NestedTwo(content, "spec", "selector");
    assert ["spec", "selector", "matchLabels"][1..] == ["selector", "matchLabels"];
    if content.JObject? && "spec" in content.fields {
      NestedTwo(content.fields["spec"], "selector", "matchLabels");
    }
  }

  /** A selector selects what has all its entries, if it has any. */
  lemma SelectedHaveAllEntries(selector: map<string, string>, labels: map<string, string>)
    ensures Selects(selector, labels) <==> |selector| > 0 && labels + selector == labels
  {
    if Selects(selector, labels) {
      var k :| k in selector;
    }
  }

  lemma NamedIsAValue(name: string, labels: map<string, string>)
    ensures NamedInLabels(name, labels) <==> name in labels.Values
  {
  }

  // ---------------------------------------------------------------- fields, annotations and owners

  /** The field `namespace` is the object's own namespace, whatever its content says. */
  lemma NamespaceRead(o: Object, value: string, sure: bool)
    ensures FieldIs(o, "namespace", value, sure) <==> o.namespace == value
  {
  }

  /** An annotation mentions an instance whose name is part of it, or that it names with its kind in lower case. */
  lemma MentionRead(value: string, kind: string, name: string)
    ensures Mentions(value, kind, name, name) <==>
            (exists before, after :: value == before + name + after) || value == Text.ToLower(kind) + "-" + name
  {
    Text.ContainsRead(value, name);
    assert value == name ==> value == "" + name + "";
    hide Text.Contains, Text.ToLower;
  }

  /** The owner is the first of all. */
  lemma OwnerRead(o: Object, first: OwnerRef, rest: seq<OwnerRef>)
    ensures o.owners == [first] + rest ==> OwnerOf(o) == first
    ensures o.owners == [] ==> OwnerOf(o) == OwnerRef("", "")
  {
  }

  // ---------------------------------------------------------------- metadata

  /** The status is the string under `status.phase`, or "". */
  lemma StatusRead(o: Object, parentKind: string, parentName: string)
    ensures var meta := Ownership.MetaOf(o, parentKind, parentName);
            && meta.name == o.name && meta.namespace == o.namespace
            && (match Nested(o.content, ["status", "phase"])
                case Some(JString(phase)) => meta.status == phase
                case _ => meta.status == "")
            && (if OwnerRef(parentKind, parentName) in o.owners then meta.ownerKind == parentKind && meta.ownerName == parentName
                else meta.ownerKind == meta.ownerName == "")
  {
    NestedTwo(o.content, "status", "phase");
  }

  // ---------------------------------------------------------------- what is listed and got

  /** A kind that is not served has no objects; otherwise those of the served kind are listed: of the namespace, or all of them
      if the kind is cluster-scoped or no namespace is given. */
  lemma ListRead(w: World, kind: string, namespace: string, o: Object)
    ensures o in Objects(w, kind, namespace) <==>
            o in w.cluster.objects && (var gvk := if kind in w.gvks then w.gvks[kind] else Gvk("", "", "");
            gvk in w.cluster.served && var r := w.cluster.served[gvk]; o.kind == r.kind && (namespace == "" || !r.namespaced || o.namespace == namespace))
  {
  }

  /** Compositions list in the namespace only, and nothing for a kind without a version or a plural. */
  lemma ListedRead(cluster: Cluster, gvk: Gvk, namespace: string, o: Object)
    ensures o in Ownership.Listed(cluster, gvk, namespace) <==>
            && gvk.resource != "" && gvk.version != "" && gvk in cluster.served && (cluster.served[gvk].namespaced || namespace == "")
            && o in cluster.objects && o.kind == cluster.served[gvk].kind && (namespace == "" || o.namespace == namespace)
  {
  }

  /** Components are followed from custom resources only, and from their own entries in the store. */
  lemma ComponentRead(w: World, a: Node, b: Node)
    ensures Component(w, a, b) ==> a.kind in w.crdKinds && exists item :: item in w.compositions && item.key == a
    ensures forall item: CompositionStore.Compositions, c: CompositionTree.Composition ::
              (a.kind in w.crdKinds && item in w.compositions && item.key == a && c.kind == b.kind && c.name == b.name
               && c.namespace == b.namespace && c in CompositionStore.ShownComposition(item).children) ==> Component(w, a, b)
  {
    hide CompositionStore.ShownComposition;
  }

  /** An owner has a kind and a name, and is the first owner of what is got in the namespace. */
  lemma OwnerEdgeRead(w: World, a: Node, b: Node)
    ensures Owner(w, a, b) <==>
            b.kind != "" && b.name != "" && match Got(w, a.kind, a.name, a.namespace)
                                            case Some(o) => |o.owners| > 0 && o.owners[0].kind == b.kind && o.owners[0].name == b.name
                                            case None => false
  {
    hide Got;
  }

  // ---------------------------------------------------------------- links by one field

  /** Both are listed, and got by their names. */
  ghost predicate Meet(w: World, l: Object, r: Object, source: Node, target: Node) {
    && source.namespace == target.namespace && target.kind != NAMESPACE && l.name == source.name && r.name == target.name
    && l in Instances(w, source.kind, ANY, source.namespace) && l in Instances(w, source.kind, source.name, source.namespace)
    && r in Instances(w, target.kind, ANY, source.namespace) && r in Instances(w, target.kind, target.name, source.namespace)
  }

  /** If the field holds the target's name and nothing else, each is surely found from the other. */
  lemma FieldEdges(w: World, rel: Relationship, l: Object, r: Object, source: Node, target: Node)
    requires rel in RelsOf(w, source.kind) && target.kind in rel.targetKinds && SearchesField(rel) && Meet(w, l, r, source, target)
    requires OccursOnly(l.content, rel.lhs, target.name)
    ensures Edge(w, source, target, SpecProperty, source.namespace, true) && Edge(w, target, source, SpecProperty, source.namespace, true)
  {
    hide Instances, OccursOnly, Owner, Child, Component;
    assert SpecPair(rel, l, r, true);
    assert LeadsDown(w, source, rel, target, source.namespace, true) && LeadsUp(w, target, rel, source, source.namespace, true);
  }

  /** If an environment variable has the target's name as its value, each is surely found from the other, as EnvVariable. */
  lemma EnvEdges(w: World, rel: Relationship, l: Object, r: Object, source: Node, target: Node)
    requires rel in RelsOf(w, source.kind) && target.kind in rel.targetKinds && Meet(w, l, r, source, target)
    requires rel.relType == SpecProperty && rel.lhs == "env" && rel.rhs == "name" && HasEnvValue(l.content, target.name)
    ensures Edge(w, source, target, EnvVariable, source.namespace, true) && Edge(w, target, source, EnvVariable, source.namespace, true)
  {
    hide Instances, HasEnvValue, Owner, Child, Component;
    assert SpecPair(rel, l, r, true);
    assert LeadsDown(w, source, rel, target, source.namespace, true) && LeadsUp(w, target, rel, source, source.namespace, true);
  }

  /** A field of a resource that holds the name of a Namespace is looked up where the user asked, any other where the search is. */
  lemma NamespaceTargets(w: World, rel: Relationship, kind: string, instance: string, target: string, namespace: string, source: string, sure: bool)
    requires rel.lhs != "env" && SpecLinked(w, rel, kind, instance, NAMESPACE, target, namespace, source, target, sure)
    ensures rel.rhs == "name" && exists r :: r in Instances(w, NAMESPACE, target, w.original.namespace) && r.name == target
  {
  }

  /** Annotation targets are looked for in NamespaceToSearch, once it is set. */
  lemma TargetNamespaceRead(namespaceToSearch: string, namespace: string)
    ensures namespaceToSearch != "" ==> Searches.TargetNamespace(namespaceToSearch, namespace) == namespaceToSearch
    ensures Searches.TargetNamespace("", namespace) == namespace
  {
  }
}
