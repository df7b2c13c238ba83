/** The connections that relationships.go looks for, as a relation between nodes of a fixed cluster. */
module Graph {
  import opened Connections
  import opened FieldSearch
  import opened Cluster
  import opened Relationships
  import opened CompositionTree
  import Ownership
  import CompositionStore
  import Text

  const NAMESPACE := "Namespace"
  const ANY := "*"

  /** What a run looks at: the cluster, the tables about kinds, the stored compositions and the user's input. */
  datatype World = World(
    cluster: Cluster,
    gvks: map<string, Gvk>,
    relationships: map<string, seq<Relationship>>,
    crdKinds: set<string>,
    compositions: seq<CompositionStore.Compositions>,
    relsToIgnore: string,
    original: Node)

  // ---------------------------------------------------------------- looking up objects

  function GvkOf(w: World, kind: string): Gvk {
    Ownership.GvkOf(w.gvks, kind)
  }

  function Objects(w: World, kind: string, namespace: string): seq<Object> {
    var list := ListDirect(w.cluster, GvkOf(w, kind), namespace);
    if list.Some? then list.value else []
  }

  function Got(w: World, kind: string, name: string, namespace: string): Option<Object> {
    GetDirect(w.cluster, GvkOf(w, kind), name, namespace)
  }

  /** getObjects: all objects of a kind, or the one named. */
  function Instances(w: World, kind: string, instance: string, namespace: string): seq<Object> {
    if instance == ANY then Objects(w, kind, namespace)
    else
      var o := Got(w, kind, instance, namespace);
      if o.Some? then [o.value] else []
  }

  // ---------------------------------------------------------------- ignored nodes

  /** One entry of the ignore list, `Kind:name` or `Kind:*`. */
  predicate Ignores(rel: string, kind: string, instance: string) {
    var parts := Text.Split(rel, ':');
    |parts| > 1 && if parts[1] == ANY then kind == parts[0] else kind + ":" + instance == rel
  }

  predicate Ignored(w: World, n: Node) {
    exists rel :: rel in Text.Split(w.relsToIgnore, ',') && Ignores(rel, n.kind, n.name)
  }

  // ---------------------------------------------------------------- selectors, labels, fields, environments

  function Field(content: Json, name: string): Option<Json> {
    if content.JObject? && name in content.fields then Some(content.fields[name]) else None
  }

  /** A map with string values only. */
  function StringMap(content: Option<Json>): Option<map<string, string>> {
    if content.Some? && content.value.JObject? && forall k :: k in content.value.fields ==> content.value.fields[k].JString? then
      Some(map k | k in content.value.fields :: content.value.fields[k].text)
    else None
  }

  /** spec.selector, or spec.selector.matchLabels, or nothing. */
  function SelectorOf(content: Json): map<string, string> {
    var spec := Field(content, "spec");
    if spec.None? then map[]
    else
      var selector := Field(spec.value, "selector");
      var direct := StringMap(selector);
      if direct.Some? then direct.value
      else if selector.None? then map[]
      else
        var matchLabels := StringMap(Field(selector.value, "matchLabels"));
        if matchLabels.Some? then matchLabels.value else map[]
  }

  /** getSelectorLabels asks the server directly, and in the namespace only. */
  function SelectorLabels(w: World, n: Node): map<string, string> {
    var o := Get(w.cluster, GvkOf(w, n.kind), n.name, n.namespace);
    if o.Some? then SelectorOf(o.value.content) else map[]
  }

  function LabelsOf(w: World, n: Node): map<string, string> {
    var o := Got(w, n.kind, n.name, n.namespace);
    if o.Some? then o.value.labels else map[]
  }

  /** subsetMatchMaps */
  predicate Selects(selector: map<string, string>, labels: map<string, string>) {
    selector != map[] && forall k :: k in selector ==> k in labels && labels[k] == selector[k]
  }

  /** searchNameInLabels */
  predicate NamedInLabels(name: string, labels: map<string, string>) {
    exists k :: k in labels && labels[k] == name
  }

  /** Without a selector a label whose value is the source's name will do. */
  predicate Labelled(selector: map<string, string>, name: string, labels: map<string, string>) {
    if selector != map[] then Selects(selector, labels) else NamedInLabels(name, labels)
  }

  /** `value` is what the field `lhs` of the object holds, or (`sure`) all it holds. */
  ghost predicate FieldIs(o: Object, lhs: string, value: string, sure: bool) {
    if lhs == "namespace" then value == o.namespace
    else if sure then OccursOnly(o.content, lhs, value)
    else Occurs(o.content, lhs, value)
  }

  function Items(content: Option<Json>): seq<Json> {
    if content.Some? && content.value.JArray? then content.value.items else []
  }

  function Containers(content: Json): seq<Json> {
    var spec := Field(content, "spec");
    if spec.Some? then Items(Field(spec.value, "containers")) else []
  }

  function EnvValue(envVar: Json): string {
    var value := Field(envVar, "value");
    if value.Some? && value.value.JString? then value.value.text else ""
  }

  /** Some environment variable of some container has the value. */
  predicate HasEnvValue(content: Json, value: string) {
    exists container :: container in Containers(content) && ContainerHasEnvValue(container, value)
  }

  predicate ContainerHasEnvValue(container: Json, value: string) {
    exists envVar :: envVar in Items(Field(container, "env")) && EnvValue(envVar) == value
  }

  // ---------------------------------------------------------------- links by one relationship

  function SpecNamespace(w: World, rel: Relationship, targetKind: string, namespace: string): string {
    if rel.lhs != "env" && targetKind == NAMESPACE then w.original.namespace else namespace
  }

  /** The pairs of objects that searchSpecProperty connects. */
  ghost predicate SpecLinked(w: World, rel: Relationship, kind: string, instance: string, targetKind: string, targetInstance: string,
                             namespace: string, source: string, target: string, sure: bool) {
    rel.rhs == "name" && exists l, r ::
      && l in Instances(w, kind, instance, namespace) && l.name == source
      && r in Instances(w, targetKind, targetInstance, SpecNamespace(w, rel, targetKind, namespace)) && r.name == target
      && SpecPair(rel, l, r, sure)
  }

  /** What searchSpecProperty compares of two objects. */
  ghost predicate SpecPair(rel: Relationship, l: Object, r: Object, sure: bool) {
    if rel.lhs == "env" then HasEnvValue(l.content, r.name) else FieldIs(l, rel.lhs, r.name, sure)
  }

  function AnnotationNamespace(w: World, kind: string, instance: string, namespace: string): string {
    if kind == w.original.kind && instance == w.original.name then w.original.namespace else namespace
  }

  /** The value of an annotation mentions an instance. */
  predicate Mentions(value: string, kind: string, instance: string, name: string) {
    value == instance || value == Text.ToLower(kind) + "-" + name || Text.Contains(value, instance)
  }

  /** The pairs of objects that searchAnnotations connects. */
  ghost predicate AnnotationLinked(w: World, rel: Relationship, kind: string, instance: string, targetKind: string, targetInstance: string,
                                   namespace: string, targetNamespace: string, source: string, target: string) {
    exists l, r ::
      && l in Instances(w, kind, instance, AnnotationNamespace(w, kind, instance, namespace)) && l.name == source
      && r in Instances(w, targetKind, targetInstance, targetNamespace) && r.name == target
      && AnnotationPair(rel, kind, instance, l, r)
  }

  /** What searchAnnotations compares of two objects. */
  predicate AnnotationPair(rel: Relationship, kind: string, instance: string, l: Object, r: Object) {
    rel.lhs in r.annotations && Mentions(r.annotations[rel.lhs], kind, if instance == ANY then l.name else instance, l.name)
  }

  /** The targets searchLabels finds from a source. */
  ghost predicate LabelDown(w: World, a: Node, b: Node) {
    exists o :: o in Objects(w, b.kind, a.namespace) && o.name == b.name && Labelled(SelectorLabels(w, a), a.name, o.labels)
  }

  /** The sources searchSelectors finds from a target. */
  ghost predicate LabelUp(w: World, a: Node, b: Node) {
    exists o :: o in Objects(w, b.kind, a.namespace) && o.name == b.name && Selects(SelectorOf(o.content), LabelsOf(w, a))
  }

  /** The relation type a found connection carries. */
  function TypeOf(rel: Relationship): RelType {
    if rel.relType == SpecProperty && rel.lhs == "env" then EnvVariable else rel.relType
  }

  /** `rel`, declared for the kind of `a`, leads from `a` to `b`. */
  ghost predicate LeadsDown(w: World, a: Node, rel: Relationship, b: Node, targetNamespace: string, sure: bool) {
    match rel.relType
    case Label => LabelDown(w, a, b)
    case SpecProperty => SpecLinked(w, rel, a.kind, a.name, b.kind, ANY, a.namespace, a.name, b.name, sure)
    case Annotation => AnnotationLinked(w, rel, a.kind, a.name, b.kind, ANY, a.namespace, targetNamespace, a.name, b.name)
    case _ => false
  }

  /** `rel`, declared for the kind of `b`, leads back from `a` to `b`. */
  ghost predicate LeadsUp(w: World, a: Node, rel: Relationship, b: Node, targetNamespace: string, sure: bool) {
    match rel.relType
    case Label => LabelUp(w, a, b)
    case SpecProperty => SpecLinked(w, rel, b.kind, ANY, a.kind, a.name, a.namespace, b.name, a.name, sure)
    case Annotation => AnnotationLinked(w, rel, b.kind, ANY, a.kind, a.name, a.namespace, targetNamespace, b.name, a.name)
    case _ => false
  }

  /** In the direction of the declaration, or against it. */
  ghost predicate Leads(w: World, down: bool, a: Node, rel: Relationship, b: Node, targetNamespace: string, sure: bool) {
    if down then LeadsDown(w, a, rel, b, targetNamespace, sure) else LeadsUp(w, a, rel, b, targetNamespace, sure)
  }

  // ---------------------------------------------------------------- edges

  function RelsOf(w: World, kind: string): seq<Relationship> {
    if kind in w.relationships then w.relationships[kind] else []
  }

  /** findOwner: the first owner reference. */
  function OwnerOf(o: Object): OwnerRef {
    if o.owners == [] then OwnerRef("", "") else o.owners[0]
  }

  /** findChildKinds: the targets of all owner references, of whatever kind. */
  ghost function ChildKinds(w: World): set<string> {
    set kind, rel, target | kind in w.relationships && rel in w.relationships[kind] && rel.relType == OwnerReference
                            && target in rel.targetKinds :: target
  }

  /** The children of the root of a stored composition. */
  function ShownChildren(item: CompositionStore.Compositions): seq<Composition> {
    CompositionStore.ShownComposition(item).children
  }

  ghost predicate Down(w: World, a: Node, b: Node, ty: RelType, targetNamespace: string, sure: bool) {
    exists rel :: rel in RelsOf(w, a.kind) && b.kind in rel.targetKinds && ty == TypeOf(rel)
                  && LeadsDown(w, a, rel, b, targetNamespace, sure)
  }

  ghost predicate Up(w: World, a: Node, b: Node, ty: RelType, targetNamespace: string, sure: bool) {
    exists rel :: rel in RelsOf(w, b.kind) && a.kind in rel.targetKinds && ty == TypeOf(rel)
                  && LeadsUp(w, a, rel, b, targetNamespace, sure)
  }

  ghost predicate Owner(w: World, a: Node, b: Node) {
    var o := Got(w, a.kind, a.name, a.namespace);
    o.Some? && OwnerOf(o.value) == OwnerRef(b.kind, b.name) && b.kind != "" && b.name != ""
  }

  ghost predicate Child(w: World, a: Node, b: Node) {
    b.kind in ChildKinds(w) && exists o :: o in Objects(w, b.kind, a.namespace) && o.name == b.name && OwnerOf(o) == OwnerRef(a.kind, a.name)
  }

  ghost predicate Component(w: World, a: Node, b: Node) {
    a.kind in w.crdKinds && exists item, c ::
      item in w.compositions && item.key == a && c in ShownChildren(item) && Node(c.kind, c.name, c.namespace) == b
  }

  /** `b` is found from `a`. Everything found is taken to be in the namespace of the search. */
  ghost predicate Edge(w: World, a: Node, b: Node, ty: RelType, targetNamespace: string, sure: bool) {
    && b.namespace == a.namespace
    && (|| Down(w, a, b, ty, targetNamespace, sure)
        || Up(w, a, b, ty, targetNamespace, sure)
        || (ty == OwnerReference && (Owner(w, a, b) || Child(w, a, b) || Component(w, a, b))))
  }

  /** Exploring `a` yields a connection to `b` with the peer `peer`: `a` itself, but nobody for an owner of the same kind. */
  ghost predicate Yields(w: World, a: Node, b: Node, ty: RelType, peer: Node, targetNamespace: string, sure: bool) {
    && b.namespace == a.namespace
    && ((peer == a && (Down(w, a, b, ty, targetNamespace, sure) || Up(w, a, b, ty, targetNamespace, sure)))
        || (ty == OwnerReference && OwnershipYields(w, a, b, peer)))
  }

  ghost predicate OwnershipYields(w: World, a: Node, b: Node, peer: Node) {
    || (Owner(w, a, b) && peer == OwnerPeer(a, b))
    || ((Child(w, a, b) || Component(w, a, b)) && peer == a)
  }

  function OwnerPeer(a: Node, owner: Node): Node {
    if owner.kind != a.kind then a else NOBODY
  }

  /** Every edge yields a connection, with one peer or the other. */
  lemma EdgeYields(w: World, a: Node, b: Node, ty: RelType, targetNamespace: string, sure: bool)
    ensures Edge(w, a, b, ty, targetNamespace, sure) <==>
            Yields(w, a, b, ty, a, targetNamespace, sure) || Yields(w, a, b, ty, NOBODY, targetNamespace, sure)
    ensures forall peer :: Yields(w, a, b, ty, peer, targetNamespace, sure) ==> peer == a || peer == NOBODY
  {
    hide Down, Up, Owner, Child, Component;
  }

  // ---------------------------------------------------------------- what is assumed of the world

  ghost predicate Mentioned(w: World, kind: string) {
    kind in w.relationships || exists k, rel :: k in w.relationships && rel in w.relationships[k] && kind in rel.targetKinds
  }

  ghost predicate Named(name: string) {
    name != "" && name != ANY
  }

  /** Containers and environment variables are objects, and the values of the latter strings: the code asserts it. */
  predicate EnvTyped(content: Json) {
    forall container :: container in Containers(content) ==>
                          container.JObject? && forall envVar :: envVar in Items(Field(container, "env")) ==> EnvVarTyped(envVar)
  }

  predicate EnvVarTyped(envVar: Json) {
    && envVar.JObject?
    && ("name" in envVar.fields ==> envVar.fields["name"].JString?)
    && ("value" in envVar.fields ==> envVar.fields["value"].JString?)
  }

  /** No List call fails in both forms, names are Kubernetes names, compositions stay in their namespace. */
  ghost predicate WorldOk(w: World) {
    ResourcesOk(w) && ComponentsOk(w)
  }

  ghost predicate ResourcesOk(w: World) {
    && WellFormed(w.cluster)
    && (forall kind :: Mentioned(w, kind) ==> kind != "" && GvkOf(w, kind) in w.cluster.served)
    && (forall kind, rel :: kind in w.relationships && rel in w.relationships[kind] ==> SingleTarget(rel))
    && (forall o :: o in w.cluster.objects ==> Named(o.name) && OwnerOf(o).name != ANY && EnvTyped(o.content))
  }

  ghost predicate ComponentsOk(w: World) {
    forall item, c :: item in w.compositions && c in ShownChildren(item) ==>
                        c.kind != "" && Named(c.name) && c.namespace == item.key.namespace
  }

  lemma ResourcesIgnoreCompositions(w: World, list: seq<CompositionStore.Compositions>)
    requires ResourcesOk(w)
    ensures ResourcesOk(w.(compositions := list))
  {
    assert forall kind :: Mentioned(w.(compositions := list), kind) <==> Mentioned(w, kind);
  }

  /** No owner reference points at a Namespace or away from one. */
  ghost predicate NamespacesUnowned(w: World) {
    && (forall o :: o in w.cluster.objects ==> OwnerOf(o).kind != NAMESPACE)
    && NAMESPACE !in ChildKinds(w)
    && (forall item, c :: item in w.compositions && c in ShownChildren(item) ==> c.kind != NAMESPACE)
  }

  // ---------------------------------------------------------------- the finitely many nodes

  ghost function Kinds(w: World): set<string> {
    w.relationships.Keys
    + (set kind, rel, target | kind in w.relationships && rel in w.relationships[kind] && target in rel.targetKinds :: target)
    + (set o | o in w.cluster.objects :: OwnerOf(o).kind)
    + (set item, c | item in w.compositions && c in ShownChildren(item) :: c.kind)
  }

  ghost function Names(w: World): set<string> {
    (set o | o in w.cluster.objects :: o.name)
    + (set o | o in w.cluster.objects :: OwnerOf(o).name)
    + (set item, c | item in w.compositions && c in ShownChildren(item) :: c.name)
  }

  lemma InstancesAreObjects(w: World, kind: string, instance: string, namespace: string)
    ensures forall o :: o in Objects(w, kind, namespace) ==> o in w.cluster.objects
    ensures forall o :: o in Instances(w, kind, instance, namespace) ==> o in w.cluster.objects
    ensures forall o :: o in Instances(w, kind, instance, namespace) && instance != ANY ==> o.name == instance
  {
  }

  lemma LinkedNames(w: World, a: Node, rel: Relationship, b: Node, targetNamespace: string, sure: bool)
    requires LeadsDown(w, a, rel, b, targetNamespace, sure) || LeadsUp(w, a, rel, b, targetNamespace, sure)
    ensures exists o :: o in w.cluster.objects && o.name == b.name
  {
    InstancesAreObjects(w, b.kind, ANY, a.namespace);
    InstancesAreObjects(w, b.kind, ANY, SpecNamespace(w, rel, b.kind, a.namespace));
    InstancesAreObjects(w, b.kind, ANY, targetNamespace);
    InstancesAreObjects(w, b.kind, ANY, AnnotationNamespace(w, b.kind, ANY, a.namespace));
  }

  /** Only nodes of the universe are found, and they have names. */
  lemma EdgeTargets(w: World, a: Node, b: Node, ty: RelType, targetNamespace: string, sure: bool)
    requires WorldOk(w)
    requires Edge(w, a, b, ty, targetNamespace, sure)
    ensures b.kind in Kinds(w) && b.name in Names(w) && Named(b.name)
  {
    if Down(w, a, b, ty, targetNamespace, sure) {
      var rel :| rel in RelsOf(w, a.kind) && b.kind in rel.targetKinds && LeadsDown(w, a, rel, b, targetNamespace, sure);
      LinkedNames(w, a, rel, b, targetNamespace, sure);
    } else if Up(w, a, b, ty, targetNamespace, sure) {
      var rel :| rel in RelsOf(w, b.kind) && a.kind in rel.targetKinds && LeadsUp(w, a, rel, b, targetNamespace, sure);
      LinkedNames(w, a, rel, b, targetNamespace, sure);
    } else if Owner(w, a, b) {
      var o := Got(w, a.kind, a.name, a.namespace);
      assert o.value in w.cluster.objects;
    } else if Child(w, a, b) {
      InstancesAreObjects(w, b.kind, ANY, a.namespace);
    }
  }

  // ---------------------------------------------------------------- edges that do not depend on iteration order

  /** In what is searched from the namespace, an object of a kind that declares a field search has no second value under the
      field beside the name of a target. */
  ghost predicate Unambiguous(w: World, namespace: string) {
    forall kind, rel, o, targetKind, target, other ::
      (kind in w.relationships && rel in w.relationships[kind] && SearchesField(rel) && targetKind in rel.targetKinds
       && OfKind(w, o, kind) && Around(o, namespace)
       && OfKind(w, target, targetKind) && (targetKind == NAMESPACE || Around(target, namespace))
       && Occurs(o.content, rel.lhs, target.name) && Occurs(o.content, rel.lhs, other)) ==> other == target.name
  }

  /** Where a search in the namespace can come across the object: there, or in no namespace. */
  predicate Around(o: Object, namespace: string) {
    namespace == "" || o.namespace == "" || o.namespace == namespace
  }

  predicate SearchesField(rel: Relationship) {
    rel.relType == SpecProperty && rel.rhs == "name" && rel.lhs != "env" && rel.lhs != "namespace"
  }

  /** The object is one of those that are listed for the kind. */
  predicate OfKind(w: World, o: Object, kind: string) {
    o in w.cluster.objects && GvkOf(w, kind) in w.cluster.served && o.kind == w.cluster.served[GvkOf(w, kind)].kind
  }

  lemma InstancesAreOfKind(w: World, kind: string, instance: string, namespace: string)
    requires WellFormed(w.cluster)
    ensures forall o :: o in Instances(w, kind, instance, namespace) ==> OfKind(w, o, kind) && Around(o, namespace)
  {
  }

  lemma UnambiguousSpec(w: World, rel: Relationship, kind: string, instance: string, targetKind: string,
                        targetInstance: string, namespace: string, source: string, target: string)
    requires WellFormed(w.cluster) && Unambiguous(w, namespace)
    requires kind in w.relationships && rel in w.relationships[kind] && rel.relType == SpecProperty
    requires targetKind in rel.targetKinds
    requires SpecLinked(w, rel, kind, instance, targetKind, targetInstance, namespace, source, target, false)
    ensures SpecLinked(w, rel, kind, instance, targetKind, targetInstance, namespace, source, target, true)
  {
    InstancesAreOfKind(w, kind, instance, namespace);
    InstancesAreOfKind(w, targetKind, targetInstance, SpecNamespace(w, rel, targetKind, namespace));
    hide Instances, OfKind, WellFormed;
    var l, r :|
      && l in Instances(w, kind, instance, namespace) && l.name == source
      && r in Instances(w, targetKind, targetInstance, SpecNamespace(w, rel, targetKind, namespace)) && r.name == target
      && SpecPair(rel, l, r, false);
    if rel.lhs != "env" && rel.lhs != "namespace" {
      assert OccursOnly(l.content, rel.lhs, target);
    }
    assert SpecPair(rel, l, r, true);
  }

  lemma UnambiguousRelations(w: World, a: Node, b: Node, ty: RelType, targetNamespace: string)
    requires WellFormed(w.cluster) && Unambiguous(w, a.namespace)
    ensures Down(w, a, b, ty, targetNamespace, false) ==> Down(w, a, b, ty, targetNamespace, true)
    ensures Up(w, a, b, ty, targetNamespace, false) ==> Up(w, a, b, ty, targetNamespace, true)
  {
    hide SpecLinked, AnnotationLinked, LabelDown, LabelUp, Unambiguous, WellFormed;
    if Down(w, a, b, ty, targetNamespace, false) {
      var rel :| rel in RelsOf(w, a.kind) && b.kind in rel.targetKinds && ty == TypeOf(rel) && LeadsDown(w, a, rel, b, targetNamespace, false);
      if rel.relType == SpecProperty {
        UnambiguousSpec(w, rel, a.kind, a.name, b.kind, ANY, a.namespace, a.name, b.name);
      }
    }
    if Up(w, a, b, ty, targetNamespace, false) {
      var rel :| rel in RelsOf(w, b.kind) && a.kind in rel.targetKinds && ty == TypeOf(rel) && LeadsUp(w, a, rel, b, targetNamespace, false);
      if rel.relType == SpecProperty {
        UnambiguousSpec(w, rel, b.kind, ANY, a.kind, a.name, a.namespace, b.name, a.name);
      }
    }
  }

  /** Where fields are unambiguous all edges are sure, and all connections. */
  lemma UnambiguousEdges(w: World, a: Node, b: Node, ty: RelType, targetNamespace: string)
    requires WellFormed(w.cluster) && Unambiguous(w, a.namespace)
    ensures Edge(w, a, b, ty, targetNamespace, false) ==> Edge(w, a, b, ty, targetNamespace, true)
    ensures forall peer :: Yields(w, a, b, ty, peer, targetNamespace, false) ==> Yields(w, a, b, ty, peer, targetNamespace, true)
  {
    hide Down, Up, Owner, Child, Component, Unambiguous, WellFormed;
    UnambiguousRelations(w, a, b, ty, targetNamespace);
  }
}
