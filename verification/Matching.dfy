/** The two sides of a link: when what is found from one end is also found from the other. */
module Matching {
  import opened Connections
  import opened FieldSearch
  import opened Cluster
  import opened Relationships
  import opened Graph
  import CompositionStore

  /** In a proper namespace, listing a kind and getting its objects by name agree. */
  lemma ListedIffInstance(w: World, kind: string, name: string, namespace: string, o: Object)
    requires WorldOk(w) && Mentioned(w, kind) && namespace != "" && name != ANY
    ensures o in Objects(w, kind, namespace) && o.name == name <==> o in Instances(w, kind, name, namespace)
    ensures o in Objects(w, kind, namespace) ==> Got(w, kind, o.name, namespace) == Some(o)
  {
    ListedIffGot(w.cluster, GvkOf(w, kind), namespace, o);
    InstancesAreObjects(w, kind, name, namespace);
  }

  ghost predicate Namespaced(w: World, kind: string) {
    GvkOf(w, kind) in w.cluster.served && w.cluster.served[GvkOf(w, kind)].namespaced
  }

  /** For kinds that live in namespaces the direct lookup of getSelectorLabels is as good as any. */
  lemma NamespacedLookup(w: World, kind: string, name: string, namespace: string)
    requires WorldOk(w) && Namespaced(w, kind)
    ensures Got(w, kind, name, namespace) == Get(w.cluster, GvkOf(w, kind), name, namespace)
  {
    var served := w.cluster.served[GvkOf(w, kind)].kind;
    assert forall i :: 0 <= i < |w.cluster.objects| && w.cluster.objects[i].kind == served ==> w.cluster.objects[i].namespace != "";
    assert forall o :: o in w.cluster.objects && o.kind == served ==> o.namespace != "";
  }

  // ---------------------------------------------------------------- labels

  /** The selector of the object itself, wherever it lives. */
  function OwnSelector(w: World, n: Node): map<string, string> {
    var o := Got(w, n.kind, n.name, n.namespace);
    if o.Some? then SelectorOf(o.value.content) else map[]
  }

  /** The target finds the source by the source's own selector. */
  lemma LabelUpIsSelection(w: World, source: Node, target: Node)
    requires WorldOk(w) && Mentioned(w, source.kind) && source.namespace == target.namespace != "" && source.name != ANY
    ensures LabelUp(w, target, source) <==> Selects(OwnSelector(w, source), LabelsOf(w, target))
  {
    var namespace := source.namespace;
    hide WorldOk, Objects, Got, Get, SelectorOf;
    if LabelUp(w, target, source) {
      var o :| o in Objects(w, source.kind, namespace) && o.name == source.name && Selects(SelectorOf(o.content), LabelsOf(w, target));
      ListedIffInstance(w, source.kind, source.name, namespace, o);
    }
    if Selects(OwnSelector(w, source), LabelsOf(w, target)) {
      var o := Got(w, source.kind, source.name, namespace).value;
      ListedIffInstance(w, source.kind, source.name, namespace, o);
    }
  }

  /** The source finds the target by what getSelectorLabels says, or by its own name. */
  lemma LabelDownIsLabelled(w: World, source: Node, target: Node)
    requires WorldOk(w) && Mentioned(w, target.kind) && source.namespace == target.namespace != "" && target.name != ANY
    ensures LabelDown(w, source, target) <==> Labelled(SelectorLabels(w, source), source.name, LabelsOf(w, target))
  {
    var namespace := source.namespace;
    hide WorldOk, Objects, Got, SelectorLabels;
    if LabelDown(w, source, target) {
      var p :| p in Objects(w, target.kind, namespace) && p.name == target.name && Labelled(SelectorLabels(w, source), source.name, p.labels);
      ListedIffInstance(w, target.kind, target.name, namespace, p);
    }
    if Labelled(SelectorLabels(w, source), source.name, LabelsOf(w, target)) {
      assert LabelsOf(w, target) != map[];
      var p := Got(w, target.kind, target.name, namespace).value;
      ListedIffInstance(w, target.kind, target.name, namespace, p);
    }
  }

  /** The two sides agree exactly where both selectors select alike, and where, without a selector, no label of the target is
      the source's name. */
  lemma LabelTwoSided(w: World, source: Node, target: Node)
    requires WorldOk(w) && Mentioned(w, source.kind) && Mentioned(w, target.kind)
    requires source.namespace == target.namespace != "" && source.name != ANY && target.name != ANY
    ensures (LabelUp(w, target, source) <==> LabelDown(w, source, target)) <==>
            if SelectorLabels(w, source) == map[] then
              (Selects(OwnSelector(w, source), LabelsOf(w, target)) <==> NamedInLabels(source.name, LabelsOf(w, target)))
            else (Selects(OwnSelector(w, source), LabelsOf(w, target)) <==> Selects(SelectorLabels(w, source), LabelsOf(w, target)))
    ensures Namespaced(w, source.kind) ==> SelectorLabels(w, source) == OwnSelector(w, source)
    ensures Namespaced(w, source.kind) && SelectorLabels(w, source) != map[] ==> (LabelUp(w, target, source) <==> LabelDown(w, source, target))
  {
    LabelUpIsSelection(w, source, target);
    LabelDownIsLabelled(w, source, target);
    if Namespaced(w, source.kind) {
      NamespacedLookup(w, source.kind, source.name, source.namespace);
    }
    hide WorldOk, LabelUp, LabelDown, Got, Get, SelectorOf, Selects, NamedInLabels;
  }

  /** getSelectorLabels asks in the namespace only: it finds no selector of a cluster-scoped source, though the search from the
      other side does. */
  lemma ClusterScopedHasNoSelector(w: World, source: Node)
    requires WorldOk(w) && source.namespace != ""
    requires GvkOf(w, source.kind) in w.cluster.served && !Namespaced(w, source.kind)
    ensures SelectorLabels(w, source) == map[]
  {
    var served := w.cluster.served[GvkOf(w, source.kind)].kind;
    assert forall i :: 0 <= i < |w.cluster.objects| && w.cluster.objects[i].kind == served ==> w.cluster.objects[i].namespace == "";
    assert forall o :: o in w.cluster.objects && o.kind == served ==> o.namespace == "";
  }

  // ---------------------------------------------------------------- fields and annotations

  /** Of the objects of one name, the list of a kind has those that a lookup has. */
  lemma NamedInstances(w: World, kind: string, name: string, namespace: string)
    requires WorldOk(w) && Mentioned(w, kind) && namespace != "" && name != ANY
    ensures forall o: Object :: o.name == name ==> (o in Instances(w, kind, name, namespace) <==> o in Instances(w, kind, ANY, namespace))
  {
    hide WorldOk, Mentioned;
    forall o: Object | o.name == name
      ensures o in Instances(w, kind, name, namespace) <==> o in Instances(w, kind, ANY, namespace)
    {
      ListedIffInstance(w, kind, name, namespace, o);
    }
  }

  /** With the source fixed or with the target fixed, a field search connects the same pairs. */
  lemma SpecTwoSided(w: World, rel: Relationship, source: Node, target: Node, sure: bool)
    requires WorldOk(w) && Mentioned(w, source.kind) && Mentioned(w, target.kind)
    requires source.namespace == target.namespace != "" && w.original.namespace != "" && source.name != ANY && target.name != ANY
    ensures SpecLinked(w, rel, source.kind, source.name, target.kind, ANY, source.namespace, source.name, target.name, sure) <==>
            SpecLinked(w, rel, source.kind, ANY, target.kind, target.name, source.namespace, source.name, target.name, sure)
  {
    hide WorldOk, Mentioned, Instances, SpecPair;
    NamedInstances(w, source.kind, source.name, source.namespace);
    NamedInstances(w, target.kind, target.name, SpecNamespace(w, rel, target.kind, source.namespace));
  }

  /** An annotation of the target mentions the source. */
  ghost predicate MentionsSource(w: World, rel: Relationship, source: Node, target: Node, targetNamespace: string) {
    exists r :: r in Instances(w, target.kind, target.name, targetNamespace) && r.name == target.name
                && rel.lhs in r.annotations && Mentions(r.annotations[rel.lhs], source.kind, source.name, source.name)
  }

  /** With the source fixed an annotation search looks for the user's resource in the namespace that the user named, with the
      target fixed where the search is. The two agree exactly if the source is in both or in neither, or is not mentioned. */
  lemma AnnotationTwoSided(w: World, rel: Relationship, source: Node, target: Node, targetNamespace: string)
    requires WorldOk(w) && Mentioned(w, source.kind) && Mentioned(w, target.kind) && w.original.name != ANY
    requires source.namespace == target.namespace != "" && targetNamespace != "" && source.name != ANY && target.name != ANY
    ensures var home := AnnotationNamespace(w, source.kind, source.name, source.namespace);
            (AnnotationLinked(w, rel, source.kind, source.name, target.kind, ANY, source.namespace, targetNamespace, source.name, target.name) <==>
             AnnotationLinked(w, rel, source.kind, ANY, target.kind, target.name, source.namespace, targetNamespace, source.name, target.name)) <==>
            (MentionsSource(w, rel, source, target, targetNamespace) ==>
             (Got(w, source.kind, source.name, home).Some? <==> Got(w, source.kind, source.name, source.namespace).Some?))
  {
    hide WorldOk, Mentioned, Objects, Got, Mentions;
    AnnotationFromSource(w, rel, source, target, targetNamespace);
    AnnotationFromTarget(w, rel, source, target, targetNamespace);
    hide AnnotationLinked, MentionsSource;
  }

  lemma AnnotationFromSource(w: World, rel: Relationship, source: Node, target: Node, targetNamespace: string)
    requires WorldOk(w) && Mentioned(w, target.kind) && targetNamespace != "" && source.name != ANY && target.name != ANY
    ensures AnnotationLinked(w, rel, source.kind, source.name, target.kind, ANY, source.namespace, targetNamespace, source.name, target.name) <==>
            (MentionsSource(w, rel, source, target, targetNamespace)
             && Got(w, source.kind, source.name, AnnotationNamespace(w, source.kind, source.name, source.namespace)).Some?)
  {
    var home := AnnotationNamespace(w, source.kind, source.name, source.namespace);
    InstancesAreObjects(w, source.kind, source.name, home);
    NamedInstances(w, target.kind, target.name, targetNamespace);
    assert Got(w, source.kind, source.name, home).Some? ==>
             Got(w, source.kind, source.name, home).value in Instances(w, source.kind, source.name, home);
    hide WorldOk, Mentioned, Objects, Got, Mentions, AnnotationNamespace;
  }

  lemma AnnotationFromTarget(w: World, rel: Relationship, source: Node, target: Node, targetNamespace: string)
    requires WorldOk(w) && Mentioned(w, source.kind) && w.original.name != ANY
    requires source.namespace != "" && source.name != ANY && target.name != ANY
    ensures AnnotationLinked(w, rel, source.kind, ANY, target.kind, target.name, source.namespace, targetNamespace, source.name, target.name) <==>
            (MentionsSource(w, rel, source, target, targetNamespace) && Got(w, source.kind, source.name, source.namespace).Some?)
  {
    InstancesAreObjects(w, source.kind, source.name, source.namespace);
    NamedInstances(w, source.kind, source.name, source.namespace);
    assert Got(w, source.kind, source.name, source.namespace).Some? ==>
             Got(w, source.kind, source.name, source.namespace).value in Instances(w, source.kind, source.name, source.namespace);
    hide WorldOk, Mentioned, Objects, Got, Mentions;
  }

  // ---------------------------------------------------------------- symmetric worlds

  /** The resource exists, or the first owner reference of an object around names it, or a stored composition shows it. */
  ghost predicate Present(w: World, n: Node) {
    || Got(w, n.kind, n.name, n.namespace).Some?
    || (exists o :: o in w.cluster.objects && Around(o, n.namespace) && OwnerOf(o) == OwnerRef(n.kind, n.name))
    || (exists item, c :: item in w.compositions && c in ShownChildren(item) && Node(c.kind, c.name, c.namespace) == n)
  }

  /** What can be found, or is the user's resource: present, of a kind that something leads to, and named. */
  ghost predicate Proper(w: World, a: Node, namespace: string) {
    && a.namespace == namespace && a.kind != "" && Named(a.name)
    && Present(w, a) && (a.kind in Kinds(w) || a.kind == w.original.kind)
  }

  /** Label sources live in namespaces, and no label of a target is the name of a source that is present and has no selector. */
  ghost predicate SelectorsUsed(w: World, namespace: string) {
    && (forall kind, rel :: rel in RelsOf(w, kind) && rel.relType == Label ==> Namespaced(w, kind))
    && (forall kind, rel, target, o, name ::
          (rel in RelsOf(w, kind) && rel.relType == Label && target in rel.targetKinds && o in Objects(w, target, namespace)
           && NamedInLabels(name, o.labels) && Present(w, Node(kind, name, namespace))) ==>
            SelectorLabels(w, Node(kind, name, namespace)) != map[])
  }

  /** Every owned object's kind is the target of an owner reference. */
  ghost predicate OwnersKnown(w: World, namespace: string) {
    forall a: Node, b: Node :: Proper(w, a, namespace) && Owner(w, a, b) ==> a.kind in ChildKinds(w)
  }

  /** Where everything found from one end, other than a component, is found from the other. */
  ghost predicate Symmetric(w: World, namespace: string) {
    WorldOk(w) && namespace != "" && w.original.namespace == namespace && Named(w.original.name)
    && SelectorsUsed(w, namespace) && OwnersKnown(w, namespace)
  }

  lemma LabelsLeadBack(w: World, rel: Relationship, source: Node, target: Node)
    requires Symmetric(w, source.namespace) && source.namespace == target.namespace && Named(source.name) && Named(target.name)
    requires rel in RelsOf(w, source.kind) && target.kind in rel.targetKinds && rel.relType == Label && Present(w, source)
    ensures LabelDown(w, source, target) <==> LabelUp(w, target, source)
  {
    hide WorldOk, OwnersKnown, Objects, SelectorLabels, Present;
    assert Mentioned(w, source.kind) && Mentioned(w, target.kind);
    LabelTwoSided(w, source, target);
    LabelUpIsSelection(w, source, target);
    assert Node(source.kind, source.name, source.namespace) == source;
  }

  lemma LeadsBack(w: World, rel: Relationship, source: Node, target: Node, sure: bool)
    requires Symmetric(w, source.namespace) && source.namespace == target.namespace && Named(source.name) && Named(target.name)
    requires rel in RelsOf(w, source.kind) && target.kind in rel.targetKinds && Present(w, source)
    ensures LeadsDown(w, source, rel, target, source.namespace, sure) <==> LeadsUp(w, target, rel, source, source.namespace, sure)
  {
    hide WorldOk, SpecLinked, AnnotationLinked, OwnersKnown, SelectorsUsed, Present;
    assert Mentioned(w, source.kind) && Mentioned(w, target.kind);
    match rel.relType
    case Label =>
      LabelsLeadBack(w, rel, source, target);
    case SpecProperty =>
      SpecTwoSided(w, rel, source, target, sure);
    case Annotation =>
      AnnotationTwoSided(w, rel, source, target, source.namespace);
    case _ =>
  }

  lemma EdgeTargetIsProper(w: World, a: Node, b: Node, ty: RelType, sure: bool)
    requires Symmetric(w, a.namespace) && Edge(w, a, b, ty, a.namespace, sure)
    ensures Proper(w, b, a.namespace)
  {
    EdgeTargets(w, a, b, ty, a.namespace, sure);
    hide Down, Up, Owner, Child, Component, WorldOk, SelectorsUsed, OwnersKnown, Present, Kinds;
    if Down(w, a, b, ty, a.namespace, sure) || Up(w, a, b, ty, a.namespace, sure) {
      RelationIsProper(w, a, b, ty, sure);
    } else {
      OwnershipIsProper(w, a, b);
    }
  }

  lemma RelationIsProper(w: World, a: Node, b: Node, ty: RelType, sure: bool)
    requires WorldOk(w) && b.namespace == a.namespace == w.original.namespace != "" && Named(b.name) && w.original.name != ANY
    requires Down(w, a, b, ty, a.namespace, sure) || Up(w, a, b, ty, a.namespace, sure)
    ensures b.kind != "" && Present(w, b)
  {
    hide LeadsDown, LeadsUp, Got, WorldOk;
    assert Mentioned(w, b.kind);
    MentionedHasKind(w, b.kind);
    var rel :| LeadsDown(w, a, rel, b, a.namespace, sure) || LeadsUp(w, a, rel, b, a.namespace, sure);
    var o := LinkedObject(w, a, rel, b, sure);
    ListedIffInstance(w, b.kind, b.name, b.namespace, o);
  }

  lemma MentionedHasKind(w: World, kind: string)
    requires WorldOk(w) && Mentioned(w, kind)
    ensures kind != ""
  {
  }

  /** Label, field and annotation links lead to objects. */
  lemma LinkedObject(w: World, a: Node, rel: Relationship, b: Node, sure: bool) returns (o: Object)
    requires b.namespace == a.namespace == w.original.namespace && w.original.name != ANY
    requires LeadsDown(w, a, rel, b, a.namespace, sure) || LeadsUp(w, a, rel, b, a.namespace, sure)
    ensures o in Objects(w, b.kind, b.namespace) && o.name == b.name
  {
    hide Objects, SpecPair, AnnotationPair, Labelled, Selects;
    o :| o in Objects(w, b.kind, b.namespace) && o.name == b.name;
  }

  lemma OwnershipIsProper(w: World, a: Node, b: Node)
    requires Symmetric(w, a.namespace) && b.namespace == a.namespace && Named(b.name)
    requires Owner(w, a, b) || Child(w, a, b) || Component(w, a, b)
    ensures b.kind != "" && Present(w, b)
  {
    hide SelectorsUsed, OwnersKnown;
    assert b.kind in ChildKinds(w) ==> Mentioned(w, b.kind);
    if Owner(w, a, b) {
      var o := Got(w, a.kind, a.name, a.namespace);
      assert o.value in w.cluster.objects && Around(o.value, b.namespace);
    } else if Child(w, a, b) {
      hide Got;
      var o :| o in Objects(w, b.kind, a.namespace) && o.name == b.name;
      ListedIffInstance(w, b.kind, b.name, b.namespace, o);
    }
  }

  /** A child is found from its owner exactly when the owner is found from it and its kind is the target of an owner reference. */
  lemma OwnerTwoSided(w: World, child: Node, owner: Node)
    requires WorldOk(w) && child.namespace == owner.namespace != ""
    requires owner.kind != "" && owner.name != "" && Named(child.name)
    ensures Child(w, owner, child) <==> Owner(w, child, owner) && child.kind in ChildKinds(w)
  {
    var namespace := child.namespace;
    hide Objects, Got;
    if Owner(w, child, owner) && child.kind in ChildKinds(w) {
      assert Mentioned(w, child.kind);
      var o := Got(w, child.kind, child.name, namespace).value;
      ListedIffInstance(w, child.kind, child.name, namespace, o);
    }
    if Child(w, owner, child) {
      assert Mentioned(w, child.kind);
      var o :| o in Objects(w, child.kind, namespace) && o.name == child.name && OwnerOf(o) == OwnerRef(owner.kind, owner.name);
      ListedIffInstance(w, child.kind, child.name, namespace, o);
    }
  }

  /** In a symmetric world every edge can be followed back, unless it leads to a component. */
  lemma EdgesGoBack(w: World, a: Node, b: Node, ty: RelType, sure: bool)
    requires Symmetric(w, a.namespace) && Proper(w, a, a.namespace) && Edge(w, a, b, ty, a.namespace, sure)
    ensures Proper(w, b, a.namespace)
    ensures Edge(w, b, a, ty, a.namespace, sure) || (ty == OwnerReference && Component(w, a, b))
  {
    EdgeTargetIsProper(w, a, b, ty, sure);
    var namespace := a.namespace;
    hide Symmetric, LeadsDown, LeadsUp, Owner, Child, Component;
    if Down(w, a, b, ty, namespace, sure) {
      var rel :| rel in RelsOf(w, a.kind) && b.kind in rel.targetKinds && ty == TypeOf(rel) && LeadsDown(w, a, rel, b, namespace, sure);
      LeadsBack(w, rel, a, b, sure);
    } else if Up(w, a, b, ty, namespace, sure) {
      var rel :| rel in RelsOf(w, b.kind) && a.kind in rel.targetKinds && ty == TypeOf(rel) && LeadsUp(w, a, rel, b, namespace, sure);
      LeadsBack(w, rel, b, a, sure);
    } else if !Component(w, a, b) {
      OwnersGoBack(w, a, b);
    }
  }

  lemma OwnersGoBack(w: World, a: Node, b: Node)
    requires Symmetric(w, a.namespace) && Proper(w, a, a.namespace) && Proper(w, b, a.namespace)
    requires Owner(w, a, b) || Child(w, a, b)
    ensures Child(w, b, a) || Owner(w, b, a)
  {
    hide WorldOk, SelectorsUsed, Owner, Child;
    OwnerTwoSided(w, a, b);
    OwnerTwoSided(w, b, a);
  }

  // ---------------------------------------------------------------- the user's resource

  /** Within one namespace the edges do not depend on which of its resources the user asked about. */
  lemma EdgesIgnoreTheOriginal(w: World, original: Node, a: Node, b: Node, ty: RelType, sure: bool)
    requires w.original.namespace == original.namespace == a.namespace
    ensures Edge(w, a, b, ty, a.namespace, sure) <==> Edge(w.(original := original), a, b, ty, a.namespace, sure)
  {
    var other := w.(original := original);
    DownIgnoresTheOriginal(w, original, a, b, ty, sure);
    OwnershipIgnoresTheOriginal(w, original, a, b);
    hide Down, Up, Owner, Child, Component;
  }

  lemma DownIgnoresTheOriginal(w: World, original: Node, a: Node, b: Node, ty: RelType, sure: bool)
    requires w.original.namespace == original.namespace == a.namespace
    ensures Down(w, a, b, ty, a.namespace, sure) <==> Down(w.(original := original), a, b, ty, a.namespace, sure)
    ensures Up(w, a, b, ty, a.namespace, sure) <==> Up(w.(original := original), a, b, ty, a.namespace, sure)
  {
    var other := w.(original := original);
    hide LeadsDown, LeadsUp;
    forall rel
      ensures LeadsDown(w, a, rel, b, a.namespace, sure) <==> LeadsDown(other, a, rel, b, a.namespace, sure)
      ensures LeadsUp(w, a, rel, b, a.namespace, sure) <==> LeadsUp(other, a, rel, b, a.namespace, sure)
    {
      LinksIgnoreTheOriginal(w, original, a, rel, b, sure);
    }
  }

  lemma OwnershipIgnoresTheOriginal(w: World, original: Node, a: Node, b: Node)
    ensures Owner(w, a, b) || Child(w, a, b) || Component(w, a, b) <==>
            Owner(w.(original := original), a, b) || Child(w.(original := original), a, b) || Component(w.(original := original), a, b)
  {
    hide Instances, ShownChildren;
    LookupsIgnoreTheOriginal(w, original);
  }

  lemma LinksIgnoreTheOriginal(w: World, original: Node, a: Node, rel: Relationship, b: Node, sure: bool)
    requires w.original.namespace == original.namespace == a.namespace
    ensures LeadsDown(w, a, rel, b, a.namespace, sure) <==> LeadsDown(w.(original := original), a, rel, b, a.namespace, sure)
    ensures LeadsUp(w, a, rel, b, a.namespace, sure) <==> LeadsUp(w.(original := original), a, rel, b, a.namespace, sure)
  {
    hide SpecPair, AnnotationPair, Labelled, SelectorOf, Instances, Objects, SelectorLabels, LabelsOf;
    LookupsIgnoreTheOriginal(w, original);
  }

  lemma LookupsIgnoreTheOriginal(w: World, original: Node)
    ensures forall kind, instance, namespace ::
              Instances(w, kind, instance, namespace) == Instances(w.(original := original), kind, instance, namespace)
    ensures forall kind, namespace :: Objects(w, kind, namespace) == Objects(w.(original := original), kind, namespace)
    ensures forall n :: SelectorLabels(w, n) == SelectorLabels(w.(original := original), n)
    ensures forall n :: LabelsOf(w, n) == LabelsOf(w.(original := original), n)
  {
    hide SelectorOf;
  }
}
