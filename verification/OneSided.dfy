/** Worlds in which a link is found from one end only. */
module OneSided {
  import opened Connections
  import opened FieldSearch
  import opened Cluster
  import opened Relationships
  import opened Graph
  import opened Matching

  /** A Service without a selector, and a Pod with a label whose value is the Service's name. */
  function Unselected(): World {
    var services, pods := Gvk("", "v1", "services"), Gvk("", "v1", "pods");
    World(Cluster([Object("Service", "s", "ns", map[], map[], [], JOther), Object("Pod", "p", "ns", map["app" := "s"], map[], [], JOther)],
                  map[services := Resource("Service", true), pods := Resource("Pod", true)]),
          map["Service" := services, "Pod" := pods], map["Service" := [Relationship(Label, "INSTANCE.spec.selector", "", ["Pod"])]],
          {}, [], "", Node("Service", "s", "ns"))
  }

  /** The Pod is found from the Service, and not the other way round. */
  lemma UnselectedIsOneSided()
    ensures var service, pod := Node("Service", "s", "ns"), Node("Pod", "p", "ns");
            LabelDown(Unselected(), service, pod) && !LabelUp(Unselected(), pod, service)
  {
    var w := Unselected();
    assert "Service"[0] != "Pod"[0];
    assert w.cluster.objects[1] in Objects(w, "Pod", "ns");
    assert SelectorLabels(w, Node("Service", "s", "ns")) == map[];
    assert NamedInLabels("s", w.cluster.objects[1].labels) by {
      assert "app" in w.cluster.objects[1].labels;
    }
    forall o | o in Objects(w, "Service", "ns")
      ensures SelectorOf(o.content) == map[]
    {
    }
  }

  /** A cluster-scoped Group, whose selector selects a Pod. */
  function Group(): Object {
    var spec := JObject(map["selector" := JObject(map["app" := JString("nginx")])]);
    Object("Group", "g", "", map[], map[], [], JObject(map["spec" := spec]))
  }

  function LabelledPod(): Object {
    Object("Pod", "p", "ns", map["app" := "nginx"], map[], [], JOther)
  }

  function ClusterScoped(): World {
    var groups, pods := Gvk("", "v1", "groups"), Gvk("", "v1", "pods");
    World(Cluster([Group(), LabelledPod()], map[groups := Resource("Group", false), pods := Resource("Pod", true)]),
          map["Group" := groups, "Pod" := pods], map["Group" := [Relationship(Label, "INSTANCE.spec.selector", "", ["Pod"])]],
          {}, [], "", Node("Pod", "p", "ns"))
  }

  lemma ClusterScopedIsWellFormed()
    ensures WellFormed(ClusterScoped().cluster)
  {
    assert "Group"[0] != "Pod"[0] && "groups"[0] != "pods"[0];
  }

  lemma ClusterScopedIsOk()
    ensures WorldOk(ClusterScoped())
  {
    ClusterScopedIsWellFormed();
    ContentsAreTyped();
    hide WellFormed, EnvTyped;
    assert "Group"[0] != "Pod"[0] && "groups"[0] != "pods"[0];
  }

  lemma ContentsAreTyped()
    ensures EnvTyped(Group().content) && EnvTyped(JOther)
  {
    assert "selector"[0] != "containers"[0];
    assert Containers(Group().content) == [];
  }

  lemma GroupAndPod()
    ensures Got(ClusterScoped(), "Group", "g", "ns") == Some(Group()) && Got(ClusterScoped(), "Pod", "p", "ns") == Some(LabelledPod())
    ensures SelectorOf(Group().content) == map["app" := "nginx"]
  {
    assert "Group"[0] != "Pod"[0] && "groups"[0] != "pods"[0];
    hide SelectorOf, LabelledPod, Group;
  }

  lemma SelectedByOwn()
    ensures var w := ClusterScoped();
            && Mentioned(w, "Group") && Mentioned(w, "Pod") && !Namespaced(w, "Group") && GvkOf(w, "Group") in w.cluster.served
    ensures Selects(map["app" := "nginx"], LabelledPod().labels) && !NamedInLabels("g", LabelledPod().labels)
  {
    assert "Group"[0] != "Pod"[0] && "groups"[0] != "pods"[0];
    assert "Pod" in ClusterScoped().relationships["Group"][0].targetKinds;
    var labels := map["app" := "nginx"];
    assert "app" in labels && labels["app"] == "nginx";
  }

  /** The Group is found from the Pod, and not the other way round, since getSelectorLabels asks in the namespace only. */
  lemma ClusterScopedIsOneSided()
    ensures WorldOk(ClusterScoped())
    ensures var group, pod := Node("Group", "g", "ns"), Node("Pod", "p", "ns");
            LabelUp(ClusterScoped(), pod, group) && !LabelDown(ClusterScoped(), group, pod)
  {
    var w, group, pod := ClusterScoped(), Node("Group", "g", "ns"), Node("Pod", "p", "ns");
    ClusterScopedIsOk();
    GroupAndPod();
    SelectedByOwn();
    assert "g"[0] != ANY[0] && "p"[0] != ANY[0];
    hide WorldOk, LabelUp, LabelDown, SelectorOf, SelectorLabels, Got, Get, Mentioned, Namespaced, ClusterScoped, Group, LabelledPod, Selects, NamedInLabels;
    ClusterScopedHasNoSelector(w, group);
    LabelUpIsSelection(w, group, pod);
    LabelDownIsLabelled(w, group, pod);
  }

  /** A ConfigMap, and a Pod in another namespace with an annotation that mentions it. */
  function Elsewhere(): World {
    var configMaps, pods := Gvk("", "v1", "configmaps"), Gvk("", "v1", "pods");
    World(Cluster([Object("ConfigMap", "c", "there", map[], map[], [], JOther),
                   Object("Pod", "p", "here", map[], map["config" := "c"], [], JOther)],
                  map[configMaps := Resource("ConfigMap", true), pods := Resource("Pod", true)]),
          map["ConfigMap" := configMaps, "Pod" := pods], map["ConfigMap" := [Relationship(Annotation, "config", "", ["Pod"])]],
          {}, [], "", Node("ConfigMap", "c", "there"))
  }

  /** When the user asks about the ConfigMap and the search has moved to the Pod's namespace, the Pod is found from the ConfigMap,
      and not the other way round. */
  lemma ElsewhereIsOneSided()
    ensures WorldOk(Elsewhere())
    ensures var rel, configMap, pod := Relationship(Annotation, "config", "", ["Pod"]), Node("ConfigMap", "c", "here"), Node("Pod", "p", "here");
            && rel in RelsOf(Elsewhere(), "ConfigMap")
            && LeadsDown(Elsewhere(), configMap, rel, pod, "here", true) && !LeadsUp(Elsewhere(), pod, rel, configMap, "here", true)
  {
    ElsewhereIsOk();
    ConfigMapIsThere();
    PodMentionsIt();
    assert "c"[0] != ANY[0] && "p"[0] != ANY[0];
    assert Elsewhere().original == Node("ConfigMap", "c", "there");
    hide Elsewhere, WorldOk, MentionsSource, Got, Mentioned, LeadsDown, LeadsUp;
    FromSourceOnly(Elsewhere(), Relationship(Annotation, "config", "", ["Pod"]), Node("ConfigMap", "c", "here"), Node("Pod", "p", "here"));
  }

  /** The user's resource is found from the namespace that the user named, and finds what mentions its name elsewhere. */
  lemma FromSourceOnly(w: World, rel: Relationship, source: Node, target: Node)
    requires WorldOk(w) && Mentioned(w, source.kind) && Mentioned(w, target.kind) && rel.relType == Annotation
    requires w.original == source.(namespace := w.original.namespace) && source.name != ANY && target.name != ANY
    requires source.namespace == target.namespace != "" && MentionsSource(w, rel, source, target, source.namespace)
    requires Got(w, source.kind, source.name, w.original.namespace).Some? && Got(w, source.kind, source.name, source.namespace).None?
    ensures LeadsDown(w, source, rel, target, source.namespace, true) && !LeadsUp(w, target, rel, source, source.namespace, true)
  {
    hide WorldOk, AnnotationLinked, MentionsSource, Got, Mentioned, LabelUp, LabelDown, SpecLinked;
    AnnotationFromSource(w, rel, source, target, source.namespace);
    AnnotationFromTarget(w, rel, source, target, source.namespace);
  }

  lemma ElsewhereIsWellFormed()
    ensures WellFormed(Elsewhere().cluster)
  {
    assert "ConfigMap"[0] != "Pod"[0] && "configmaps"[0] != "pods"[0] && "here"[0] != "there"[0];
  }

  lemma ElsewhereIsOk()
    ensures WorldOk(Elsewhere())
    ensures Mentioned(Elsewhere(), "ConfigMap") && Mentioned(Elsewhere(), "Pod")
  {
    ElsewhereIsWellFormed();
    ContentsAreTyped();
    hide WellFormed, EnvTyped;
    assert "Pod" in Elsewhere().relationships["ConfigMap"][0].targetKinds;
    assert "ConfigMap"[0] != "Pod"[0] && "configmaps"[0] != "pods"[0] && "here"[0] != "there"[0];
  }

  lemma ConfigMapIsThere()
    ensures Got(Elsewhere(), "ConfigMap", "c", "there").Some? && Got(Elsewhere(), "ConfigMap", "c", "here").None?
  {
    assert "ConfigMap"[0] != "Pod"[0] && "configmaps"[0] != "pods"[0] && "here"[0] != "there"[0];
  }

  lemma PodMentionsIt()
    ensures MentionsSource(Elsewhere(), Relationship(Annotation, "config", "", ["Pod"]), Node("ConfigMap", "c", "here"), Node("Pod", "p", "here"), "here")
  {
    assert "ConfigMap"[0] != "Pod"[0] && "configmaps"[0] != "pods"[0] && "here"[0] != "there"[0];
    assert Elsewhere().cluster.objects[1] in Instances(Elsewhere(), "Pod", "p", "here");
  }
}
