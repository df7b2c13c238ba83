/** The ignore list: what its entries mean, and a cluster in which a run leaves a resource out because of it. */
module Ignoring {
  import opened Connections
  import opened FieldSearch
  import opened FieldPaths
  import opened Cluster
  import opened Relationships
  import opened Graph
  import opened Progress
  import opened Reachability
  import opened Readings
  import opened Runs
  import Text

  /** `Kind:*` or `Kind:name` */
  datatype Entry = All(kind: string) | One(kind: string, name: string)

  predicate Plain(e: Entry) {
    ',' !in e.kind && ':' !in e.kind && (e.One? ==> ',' !in e.name && ':' !in e.name && e.name != "*")
  }

  function NameText(e: Entry): string {
    if e.All? then "*" else e.name
  }

  function EntryText(e: Entry): string {
    e.kind + ":" + NameText(e)
  }

  function ListText(entries: seq<Entry>): (r: seq<string>)
    ensures |r| == |entries|
    ensures forall i :: 0 <= i < |r| ==> r[i] == EntryText(entries[i])
  {
    if entries == [] then [] else [EntryText(entries[0])] + ListText(entries[1..])
  }

  predicate Names(e: Entry, n: Node) {
    e.kind == n.kind && (e.All? || e.name == n.name)
  }

  /** With entries joined by commas, a resource is ignored exactly when some entry has its kind and its name, or has its kind and
      is for all names. */
  lemma IgnoredExactly(w: World, entries: seq<Entry>, n: Node)
    requires |entries| >= 1 && forall i :: 0 <= i < |entries| ==> Plain(entries[i])
    requires w.relsToIgnore == Text.Join(ListText(entries), ',')
    ensures Ignored(w, n) <==> exists i :: 0 <= i < |entries| && Names(entries[i], n)
  {
    var texts := ListText(entries);
    forall i | 0 <= i < |entries|
      ensures ',' !in texts[i]
      ensures Ignores(texts[i], n.kind, n.name) <==> Names(entries[i], n)
    {
      EntryIgnores(entries[i], n);
    }
    Text.SplitJoin(texts, ',');
    hide Ignores, Names, EntryText, Text.Split, Text.Join, ListText, Plain;
    if rel :| rel in texts && Ignores(rel, n.kind, n.name) {
      var i :| 0 <= i < |texts| && texts[i] == rel;
      assert Names(entries[i], n);
    }
    if i :| 0 <= i < |entries| && Names(entries[i], n) {
      assert texts[i] in texts;
    }
  }

  lemma EntryIgnores(e: Entry, n: Node)
    requires Plain(e)
    ensures ',' !in EntryText(e)
    ensures Ignores(EntryText(e), n.kind, n.name) <==> Names(e, n)
  {
    assert EntryText(e) == e.kind + [':'] + NameText(e);
    Text.SplitFirst(e.kind, NameText(e), ':');
    Text.SplitNone(NameText(e), ':');
    if e.One? {
      OneColon(n.kind, n.name, e.kind, e.name);
    }
  }

  lemma OneColon(kind: string, name: string, otherKind: string, otherName: string)
    requires ':' !in otherKind && ':' !in otherName
    ensures kind + ":" + name == otherKind + ":" + otherName <==> kind == otherKind && name == otherName
  {
    var one, other := kind + ":" + name, otherKind + ":" + otherName;
    if one == other {
      assert one[|kind|] == ':' && other[|otherKind|] == ':';
      assert |kind| == |otherKind|;
      assert kind == one[..|kind|] && otherKind == other[..|otherKind|];
      assert name == one[|kind| + 1..] && otherName == other[|otherKind| + 1..];
    }
  }

  /** An empty list ignores nothing. */
  lemma NothingIgnored(w: World, n: Node)
    requires w.relsToIgnore == ""
    ensures !Ignored(w, n)
  {
    assert Text.Split("", ',') == [""] && Text.Split("", ':') == [""];
  }

  // ---------------------------------------------------------------- a cluster where this matters

  const PODS := Gvk("", "v1", "pods")
  const ACCOUNTS := Gvk("", "v1", "serviceaccounts")

  /** A Pod of the ServiceAccount `default`. */
  function Pod(name: string): Object {
    Object("Pod", name, "ns", map[], map[], [], JObject(map["spec" := JObject(map["serviceAccountName" := JString("default")])]))
  }

  function Account(): Object {
    Object("ServiceAccount", "default", "ns", map[], map[], [], JOther)
  }

  const ACCOUNT_RELATION := Relationship(SpecProperty, "serviceAccountName", "name", ["ServiceAccount"])

  /** Two Pods with the same ServiceAccount; the user asks about the first. */
  function TheWorld(relsToIgnore: string): World {
    World(Cluster([Pod("p"), Pod("q"), Account()], map[PODS := Resource("Pod", true), ACCOUNTS := Resource("ServiceAccount", true)]),
          map["Pod" := PODS, "ServiceAccount" := ACCOUNTS], map["Pod" := [ACCOUNT_RELATION]], {}, [], relsToIgnore, PodNode("p"))
  }

  function PodNode(name: string): Node {
    Node("Pod", name, "ns")
  }

  function AccountNode(): Node {
    Node("ServiceAccount", "default", "ns")
  }

  function TheEnv(relsToIgnore: string): Env {
    Env(TheWorld(relsToIgnore), PodNode("p"), {"ns"})
  }

  lemma KindsDiffer()
    ensures "Pod" != "ServiceAccount" && NAMESPACE != "Pod" && NAMESPACE != "ServiceAccount" && PODS != ACCOUNTS
    ensures "p" != "q" && "p" != "default" && "q" != "default" && Named("p") && Named("q") && Named("default")
  {
    assert "Pod"[0] == 'P' && "ServiceAccount"[0] == 'S' && NAMESPACE[0] == 'N' && "pods"[0] == 'p' && "serviceaccounts"[0] == 's';
    assert "p"[0] == 'p' && "q"[0] == 'q' && "default"[0] == 'd' && ANY[0] == '*';
  }

  lemma WellFormedHere(relsToIgnore: string)
    ensures WellFormed(TheWorld(relsToIgnore).cluster)
  {
    KindsDiffer();
  }

  lemma ObjectsAreOk(relsToIgnore: string)
    ensures forall o :: o in TheWorld(relsToIgnore).cluster.objects ==> Named(o.name) && OwnerOf(o) == OwnerRef("", "") && EnvTyped(o.content)
  {
    KindsDiffer();
    assert "serviceAccountName"[0] != "containers"[0];
    assert Containers(Pod("p").content) == [] && Containers(Pod("q").content) == [] && Containers(JOther) == [];
    hide Containers;
  }

  lemma MentionedIsServed(relsToIgnore: string)
    ensures var w := TheWorld(relsToIgnore); forall kind :: Mentioned(w, kind) ==> kind != "" && GvkOf(w, kind) in w.cluster.served
  {
    KindsDiffer();
  }

  lemma WorldIsOk(relsToIgnore: string)
    ensures WorldOk(TheWorld(relsToIgnore))
  {
    WellFormedHere(relsToIgnore);
    ObjectsAreOk(relsToIgnore);
    MentionedIsServed(relsToIgnore);
    hide WellFormed, Mentioned, EnvTyped;
    assert TheWorld(relsToIgnore).compositions == [] && "" != ANY;
  }

  lemma NoKindOfNamespaces(relsToIgnore: string)
    ensures NAMESPACE !in Kinds(TheWorld(relsToIgnore))
  {
    KindsDiffer();
    ObjectsAreOk(relsToIgnore);
    hide Pod, Account, EnvTyped;
  }

  lemma EnvIsOk(relsToIgnore: string)
    ensures EnvOk(TheEnv(relsToIgnore)) && Constant(TheEnv(relsToIgnore))
  {
    var env := TheEnv(relsToIgnore);
    WorldIsOk(relsToIgnore);
    NoKindOfNamespaces(relsToIgnore);
    KindsDiffer();
    assert env.world.original == PodNode("p") == env.start == StartOf(env.world);
    hide TheWorld, WorldOk, Edge, Kinds;
    forall a: Node, b: Node, ty, targetNamespace | Edge(env.world, a, b, ty, targetNamespace, false)
      ensures b.kind != NAMESPACE
    {
      EdgeTargets(env.world, a, b, ty, targetNamespace, false);
    }
  }

  /** The account is named under the field, and nothing else. */
  lemma TheName(name: string, value: string)
    ensures Occurs(Pod(name).content, "serviceAccountName", value) <==> value == "default"
  {
    var spec := JObject(map["serviceAccountName" := JString("default")]);
    OneField("serviceAccountName", JString("default"), "serviceAccountName", value);
    OneField("spec", spec, "serviceAccountName", value);
  }

  lemma Listed(relsToIgnore: string, o: Object)
    ensures o in Objects(TheWorld(relsToIgnore), "ServiceAccount", "ns") <==> o == Account()
    ensures o in Objects(TheWorld(relsToIgnore), "Pod", "ns") <==> o == Pod("p") || o == Pod("q")
  {
    KindsDiffer();
  }

  /** From the first Pod only the account is found. */
  lemma OnlyTheAccount(relsToIgnore: string, x: Node, ty: RelType, sure: bool)
    requires Edge(TheWorld(relsToIgnore), PodNode("p"), x, ty, "ns", sure)
    ensures x == AccountNode()
  {
    var w := TheWorld(relsToIgnore);
    NoOwners(relsToIgnore, PodNode("p"), x);
    OnlyPodsRefer(relsToIgnore);
    forall o
      ensures o in Objects(w, "ServiceAccount", "ns") <==> o == Account()
    {
      Listed(relsToIgnore, o);
    }
    KindsDiffer();
    assert Account().name == "default";
    hide TheWorld, Objects, Got, Owner, Child, Component, RelsOf, Pod, Account, SpecPair;
  }

  lemma OnlyPodsRefer(relsToIgnore: string)
    ensures RelsOf(TheWorld(relsToIgnore), "Pod") == [ACCOUNT_RELATION]
    ensures forall kind, rel :: rel in RelsOf(TheWorld(relsToIgnore), kind) ==> kind == "Pod" && rel == ACCOUNT_RELATION
  {
    KindsDiffer();
    hide Pod, Account;
  }

  lemma NoOwners(relsToIgnore: string, a: Node, x: Node)
    ensures !Owner(TheWorld(relsToIgnore), a, x) && !Child(TheWorld(relsToIgnore), a, x) && !Component(TheWorld(relsToIgnore), a, x)
  {
    ObjectsAreOk(relsToIgnore);
    OnlyPodsRefer(relsToIgnore);
    assert TheWorld(relsToIgnore).crdKinds == {} && TheWorld(relsToIgnore).relationships == map["Pod" := [ACCOUNT_RELATION]];
    hide TheWorld, EnvTyped, OwnerOf;
  }

  lemma TheInstances(relsToIgnore: string, name: string)
    requires name == "p" || name == "q"
    ensures Meet(TheWorld(relsToIgnore), Pod(name), Account(), PodNode(name), AccountNode())
  {
    KindsDiffer();
    Listed(relsToIgnore, Pod(name));
    Listed(relsToIgnore, Account());
    Gotten(relsToIgnore, Pod(name));
    Gotten(relsToIgnore, Account());
    hide TheWorld, Objects, Got;
  }

  lemma Gotten(relsToIgnore: string, o: Object)
    requires o == Pod("p") || o == Pod("q") || o == Account()
    ensures Got(TheWorld(relsToIgnore), o.kind, o.name, "ns") == Some(o)
  {
    KindsDiffer();
  }

  /** Each Pod and the account find each other. */
  lemma PodAndAccount(relsToIgnore: string, name: string)
    requires name == "p" || name == "q"
    ensures Joined(TheWorld(relsToIgnore), true, PodNode(name), AccountNode()) && Joined(TheWorld(relsToIgnore), true, AccountNode(), PodNode(name))
  {
    KindsDiffer();
    TheInstances(relsToIgnore, name);
    OnlyPodsRefer(relsToIgnore);
    forall value
      ensures Occurs(Pod(name).content, "serviceAccountName", value) <==> value == "default"
    {
      TheName(name, value);
    }
    assert OccursOnly(Pod(name).content, "serviceAccountName", "default");
    assert SearchesField(ACCOUNT_RELATION) by {
      assert "serviceAccountName"[0] != "env"[0] && "serviceAccountName"[0] != "namespace"[0];
    }
    hide TheWorld, Meet, Occurs, OccursOnly, Edge, RelsOf, Pod, Account, SearchesField;
    FieldEdges(TheWorld(relsToIgnore), ACCOUNT_RELATION, Pod(name), Account(), PodNode(name), AccountNode());
  }

  const IGNORE := "ServiceAccount" + ":" + "*"

  lemma OnlyAccountsIgnored(n: Node)
    ensures Ignored(TheWorld(IGNORE), n) <==> n.kind == "ServiceAccount"
  {
    var entries := [All("ServiceAccount")];
    assert ListText(entries) == [IGNORE] && Text.Join([IGNORE], ',') == IGNORE;
    assert TheWorld(IGNORE).relsToIgnore == IGNORE;
    assert Plain(entries[0]) && (Names(entries[0], n) <==> n.kind == "ServiceAccount");
    hide TheWorld, ListText, Plain, Names, Ignored, Text.Join;
    IgnoredExactly(TheWorld(IGNORE), entries, n);
  }

  lemma {:induction false} WalksStop(n: nat, x: Node)
    requires Walk(TheWorld(IGNORE), false, n, PodNode("p"), x)
    ensures x == PodNode("p") || x == AccountNode()
  {
    hide TheWorld, Edge, Ignored;
    if x != PodNode("p") {
      var y :| Walk(TheWorld(IGNORE), false, n - 1, PodNode("p"), y) && !Ignored(TheWorld(IGNORE), y) && Joined(TheWorld(IGNORE), false, y, x);
      WalksStop(n - 1, y);
      OnlyAccountsIgnored(y);
      var ty :| Edge(TheWorld(IGNORE), y, x, ty, y.namespace, false);
      OnlyTheAccount(IGNORE, x, ty, false);
    }
  }

  /** With `ServiceAccount:*` no run about the first Pod visits the second. */
  lemma SecondIsLeftOut(s: State)
    requires Finished(TheEnv(IGNORE), s)
    ensures EnvOk(TheEnv(IGNORE)) && Constant(TheEnv(IGNORE)) && PodNode("q") !in Nodes(s.visited)
  {
    EnvIsOk(IGNORE);
    KindsDiffer();
    assert TheEnv(IGNORE).world == TheWorld(IGNORE) && TheEnv(IGNORE).start == PodNode("p");
    hide TheWorld, EnvOk, Constant, Ok, Closed, Ignored, Walk;
    if PodNode("q") in Nodes(s.visited) {
      VisitedIsReachable(TheEnv(IGNORE), s, PodNode("q"));
      var n: nat :| Walk(TheWorld(IGNORE), false, n, PodNode("p"), PodNode("q"));
      WalksStop(n, PodNode("q"));
    }
  }

  /** Without an ignore list every run visits it, by way of the account. */
  lemma SecondIsVisited(s: State)
    requires Finished(TheEnv(""), s)
    ensures EnvOk(TheEnv("")) && Constant(TheEnv("")) && PodNode("q") in Nodes(s.visited)
  {
    var w := TheWorld("");
    EnvIsOk("");
    PodAndAccount("", "p");
    PodAndAccount("", "q");
    assert TheEnv("").world == w && TheEnv("").start == PodNode("p") && w.relsToIgnore == "";
    hide TheWorld, EnvOk, Constant, Finished, Ignored, Joined;
    NothingIgnored(w, PodNode("p"));
    NothingIgnored(w, AccountNode());
    NothingIgnored(w, PodNode("q"));
    assert Walk(w, true, 0, PodNode("p"), PodNode("p"));
    WalkStep(w, true, 0, PodNode("p"), PodNode("p"), AccountNode());
    WalkStep(w, true, 1, PodNode("p"), AccountNode(), PodNode("q"));
    ReachableIsVisited(TheEnv(""), s, 2, PodNode("q"));
  }
}
