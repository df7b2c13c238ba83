/** A snapshot of the cluster and what the API server answers about it. */
module Cluster {
  import opened Connections
  import opened FieldSearch

  datatype Gvk = Gvk(group: string, version: string, resource: string)

  datatype OwnerRef = OwnerRef(kind: string, name: string)

  /** An unstructured object. Cluster-scoped objects have the namespace "". */
  datatype Object = Object(
    kind: string, name: string, namespace: string,
    labels: map<string, string>, annotations: map<string, string>, owners: seq<OwnerRef>, content: Json)

  /** A resource type the API server knows. */
  datatype Resource = Resource(kind: string, namespaced: bool)

  datatype Cluster = Cluster(objects: seq<Object>, served: map<Gvk, Resource>)

  /** Kubernetes' own guarantees: an object is determined by kind, name and namespace, and has a namespace or not by its type. */
  ghost predicate WellFormed(cluster: Cluster) {
    && (forall i, j :: 0 <= i < j < |cluster.objects| ==>
                         !Identifies(cluster.objects[i], cluster.objects[j].kind, cluster.objects[j].name, cluster.objects[j].namespace))
    && (forall gvk, i :: gvk in cluster.served && 0 <= i < |cluster.objects| && cluster.objects[i].kind == cluster.served[gvk].kind ==>
                           (cluster.served[gvk].namespaced <==> cluster.objects[i].namespace != ""))
  }

  predicate Identifies(obj: Object, kind: string, name: string, namespace: string) {
    obj.kind == kind && obj.name == name && obj.namespace == namespace
  }

  /** The objects of a kind, in one namespace or (namespace "") in all. */
  function Select(objects: seq<Object>, kind: string, namespace: string): (r: seq<Object>)
    ensures forall o :: o in r <==> o in objects && o.kind == kind && (namespace == "" || o.namespace == namespace)
  {
    if objects == [] then []
    else
      var o := objects[0];
      var rest := Select(objects[1..], kind, namespace);
      if o.kind == kind && (namespace == "" || o.namespace == namespace) then [o] + rest else rest
  }

  function Find(objects: seq<Object>, kind: string, name: string, namespace: string): (r: Option<Object>)
    ensures r.Some? ==> r.value in objects && Identifies(r.value, kind, name, namespace)
    ensures r.None? ==> forall o :: o in objects ==> !Identifies(o, kind, name, namespace)
  {
    if objects == [] then None
    else if Identifies(objects[0], kind, name, namespace) then Some(objects[0])
    else Find(objects[1..], kind, name, namespace)
  }

  /** Resource(gvk).Namespace(namespace).List: fails for unknown types, and for cluster-scoped ones in a namespace. */
  function List(cluster: Cluster, gvk: Gvk, namespace: string): Option<seq<Object>> {
    if gvk !in cluster.served || (!cluster.served[gvk].namespaced && namespace != "") then None
    else Some(Select(cluster.objects, cluster.served[gvk].kind, namespace))
  }

  /** Resource(gvk).Namespace(namespace).Get */
  function Get(cluster: Cluster, gvk: Gvk, name: string, namespace: string): Option<Object> {
    if gvk !in cluster.served then None else Find(cluster.objects, cluster.served[gvk].kind, name, namespace)
  }

  /** The namespaced form, and the cluster-wide form when that fails. */
  function ListDirect(cluster: Cluster, gvk: Gvk, namespace: string): Option<seq<Object>> {
    var namespaced := List(cluster, gvk, namespace);
    if namespaced.Some? then namespaced else List(cluster, gvk, "")
  }

  function GetDirect(cluster: Cluster, gvk: Gvk, name: string, namespace: string): Option<Object> {
    var namespaced := Get(cluster, gvk, name, namespace);
    if namespaced.Some? then namespaced else Get(cluster, gvk, name, "")
  }

  lemma FoundIsUnique(cluster: Cluster, o: Object)
    requires WellFormed(cluster) && o in cluster.objects
    ensures Find(cluster.objects, o.kind, o.name, o.namespace) == Some(o)
  {
    var r := Find(cluster.objects, o.kind, o.name, o.namespace);
    var i :| 0 <= i < |cluster.objects| && cluster.objects[i] == o;
    var j :| 0 <= j < |cluster.objects| && cluster.objects[j] == r.value;
    assert Identifies(cluster.objects[i], r.value.kind, r.value.name, r.value.namespace);
    assert Identifies(cluster.objects[j], o.kind, o.name, o.namespace);
  }

  /** In a proper namespace an object is listed exactly when it can be got. */
  lemma ListedIffGot(cluster: Cluster, gvk: Gvk, namespace: string, o: Object)
    requires WellFormed(cluster) && namespace != ""
    requires ListDirect(cluster, gvk, namespace).Some?
    ensures o in ListDirect(cluster, gvk, namespace).value <==> GetDirect(cluster, gvk, o.name, namespace) == Some(o)
  {
    var kind := cluster.served[gvk].kind;
    if o in ListDirect(cluster, gvk, namespace).value {
      FoundIsUnique(cluster, o);
      var i :| 0 <= i < |cluster.objects| && cluster.objects[i] == o;
      assert cluster.served[gvk].namespaced <==> o.namespace != "";
    }
  }
}
