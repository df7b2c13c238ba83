/** The list cache of utils.go. */
module ObjectCache {
  import opened Connections
  import opened Cluster

  datatype CacheKey = CacheKey(namespace: string, kind: string, name: string, gvk: Gvk)

  /** getKubeObjectList and getKubeObject over the list cache, in front of a cluster that does not change. */
  class KubeObjectCache {
    const cluster: Cluster
    var listCache: map<CacheKey, seq<Object>>

    /** Every cached list is what the server would answer now. */
    ghost predicate Valid()
      reads this
    {
      && WellFormed(cluster)
      && forall key :: key in listCache ==>
                         key.name == "" && ListDirect(cluster, key.gvk, key.namespace) == Some(listCache[key])
    }

    constructor (cluster: Cluster)
      requires WellFormed(cluster)
      ensures Valid() && this.cluster == cluster && listCache == map[]
    {
      this.cluster := cluster;
      listCache := map[];
    }

    /** The scan of the cache meets its keys in any order. */
    method GetKubeObjectList(kind: string, namespace: string, gvk: Gvk) returns (objectList: Option<seq<Object>>)
      requires Valid()
      modifies this
      ensures Valid()
      ensures objectList == ListDirect(cluster, gvk, namespace)
      ensures old(listCache.Keys) <= listCache.Keys
      ensures objectList.Some? ==> CacheKey(namespace, kind, "", gvk) in listCache
    {
      var found := false;
      objectList := None;
      var keys := listCache.Keys;
      while keys != {}
        invariant keys <= listCache.Keys
        invariant found ==> objectList == ListDirect(cluster, gvk, namespace) && CacheKey(namespace, kind, "", gvk) in listCache
        decreases |keys|
      {
        var key :| key in keys;
        keys := keys - {key};
        if key.kind == kind && key.namespace == namespace && key.gvk == gvk {
          found := true;
          objectList := Some(listCache[key]);
        }
      }
      if !found {
        objectList := List(cluster, gvk, namespace);
        if objectList.None? {
          objectList := List(cluster, gvk, "");
          if objectList.None? {
            return;
          }
        }
        listCache := listCache[CacheKey(namespace, kind, "", gvk) := objectList.value];
      }
    }

    method GetKubeObject(kind: string, instance: string, namespace: string, gvk: Gvk) returns (obj: Option<Object>)
      requires Valid()
      ensures obj == GetDirect(cluster, gvk, instance, namespace)
    {
      var found := false;
      obj := None;
      var entry := CacheKey(namespace, kind, "", gvk);
      if entry in listCache {
        var items := listCache[entry];
        for i := 0 to |items|
          invariant found ==> obj == GetDirect(cluster, gvk, instance, namespace)
        {
          if items[i].kind == kind && items[i].namespace == namespace && items[i].name == instance {
            found := true;
            obj := Some(items[i]);
            FoundIsUnique(cluster, items[i]);
          }
        }
      }
      if !found {
        obj := Get(cluster, gvk, instance, namespace);
        if obj.None? {
          obj := Get(cluster, gvk, instance, "");
        }
      }
    }
  }
}
