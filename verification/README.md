# Kubediscovery: a verified model

Kubediscovery answers two questions about a Kubernetes cluster. *What is related to this resource?* It follows label
selectors, spec fields, environment variables, annotations and owner references, depth first and in both directions, and
prints the edges it met. *What is this resource composed of?* It flattens the ownership tree below each top-level object
into a list, keeps these lists in a store, and turns them back into trees on demand.

The project models both engines over a snapshot of the cluster and proves what they compute. The model has the form of the
Go code: the search is a class whose fields are the two globals `TotalClusterConnections` and `NamespaceToSearch`, with one
method per Go function; the store and the list cache are classes; the field search, the matchers, the list operations and the
parser are methods with the loops of the original. Go's random map order is modelled as an arbitrary choice of the next key,
so every theorem holds for all orders. Each method is proved against a function or relation of its inputs, and the theorems
are about these.

| file | about |
|---|---|
| `Connections.dfy`, `EdgeList.dfy`, `LevelList.dfy` | the records; the output edge list; the visited list |
| `FieldSearch.dfy`, `FieldPaths.dfy` | the recursive field search; where it looks, as paths |
| `Text.dfy`, `Relationships.dfy`, `BuiltIn.dfy` | strings; the relationship-string parser; strings the program declares |
| `Cluster.dfy`, `ObjectCache.dfy` | what the API server answers; the list cache in front of it |
| `Graph.dfy`, `Searches.dfy`, `Readings.dfy` | the edge relation; the searches that find it; what they read, on the JSON itself |
| `Matching.dfy`, `OneSided.dfy` | its two sides; worlds in which a link is found from one end only |
| `Progress.dfy`, `Discovery.dfy` | invariants and measures of a run; the search itself |
| `Reachability.dfy`, `Symmetry.dfy`, `Runs.dfy` | walks; walking back; theorems about whole runs |
| `Looping.dfy`, `Untold.dfy` | calls that never end; an owner that no edge list names |
| `Ignoring.dfy`, `Example.dfy` | the ignore list and what it leaves out; an ordinary cluster that meets every premise |
| `CompositionTree.dfy`, `Ownership.dfy`, `Finiteness.dfy` | list to tree; cluster to list; when that returns |
| `RoundTrip.dfy`, `CompositionStore.dfy` | when the two are inverse; the store |
| `RollingUpdate.dfy`, `Misplaced.dfy` | clusters where they are not: a Pod that is lost, a Pod that is shown in the wrong place |
| `Components.dfy`, `Statuses.dfy` | what the composition engine shows, as owners and children in the cluster; and its statuses |
| `Branches.dfy`, `Command.dfy` | printing; the command of main.go as a whole |

## What holds of a run

A run starts at the resource the user named. `Graph.Edge` says what is found from what, with the namespace that annotation
targets are looked up in as a parameter, and `Graph.Yields` with which peer; `sure` edges are those that do not depend on
which of several values of one field the map order brings up first. `Progress.Env` adds the start and the namespaces a run may
search in (its scopes).

* **It ends** (`Discovery.Discovery.GetRelatives`, `Runs.ScopesExist`). The lexicographic measure is: how many nodes, other
  than the one called for, are not visited; then whether `NamespaceToSearch` would move the search; then the place in the
  call chain. Sufficient for this is a single scope, or that no Namespace is reached by owner references. Something of the
  kind is needed: from two Namespaces that own each other calls nest to any depth (`Looping.TheWorldLoops`). That acyclic
  ownership of Namespaces would do is neither claimed nor proved, since a call for a visited Namespace still changes
  `NamespaceToSearch` for the frame that made it.
* **Levels are depths, and the order is that of the search** (`Runs.LevelsAreDepths`, `Runs.FoundIsHandedOver`). Calls are on a
  stack, and a call's level is its depth on it: below it lie different nodes, from the start on, each called for a connection
  that was found from the one before, one level above. So every entry has the length of such a path as its level. Entries stand
  in the order in which they were handed to AppendConnections, since what an insertion adds or moves goes to the end
  (`EdgeList.AppendedAtEnd`); a frame hands over first what it finds along relationships, then against them, then its owner,
  its children and its components, and of each search first what is new (`Discovery.Discovery.FindRelatives`).
* **No link is lost** (`Runs.NoLinkLost`), in any number of scopes: whatever a node that was entered yields in any case is told
  of at the end, from one end or the other, with its peer.
* **It is exact** (`Command.Discover`). With a single scope, every node that can surely be reached through nodes that are not
  ignored is visited, and every visited node can be reached; the edge list tells of everything that is surely yielded by a
  visited node, and every entry behind the root was yielded by one. Where all edges from what can be reached are sure
  (`Reachability.Settled`) the two kinds of reaching are one, so that visited means reachable (`Runs.VisitedExactly`), and up
  to names the edge list is exactly the graph of what is found with its peer (`Runs.NamesToldExactly`). That is so where the
  fields that searches from the namespace meet are unambiguous (`Reachability.UnambiguousIsSettled`). Relation types are not
  part of this: an entry stands for a link, whichever relation it was found by first.
* **Owners of the same kind are the exception.** `findParentConnections` leaves out their peer (pkg/discovery/relationships.go:296-306),
  so the entry does not say whose owner it is. The edge list still names the two together exactly when the owner is not ignored
  and finds its child or component in turn, or something else ties their names (`Runs.SameKindOwnerTold`);
  in a cluster with nothing else no run tells of them (`Untold.OwnerIsUntold`).
* **It may start anywhere** (`Runs.StartIndependence`), where all edges from what can be reached are sure, edges other than to
  components are symmetric (`Matching.Symmetric`), and one can walk back from components (`Runs.ComponentsKnown`): because trees
  of any shape are stored, objects have single owners (`Components.SingleOwners`) and nothing is ignored, or, with an ignore
  list, because components are owned directly. Where edges may be unsure, a run from elsewhere still finds nothing but what can
  be reached from the start, and all that surely is, if where it starts surely is (`Runs.StartIndependenceOfSure`).
* **All of it is printed** (`Command.FindConnections`): each entry behind the root is in exactly one branch, and however the
  branches are sorted, each starts with the root and goes on with its only Level-1 entry.

The theorems about runs share these hypotheses, stated in `Graph.WorldOk` and `Progress.EnvOk`: the cluster does not change;
each kind that a relationship mentions is served, so that no List fails in both its forms; resources are not named "" or
"*"; environment variables are objects with string names and values (the code asserts it); in the presence of several
scopes, Namespaces neither own nor are owned. What is assumed of compositions (kinds and names are not empty, children are
in their namespace) follows when they come from a rebuild of an empty store, as in the command (`Command.BuiltIsOk`).

Some theorems have more premises, which are named above and in the table:

* `Reachability.Settled`, for exactness as an equivalence and for start independence. It follows from `Graph.Unambiguous` of the
  namespace, which can be read off the cluster: an object there (or in no namespace) of a kind that declares a field
  relationship, with a value under the field that is the name of an object of a target kind, has no second value there. Other
  kinds, other namespaces, and values that name nothing, do not matter. Without it, soundness and completeness stand with "can"
  and "surely".
* `Matching.SelectorsUsed` and `Matching.OwnersKnown`, the main parts of `Matching.Symmetric`, for start independence. Sources of
  label relationships live in namespaces, and if a label of a target has the name of such a source that is present, that source
  has a selector; what has an owner is of a kind that some owner-reference relationship leads to. Both speak of
  `Matching.Present` resources only, those that exist, are named as a first owner, or are shown by a stored composition. The
  start has to be one of them, as main.go checks; edges lead to nothing else.
* `Runs.ComponentsKnown`, also for start independence; for the store that the command builds it follows from
  `Components.SingleOwners`: objects of the namespace have one owner at most (`Command.BuiltComponentsKnown`).

`Example.EverythingAssumedHolds` shows that all of them hold together of an ordinary cluster, with links of five kinds: a Service
that selects a Pod by one of its two labels, an environment variable of the Pod with the name of the Service, the Pod with its
ReplicaSet, an Ingress that bears the name of its Service, and a custom resource with the Service as its stored component;
although in another namespace an Ingress has a name of its own.

## What does not hold

Each of these is proved, with the exact condition or a concrete input, most with both.

* The edge list may keep two entries for one link (`EdgeList.AppendedClashFree`, `EdgeList.TwoRelationsClash`).
* `getComposition` is not the inverse of `buildCompositions`: it is so exactly for spines (`RoundTrip.RoundTrip`). In a
  cluster with a Deployment in a rolling update a Pod is shown nowhere (`RollingUpdate.PodIsLost`).
* An item is shown as often as it was listed exactly when no two non-empty list nodes agree on level and kind
  (`CompositionTree.EverythingOnce`; the Pod is a case of this too).
* What is shown directly below a resource need not be its child. It is a descendant (`Components.ShownIsDescendant`), and all
  are children exactly when the kind of the first ones does not occur further down (`Components.DirectIffFirstKindStaysUp`).
  Below a StatefulSet with a Pod and a ReplicaSet of its own, the Pod of the ReplicaSet is shown as the StatefulSet's
  (`Misplaced.PodIsMisplaced`).
* The store keeps an entry of a deleted object as long as any object of the same name lives (`CompositionStore.StaleEntry`,
  `CompositionStore.DeletedEntryStays`).
* `buildCompositions` returns for an object exactly when no chain of owners leads from it into a cycle
  (`Finiteness.TreeIffAcyclic`, `Finiteness.SelfOwnedIsCyclic`).
* A label search from a resource without a selector falls back to label values, which the search from the other side does
  not; and getSelectorLabels finds no selector of a cluster-scoped resource, which the search from the other side does
  (`Matching.LabelTwoSided`, `OneSided.UnselectedIsOneSided`, `OneSided.ClusterScopedIsOneSided`).
* An annotation search from the user's own resource looks for it in the namespace the user named, wherever the search is. So the
  two sides agree exactly if it is in both namespaces or in neither, or is not mentioned (`Matching.AnnotationTwoSided`,
  `OneSided.ElsewhereIsOneSided`).

## Model

| member | source | states |
|---|---|---|
| EdgeList.AppendConnections | pkg/discovery/utils.go:601-642 | The loop with its splice and re-append computes `Appended`, which the rows below describe without its definition. |
| EdgeList.AppendedAtEnd | pkg/discovery/utils.go:601-642 | What an insertion adds or moves is the last entry; before it stands the old list, without at most one entry between the same two ends, and that only at Level 1. |
| EdgeList.AppendedOnce | pkg/discovery/utils.go:585-599 | Of connections to one resource one for each relation type and name of a peer is kept; the kind of the peer does not matter. |
| EdgeList.AppendedInOrder | pkg/discovery/utils.go:601-642 | Insertions keep the entries in the order in which they were handed over. |
| EdgeList.AddedIsLinked | pkg/discovery/utils.go:601-642 | Whichever branch is taken, the list then tells of the connection that was handed in, from one end or the other. |
| EdgeList.LinkSurvives | pkg/discovery/utils.go:601-642 | A link once told of survives every later insertion, suppression, deletion and re-append. |
| EdgeList.AppendedClashFree | pkg/discovery/utils.go:585-642 | An insertion into a list without mutual reverses and repeated links leaves it so if and only if it is not a Level-1 insertion that two entries reverse. |
| EdgeList.AppendedLength | pkg/discovery/utils.go:601-642 | The length never drops, grows by at most one, and no entry is invented. |
| EdgeList.TwoRelationsClash | pkg/discovery/utils.go:608-626 | The exception is real, for lists that arise by insertions from the root alone: a far resource that is found over a near one and leads back to the start by two relations leaves a clash when it is then found from the start at Level 1. |
| EdgeList.AppendedRooted | pkg/discovery/utils.go:601-642 | The Level-0 root stays at the head, and what follows has Level 1 or more and a peer; no nil peer is followed. |
| EdgeList.AppendedAnchored | pkg/discovery/utils.go:601-642 | When Level-1 connections come from the head, the entry behind the head is always at Level 1, although insertions take entries out. |
| LevelList.AppendConnections1 | pkg/discovery/utils.go:644-665 | The in-place loop computes the merge of the additions, one by one. |
| LevelList.MergedKeeps | pkg/discovery/utils.go:644-665 | Nodes stay unique and in their places, levels never rise, and the node set becomes the union. |
| LevelList.MergedIsMinimum | pkg/discovery/utils.go:644-665 | The merged list refines the map from nodes to the lowest level either side has for them. |
| LevelList.MergedAtMost | pkg/discovery/utils.go:644-665 | What was added has its level or a lower one. |
| LevelList.OrderOfAdditions | pkg/discovery/utils.go:644-665 | Neither the order nor the multiplicity of the additions matters to that map. |
| LevelList.FilterConnections | pkg/discovery/relationships.go:193-215 | The two results are the connections to unknown and to known nodes, in order. |
| LevelList.SelectedInOrder | pkg/discovery/relationships.go:193-215 | Each part is a subsequence, and together they have as many entries. |
| FieldSearch.FindFieldValue | pkg/discovery/relationships.go:675-735 | For every order of map keys: found if and only if the field occurs, the value is one of its occurrences, and the only one if there is only one. |
| FieldSearch.FindInItems | pkg/discovery/relationships.go:700-722 | The same for the elements of a list-valued entry. |
| FieldPaths.OccursIffPath | pkg/discovery/relationships.go:675-735 | A field occurs with a value if and only if a path with that last name leads to it, which does not go into a list directly inside a list. |
| Cluster.ListedIffGot | pkg/discovery/utils.go:128-202 | In a proper namespace the list of a kind, with its cluster-wide fallback, has an object exactly when getting it by name returns it. |
| ObjectCache.KubeObjectCache.GetKubeObjectList | pkg/discovery/utils.go:128-157 | Through any number of calls and any scan order, the answer is that of the uncached namespaced-then-cluster lookup. |
| ObjectCache.KubeObjectCache.GetKubeObject | pkg/discovery/utils.go:159-202 | An object scanned from a cached list is the object the uncached lookup would return. |
| Relationships.ParseRelationship | pkg/discovery/relationships.go:903-949 | The parser computes `Parsed`, which is None exactly where the Go code would index out of bounds. |
| Relationships.LabelParsesBack | pkg/discovery/relationships.go:908-912 | A well-formed label string is read in bounds and gives back its kind and selector. |
| Relationships.SpecPropertyParsesBack | pkg/discovery/relationships.go:913-923 | A specproperty string with dotted paths gives back the two last fields and the target kind. |
| Relationships.AnnotationParsesBack | pkg/discovery/relationships.go:924-942 | An annotation string, with any number of `;`-separated kinds and either form of value, gives back all its parts. |
| Relationships.OwnerReferenceParsesBack | pkg/discovery/relationships.go:943-946 | An owner-reference string gives back its kind. |
| BuiltIn.ServiceLabel | pkg/discovery/types.go:271 | The Service's own string is read as: Pods by the selector. |
| BuiltIn.PodEnv | pkg/discovery/types.go:246 | A Pod's is read as: Services by the values of environment variables. |
| BuiltIn.ReplicaSetOwner | pkg/discovery/types.go:221 | A ReplicaSet's is read as: Pods by owner references. |
| Searches.SubsetMatchMaps | pkg/discovery/relationships.go:1126-1140 | For every key order: true if and only if the first map is non-empty and part of the second. |
| Searches.SearchLabels | pkg/discovery/relationships.go:1073-1124 | Finds exactly the objects the selector selects or, without a selector, those with a label whose value is the source's name. |
| Searches.SearchSelectors | pkg/discovery/relationships.go:1007-1059 | Finds exactly the objects whose selector selects the labels. |
| Searches.SearchSpecPropertyField | pkg/discovery/relationships.go:573-673 | With either side fixed: every pair found is linked by the field, every pair surely linked is found. |
| Searches.SearchSpecPropertyEnv | pkg/discovery/relationships.go:737-836 | With either side fixed: the pairs where some environment variable of some container has the other's name. |
| Searches.SearchAnnotations | pkg/discovery/relationships.go:454-557 | With either side fixed, in any order of annotations: exactly the pairs where the annotation mentions the source. |
| Searches.SearchDown | pkg/discovery/relationships.go:90-120 | The search along one relationship finds nothing but what it leads to, and all it surely leads to. |
| Searches.SearchUp | pkg/discovery/relationships.go:145-175 | The same against the direction of the relationship. |
| Readings.EnvValuesRead | pkg/discovery/relationships.go:771-790 | The values searched for are those under `value` of the elements of `env` of the elements of `spec.containers`, "" where there is none. |
| Readings.SelectorRead | pkg/discovery/relationships.go:999-1003 | The selector is the map of strings under `spec.selector`, or else the one under `spec.selector.matchLabels`. |
| Readings.SelectedHaveAllEntries | pkg/discovery/relationships.go:1126-1140 | A selector selects the labels that have all its entries, if it has any. |
| Readings.NamespaceRead | pkg/discovery/relationships.go:616-620 | The field `namespace` is the namespace of the object. |
| Readings.MentionRead | pkg/discovery/relationships.go:505-535 | An annotation mentions a resource if its name is part of the value, or the value is its kind in lower case, a dash and its name. |
| Readings.OwnerRead | pkg/discovery/relationships.go:417-430 | The owner is the first of the owner references. |
| Readings.ComponentRead | pkg/discovery/relationships.go:222-250 | Components are followed from custom resources only, and are the children in their own stored entries. |
| Readings.ListRead | pkg/discovery/utils.go:128-157 | Listed are the objects of the served kind in the namespace, or all of them if the kind is cluster-scoped. |
| Matching.LabelUpIsSelection | pkg/discovery/relationships.go:1007-1059 | The target finds the source exactly when the source's own selector, wherever it lives, selects the target's labels. |
| Matching.LabelDownIsLabelled | pkg/discovery/relationships.go:974-1124 | The source finds the target exactly when what getSelectorLabels says selects its labels or, without that, when one of them is the source's name. |
| Matching.LabelTwoSided | pkg/discovery/relationships.go:974-1124 | The exact condition for the two sides to agree, for all sources; for namespaced sources with a selector they do. |
| Matching.ClusterScopedHasNoSelector | pkg/discovery/relationships.go:974-1005 | For a cluster-scoped source getSelectorLabels finds no selector. |
| OneSided.UnselectedIsOneSided | pkg/discovery/relationships.go:1073-1124 | A Service without a selector finds a Pod by its label, and is not found from it. |
| OneSided.ClusterScopedIsOneSided | pkg/discovery/relationships.go:974-1005 | A cluster-scoped resource with a selector is found from a Pod, and does not find it. |
| Matching.SpecTwoSided | pkg/discovery/relationships.go:573-673 | With the source fixed or with the target fixed, the field search connects the same pairs. |
| Matching.AnnotationTwoSided | pkg/discovery/relationships.go:454-557 | The annotation search agrees from both sides exactly if the source is in the namespace of the search and in the one where it is looked up as the user's resource, or in neither, or is not mentioned. |
| OneSided.ElsewhereIsOneSided | pkg/discovery/relationships.go:454-557 | The user's ConfigMap finds a Pod in another namespace that mentions its name, and is not found from it. |
| Matching.OwnerTwoSided | pkg/discovery/relationships.go:277-452 | A child is found from its owner exactly when the owner is found from it and its kind is the target of an owner reference. |
| Matching.EdgesGoBack | pkg/discovery/relationships.go:71-452 | In a symmetric world (SelectorsUsed, OwnersKnown) every edge from a present resource, of whatever relation, can be followed back, unless it leads to a component. |
| Matching.EdgesIgnoreTheOriginal | pkg/discovery/relationships.go:454-590 | Within one namespace no edge depends on which resource the user asked about. |
| Components.ShownIsDescendant | pkg/discovery/discovery.go:322-360 | For a tree of any shape, what is shown directly below a resource descends from it, by as many steps as its level says. |
| Components.DirectIffLevelTwo | pkg/discovery/relationships.go:222-250 | With single owners, a component edge is an owner edge the other way round exactly when the component is shown at Level 2. |
| Components.DirectIffFirstKindStaysUp | pkg/discovery/discovery.go:322-360 | All components are at Level 2 exactly when no object further down is of the kind of the first ones. |
| Misplaced.LeafIsMisplaced | pkg/discovery/discovery.go:322-360 | In every cluster where an object owns an object of one kind and an owner of objects of that kind, what the latter owns is shown directly below the first object, and is not its child. |
| Misplaced.PodIsMisplaced | pkg/discovery/discovery.go:322-360 | A concrete cluster with a StatefulSet, a Pod of its own, and a ReplicaSet of its own with another Pod is such a case. |
| Components.BuiltIsCurrent | pkg/discovery/discovery.go:38-77 | Every entry of a store that was built once is the flattened tree of its resource in the cluster. |
| Symmetry.StoredComponentsReturn | pkg/discovery/relationships.go:222-330 | Where trees of any shape are stored, objects have single owners and nothing is ignored, one can walk back from every component. |
| Symmetry.WalkBack | pkg/discovery/relationships.go:71-415 | In a symmetric world (SelectorsUsed, OwnersKnown), once one can walk back from components, every walk can be walked back. |
| Graph.EdgeTargets | pkg/discovery/relationships.go:71-452 | Every edge leads to one of finitely many kinds and names. |
| Graph.UnambiguousEdges | pkg/discovery/relationships.go:675-735 | Where no object around the namespace of the search, of a declaring kind, has a second value under the field beside the name of a target, every possible edge is a sure one, with its peer. |
| Reachability.UnambiguousIsSettled | pkg/discovery/relationships.go:573-735 | With unambiguous fields around the namespace of the start, all edges from what can be reached are sure. |
| Progress.Recorded | pkg/discovery/utils.go:601-642 | Handing a connection to AppendConnections keeps the whole invariant of a run and all that was explored. |
| Progress.Entered | pkg/discovery/relationships.go:38-66 | Entering a call keeps the invariant, makes the node visited and pending, and uses up exactly its place in the measure. |
| Progress.MeasureStays | pkg/discovery/relationships.go:177-191 | Along a run the measure of a frame never rises, although NamespaceToSearch may change under it. |
| Progress.UnmarkedCallDrops | pkg/discovery/relationships.go:254-267 | The measure drops at a call for an owner, child or component, although it is not marked before the call. |
| Progress.UnseenGrow | pkg/discovery/relationships.go:177-185 | The measure drops when unseen relatives are marked before they are searched. |
| Progress.AllNoted | pkg/discovery/relationships.go:71-88 | When the five groups of relatives have been followed, everything the node yields in any case has been. |
| Progress.InTheirTurn | pkg/discovery/relationships.go:71-88 | What the five groups hand over themselves comes in the order of the groups, each part sound and complete for its group. |
| Discovery.Discovery.CheckIgnored | pkg/discovery/relationships.go:122-143 | True exactly for the nodes that some entry of the list names, in the sense of the next row. |
| Ignoring.IgnoredExactly | pkg/discovery/relationships.go:122-143 | For a list of entries `Kind:*` and `Kind:name`, joined by commas: a resource is ignored if and only if an entry has its kind, and is for all names or has its name. |
| Ignoring.SecondIsLeftOut | pkg/discovery/relationships.go:26-29 | With `ServiceAccount:*` no run about a Pod visits another Pod that has only its ServiceAccount in common with it. |
| Ignoring.SecondIsVisited | pkg/discovery/relationships.go:26-29 | Without an ignore list every run about it does. |
| Discovery.Discovery.GetRelatives | pkg/discovery/relationships.go:19-69 | Ends; its level is its depth on the stack of calls, and NamespaceToSearch takes precedence over the namespace of the caller; keeps the invariant of a run (each visited entry has its level from such a depth; every link found is told of; entries stand in the order they were found in; whatever a call entered and left is explored; the root stays); leaves its node ignored, or visited at no higher level and entered; a node that is new to the visited list is put at its end with the type and the peer of the call; levels never rise, nothing visited or found is forgotten. |
| Discovery.Discovery.FindRelatives | pkg/discovery/relationships.go:71-88 | In runs with any number of scopes, leaves the node explored to the end: everything it yields in any case was recorded and arrived at, group by group in the order of the calls. |
| Discovery.Discovery.FindDownstreamRelatives | pkg/discovery/relationships.go:90-120 | Follows every relationship declared for the node's kind, into all its target kinds, and hands over nothing else itself. |
| Discovery.Discovery.FindUpstreamRelatives | pkg/discovery/relationships.go:145-175 | Follows back every relationship of a kind that has the node's kind as a target, and hands over nothing else itself. |
| Discovery.Discovery.FindRelatedKinds | pkg/discovery/utils.go:380-395 | The kinds with a relationship to the given one, in any order of the map. |
| Discovery.Discovery.BuildGraph | pkg/discovery/relationships.go:177-191 | All relatives, seen or not, end up visited at no higher level and recorded, first the new ones and then the seen ones, each part in order. |
| Discovery.Discovery.SearchNextLevel | pkg/discovery/relationships.go:404-415 | Records and explores the marked relatives one by one, each by a call one level deeper; each is pending until its turn. |
| Discovery.Discovery.FindParentConnections | pkg/discovery/relationships.go:277-330 | Follows the first owner reference, with the peer the code sets, and hands over nothing else itself. |
| Discovery.Discovery.FindChildKinds | pkg/discovery/utils.go:397-410 | The target kinds of all owner references. |
| Discovery.Discovery.FindChildrenConnections | pkg/discovery/relationships.go:332-402 | Follows the edges to all objects of these kinds whose first owner is the node, and hands over nothing else itself. |
| Discovery.Discovery.FindCompositionConnections | pkg/discovery/relationships.go:222-275 | Follows the edges to the children of the node's stored composition, and hands over nothing else itself. |
| Discovery.Discovery.Run | main.go:150-165 | From the root entry and Level 1 on, ends with the start ignored, or visited and entered, nothing pending or active, and the invariant kept. |
| Runs.VisitedExactly | pkg/discovery/relationships.go:19-191 | Traversal exactness, where all edges from what can be reached are sure: a node that is not ignored is visited if and only if it can be reached through nodes that are not ignored. |
| Runs.ReachableIsVisited | pkg/discovery/relationships.go:71-415 | Completeness without the assumption of unambiguous fields: what can surely be reached is visited. |
| Runs.VisitedIsReachable | pkg/discovery/relationships.go:19-191 | Soundness without it. |
| Runs.NoLinkLost | pkg/discovery/utils.go:601-642 | In any number of scopes: at the end the edge list tells of what every entered node yields in any case, with its peer, whatever was deleted and re-appended in between. |
| Runs.NoVisitedLinkLost | pkg/discovery/utils.go:601-642 | In one namespace that goes for every visited node that is not ignored and all it surely yields. |
| Runs.NoLinkInvented | pkg/discovery/utils.go:601-642 | Behind the root, every entry was yielded, with its peer and its relation type, by the last node of a path of different nodes from the start, and its level is the length of that path. |
| Runs.LevelsAreDepths | pkg/discovery/relationships.go:404-415 | Every connection that was handed over has the length of a path of calls as its level, and for each node on it a connection to it had been handed over before, one level above. |
| Runs.VisitedLevel | pkg/discovery/relationships.go:38-66 | A visited node has its level from the length of such a path to it, or to a node from which it is found. |
| Runs.FoundIsHandedOver | pkg/discovery/utils.go:601-642 | The edge list behind the root is a subsequence of all that was handed over, in order, and tells of all of it. |
| Runs.NamesToldExactly | pkg/discovery/utils.go:601-642 | Where these edges are sure, the edge list has an entry between two names if and only if a reached node of one name yields, with its peer, a connection to one of the other. |
| Runs.SameKindOwnerTold | pkg/discovery/relationships.go:296-306 | Where these edges are sure, the exact condition under which a resource and its owner of the same kind, whose peer is left out, are still named together. |
| Untold.OwnerIsUntold | pkg/discovery/relationships.go:296-306 | In a cluster where nothing else ties them, every run about a Widget visits its owner Widget, and no edge list names the two together. |
| Symmetry.SameReach | pkg/discovery/relationships.go:71-415 | In a symmetric world (SelectorsUsed, OwnersKnown), once one can walk back from components, all nodes that can be reached reach the same nodes. |
| Runs.StartIndependence | pkg/discovery/relationships.go:19-415 | Where these edges are sure, under Symmetric (SelectorsUsed, OwnersKnown) and ComponentsKnown: asked about any resource that a run from a present one discovered, another run discovers the same resources. |
| Runs.StartIndependenceOfSure | pkg/discovery/relationships.go:19-415 | Without sure edges: the other run discovers nothing but what can be reached from the first start, and all that surely is, if its own start surely is. |
| Runs.ScopesExist | pkg/discovery/relationships.go:38-42 | The scopes are no restriction: the names of the world are scopes enough, so runs end wherever Namespaces are unowned. |
| Example.EverythingAssumedHolds | pkg/discovery/types.go:271-280 | A cluster with label, field, owner and component links meets all premises of the theorems about runs, although an Ingress in another namespace has ambiguous fields. |
| Looping.CallsNestForever | pkg/discovery/relationships.go:277-323 | From the frame of one of two Namespaces that own each other, where nothing else is found, calls nest to any depth, and each frame finds nothing but an owner that is not visited, and calls for it. |
| Looping.TheWorldLoops | pkg/discovery/relationships.go:38-66 | In a concrete world, in which everything else that is assumed holds, a run gets there from its empty state in three calls. |
| Command.Discover | main.go:150-165 | Discovery ends; the edge list is rooted and its second entry at Level 1; in one namespace the visited list and the edge list are sound and complete and, where edges are sure, visited means reachable. |
| Command.CheckExistence | pkg/discovery/utils.go:339-362 | True exactly if the name is not empty and the resource is found in its namespace or cluster-wide. |
| Command.BuiltIsOk | pkg/discovery/discovery.go:38-77 | What is assumed of compositions holds of every store that the command builds. |
| Command.BuiltComponentsKnown | pkg/discovery/discovery.go:38-77 | With single owners and nothing ignored, so does what start independence needs of components. |
| Command.FindConnections | main.go:134-169 | The whole command: existence, compositions, discovery and branches. It ends, and what it visited and prints is what can be found, with an equivalence where edges are sure, as with unambiguous fields they are. |
| Command.Print | pkg/discovery/utils.go:491-533 | Behind the root every entry is in exactly one branch, in order; however a branch is sorted, it starts with the root and goes on with its only Level-1 entry. |
| Branches.PrintConnections | pkg/discovery/utils.go:491-516 | Each branch is the head, one Level-1 entry and no other; without their heads the branches are the list from its first Level-1 entry on. |
| Branches.SortedBranchStartsAtRoot | pkg/discovery/utils.go:530-533 | However the unstable sort orders a branch, it starts with the root and goes on with its Level-1 entry. |
| CompositionTree.GetComposition | pkg/discovery/discovery.go:322-360 | With the shared processed list and the pointer that is reset in the loop, it ends and computes `Compose`. |
| CompositionTree.Conservation | pkg/discovery/discovery.go:312-360 | Below the root an item stands as often as in the first non-empty list node of its level and kind. |
| CompositionTree.EverythingOnce | pkg/discovery/discovery.go:312-360 | All items are conserved if and only if no two non-empty list nodes agree on level and kind. |
| Ownership.GetResourceMetaData | pkg/discovery/discovery.go:243-296 | The listed objects in order, with owner fields filled in for those the parent owns. |
| Readings.StatusRead | pkg/discovery/discovery.go:269-292 | The status is the string under `status.phase`, or "", name and namespace are the object's, and the owner fields are the parent's if it is among the owners. |
| Readings.ListedRead | pkg/discovery/discovery.go:251-267 | Compositions list in the namespace only, and nothing for a kind without a plural or a version. |
| Statuses.PhaseIsShown | pkg/discovery/discovery.go:285-288 | In a concrete cluster, whatever order it is stored in, GetCompositions shows a Pod below its ReplicaSet with its phase, by name and for all names. |
| Ownership.FilterChildren | pkg/discovery/discovery.go:583-600 | The children of one parent, the first of every name. |
| Ownership.ChildrenAreFirst | pkg/discovery/discovery.go:583-600 | An entry is kept if and only if it names the parent as its owner and no earlier one of its name does. |
| Ownership.BuildCompositions | pkg/discovery/discovery.go:475-513 | Appends the preorder of the ownership tree to the shared list, and ends whenever that tree is finite. |
| Finiteness.TreeIffAcyclic | pkg/discovery/discovery.go:475-513 | buildCompositions returns for an object if and only if no chain of owners leads from it into a cycle. |
| Finiteness.SelfOwnedIsCyclic | pkg/discovery/discovery.go:475-513 | A cluster with an object that owns itself is a case where it does not. |
| Ownership.PreorderExact | pkg/discovery/discovery.go:475-513 | The list names an object at a level if and only if an owner chain of that length leads to it. |
| Ownership.CycleHasNoTree | pkg/discovery/discovery.go:475-513 | An object from which ownership runs into a cycle has no finite tree. |
| RoundTrip.RoundTrip | pkg/discovery/discovery.go:322-360 | `getComposition` after `buildCompositions` gives back the ownership tree if and only if it is a spine: only the first child owns anything, and kinds do not recur. |
| RollingUpdate.LeafIsLost | pkg/discovery/discovery.go:332-357 | In every cluster where two owners below an object each have one object of their own, the second of these is listed once and shown nowhere. |
| RollingUpdate.PodIsLost | pkg/discovery/discovery.go:332-357 | A concrete cluster with a Deployment in a rolling update is such a case. |
| CompositionStore.TreeIsUnique | pkg/discovery/discovery.go:475-513 | An object has at most one ownership tree, so the list stored for it is determined. |
| CompositionStore.FiniteIffAcyclic | pkg/discovery/discovery.go:38-77 | A rebuild returns if and only if no chain of owners leads from a top-level object into a cycle. |
| CompositionStore.GetCompositions | pkg/discovery/discovery.go:362-412 | The composed trees of the entries asked for, by name or for all names. |
| CompositionStore.ShownExactly | pkg/discovery/discovery.go:362-412 | Shown are the entries of the kind and the namespace, all of them for "*", or those of the name. |
| CompositionStore.ClusterCompositions.StoreCompositions | pkg/discovery/discovery.go:445-473 | On the store as a map, an update of one key; keys stay unique. |
| CompositionStore.ClusterCompositions.PurgeCompositionOfDeletedItems | pkg/discovery/discovery.go:428-443 | Keeps a copy of each entry for each live object of its name. |
| CompositionStore.PurgedRestricts | pkg/discovery/discovery.go:428-443 | With distinct live names, as the loop before it provides, purging restricts the map to live names. |
| CompositionStore.ClusterCompositions.BuildCompositionTree | pkg/discovery/discovery.go:38-77 | In any order of kinds, a rebuild turns the store into the rebuilt map: current trees for the live objects, and earlier entries with live names. |
| CompositionStore.RebuiltIsCurrent | pkg/discovery/discovery.go:38-77 | After a rebuild each live object has its current tree and status, and each entry a live name. |
| CompositionStore.StaleEntry | pkg/discovery/discovery.go:428-443 | Over any sequence of rebuilds, the entry of an object that is gone stays, unchanged, if and only if its name is live each time. |
| CompositionStore.DeletedEntryStays | pkg/discovery/discovery.go:428-443 | A cluster where such an entry stays because an object of another kind has its name. |

## Left out

- The Kubernetes and HTTP clients, configuration, CRD and ConfigMap reading, metrics and `parseRels`: the snapshot, the kind tables and the relationships are given. A kind that is not served answers no List, so `getDynamicClient` and its shared `err` do not occur.
- The parser is proved on strings, and the search takes parsed relationships; that a specproperty relationship has one target kind is what `Relationships.Parsed` guarantees.
- The owner, child and component loops, which are the same in the three functions, are one method, `Discovery.SearchUnmarked`; inner loops of other functions are methods of their own.
- `Peer` pointers: a peer is its kind, name and namespace. `RelationDetails` and the owner fields of a connection, only printed, are omitted.
- Discovery.Discovery.GetRelatives: for several scopes, that levels are the lengths of paths of different nodes is not stated, because a switch of NamespaceToSearch moves calls away from the nodes that were found, and one node may be on the stack twice; that they are depths is.
- Discovery.Discovery.FindChildrenConnections: the early return when a List fails in both forms is excluded by the hypothesis on served kinds.
- Runs.ScopesExist: that runs end is proved where Namespaces are unowned, which is sufficient; the exact condition is not given.
- Runs.NoLinkLost: relation types, because AppendConnections compares them only between entries of the same direction, so a link found from both ends keeps one of its types.
- CompositionStore.GetCompositions: case folding and the reverse lookup of plurals; kinds are taken as written.
- Letter case: `ToLower` is on ASCII letters. Go's strings are bytes, here they are characters.
- The order in which `sort.Slice` leaves entries of equal level, colours, JSON output, the "tabs" format and timestamps.
- `FetchGVKs` (switched off in main.go), mutexes, `kubeObjectCache` (written, never read) and dead helpers such as `setPeers` and `findRelatedKinds1`.
