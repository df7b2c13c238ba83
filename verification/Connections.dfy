/** The records of types.go that the discovery passes around, and the comparators of utils.go. */
module Connections {

  datatype Option<+T> = None | Some(value: T)

  datatype RelType = Unset | Label | SpecProperty | EnvVariable | Annotation | OwnerReference

  /** The three fields by which the code identifies a resource. */
  datatype Node = Node(kind: string, name: string, namespace: string)

  const NOBODY := Node("", "", "")

  /** A connection record. Go's `Peer` pointer is only ever read for the peer's own three identifying fields. */
  datatype Connection = Connection(level: int, node: Node, relationType: RelType, peer: Option<Node>)

  /** The nodes of a list of connections. */
  ghost function Nodes(connections: seq<Connection>): set<Node> {
    set i | 0 <= i < |connections| :: connections[i].node
  }

  /** No node has two entries. */
  ghost predicate UniqueNodes(connections: seq<Connection>) {
    forall i, j :: 0 <= i < j < |connections| ==> connections[i].node != connections[j].node
  }
}
