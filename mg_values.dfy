/** The mgclient value tree (`mg_value` and the structures it points to), as the
    server hands it to the binding and as the binding builds it for query
    parameters. Only the shape matters here: ownership, allocation and the
    binary encoding on the wire belong to the C library. */
module MgValues {
  import opened Numbers

  /** One `mg_value`. The tags the decoder has a case for are spelled out; every
      other tag the library defines (the temporal and spatial ones) is `MgOther`,
      carrying the tag's number, and `MG_VALUE_TYPE_UNKNOWN` is `MgUnknown`. */
  datatype MgValue =
    | MgNull
    | MgBool(b: bool)
    | MgInteger(i: Int64)
    | MgFloat(f: Double)
    | MgString(s: string)
    | MgList(items: seq<MgValue>)
    | MgMap(entries: seq<MgEntry>)
    | MgNodeValue(node: MgNode)
    | MgRelationshipValue(rel: MgRelationship)
    | MgUnboundRelationshipValue(urel: MgUnboundRelationship)
    | MgPathValue(path: MgPath)
    | MgUnknown
    | MgOther(tag: nat)

  /** An `mg_map` entry. The library keeps entries in insertion order and, when
      filled with `mg_map_insert_unsafe2`, does not look for a repeated key. */
  datatype MgEntry = MgEntry(key: string, value: MgValue)

  datatype MgNode = MgNode(id: Int64, labels: seq<string>, properties: seq<MgEntry>)

  datatype MgRelationship =
    MgRelationship(id: Int64, startId: Int64, endId: Int64, relType: string, properties: seq<MgEntry>)

  /** A relationship inside a path, which does not know its end points. */
  datatype MgUnboundRelationship =
    MgUnboundRelationship(id: Int64, relType: string, properties: seq<MgEntry>)

  /** An `mg_path` of length `|hops|`: a start node, then for each step the
      relationship taken, whether it was traversed against its direction, and the
      node reached. Node `i` and relationship `i` are what `mg_path_node_at` and
      `mg_path_relationship_at` return; the path always has one more node than it
      has relationships. */
  datatype MgPath = MgPath(start: MgNode, hops: seq<MgHop>)

  datatype MgHop = MgHop(rel: MgUnboundRelationship, reversed: bool, node: MgNode)

  /** `mg_path_length`. */
  function PathLength(p: MgPath): nat {
    |p.hops|
  }

  /** `mg_path_node_at`, for `0 <= i <= mg_path_length`. */
  function NodeAt(p: MgPath, i: nat): MgNode
    requires i <= PathLength(p)
  {
    if i == 0 then p.start else p.hops[i - 1].node
  }

  /** `mg_path_relationship_at`, for `0 <= i < mg_path_length`. */
  function RelAt(p: MgPath, i: nat): MgUnboundRelationship
    requires i < PathLength(p)
  {
    p.hops[i].rel
  }

  /** `mg_path_relationship_reversed_at`. */
  function ReversedAt(p: MgPath, i: nat): bool
    requires i < PathLength(p)
  {
    p.hops[i].reversed
  }
}
