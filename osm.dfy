/**
 * The OpenStreetMap data model that the boundary extractor consumes:
 * typed ids, objects with string tags, and the id-ordered result map
 * that `load_relations` returns.
 */
module Osm {

  /** A signed 64-bit integer, the width of the loader's numeric ids. */
  type Int64 = x: int | -0x8000_0000_0000_0000 <= x < 0x8000_0000_0000_0000

  datatype Option<T> = None | Some(value: T)

  /** An object id: a variant tag and a number unique within that variant. */
  datatype OsmId = NodeId(n: Int64) | WayId(n: Int64) | RelationId(n: Int64)

  type Tags = map<string, string>

  /** A relation member: the id of the referenced object and its role. */
  datatype Ref = Ref(member: OsmId, role: string)

  datatype OsmObj =
    | Node(id: Int64, tags: Tags)
    | Way(id: Int64, tags: Tags, nodes: seq<Int64>)
    | Relation(id: Int64, tags: Tags, refs: seq<Ref>)

  /** Tag lookup: the value under `key`, or None when the tag is absent. */
  function Get(tags: Tags, key: string): Option<string>
  {
    if key in tags then Some(tags[key]) else None
  }

  /** The position of an id's variant in the declaration order Node, Way, Relation. */
  function Rank(k: OsmId): nat
  {
    match k
    case NodeId(_) => 0
    case WayId(_) => 1
    case RelationId(_) => 2
  }

  /** The derived ordering on ids: first by variant, then by number. */
  predicate IdLess(a: OsmId, b: OsmId)
  {
    Rank(a) < Rank(b) || (Rank(a) == Rank(b) && a.n < b.n)
  }

  /**
   * IdLess, the derived ordering of the id type, is a strict total order,
   * so it can key an ordered map: in particular two entries with different
   * positions in a sorted map have different keys.
   */
  lemma IdLessIsStrictTotalOrder(a: OsmId, b: OsmId, c: OsmId)
    ensures !IdLess(a, a)
    ensures IdLess(a, b) && IdLess(b, c) ==> IdLess(a, c)
    ensures a != b <==> IdLess(a, b) || IdLess(b, a)
  {
  }

  /** One key/value pair of the result map. */
  datatype Entry = Entry(key: OsmId, value: OsmObj)

  /**
   * The entries of an ordered map as its in-order traversal yields them:
   * keys strictly increase, so no key occurs twice.
   */
  predicate Sorted(es: seq<Entry>)
  {
    forall i, j :: 0 <= i < j < |es| ==> IdLess(es[i].key, es[j].key)
  }
}
