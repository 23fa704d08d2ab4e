/**
 * Small result maps and what the histogram and the emitter make of them.
 */
module Scenarios {
  import opened Osm
  import opened Filters
  import opened Stats
  import opened Jsonl

  /** A way and a named level-4 administrative relation, in key order. */
  function WayAndBoundary(): (es: seq<Entry>)
    ensures Sorted(es)
  {
    [ Entry(WayId(1), Way(1, map[], [])),
      Entry(RelationId(7), Relation(7, map["name" := "Test", "admin_level" := "4", "boundary" := "administrative"], [])) ]
  }

  /**
   * The histogram counts the relation once under "administrative", and the
   * emitter selects the relation alone.
   */
  lemma WayAndBoundaryOutputs()
    ensures Tally(Boundaries(WayAndBoundary())) == map["administrative" := 1]
    ensures Selected(WayAndBoundary()) == [WayAndBoundary()[1]]
  {
    var es := WayAndBoundary();
    assert es[..1][..0] == [];
    assert Boundaries(es[..1]) == [];
    assert Boundaries(es) == ["administrative"];
    assert Tally(["administrative"]) == Increment(map[], "administrative");
  }

  /** A relation at the unsupported admin level "10" yields no histogram entry and no line. */
  lemma AdminLevelTenIgnored()
    ensures var es := [Entry(RelationId(3), Relation(3, map["name" := "X", "admin_level" := "10", "boundary" := "administrative"], []))];
      Tally(Boundaries(es)) == map[] && Selected(es) == []
  {
  }

  /**
   * A named level-2 relation whose boundary is not a target type, as the
   * loader may include as a member of a target relation: the histogram,
   * which re-filters with the broad predicate, counts it; the emitter,
   * which uses the narrow one, does not emit it.
   */
  lemma NonTargetBoundaryCountedNotEmitted()
    ensures var es := [Entry(RelationId(5), Relation(5, map["name" := "", "admin_level" := "2", "boundary" := "maritime"], []))];
      Tally(Boundaries(es)) == map["maritime" := 1] && Selected(es) == []
  {
  }
}
