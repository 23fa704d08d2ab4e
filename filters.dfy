/**
 * The two relation predicates: the broad one (a named relation at a
 * supported administrative level) and the narrow one (additionally a
 * boundary of one of the target types). A missing tag makes a predicate
 * false; neither predicate has an error case.
 */
module Filters {
  import opened Osm

  /** The boundary tag values the narrow predicate accepts. */
  const TargetBoundaryTypes: seq<string> :=
    ["administrative", "state_border", "country_border", "state border"]

  /** The admin_level values the broad predicate accepts. */
  predicate IsSupportedAdminLevel(level: string): (r: bool)
    ensures r <==> level in {"2", "4", "6", "7", "8"}
  {
    match level
    case "2" => true
    case "4" => true
    case "6" => true
    case "7" => true
    case "8" => true
    case _ => false
  }

  /** `filter_all_relations`: a relation with a name and a supported admin level. */
  predicate FilterAllRelations(obj: OsmObj): (r: bool)
    ensures r ==> obj.Relation? && "name" in obj.tags && "admin_level" in obj.tags
  {
    && obj.Relation?
    && "name" in obj.tags
    && match Get(obj.tags, "admin_level")
       case None => false
       case Some(level) => IsSupportedAdminLevel(level)
  }

  /** `filter_target_relations`: the broad predicate plus a target boundary type. */
  predicate FilterTargetRelations(obj: OsmObj): (r: bool)
    ensures r ==> FilterAllRelations(obj) && "boundary" in obj.tags && obj.tags["boundary"] in TargetBoundaryTypes
  {
    && FilterAllRelations(obj)
    && match Get(obj.tags, "boundary")
       case None => false
       case Some(boundary) => boundary in TargetBoundaryTypes
  }

  /** Every object the narrow predicate selects, the broad predicate selects too. */
  lemma TargetImpliesAll(obj: OsmObj)
    ensures FilterTargetRelations(obj) ==> FilterAllRelations(obj)
  {
  }

  /**
   * The broad predicate exactly: a relation that has a "name" key, with any
   * value (the empty string included), and whose admin_level is one of
   * "2", "4", "6", "7", "8".
   */
  lemma AllRelationsExactly(obj: OsmObj)
    ensures FilterAllRelations(obj) <==>
      && obj.Relation?
      && "name" in obj.tags
      && "admin_level" in obj.tags
      && obj.tags["admin_level"] in {"2", "4", "6", "7", "8"}
  {
  }

  /**
   * The narrow predicate exactly: the broad one, and a boundary tag that is
   * present and equal to one of the four target types.
   */
  lemma TargetRelationsExactly(obj: OsmObj)
    ensures FilterTargetRelations(obj) <==>
      && FilterAllRelations(obj)
      && "boundary" in obj.tags
      && obj.tags["boundary"] in {"administrative", "state_border", "country_border", "state border"}
  {
  }

  /** Nodes and ways are rejected by both predicates. */
  lemma NonRelationsRejected(obj: OsmObj)
    requires !obj.Relation?
    ensures !FilterAllRelations(obj) && !FilterTargetRelations(obj)
  {
  }

  /** A relation lacking the name or the admin_level tag is rejected by both predicates. */
  lemma MissingTagRejected(obj: OsmObj)
    requires "name" !in obj.tags || "admin_level" !in obj.tags
    ensures !FilterAllRelations(obj) && !FilterTargetRelations(obj)
  {
  }

  /** A relation passing the broad predicate but without a boundary tag fails the narrow one. */
  lemma MissingBoundaryRejected(obj: OsmObj)
    requires "boundary" !in obj.tags
    ensures !FilterTargetRelations(obj)
  {
  }

  /** A named level-4 administrative relation passes both predicates; an empty name suffices. */
  lemma AdministrativeLevelFourSelected(id: Int64, name: string)
    ensures var obj := Relation(id, map["name" := name, "admin_level" := "4", "boundary" := "administrative"], []);
      FilterAllRelations(obj) && FilterTargetRelations(obj)
  {
  }

  /** Admin level "10" is not supported: such a relation passes neither predicate. */
  lemma AdminLevelTenRejected(id: Int64, refs: seq<Ref>)
    ensures var obj := Relation(id, map["name" := "X", "admin_level" := "10"], refs);
      !FilterAllRelations(obj) && !FilterTargetRelations(obj)
  {
  }
}
