/**
 * The records the introspection pass produces and the JSON API serves:
 * `ModelData`, `AttributeData` and `RelationshipData`.
 */
module Records {

  /** Placeholder shown for an unrecognised attribute type or an unresolved destination. */
  const Unknown: string := "Unknown"

  datatype AttributeData = AttributeData(name: string, typeName: string, optional: bool)

  datatype RelationshipData = RelationshipData(name: string, destinationEntity: string, toMany: bool, optional: bool)

  datatype ModelData = ModelData(
    name: string,
    attributeCount: int,
    relationshipCount: int,
    entityCount: int,
    attributes: seq<AttributeData>,
    relationships: seq<RelationshipData>)

  /**
   * The invariant every record served to a client keeps: the two count
   * fields agree with the lists they summarise, and the record count is
   * never negative.
   */
  predicate WellFormed(m: ModelData) {
    && m.attributeCount == |m.attributes|
    && m.relationshipCount == |m.relationships|
    && m.entityCount >= 0
  }
}
