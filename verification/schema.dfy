/**
 * The part of a Core Data managed object model that the inspector reads:
 * entities, their attributes and their relationships. Everything else a
 * `NSManagedObjectModel` holds is irrelevant to the introspection pass.
 */
module Schema {
  import opened Wrappers

  /**
   * `NSAttributeType`. The fourteen cases the inspector knows by name, and
   * `Other` for every case it does not list (`undefinedAttributeType`,
   * `compositeAttributeType`, and any case a later SDK adds).
   */
  datatype AttributeType =
    | Integer16
    | Integer32
    | Integer64
    | Decimal
    | Double
    | Float
    | String
    | Boolean
    | Date
    | BinaryData
    | UUID
    | URI
    | Transformable
    | ObjectID
    | Other

  /** `NSAttributeDescription`: the fields the inspector reads. */
  datatype Attribute = Attribute(name: string, attributeType: AttributeType, isOptional: bool)

  /**
   * `NSRelationshipDescription`. `destination` is the name of the
   * destination entity, `None` when either the destination entity or its
   * name is missing (the two optional levels of `destinationEntity?.name`).
   */
  datatype Relationship = Relationship(name: string, destination: Option<string>, isToMany: bool, isOptional: bool)

  /**
   * `NSEntityDescription`. The attribute and relationship dictionaries are
   * taken as sequences in whatever order the dictionaries enumerate them.
   */
  datatype Entity = Entity(name: Option<string>, attributes: seq<Attribute>, relationships: seq<Relationship>)

  /** Outcome of `context.count(for:)`: a record count, or a thrown error. */
  datatype CountResult = Counted(n: nat) | CountFailed

  /** The count query, as a function of the entity name the fetch request names. */
  type CountQuery = string -> CountResult
}
