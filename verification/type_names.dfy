/**
 * `ChordataManagerImpl.attributeTypeString(for:)`: the display name of an
 * attribute type, and its inverse.
 */
module TypeNames {
  import opened Wrappers
  import opened Schema
  import opened Records

  /** The display names of the fourteen recognised attribute types. */
  const KnownTypeNames: set<string> :=
    {"Int16", "Int32", "Int64", "Decimal", "Double", "Float", "String",
     "Boolean", "Date", "Data", "UUID", "URI", "Transformable", "ObjectID"}

  /**
   * Display name of an attribute type. Total: every type gets a name, the
   * recognised ones a name of their own and every other one `Unknown`.
   */
  function AttributeTypeString(t: AttributeType): (s: string)
    ensures s in KnownTypeNames <==> !t.Other?
    ensures s == Unknown <==> t.Other?
  {
    match t
    case Integer16 => "Int16"
    case Integer32 => "Int32"
    case Integer64 => "Int64"
    case Decimal => "Decimal"
    case Double => "Double"
    case Float => "Float"
    case String => "String"
    case Boolean => "Boolean"
    case Date => "Date"
    case BinaryData => "Data"
    case UUID => "UUID"
    case URI => "URI"
    case Transformable => "Transformable"
    case ObjectID => "ObjectID"
    case Other => Unknown
  }

  /**
   * Reads a display name back as the attribute type it names; `None` for
   * `Unknown` and for any string that is not a display name.
   */
  function ParseTypeName(s: string): (t: Option<AttributeType>)
    ensures t.Some? ==> !t.value.Other?
  {
    if s == "Int16" then Some(Integer16)
    else if s == "Int32" then Some(Integer32)
    else if s == "Int64" then Some(Integer64)
    else if s == "Decimal" then Some(Decimal)
    else if s == "Double" then Some(Double)
    else if s == "Float" then Some(Float)
    else if s == "String" then Some(String)
    else if s == "Boolean" then Some(Boolean)
    else if s == "Date" then Some(Date)
    else if s == "Data" then Some(BinaryData)
    else if s == "UUID" then Some(UUID)
    else if s == "URI" then Some(URI)
    else if s == "Transformable" then Some(Transformable)
    else if s == "ObjectID" then Some(ObjectID)
    else None
  }

  /** A recognised type survives the trip through its display name; `Other` does not. */
  lemma TypeNameRoundTrip(t: AttributeType)
    ensures ParseTypeName(AttributeTypeString(t)) == (if t.Other? then None else Some(t))
  {
  }

  /** Every display name that parses is the display name of what it parses to. */
  lemma ParseTypeNameRoundTrip(s: string)
    ensures ParseTypeName(s).Some? ==> AttributeTypeString(ParseTypeName(s).value) == s
    ensures ParseTypeName(s).Some? <==> s in KnownTypeNames
  {
  }

  /** Distinct recognised types have distinct display names. */
  lemma TypeNameInjective(t1: AttributeType, t2: AttributeType)
    requires !t1.Other? && !t2.Other?
    requires AttributeTypeString(t1) == AttributeTypeString(t2)
    ensures t1 == t2
  {
    TypeNameRoundTrip(t1);
    TypeNameRoundTrip(t2);
  }

  /** Binary data is shown as "Data" and object IDs as "ObjectID", not by their type names. */
  lemma BinaryAndObjectIDNames()
    ensures AttributeTypeString(BinaryData) == "Data"
    ensures AttributeTypeString(ObjectID) == "ObjectID"
  {
  }
}
