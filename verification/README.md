# Chordata schema introspection in Dafny

Chordata is a Core Data inspector. It embeds a small web server in an app,
and that server reports the app's managed object model as JSON. This project
models the one part of it that has real logic: `ChordataManagerImpl`'s
introspection pass. For every entity of the model, the pass builds a
`ModelData` record that holds:

- the entity's name;
- its record count;
- one `AttributeData` per attribute, whose type is given as a display string;
- one `RelationshipData` per relationship, whose destination is given by name;
- counts derived from those two lists.

The pass skips entities that have no name. Then it sorts the records by name.

The model is pure and functional:

- `Schema` is the part of Core Data's schema that the pass reads. An entity has
  an optional name, a sequence of attributes and a sequence of relationships.
  An attribute type is one of the fourteen recognised `NSAttributeType` cases,
  or `Other`. A relationship's destination is an optional name. The count
  query is a function from an entity name to either a count or a failure.
- `Records` holds the output records and their well-formedness invariant:
  each count field matches its list, and the record count is never negative.
- `TypeNames` holds `attributeTypeString`, an inverse for it, and the
  round-trip and injectivity lemmas.
- `StringOrder` is the order that the final sort compares names with.
  It is lexicographic order by code point, and it is proved to be a strict
  total order.
- `NameSort` sorts records by name with an insertion sort. The result is proved
  sorted and a permutation of its input. It is also proved to be the only
  sorted permutation when names are distinct.
- `Introspection` is the pass itself. Its lemmas cover what is kept, what is
  skipped, the fallbacks, the derived counts, and the fact that a failed count
  stays local to its entity.
- `Scenarios` works out what the pass makes of two concrete models.

`attributeTypeString` names binary data "Data" and object IDs "ObjectID"
(Sources/chordata/chordata.swift:107, 111).

## Model

| member | source | states |
|---|---|---|
| `TypeNames.AttributeTypeString` | Sources/chordata/chordata.swift:96-113 | Total: every attribute type gets a name. The fourteen recognised types get names from the fixed set of known names. Every other type, and only such a type, gets "Unknown". |
| `TypeNames.TypeNameRoundTrip` | Sources/chordata/chordata.swift:98-112 | Parsing the display name of a recognised type gives that type back. Parsing "Unknown" gives nothing. |
| `TypeNames.ParseTypeNameRoundTrip` | Sources/chordata/chordata.swift:98-111 | A string parses exactly when it is one of the fourteen known names, and it is then the display name of the type it parses to. |
| `TypeNames.TypeNameInjective` | Sources/chordata/chordata.swift:98-111 | Two recognised types with the same display name are the same type. |
| `TypeNames.BinaryAndObjectIDNames` | Sources/chordata/chordata.swift:107-111 | Binary data is shown as "Data" and object IDs as "ObjectID". |
| `StringOrder.Less` | Sources/chordata/chordata.swift:92 | The `<` the sort compares names with: lexicographic order by code point. Nothing sorts before the empty string, a proper prefix sorts before the longer string, and otherwise the first differing character decides. |
| `StringOrder.LessIrreflexive` | Sources/chordata/chordata.swift:92 | No name sorts before itself. |
| `StringOrder.LessTransitive` | Sources/chordata/chordata.swift:92 | The name order is transitive. |
| `StringOrder.LessTrichotomous` | Sources/chordata/chordata.swift:92 | Any two names are equal, or one sorts before the other. |
| `StringOrder.NotLessTransitive` | Sources/chordata/chordata.swift:92 | "Not after" is transitive. Inserting into a sorted sequence relies on this. |
| `NameSort.Insert` | Sources/chordata/chordata.swift:92 | Inserting a record into a sorted sequence gives a sorted sequence. The result holds the old records plus the new one. |
| `NameSort.SortByName` | Sources/chordata/chordata.swift:92 | The result is sorted ascending by name and is a permutation of the input, with the same multiset of records. |
| `NameSort.SortedPermutationUnique` | Sources/chordata/chordata.swift:92 | Two sorted permutations of the same records with distinct names are equal. So the result does not depend on the sort algorithm or its stability. |
| `NameSort.DistinctPermutation` | Sources/chordata/chordata.swift:92 | Sorting cannot create a duplicate name. |
| `Introspection.DescribeAttributes` | Sources/chordata/chordata.swift:59-67 | One `AttributeData` per attribute: none are dropped and none are added. Each copies the attribute's name and optionality, and its type is `AttributeTypeString` of the attribute's type. |
| `Introspection.DescribeRelationships` | Sources/chordata/chordata.swift:69-78 | One `RelationshipData` per relationship: none are dropped. Each copies the name, to-many flag and optionality. Its destination is the destination's name when there is one, and "Unknown" when there is not. |
| `Introspection.EntityCount` | Sources/chordata/chordata.swift:57 | The record count is the count when the query succeeds and 0 when it fails, so it is never negative. |
| `Introspection.Introspect` | Sources/chordata/chordata.swift:53-87 | An entity gives no record exactly when it has no name. Otherwise the record carries the entity's name and its described lists. Its attribute and relationship counts equal the list lengths. Its record count is the query's result when the query succeeds and 0 when it fails. |
| `Introspection.CollectModels` | Sources/chordata/chordata.swift:50-90 | The loop makes as many records as there are named entities. Every named entity's record is present, every record comes from some entity, and every record is well formed. |
| `Introspection.GetModelsData` | Sources/chordata/chordata.swift:48-93 | The result is sorted ascending by name and is a permutation of the records the loop built: the same multiset, nothing added or lost. |
| `Introspection.GetModelsDataComplete` | Sources/chordata/chordata.swift:48-93 | The sorted result has as many records as there are named entities. It contains every named entity's record, every record in it comes from some entity, and every record is well formed. |
| `Introspection.CountFailureIsLocal` | Sources/chordata/chordata.swift:56-57 | Suppose two count queries differ only for the name x, for example because one of them fails there. Then the records built with them differ only in the record count of the records named x. |
| `Introspection.CountFailureIsLocalSorted` | Sources/chordata/chordata.swift:52-92 | In the sorted result, every record not named x is the same under both queries. |
| `Introspection.CollectDistinctNames` | Sources/chordata/chordata.swift:52-89 | When entity names are unique, the loop's records have distinct names, so no entity is reported twice. |
| `Introspection.GetModelsDataCanonical` | Sources/chordata/chordata.swift:89-92 | When entity names are unique, every sorted arrangement of the loop's records equals the result, whatever sort produced it. So two passes over an unchanged model agree, provided they enumerate attributes and relationships in the same order. |
| `Introspection.AttributeTypesRecoverable` | Sources/chordata/chordata.swift:60-67 | Each reported type string parses back to the attribute's own type, unless the type is unrecognised. |
| `Introspection.UnresolvedDestinationIndistinguishable` | Sources/chordata/chordata.swift:74 | An unresolved destination is reported exactly like a destination entity named "Unknown". |
| `Scenarios.SortsEntitiesByName` | Sources/chordata/chordata.swift:48-93 | Entities listed as Orders, Categories, Products come out as Categories, Orders, Products. |
| `Scenarios.ProductScenario` | Sources/chordata/chordata.swift:48-93 | The model has an unnamed entity, an entity Audit whose count fails, and an entity Product with 3 attributes, 2 relationships and 150 records. The pass gives exactly two records: Audit with count 0, then Product with counts 3, 2 and 150. An unrecognised attribute type appears as "Unknown", and so does an unresolved destination. |

## Left out

- Core Data itself is not modelled: `NSPersistentContainer`, `viewContext` and fetch requests. The schema becomes the `Schema` datatypes, and `context.count(for:)` becomes a function parameter that returns a count or a failure.
- Dictionary order is not modelled. `attributesByName` and `relationshipsByName` enumerate in an unspecified order, so attributes and relationships are taken in the order given, and nothing is claimed about their order.
- Swift's `String <` compares Unicode-canonically. The model compares by code point, with no normalisation.
- Swift's `sorted` is not documented to be stable. The model uses a stable insertion sort. `SortedPermutationUnique` shows this choice is invisible when entity names are distinct, as Core Data requires.
- `NSAttributeType` raw values are not modelled. `undefinedAttributeType`, `compositeAttributeType` and any future case all become `Other`.
- The two optional levels of `destinationEntity?.name` are folded into one optional name.
- Integer width is not modelled. Counts are unbounded, whereas Swift uses 64-bit `Int`, which every real record count fits in.
- Instance sampling and value formatting are not modelled. Sources/chordata/models.swift:29-32 declares `ObjectInstanceData`, but no code produces it, and the served `ModelData` has no `instances` field.
- The HTTP layer is not modelled: `ChordataWebServer`, its routes and status codes, and the FlyingFox server. This is transport I/O.
- JSON encoding and the 500 error body are not modelled. They rely on Foundation's `JSONEncoder` and `JSONSerialization`.
- The `ChordataManager` singleton and its `Task` startup are not modelled. They are lifecycle and concurrency code.
- `generateDashboardHTML` and `HTMLTemplate` are not modelled. They return a static page.
- Introspection.GetModelsDataCanonical: agreement between two passes assumes that both enumerate `attributesByName` and `relationshipsByName` in the same order (chordata.swift:61, 71). Swift does not promise this order, and a different order gives different attribute and relationship lists.
