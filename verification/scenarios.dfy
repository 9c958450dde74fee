/** Concrete models and the records the introspection pass makes of them. */
module Scenarios {
  import opened Wrappers
  import opened Schema
  import opened Records
  import opened StringOrder
  import opened NameSort
  import opened Introspection

  function Bare(name: string): Entity {
    Entity(Some(name), [], [])
  }

  function BareRecord(name: string): ModelData {
    ModelData(name, 0, 0, 0, [], [])
  }

  lemma IntrospectBare(name: string, count: CountQuery)
    requires count(name) == CountFailed
    ensures Introspect(Bare(name), count) == Some(BareRecord(name))
    ensures Found(Bare(name), count) == [BareRecord(name)]
  {
  }

  /** The records `Introspect` makes of one entity: none or one. */
  function Found(e: Entity, count: CountQuery): seq<ModelData> {
    match Introspect(e, count)
    case None => []
    case Some(m) => [m]
  }

  lemma CollectCons(e: Entity, es: seq<Entity>, count: CountQuery)
    ensures CollectModels([e] + es, count) == Found(e, count) + CollectModels(es, count)
  {
    assert ([e] + es)[1..] == es;
  }

  lemma CollectOfOne(e: Entity, count: CountQuery)
    ensures CollectModels([e], count) == Found(e, count)
  {
    CollectCons(e, [], count);
    assert [e] == [e] + [];
  }

  lemma CollectOfTwo(e0: Entity, e1: Entity, count: CountQuery)
    ensures CollectModels([e0, e1], count) == Found(e0, count) + Found(e1, count)
  {
    CollectOfOne(e1, count);
    CollectCons(e0, [e1], count);
    assert [e0, e1] == [e0] + [e1];
  }

  /** Collecting over three entities, with the entities left abstract. */
  lemma CollectOfThree(e0: Entity, e1: Entity, e2: Entity, count: CountQuery)
    ensures CollectModels([e0, e1, e2], count) == Found(e0, count) + (Found(e1, count) + Found(e2, count))
  {
    CollectOfTwo(e1, e2, count);
    CollectCons(e0, [e1, e2], count);
    assert [e0, e1, e2] == [e0] + [e1, e2];
  }

  lemma CollectThree(count: CountQuery)
    requires count("Orders") == CountFailed && count("Categories") == CountFailed && count("Products") == CountFailed
    ensures CollectModels([Bare("Orders"), Bare("Categories"), Bare("Products")], count)
         == [BareRecord("Orders"), BareRecord("Categories"), BareRecord("Products")]
  {
    IntrospectBare("Orders", count);
    IntrospectBare("Categories", count);
    IntrospectBare("Products", count);
    CollectOfThree(Bare("Orders"), Bare("Categories"), Bare("Products"), count);
  }

  lemma SortedThree()
    ensures SortedByName([BareRecord("Categories"), BareRecord("Orders"), BareRecord("Products")])
  {
    assert Less("Categories", "Orders") && Less("Orders", "Products");
    LessAsymmetric("Categories", "Orders");
    LessAsymmetric("Orders", "Products");
    LessTransitive("Categories", "Orders", "Products");
    LessAsymmetric("Categories", "Products");
  }

  lemma UniqueThree()
    ensures UniqueEntityNames([Bare("Orders"), Bare("Categories"), Bare("Products")])
  {
  }

  lemma PermutedThree()
    ensures multiset([BareRecord("Categories"), BareRecord("Orders"), BareRecord("Products")])
         == multiset([BareRecord("Orders"), BareRecord("Categories"), BareRecord("Products")])
  {
  }

  /** Entities listed as Orders, Categories, Products come out as Categories, Orders, Products. */
  lemma SortsEntitiesByName(es: seq<Entity>, count: CountQuery)
    requires es == [Bare("Orders"), Bare("Categories"), Bare("Products")]
    requires count("Orders") == CountFailed && count("Categories") == CountFailed && count("Products") == CountFailed
    ensures GetModelsData(es, count) == [BareRecord("Categories"), BareRecord("Orders"), BareRecord("Products")]
  {
    SortedThree();
    CollectThree(count);
    UniqueThree();
    PermutedThree();
    GetModelsDataCanonical(es, count, [BareRecord("Categories"), BareRecord("Orders"), BareRecord("Products")]);
  }

  /** Three attributes, one of a type the inspector does not know, and two relationships, one unresolved. */
  function Product(): Entity {
    Entity(Some("Product"),
      [Attribute("name", String, false), Attribute("price", Decimal, false), Attribute("thumbnail", Other, true)],
      [Relationship("category", Some("Category"), false, true), Relationship("supplier", None, true, true)])
  }

  /** What the inspector reports for Product when its count query returns 150. */
  function ProductRecord(): ModelData {
    ModelData("Product", 3, 2, 150,
      [AttributeData("name", "String", false), AttributeData("price", "Decimal", false), AttributeData("thumbnail", Unknown, true)],
      [RelationshipData("category", "Category", false, true), RelationshipData("supplier", Unknown, true, true)])
  }

  lemma IntrospectProduct(count: CountQuery)
    requires count("Product") == Counted(150)
    ensures Introspect(Product(), count) == Some(ProductRecord())
  {
    var attrs := Product().attributes;
    var rels := Product().relationships;
    assert DescribeAttributes(attrs) == ProductRecord().attributes by {
      assert attrs[1..] == [attrs[1], attrs[2]] && attrs[1..][1..] == [attrs[2]] && attrs[1..][1..][1..] == [];
    }
    assert DescribeRelationships(rels) == ProductRecord().relationships by {
      assert rels[1..] == [rels[1]] && rels[1..][1..] == [];
    }
  }

  lemma CollectProduct(count: CountQuery)
    requires count("Product") == Counted(150) && count("Audit") == CountFailed
    ensures CollectModels([Entity(None, [], []), Product(), Bare("Audit")], count) == [ProductRecord(), BareRecord("Audit")]
  {
    IntrospectBare("Audit", count);
    IntrospectProduct(count);
    CollectOfThree(Entity(None, [], []), Product(), Bare("Audit"), count);
  }

  /**
   * The Product entity with 150 records, next to an unnamed entity (skipped)
   * and an entity Audit whose count query fails (reported with 0 records).
   */
  lemma ProductScenario(es: seq<Entity>, count: CountQuery)
    requires es == [Entity(None, [], []), Product(), Bare("Audit")]
    requires count("Product") == Counted(150) && count("Audit") == CountFailed
    ensures GetModelsData(es, count) == [BareRecord("Audit"), ProductRecord()]
  {
    CollectProduct(count);
    UniqueProductModel();
    SortedAuditProduct();
    PermutedTwo(ProductRecord(), BareRecord("Audit"));
    GetModelsDataCanonical(es, count, [BareRecord("Audit"), ProductRecord()]);
  }

  lemma UniqueProductModel()
    ensures UniqueEntityNames([Entity(None, [], []), Product(), Bare("Audit")])
  {
  }

  lemma SortedAuditProduct()
    ensures SortedByName([BareRecord("Audit"), ProductRecord()])
  {
    assert Less("Audit", "Product");
    LessAsymmetric("Audit", "Product");
  }

  lemma PermutedTwo(a: ModelData, b: ModelData)
    ensures multiset([a, b]) == multiset([b, a])
  {
  }
}
