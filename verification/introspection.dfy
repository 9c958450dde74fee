/**
 * `ChordataManagerImpl.getModelsDataSync`: one `ModelData` per named entity
 * of the managed object model, sorted by entity name.
 */
module Introspection {
  import opened Wrappers
  import opened Schema
  import opened Records
  import opened TypeNames
  import opened NameSort

  /** One `AttributeData` per attribute, in the order the attributes are enumerated. */
  function DescribeAttributes(attrs: seq<Attribute>): (ds: seq<AttributeData>)
    ensures |ds| == |attrs|
    ensures forall i :: 0 <= i < |attrs| ==>
              && ds[i].name == attrs[i].name
              && ds[i].typeName == AttributeTypeString(attrs[i].attributeType)
              && ds[i].optional == attrs[i].isOptional
    decreases |attrs|
  {
    if |attrs| == 0 then
      []
    else
      var a := attrs[0];
      [AttributeData(a.name, AttributeTypeString(a.attributeType), a.isOptional)]
        + DescribeAttributes(attrs[1..])
  }

  /**
   * One `RelationshipData` per relationship, in the order the relationships
   * are enumerated; an unresolved destination is reported as `Unknown`
   * rather than dropping the relationship.
   */
  function DescribeRelationships(rels: seq<Relationship>): (ds: seq<RelationshipData>)
    ensures |ds| == |rels|
    ensures forall i :: 0 <= i < |rels| ==>
              && ds[i].name == rels[i].name
              && (rels[i].destination.Some? ==> ds[i].destinationEntity == rels[i].destination.value)
              && (rels[i].destination.None? ==> ds[i].destinationEntity == Unknown)
              && ds[i].toMany == rels[i].isToMany
              && ds[i].optional == rels[i].isOptional
    decreases |rels|
  {
    if |rels| == 0 then
      []
    else
      var r := rels[0];
      [RelationshipData(r.name, r.destination.GetOr(Unknown), r.isToMany, r.isOptional)]
        + DescribeRelationships(rels[1..])
  }

  /** `(try? context.count(for:)) ?? 0`. */
  function EntityCount(c: CountResult): (n: nat)
    ensures c.Counted? ==> n == c.n
    ensures c.CountFailed? ==> n == 0
  {
    match c
    case Counted(n) => n
    case CountFailed => 0
  }

  /**
   * The body of the loop over entities: nothing for an entity without a
   * name, otherwise its record, whose counts are derived from the lists it
   * carries and whose record count falls back to 0 when the query fails.
   */
  function Introspect(e: Entity, count: CountQuery): (r: Option<ModelData>)
    ensures r.None? <==> e.name.None?
    ensures r.Some? ==>
              && r.value.name == e.name.value
              && WellFormed(r.value)
              && r.value.attributes == DescribeAttributes(e.attributes)
              && r.value.relationships == DescribeRelationships(e.relationships)
              && (count(e.name.value).Counted? ==> r.value.entityCount == count(e.name.value).n)
              && (count(e.name.value).CountFailed? ==> r.value.entityCount == 0)
  {
    match e.name
    case None => None
    case Some(entityName) =>
      var attributes := DescribeAttributes(e.attributes);
      var relationships := DescribeRelationships(e.relationships);
      Some(ModelData(
        entityName,
        |attributes|,
        |relationships|,
        EntityCount(count(entityName)),
        attributes,
        relationships))
  }

  /** Number of entities that have a name. */
  function CountNamed(es: seq<Entity>): nat
    decreases |es|
  {
    if |es| == 0 then 0
    else (if es[0].name.Some? then 1 else 0) + CountNamed(es[1..])
  }

  /**
   * The loop over `managedObjectModel.entities`, before sorting: exactly one
   * record per named entity, each the one `Introspect` builds for it, none
   * invented.
   */
  function CollectModels(es: seq<Entity>, count: CountQuery): (ms: seq<ModelData>)
    ensures |ms| == CountNamed(es)
    ensures forall m :: m in ms ==> WellFormed(m)
    ensures forall i :: 0 <= i < |es| && es[i].name.Some? ==> Introspect(es[i], count).value in ms
    ensures forall m :: m in ms ==> exists i :: 0 <= i < |es| && Introspect(es[i], count) == Some(m)
    decreases |es|
  {
    if |es| == 0 then
      []
    else
      var rest := CollectModels(es[1..], count);
      assert forall i :: 1 <= i < |es| ==> es[i] == es[1..][i - 1];
      match Introspect(es[0], count)
      case None => rest
      case Some(m) => [m] + rest
  }

  /** `getModelsDataSync`: the collected records, sorted ascending by name. */
  function GetModelsData(es: seq<Entity>, count: CountQuery): (ms: seq<ModelData>)
    ensures SortedByName(ms)
    ensures multiset(ms) == multiset(CollectModels(es, count))
  {
    SortByName(CollectModels(es, count))
  }

  /**
   * Sorting neither drops nor invents a record: the result has one record
   * per named entity, the record of every named entity, and nothing else,
   * all of them well formed.
   */
  lemma GetModelsDataComplete(es: seq<Entity>, count: CountQuery)
    ensures |GetModelsData(es, count)| == CountNamed(es)
    ensures forall m :: m in GetModelsData(es, count) ==> WellFormed(m)
    ensures forall i :: 0 <= i < |es| && es[i].name.Some? ==> Introspect(es[i], count).value in GetModelsData(es, count)
    ensures forall m :: m in GetModelsData(es, count) ==> exists i :: 0 <= i < |es| && Introspect(es[i], count) == Some(m)
  {
    var collected := CollectModels(es, count);
    var ms := GetModelsData(es, count);
    assert |ms| == |multiset(ms)| == |multiset(collected)| == |collected|;
    forall m
      ensures m in ms <==> m in collected
    {
      assert m in ms <==> m in multiset(ms);
      assert m in collected <==> m in multiset(collected);
    }
  }

  /** Entity names are unique among the entities that have one, as Core Data guarantees. */
  predicate UniqueEntityNames(es: seq<Entity>) {
    forall i, j :: 0 <= i < j < |es| && es[i].name.Some? && es[j].name.Some? ==> es[i].name != es[j].name
  }

  /** Two records that agree in everything except, perhaps, their record count. */
  predicate SameButCount(a: ModelData, b: ModelData) {
    a.(entityCount := 0) == b.(entityCount := 0)
  }

  /**
   * A count query that behaves differently for one entity name `x` changes
   * only the record count of the records named `x`: every other record,
   * and every other field, is the same.
   */
  lemma {:induction false} CountFailureIsLocal(es: seq<Entity>, count: CountQuery, count': CountQuery, x: string)
    requires forall n :: n != x ==> count(n) == count'(n)
    ensures |CollectModels(es, count)| == |CollectModels(es, count')|
    ensures forall k :: 0 <= k < |CollectModels(es, count)| ==>
              && SameButCount(CollectModels(es, count)[k], CollectModels(es, count')[k])
              && (CollectModels(es, count)[k].name != x ==> CollectModels(es, count)[k] == CollectModels(es, count')[k])
    decreases |es|
  {
    if |es| > 0 {
      CountFailureIsLocal(es[1..], count, count', x);
      var a, b := CollectModels(es, count), CollectModels(es, count');
      var ra, rb := CollectModels(es[1..], count), CollectModels(es[1..], count');
      match es[0].name
      case None =>
        assert a == ra && b == rb;
      case Some(n) =>
        var ma, mb := Introspect(es[0], count).value, Introspect(es[0], count').value;
        assert a == [ma] + ra && b == [mb] + rb;
        assert SameButCount(ma, mb);
        assert n != x ==> ma == mb;
    }
  }

  /** The same, for the sorted result: a record not named `x` is served whichever query is used. */
  lemma CountFailureIsLocalSorted(es: seq<Entity>, count: CountQuery, count': CountQuery, x: string)
    requires forall n :: n != x ==> count(n) == count'(n)
    ensures forall m :: m in GetModelsData(es, count) && m.name != x ==> m in GetModelsData(es, count')
  {
    forall m | m in GetModelsData(es, count) && m.name != x
      ensures m in GetModelsData(es, count')
    {
      assert m in multiset(GetModelsData(es, count));
      UnaffectedRecord(es, count, count', x, m);
      assert m in multiset(CollectModels(es, count'));
    }
  }

  lemma UnaffectedRecord(es: seq<Entity>, count: CountQuery, count': CountQuery, x: string, m: ModelData)
    requires forall n :: n != x ==> count(n) == count'(n)
    requires m in CollectModels(es, count) && m.name != x
    ensures m in CollectModels(es, count')
  {
    var a, b := CollectModels(es, count), CollectModels(es, count');
    CountFailureIsLocal(es, count, count', x);
    var k :| 0 <= k < |a| && a[k] == m;
    assert b[k] == m;
  }

  /** With unique entity names the collected records have distinct names. */
  lemma {:induction false} CollectDistinctNames(es: seq<Entity>, count: CountQuery)
    requires UniqueEntityNames(es)
    ensures DistinctNames(CollectModels(es, count))
    decreases |es|
  {
    if |es| > 0 {
      UniqueTail(es);
      CollectDistinctNames(es[1..], count);
      if es[0].name.Some? {
        var rest := CollectModels(es[1..], count);
        var m := Introspect(es[0], count).value;
        forall x | x in rest
          ensures x.name != m.name
        {
          var i :| 0 <= i < |es[1..]| && Introspect(es[1..][i], count) == Some(x);
          assert es[1..][i] == es[i + 1];
        }
        DistinctCons(m, rest);
        assert CollectModels(es, count) == [m] + rest;
      }
    }
  }

  lemma UniqueTail(es: seq<Entity>)
    requires UniqueEntityNames(es) && |es| > 0
    ensures UniqueEntityNames(es[1..])
  {
    forall i, j | 0 <= i < j < |es[1..]| && es[1..][i].name.Some? && es[1..][j].name.Some?
      ensures es[1..][i].name != es[1..][j].name
    {
      assert es[1..][i] == es[i + 1] && es[1..][j] == es[j + 1];
    }
  }

  /**
   * With unique entity names, every sorted arrangement of the collected
   * records is the result, whatever sorting algorithm produced it. So two
   * passes over an unchanged model agree, provided they enumerate each
   * entity's attributes and relationships in the same order.
   */
  lemma GetModelsDataCanonical(es: seq<Entity>, count: CountQuery, r: seq<ModelData>)
    requires UniqueEntityNames(es)
    requires SortedByName(r)
    requires multiset(r) == multiset(CollectModels(es, count))
    ensures r == GetModelsData(es, count)
  {
    var ms := GetModelsData(es, count);
    CollectDistinctNames(es, count);
    DistinctPermutation(CollectModels(es, count), ms);
    SortedPermutationUnique(ms, r);
  }

  /**
   * The type column can be read back: every recognised attribute type is
   * recovered from its display name, and only unrecognised types read back
   * as nothing.
   */
  lemma AttributeTypesRecoverable(attrs: seq<Attribute>)
    ensures forall i :: 0 <= i < |attrs| ==>
              ParseTypeName(DescribeAttributes(attrs)[i].typeName)
                == (if attrs[i].attributeType.Other? then None else Some(attrs[i].attributeType))
  {
    forall i | 0 <= i < |attrs| {
      TypeNameRoundTrip(attrs[i].attributeType);
    }
  }

  /**
   * The `Unknown` placeholder is not distinguishable from a destination
   * entity that is really named "Unknown".
   */
  lemma UnresolvedDestinationIndistinguishable(name: string, toMany: bool, optional: bool)
    ensures DescribeRelationships([Relationship(name, None, toMany, optional)])
         == DescribeRelationships([Relationship(name, Some("Unknown"), toMany, optional)])
  {
  }
}
