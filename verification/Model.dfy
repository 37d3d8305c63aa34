/** The entity state every other module shares: a model of elements and
    relationships conforming to a metamodel (core/model, core/metamodel).
    The per-entity `rev` counter only ever moves forward and takes part in no
    comparison, so it is left out. */
module Model {
  import opened Collections
  import opened Json
  import opened Graph

  type Props = map<string, Json>

  datatype Element = Element(typeName: string, props: Props)

  datatype Relationship = Relationship(typeName: string, source: Id, target: Id, props: Props)

  datatype Model = Model(elements: map<Id, Element>, relationships: map<Id, Relationship>)

  /** A type with what the metamodel derives for it: `ancestors` is its chain, itself
      included; `properties` are its effective property names. */
  datatype ElementType = ElementType(abstr: bool, ancestors: set<string>, properties: set<string>)

  datatype RelationshipType = RelationshipType(containment: bool, properties: set<string>)

  datatype Metamodel = Metamodel(
    elementTypes: map<string, ElementType>,
    relationshipTypes: map<string, RelationshipType>)
  {
    predicate IsContainment(relType: string) {
      relType in relationshipTypes && relationshipTypes[relType].containment
    }

    predicate Instantiable(elType: string) {
      elType in elementTypes && !elementTypes[elType].abstr
    }

    function ElementAncestors(elType: string): set<string> {
      if elType in elementTypes then elementTypes[elType].ancestors else {}
    }

    function ElementProperties(elType: string): set<string> {
      if elType in elementTypes then elementTypes[elType].properties else {}
    }

    function RelationshipProperties(relType: string): set<string> {
      if relType in relationshipTypes then relationshipTypes[relType].properties else {}
    }
  }

  // What the schema's own tables say.

  /** The stereotype is the type itself or one of its ancestors. */
  predicate FallsUnder(mm: Metamodel, ty: string, stereotype: string) {
    stereotype == ty || (ty in mm.elementTypes && stereotype in mm.elementTypes[ty].ancestors)
  }

  predicate Contains(mm: Metamodel, ty: string) {
    ty in mm.relationshipTypes && mm.relationshipTypes[ty].containment
  }

  const TEMP_ID_PREFIX: string := "tmp_"

  predicate IsReserved(id: Id) {
    TEMP_ID_PREFIX <= id
  }

  predicate IsContained(mm: Metamodel, m: Model, rid: Id, parent: Id, child: Id) {
    && rid in m.relationships
    && mm.IsContainment(m.relationships[rid].typeName)
    && m.relationships[rid].source == parent
    && m.relationships[rid].target == child
  }

  function Sources(m: Model): set<Id> {
    set rid | rid in m.relationships :: m.relationships[rid].source
  }

  function Children(mm: Metamodel, m: Model, parent: Id): set<Id> {
    set rid | rid in m.relationships
           && mm.IsContainment(m.relationships[rid].typeName)
           && m.relationships[rid].source == parent :: m.relationships[rid].target
  }

  /** The containment edges of a model. */
  function Containment(mm: Metamodel, m: Model): Graph {
    map parent | parent in Sources(m) :: Children(mm, m, parent)
  }

  /** An element with everything it transitively contains. */
  ghost function Subtree(mm: Metamodel, m: Model, root: Id): set<Id> {
    ReachSet(Containment(mm, m), {root})
  }

  predicate Incident(r: Relationship, els: set<Id>) {
    r.source in els || r.target in els
  }

  ghost function IncidentIds(m: Model, els: set<Id>): set<Id> {
    set rid | rid in m.relationships && Incident(m.relationships[rid], els)
  }

  ghost predicate NullFree(props: Props) {
    forall k :: k in props ==> props[k] != Null
  }

  /** Endpoints resolve, no id names both an element and a relationship, and no id
      looks like a temporary one. */
  ghost predicate Intact(m: Model) {
    && (forall rid :: rid in m.relationships ==>
         m.relationships[rid].source in m.elements && m.relationships[rid].target in m.elements)
    && m.elements.Keys !! m.relationships.Keys
    && (forall id :: id in m.elements ==> !IsReserved(id))
    && (forall id :: id in m.relationships ==> !IsReserved(id))
  }

  ghost predicate FitsElement(mm: Metamodel, e: Element) {
    mm.Instantiable(e.typeName) && e.props.Keys <= mm.ElementProperties(e.typeName)
  }

  ghost predicate FitsRelationship(mm: Metamodel, r: Relationship) {
    r.typeName in mm.relationshipTypes && r.props.Keys <= mm.RelationshipProperties(r.typeName)
  }

  ghost predicate Conforms(mm: Metamodel, m: Model) {
    && (forall id :: id in m.elements ==> FitsElement(mm, m.elements[id]))
    && (forall id :: id in m.relationships ==> FitsRelationship(mm, m.relationships[id]))
  }

  ghost predicate ModelNullFree(m: Model) {
    && (forall id :: id in m.elements ==> NullFree(m.elements[id].props))
    && (forall id :: id in m.relationships ==> NullFree(m.relationships[id].props))
  }

  ghost predicate Whole(m: Model) {
    Intact(m) && ModelNullFree(m)
  }

  ghost predicate Sound(mm: Metamodel, m: Model) {
    Intact(m) && Conforms(mm, m) && ModelNullFree(m)
  }

  /** A containment successor is a target of a containment relationship. */
  lemma ContainmentEdge(mm: Metamodel, m: Model, parent: Id, child: Id)
    ensures child in Succ(Containment(mm, m), parent)
       <==> exists rid :: IsContained(mm, m, rid, parent, child)
  {
    if rid :| IsContained(mm, m, rid, parent, child) {
      assert parent in Sources(m);
    }
    if child in Succ(Containment(mm, m), parent) {
      assert child in Children(mm, m, parent);
      var rid :| rid in m.relationships
             && mm.IsContainment(m.relationships[rid].typeName)
             && m.relationships[rid].source == parent && m.relationships[rid].target == child;
      assert IsContained(mm, m, rid, parent, child);
    }
  }

  /** An element no relationship touches contains nothing but itself. */
  lemma LonelySubtree(mm: Metamodel, m: Model, root: Id)
    requires IncidentIds(m, {root}) == {}
    ensures Subtree(mm, m, root) == {root}
  {
    var g := Containment(mm, m);
    ReachSetExact(g, {root});
    assert forall rid :: rid in m.relationships && rid !in IncidentIds(m, {root})
                     ==> !Incident(m.relationships[rid], {root});
    forall b ensures b !in Succ(g, root) {
      ContainmentEdge(mm, m, root, b);
    }
    ReachableStays(g, {root}, {root});
  }
}
