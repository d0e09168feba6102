/**
 * The Asociacion entity: an element with a website URL and an ordered
 * collection of the entities that belong to it. The collection is kept on
 * this side only: adding or removing an entity never touches the entity's
 * own `asociaciones` collection (an Entity value is not even an input).
 */
module AsociacionModel {
  import opened Wrappers
  import opened Element
  import opened Collections
  import opened Projection

  datatype Asociacion = Asociacion(element: ElementData, websiteUrl: string, entities: seq<nat>)

  /** The constructor: the given fields, no entities, not yet persisted. */
  function NewAsociacion(name: string, websiteUrl: string, birthDate: Option<Date>, deathDate: Option<Date>,
                         imageUrl: Option<string>, wikiUrl: Option<string>): (a: Asociacion)
    ensures a.element.id == 0 && a.element.name == name
    ensures a.element == NewElement(name, birthDate, deathDate, imageUrl, wikiUrl)
    ensures a.websiteUrl == websiteUrl
    ensures a.entities == []
  {
    Asociacion(NewElement(name, birthDate, deathDate, imageUrl, wikiUrl), websiteUrl, [])
  }

  function GetWebsiteUrl(a: Asociacion): string {
    a.websiteUrl
  }

  /** Setting the website URL: a later read returns it, nothing else changes. */
  function SetWebsiteUrl(a: Asociacion, websiteUrl: string): (r: Asociacion)
    ensures GetWebsiteUrl(r) == websiteUrl
    ensures r.element == a.element && r.entities == a.entities
  {
    a.(websiteUrl := websiteUrl)
  }

  predicate ContainsEntity(a: Asociacion, entity: nat) {
    entity in a.entities
  }

  /** Adds the entity unless it already belongs to the association. */
  function AddEntity(a: Asociacion, entity: nat): (r: Asociacion)
    ensures ContainsEntity(r, entity)
    ensures r.element == a.element && r.websiteUrl == a.websiteUrl
    ensures ContainsEntity(a, entity) ==> r == a
    ensures !ContainsEntity(a, entity) ==> r.entities == a.entities + [entity]
  {
    if ContainsEntity(a, entity) then a else a.(entities := a.entities + [entity])
  }

  datatype AsociacionRemoval = AsociacionRemoval(asociacion: Asociacion, removed: bool)

  /** Removes the first occurrence of the entity; true iff it was contained. */
  function RemoveEntity(a: Asociacion, entity: nat): (r: AsociacionRemoval)
    ensures r.removed <==> ContainsEntity(a, entity)
    ensures r.asociacion.element == a.element && r.asociacion.websiteUrl == a.websiteUrl
    ensures !r.removed ==> r.asociacion == a
    ensures r.asociacion.entities == RemoveElement(a.entities, entity).rest
  {
    var removal := RemoveElement(a.entities, entity);
    AsociacionRemoval(a.(entities := removal.rest), removal.removed)
  }

  /** Adding an entity twice is the same as adding it once. */
  lemma AddEntityIdempotent(a: Asociacion, entity: nat)
    ensures AddEntity(AddEntity(a, entity), entity) == AddEntity(a, entity)
  {
  }

  /** `addEntity` never introduces a duplicate. */
  lemma AddEntityKeepsNoDuplicates(a: Asociacion, entity: nat)
    requires NoDuplicates(a.entities)
    ensures NoDuplicates(AddEntity(a, entity).entities)
  {
    if !ContainsEntity(a, entity) {
      AppendAbsentKeepsNoDuplicates(a.entities, entity);
    }
  }

  /**
   * Add twice, remove once, remove again: the entity is gone after the first
   * removal and the second removal reports false.
   */
  lemma {:induction false} AddAddRemoveRemove(a: Asociacion, entity: nat)
    requires NoDuplicates(a.entities) && !ContainsEntity(a, entity)
    ensures var twice := AddEntity(AddEntity(a, entity), entity);
            var first := RemoveEntity(twice, entity);
            var second := RemoveEntity(first.asociacion, entity);
            && ContainsEntity(twice, entity)
            && first.removed
            && !ContainsEntity(first.asociacion, entity)
            && !second.removed
            && first.asociacion.entities == a.entities
  {
    var once := AddEntity(a, entity);
    AddEntityIdempotent(a, entity);
    AppendAbsentKeepsNoDuplicates(a.entities, entity);
    RemoveFromNoDuplicates(once.entities, entity);
    var i := FirstIndex(once.entities, entity);
    assert i == |a.entities|;
    assert once.entities[..i] == a.entities;
  }

  /** `jsonSerialize`: key `asociacion`, the element fields, websiteUrl and the entity ids. */
  function Project(a: Asociacion): (env: Envelope)
    ensures env.key == "asociacion" && env.json.AsociacionJson?
    ensures env.json.element == a.element && env.json.websiteUrl == a.websiteUrl
    ensures IdsOf(env.json.entities) == a.entities
    ensures env.json.entities.Null? <==> a.entities == []
  {
    Envelope("asociacion", AsociacionJson(a.element, a.websiteUrl, IdsOrNull(a.entities)))
  }

  /** The projection determines the association: distinct states project differently. */
  lemma ProjectInjective(a: Asociacion, b: Asociacion)
    requires Project(a) == Project(b)
    ensures a == b
  {
    IdsOrNullInjective(a.entities, b.entities);
  }
}
