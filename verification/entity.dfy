/**
 * The Entity entity: an element with three ordered relation collections.
 * Each relation is mirrored by its own rule:
 *   - persons: this side only; `addPerson` is a no-op for a member;
 *   - products: `addProduct` appends with no membership check and then hands
 *     the link to the product (`Product::addEntity`), whose effect is not
 *     part of this model and is returned as a delegated call;
 *   - asociaciones: both sides are updated, but only when this side changes.
 */
module EntityModel {
  import opened Wrappers
  import opened Element
  import opened Collections
  import opened Projection
  import AsociacionModel

  datatype Entity = Entity(element: ElementData, persons: seq<nat>, products: seq<nat>, asociaciones: seq<nat>)

  /** The constructor: the given fields and three empty collections. */
  function NewEntity(name: string, birthDate: Option<Date>, deathDate: Option<Date>,
                     imageUrl: Option<string>, wikiUrl: Option<string>): (e: Entity)
    ensures e.element == NewElement(name, birthDate, deathDate, imageUrl, wikiUrl)
    ensures e.persons == [] && e.products == [] && e.asociaciones == []
  {
    Entity(NewElement(name, birthDate, deathDate, imageUrl, wikiUrl), [], [], [])
  }

  datatype EntityRemoval = EntityRemoval(entity: Entity, removed: bool)

  // Persons

  predicate ContainsPerson(e: Entity, person: nat) {
    person in e.persons
  }

  /** Adds the person unless already present; only `persons` changes. */
  function AddPerson(e: Entity, person: nat): (r: Entity)
    ensures ContainsPerson(r, person)
    ensures r.element == e.element && r.products == e.products && r.asociaciones == e.asociaciones
    ensures ContainsPerson(e, person) ==> r == e
    ensures !ContainsPerson(e, person) ==> r.persons == e.persons + [person]
  {
    if ContainsPerson(e, person) then e else e.(persons := e.persons + [person])
  }

  /** Removes the first occurrence; true iff the person was contained. */
  function RemovePerson(e: Entity, person: nat): (r: EntityRemoval)
    ensures r.removed <==> ContainsPerson(e, person)
    ensures r.entity.element == e.element && r.entity.products == e.products
    ensures r.entity.asociaciones == e.asociaciones
    ensures !r.removed ==> r.entity == e
    ensures r.entity.persons == RemoveElement(e.persons, person).rest
  {
    var removal := RemoveElement(e.persons, person);
    EntityRemoval(e.(persons := removal.rest), removal.removed)
  }

  /** `addPerson` is idempotent and never introduces a duplicate. */
  lemma AddPersonIdempotent(e: Entity, person: nat)
    ensures AddPerson(AddPerson(e, person), person) == AddPerson(e, person)
    ensures NoDuplicates(e.persons) ==> NoDuplicates(AddPerson(e, person).persons)
  {
    if NoDuplicates(e.persons) && !ContainsPerson(e, person) {
      AppendAbsentKeepsNoDuplicates(e.persons, person);
    }
  }

  /** On a duplicate-free collection (all `addPerson` builds), removal leaves the person absent. */
  lemma {:induction false} RemovePersonLeavesAbsent(e: Entity, person: nat)
    requires NoDuplicates(e.persons)
    ensures !ContainsPerson(RemovePerson(e, person).entity, person)
    ensures !RemovePerson(RemovePerson(e, person).entity, person).removed
  {
    RemoveFromNoDuplicates(e.persons, person);
  }

  // Products

  /** The call this entity makes on a product after changing its own side. */
  datatype ProductCall = ProductAddEntity(product: nat, entity: nat) | ProductRemoveEntity(product: nat, entity: nat)

  /** The entity after `addProduct` and the call it makes on the product. */
  datatype ProductAdded = ProductAdded(entity: Entity, call: ProductCall)

  /** The entity after `removeProduct`, whether the product was there, and the call it makes on the product. */
  datatype ProductRemoval = ProductRemoval(entity: Entity, removed: bool, call: ProductCall)

  predicate ContainsProduct(e: Entity, product: nat) {
    product in e.products
  }

  /** Appends the product (no membership check) and delegates `addEntity(this)` to it. */
  function AddProduct(e: Entity, product: nat): (r: ProductAdded)
    ensures ContainsProduct(r.entity, product)
    ensures multiset(r.entity.products) == multiset(e.products) + multiset{product}
    ensures |r.entity.products| == |e.products| + 1 && r.entity.products[..|e.products|] == e.products
    ensures r.entity.products[|e.products|] == product
    ensures r.entity.element == e.element && r.entity.persons == e.persons
    ensures r.entity.asociaciones == e.asociaciones
    ensures r.call == ProductAddEntity(product, e.element.id)
  {
    ProductAdded(e.(products := e.products + [product]), ProductAddEntity(product, e.element.id))
  }

  /** Removes the first occurrence and delegates `removeEntity(this)` whether or not it was there. */
  function RemoveProduct(e: Entity, product: nat): (r: ProductRemoval)
    ensures r.removed <==> ContainsProduct(e, product)
    ensures r.entity.products == RemoveElement(e.products, product).rest
    ensures r.entity.element == e.element && r.entity.persons == e.persons
    ensures r.entity.asociaciones == e.asociaciones
    ensures r.call == ProductRemoveEntity(product, e.element.id)
  {
    var removal := RemoveElement(e.products, product);
    ProductRemoval(e.(products := removal.rest), removal.removed, ProductRemoveEntity(product, e.element.id))
  }

  /**
   * `addProduct` is not idempotent: adding twice stores the product twice, and
   * one removal then reports true yet leaves the product contained.
   */
  lemma {:induction false} AddProductTwiceSurvivesOneRemoval(e: Entity, product: nat)
    ensures var twice := AddProduct(AddProduct(e, product).entity, product).entity;
            var removal := RemoveProduct(twice, product);
            && multiset(twice.products)[product] == multiset(e.products)[product] + 2
            && removal.removed
            && ContainsProduct(removal.entity, product)
  {
    var twice := AddProduct(AddProduct(e, product).entity, product).entity;
    var removal := RemoveProduct(twice, product);
    assert multiset(removal.entity.products)[product] == multiset(e.products)[product] + 1;
  }

  // Asociaciones

  /** Both sides of an Entity–Asociacion link after an `addAsociacion`. */
  datatype LinkPair = LinkPair(entity: Entity, asociacion: AsociacionModel.Asociacion)

  datatype UnlinkPair = UnlinkPair(entity: Entity, asociacion: AsociacionModel.Asociacion, removed: bool)

  predicate ContainsAsociacion(e: Entity, asociacion: nat) {
    asociacion in e.asociaciones
  }

  /** An Entity–Asociacion link present on both sides. */
  predicate Linked(e: Entity, a: AsociacionModel.Asociacion) {
    ContainsAsociacion(e, a.element.id) && AsociacionModel.ContainsEntity(a, e.element.id)
  }

  /**
   * When the association is absent on this side, add it here and add this
   * entity to the association; otherwise change neither side.
   */
  function AddAsociacion(e: Entity, a: AsociacionModel.Asociacion): (r: LinkPair)
    ensures ContainsAsociacion(r.entity, a.element.id)
    ensures AsociacionModel.ContainsEntity(r.asociacion, e.element.id)
            <==> (AsociacionModel.ContainsEntity(a, e.element.id) || !ContainsAsociacion(e, a.element.id))
    ensures ContainsAsociacion(e, a.element.id) ==> r.entity == e && r.asociacion == a
    ensures !ContainsAsociacion(e, a.element.id) ==>
              && r.entity.asociaciones == e.asociaciones + [a.element.id]
              && r.asociacion == AsociacionModel.AddEntity(a, e.element.id)
    ensures r.entity.element == e.element && r.entity.persons == e.persons && r.entity.products == e.products
    ensures r.asociacion.element == a.element && r.asociacion.websiteUrl == a.websiteUrl
    ensures multiset(r.asociacion.entities) <= multiset(a.entities) + multiset{e.element.id}
  {
    if !ContainsAsociacion(e, a.element.id) then
      LinkPair(e.(asociaciones := e.asociaciones + [a.element.id]), AsociacionModel.AddEntity(a, e.element.id))
    else
      LinkPair(e, a)
  }

  /**
   * Removes the association from this side; only if that removed something is
   * this entity removed from the association as well. The result is this
   * side's answer.
   */
  function RemoveAsociacion(e: Entity, a: AsociacionModel.Asociacion): (r: UnlinkPair)
    ensures r.removed <==> ContainsAsociacion(e, a.element.id)
    ensures r.entity.asociaciones == RemoveElement(e.asociaciones, a.element.id).rest
    ensures r.removed ==> r.asociacion == AsociacionModel.RemoveEntity(a, e.element.id).asociacion
    ensures !r.removed ==> r.entity == e && r.asociacion == a
    ensures r.entity.element == e.element && r.entity.persons == e.persons && r.entity.products == e.products
  {
    var removal := RemoveElement(e.asociaciones, a.element.id);
    if removal.removed then
      UnlinkPair(e.(asociaciones := removal.rest), AsociacionModel.RemoveEntity(a, e.element.id).asociacion, true)
    else
      UnlinkPair(e, a, false)
  }

  /** From an unlinked pair, `addAsociacion` links both sides. */
  lemma AddAsociacionLinksBothSides(e: Entity, a: AsociacionModel.Asociacion)
    requires !ContainsAsociacion(e, a.element.id)
    ensures Linked(AddAsociacion(e, a).entity, AddAsociacion(e, a).asociacion)
  {
  }

  /**
   * The code does not repair a one-sided link: when the association is on
   * this side but the entity is missing from the association, adding again
   * leaves the association without the entity.
   */
  lemma AddAsociacionKeepsOneSidedLink(e: Entity, a: AsociacionModel.Asociacion)
    requires ContainsAsociacion(e, a.element.id) && !AsociacionModel.ContainsEntity(a, e.element.id)
    ensures !Linked(AddAsociacion(e, a).entity, AddAsociacion(e, a).asociacion)
  {
  }

  /** Removing a link held on both sides, without duplicates, unlinks both sides. */
  lemma {:induction false} RemoveAsociacionUnlinksBothSides(e: Entity, a: AsociacionModel.Asociacion)
    requires Linked(e, a)
    requires NoDuplicates(e.asociaciones) && NoDuplicates(a.entities)
    ensures var r := RemoveAsociacion(e, a);
            r.removed && !ContainsAsociacion(r.entity, a.element.id)
            && !AsociacionModel.ContainsEntity(r.asociacion, e.element.id)
  {
    RemoveFromNoDuplicates(e.asociaciones, a.element.id);
    RemoveFromNoDuplicates(a.entities, e.element.id);
  }

  /** When this side lacks the association, removal answers false and leaves a one-sided link alone. */
  lemma RemoveAsociacionIgnoresOtherSide(e: Entity, a: AsociacionModel.Asociacion)
    requires !ContainsAsociacion(e, a.element.id) && AsociacionModel.ContainsEntity(a, e.element.id)
    ensures !RemoveAsociacion(e, a).removed
    ensures AsociacionModel.ContainsEntity(RemoveAsociacion(e, a).asociacion, e.element.id)
  {
  }

  /** `jsonSerialize`: key `entity`, the element fields and three id lists (null when empty). */
  function Project(e: Entity): (env: Envelope)
    ensures env.key == "entity" && env.json.EntityJson?
    ensures env.json.element == e.element
    ensures IdsOf(env.json.products) == e.products && (env.json.products.Null? <==> e.products == [])
    ensures IdsOf(env.json.persons) == e.persons && (env.json.persons.Null? <==> e.persons == [])
    ensures IdsOf(env.json.asociaciones) == e.asociaciones
            && (env.json.asociaciones.Null? <==> e.asociaciones == [])
  {
    Envelope("entity", EntityJson(e.element, IdsOrNull(e.products), IdsOrNull(e.persons), IdsOrNull(e.asociaciones)))
  }

  /** A new entity projects every relation as null. */
  lemma NewEntityProjectsNulls(name: string, birthDate: Option<Date>, deathDate: Option<Date>,
                               imageUrl: Option<string>, wikiUrl: Option<string>)
    ensures var j := Project(NewEntity(name, birthDate, deathDate, imageUrl, wikiUrl)).json;
            j.products == Null && j.persons == Null && j.asociaciones == Null
  {
  }

  /** The projection determines the entity: distinct states project differently. */
  lemma ProjectInjective(e: Entity, f: Entity)
    requires Project(e) == Project(f)
    ensures e == f
  {
  }
}
