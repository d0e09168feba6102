/**
 * What the two relation controllers hand to the shared base controller
 * (ElementRelationsBaseController, which is not part of this model): the
 * owner found for the route id (or null), the list tag, and the related
 * elements to list; and, for relation operations, the route arguments with
 * the related class. The route pattern `[0-9]+` makes every id a natural
 * number; a missing id argument counts as 0.
 */
module RelationsCommon {
  import opened Wrappers

  /** The tag under which the related elements are listed. */
  datatype ListTag =
    | Literal(tag: string)  // a literal in the controller
    | PersonsTag            // `PersonQueryController::getEntitiesTag()`, whose value is not part of this model

  /** A call `getElements($request, $response, $owner, $tag, $elements)`. */
  datatype ElementsCall<O> = ElementsCall(owner: Option<O>, tag: ListTag, elements: seq<nat>)

  datatype ElementClass = EntityClass | PersonClass | ProductClass

  type Args = map<string, string>

  /** A call `operationRelatedElements($request, $response, $args, $relatedClass)`. */
  datatype OperationCall = OperationCall(args: Args, related: ElementClass)

  /** `$args[$idName] ?? 0`. */
  function IdArg(arg: Option<nat>): (id: nat)
    ensures arg.None? ==> id == 0
    ensures arg.Some? ==> id == arg.value
  {
    arg.GetOr(0)
  }

  /** `$repository->find($id)`. */
  function Find<O>(store: map<nat, O>, id: nat): (r: Option<O>)
    ensures r.Some? <==> id in store
    ensures r.Some? ==> r.value == store[id]
  {
    if id in store then Some(store[id]) else None
  }
}

/** AsociacionRelationsController. */
module AsociacionRelations {
  import opened Wrappers
  import opened Element
  import opened RelationsCommon
  import opened AsociacionModel

  /**
   * `getEntities`: an out-of-range id lists nothing for a null owner without
   * touching the store; otherwise the stored association (or null) and
   * exactly its entities, in order.
   */
  function GetEntities(store: map<nat, Asociacion>, arg: Option<nat>): (c: ElementsCall<Asociacion>)
    ensures c.tag == Literal("entities")
    ensures c.owner.Some? <==> InIdRange(IdArg(arg)) && IdArg(arg) in store
    ensures c.owner.Some? ==> c.owner.value == store[IdArg(arg)] && c.elements == store[IdArg(arg)].entities
    ensures c.owner.None? ==> c.elements == []
  {
    var id := IdArg(arg);
    if id <= 0 || id > MaxId then ElementsCall(None, Literal("entities"), [])
    else
      var owner := Find(store, id);
      ElementsCall(owner, Literal("entities"), if owner.Some? then owner.value.entities else [])
  }

  /** The listing depends on nothing but the record stored under an in-range id. */
  lemma GetEntitiesOutOfRangeIgnoresStore(s1: map<nat, Asociacion>, s2: map<nat, Asociacion>, arg: Option<nat>)
    requires !InIdRange(IdArg(arg))
    ensures GetEntities(s1, arg) == GetEntities(s2, arg)
  {
  }

  /** After `addEntity` on the stored association, the listing ends with the new entity. */
  lemma ListingAfterAddEntity(store: map<nat, Asociacion>, id: nat, entity: nat)
    requires InIdRange(id) && id in store && !ContainsEntity(store[id], entity)
    ensures var c := GetEntities(store[id := AddEntity(store[id], entity)], Some(id));
            c.elements == store[id].entities + [entity]
  {
  }

  /** `operationEntity`: the args unchanged, the related class Entity. */
  function OperationEntity(args: Args): (c: OperationCall)
    ensures c.args == args && c.related == EntityClass
  {
    OperationCall(args, EntityClass)
  }
}

/** EntityRelationsController. */
module EntityRelations {
  import opened Wrappers
  import opened Element
  import opened RelationsCommon
  import opened EntityModel

  /** `getPersons`: the same id guard; a found entity lists its persons. */
  function GetPersons(store: map<nat, Entity>, arg: Option<nat>): (c: ElementsCall<Entity>)
    ensures c.tag == PersonsTag
    ensures c.owner.Some? <==> InIdRange(IdArg(arg)) && IdArg(arg) in store
    ensures c.owner.Some? ==> c.owner.value == store[IdArg(arg)] && c.elements == store[IdArg(arg)].persons
    ensures c.owner.None? ==> c.elements == []
  {
    var id := IdArg(arg);
    if id <= 0 || id > MaxId then ElementsCall(None, PersonsTag, [])
    else
      var owner := Find(store, id);
      ElementsCall(owner, PersonsTag, if owner.Some? then owner.value.persons else [])
  }

  /** `getProducts`: the same id guard; a found entity lists its products. */
  function GetProducts(store: map<nat, Entity>, arg: Option<nat>): (c: ElementsCall<Entity>)
    ensures c.tag == Literal("products")
    ensures c.owner.Some? <==> InIdRange(IdArg(arg)) && IdArg(arg) in store
    ensures c.owner.Some? ==> c.owner.value == store[IdArg(arg)] && c.elements == store[IdArg(arg)].products
    ensures c.owner.None? ==> c.elements == []
  {
    var id := IdArg(arg);
    if id <= 0 || id > MaxId then ElementsCall(None, Literal("products"), [])
    else
      var owner := Find(store, id);
      ElementsCall(owner, Literal("products"), if owner.Some? then owner.value.products else [])
  }

  /** Both listings of one entity agree on the owner: same guard, same lookup. */
  lemma ListingsAgreeOnOwner(store: map<nat, Entity>, arg: Option<nat>)
    ensures GetPersons(store, arg).owner == GetProducts(store, arg).owner
  {
  }

  /** After `addPerson` on the stored entity, listing its persons shows the person. */
  lemma ListingAfterAddPerson(store: map<nat, Entity>, id: nat, person: nat)
    requires InIdRange(id) && id in store
    ensures person in GetPersons(store[id := AddPerson(store[id], person)], Some(id)).elements
  {
  }

  /** `operationPerson`: the args unchanged, the related class Person. */
  function OperationPerson(args: Args): (c: OperationCall)
    ensures c.args == args && c.related == PersonClass
  {
    OperationCall(args, PersonClass)
  }

  /** `operationProduct`: the args unchanged, the related class Product. */
  function OperationProduct(args: Args): (c: OperationCall)
    ensures c.args == args && c.related == ProductClass
  {
    OperationCall(args, ProductClass)
  }
}
