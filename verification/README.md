# Catalogue backend core, modelled in Dafny

A model of the sequential core of a PHP REST backend that catalogues
scientific entities, associations, persons and products:

- the many-to-many link collections of `Entity` (persons, products,
  asociaciones) and `Asociacion` (entities), with the exact mirroring rule of
  each pair;
- the JSON projection (`jsonSerialize`) of both classes, which is what the
  ETag fingerprint hashes;
- the association command flow: `post` (create) and `put` (update with an
  `If-Match` fingerprint guard, per-type name uniqueness, field patching and
  rollback);
- the id guards of the two relation controllers before they hand over to
  their base class;
- the scope award and time claims of `JwtAuth::createJwt`.

Everything is pure: records are immutable datatypes, collections are
sequences, the association table is a `map` from id to record, and each
controller action is a function from (store, request) to (store', response).
Rollback is "return the store as it was".

Modules and files:

| file | module | models |
|---|---|---|
| wrappers.dfy | Wrappers | nullable values (`Option`) |
| collections.dfy | Collections | ArrayCollection `contains` / `add` / `removeElement` |
| element.dfy | Element | the shared Element fields, the id bound 2^31 - 1 |
| projection.dfy | Projection | the JSON envelope and the "id list or null" relation fields |
| asociacion.dfy | AsociacionModel | `Asociacion` |
| entity.dfy | EntityModel | `Entity` |
| asociacion_factory.dfy | AsociacionFactory | `AsociacionFactory::createElement` |
| decimal.dfy | Decimal | the decimal id in the `Location` header |
| request_body.dfy | RequestBody | the parsed request body and `isset` |
| asociacion_command.dfy | AsociacionCommand | `post`, `put`, `findIdByName`, `updateAsociacionElement` |
| asociacion_command_lemmas.dfy | AsociacionCommandLemmas | multi-request properties of the command flow |
| relations.dfy | RelationsCommon, AsociacionRelations, EntityRelations | the relation controllers |
| jwt_auth.dfy | JwtAuth | awarded scopes, `iat`/`nbf`/`exp`, `getLifetime` |

Modelling choices:

- An element's identity inside another element's collection is its id
  (Doctrine's identity map gives one object per id). The collections hold
  ids, so the projection's id lists are the collections themselves.
- The ETag hash (`md5(json_encode(...))`) is a function parameter
  `etag: Envelope -> string`. Date parsing (`DateTime::createFromFormat('!Y-m-d', …)`)
  is a parameter `parse: string -> Option<Date>`.
- The writer-scope decision (`checkWriterScope`) is a boolean in the request.
- The id the database gives a new row is a parameter of `Post`: positive,
  at most 2^31 - 1 and not in use.
- A request body is the PHP array as an ordered list of (key, value) pairs
  with distinct keys. `isset($data[k])` is `Lookup(body, k).Some?`.
- The store invariant `ValidStore` is what the table guarantees: each record
  under its own id, ids in range, names unique (the unique index on `name`).
  `Post` and `Put` preserve it.
- Route ids match `[0-9]+`, so ids are natural numbers. A missing relation id
  argument is 0.
- Status codes are a datatype: 201, 209, 400, 403, 404, 422, 428, and 500.
  500 stands for the factory's `assert($name !== '')` failing on an empty
  name in `post`. The store is unchanged in that case.

Two places where the code departs from what a reader might expect; the model
follows the code:

- Section 13.1.1 of RFC 9110 answers a stale `If-Match` with 412, and
  section 3 of RFC 6585 reserves 428 for a request that lacks the condition.
  `put` answers 428 both for an absent and for a stale `If-Match` and has no
  412 path (`MissingIfMatchRejected`, `StaleIfMatchRejected`).
- Links are not kept symmetric. Only `Entity::addAsociacion`/`removeAsociacion`
  touch both sides, and only when the entity side changes. `addPerson` and
  `Asociacion::addEntity`/`removeEntity` touch one side. `addProduct` appends
  without a membership check and leaves the other side to
  `Product::addEntity`. The model keeps these rules and proves that a
  one-sided link is not repaired (`AddAsociacionKeepsOneSidedLink`,
  `RemoveAsociacionIgnoresOtherSide`).

## Model

| member | source | states |
|---|---|---|
| Collections.RemoveElement | src/Entity/Entity.php:110-113 | removal reports true iff the element was present, drops exactly one (the first) occurrence, and keeps every other element |
| Collections.RemoveFromNoDuplicates | src/Entity/Entity.php:110-113 | on a duplicate-free collection, removal leaves the element absent and the collection duplicate-free |
| Projection.IdsOrNull | src/Entity/Entity.php:243-248 | a relation field is null exactly when the collection is empty, otherwise a non-empty id list |
| Projection.IdsOrNullInjective | src/Entity/Entity.php:243-248 | the relation field determines the collection, so reading it back loses nothing |
| AsociacionModel.NewAsociacion | src/Entity/Asociacion.php:41-52 | a new association holds exactly the given name, dates and URLs, has no entities and id 0 |
| AsociacionModel.SetWebsiteUrl | src/Entity/Asociacion.php:56-64 | after setting the website URL, reading it returns the value set; nothing else changes |
| AsociacionModel.AddEntity | src/Entity/Asociacion.php:97-102 | afterwards the entity is contained; an already contained entity changes nothing, otherwise it is appended; only `entities` changes |
| AsociacionModel.RemoveEntity | src/Entity/Asociacion.php:111-114 | returns true iff the entity was contained, removes one occurrence, changes only `entities` |
| AsociacionModel.AddEntityIdempotent | tests/Entity/AsociacionTest.php:108-111 | adding the same entity twice equals adding it once |
| AsociacionModel.AddEntityKeepsNoDuplicates | src/Entity/Asociacion.php:97-102 | `addEntity` never creates a duplicate |
| AsociacionModel.AddAddRemoveRemove | tests/Entity/AsociacionTest.php:101-117 | add twice then remove: the first removal returns true and empties the link, the second returns false |
| AsociacionModel.Project | src/Entity/Asociacion.php:132-141 | key `asociacion`, websiteUrl always present, `entities` the id list in order or null when empty |
| AsociacionModel.ProjectInjective | src/Entity/Asociacion.php:134-140 | distinct associations project differently, so every change reaches the fingerprint input |
| EntityModel.NewEntity | src/Entity/Entity.php:48-61 | a new entity has the given element fields and empty persons, products and asociaciones |
| EntityModel.AddPerson | src/Entity/Entity.php:94-101 | afterwards the person is contained; a member changes nothing, otherwise it is appended; only `persons` changes |
| EntityModel.RemovePerson | src/Entity/Entity.php:110-113 | returns true iff the person was contained, removes one occurrence, only `persons` changes |
| EntityModel.AddPersonIdempotent | src/Entity/Entity.php:94-101 | `addPerson` twice equals once and never creates a duplicate |
| EntityModel.RemovePersonLeavesAbsent | src/Entity/Entity.php:110-113 | on a duplicate-free collection the person is absent after removal and a second removal returns false |
| EntityModel.AddProduct | src/Entity/Entity.php:145-149 | appends the product with no membership check, so it is contained afterwards, and delegates `addEntity(this)` to the product |
| EntityModel.RemoveProduct | src/Entity/Entity.php:158-163 | returns whether the product was contained, removes one occurrence, and delegates `removeEntity(this)` either way |
| EntityModel.AddProductTwiceSurvivesOneRemoval | src/Entity/Entity.php:145-149 | adding a product twice stores it twice; one removal returns true yet the product stays contained |
| EntityModel.AddAsociacion | src/Entity/Entity.php:197-203 | the association is on this side afterwards; the association gains this entity iff it had it or this side lacked the association; a present association changes neither side |
| EntityModel.RemoveAsociacion | src/Entity/Entity.php:212-219 | returns true iff this side held the association; only then is this entity removed from the association, otherwise both sides are untouched |
| EntityModel.AddAsociacionLinksBothSides | src/Entity/Entity.php:197-203 | from an absent association, adding links both sides |
| EntityModel.AddAsociacionKeepsOneSidedLink | src/Entity/Entity.php:197-203 | a link present only on the entity side stays one-sided after another add |
| EntityModel.RemoveAsociacionUnlinksBothSides | src/Entity/Entity.php:212-219 | removing a link held on both duplicate-free sides unlinks both |
| EntityModel.RemoveAsociacionIgnoresOtherSide | src/Entity/Entity.php:212-219 | when this side lacks the association, removal returns false and leaves the association's entity in place |
| EntityModel.Project | src/Entity/Entity.php:238-252 | key `entity`; products, persons and asociaciones as id lists in order, or null when empty |
| EntityModel.NewEntityProjectsNulls | src/Entity/Entity.php:243-251 | a new entity projects all three relations as null |
| EntityModel.ProjectInjective | src/Entity/Entity.php:243-251 | distinct entities project differently |
| AsociacionFactory.CreateElement | src/Factory/AsociacionFactory.php:18-29 | needs a non-empty name; a null websiteUrl becomes ""; dates and URLs pass through; the result has id 0 and no entities |
| AsociacionFactory.CreatedProjectsNoEntities | src/Factory/AsociacionFactory.php:28 | a freshly created association projects `entities` as null and keeps its website URL |
| Decimal.NatToString | src/Controller/Asociacion/AsociacionCommandController.php:71 | the id in the Location header is written as a non-empty string of decimal digits, with a leading 0 only for the id 0 |
| Decimal.NatToStringRoundTrip | src/Controller/Asociacion/AsociacionCommandController.php:68-72 | the id written into the Location header reads back as the same id |
| Decimal.NatToStringInjective | src/Controller/Asociacion/AsociacionCommandController.php:68-72 | distinct ids give distinct Location headers |
| RequestBody.Lookup | src/Controller/Asociacion/AsociacionCommandController.php:53 | a key is set iff some body entry carries it, and the value returned is that entry's |
| AsociacionCommand.Matching | src/Controller/Asociacion/AsociacionCommandController.php:57-58 | the name query matches exactly the stored records with that name |
| AsociacionCommand.FindIdByName | src/Controller/Asociacion/AsociacionCommandController.php:123-128 | 0 iff no record has the name, otherwise the id of the one record that has it |
| AsociacionCommand.NameTakenIffMatched | src/Controller/Asociacion/AsociacionCommandController.php:57-58 | a name is taken exactly when the `name = …` query matches some record |
| AsociacionCommand.UpdateAsociacionElement | src/Controller/Asociacion/AsociacionCommandController.php:130-157 | whatever the body order, each of birthDate, deathDate, imageUrl, wikiUrl, websiteUrl is patched from its own entry; unparseable dates keep the old date; other keys are ignored; id, name and entities never change |
| AsociacionCommand.ApplyFieldEffect | src/Controller/Asociacion/AsociacionCommandController.php:132-156 | one body entry patches only the field its key names |
| AsociacionCommand.UpdateIdempotent | src/Controller/Asociacion/AsociacionCommandController.php:130-157 | patching twice with the same body equals patching once |
| AsociacionCommand.Patched | src/Controller/Asociacion/AsociacionCommandController.php:105-114 | a supplied name replaces the old one, otherwise it is kept; websiteUrl is replaced when supplied; each date becomes the parsed value when it parses and is otherwise kept; each URL is replaced by a supplied value; id and entities never change |
| AsociacionCommand.Inserted | src/Controller/Asociacion/AsociacionCommandController.php:62-66 | the inserted record has the new id and the requested name, no entities, the requested websiteUrl, and only the dates and URLs the body supplies (a date only if it parses) |
| AsociacionCommand.InsertKeepsValid | src/Controller/Asociacion/AsociacionCommandController.php:57-66 | inserting a record under a fresh in-range id with a name no record holds keeps ids and names unique, and the new record is then the only one with that name |
| AsociacionCommand.PostCreates | src/Controller/Asociacion/AsociacionCommandController.php:62-73 | a writer's complete create with a new non-empty name answers 201 and the store gains exactly the patched factory record under the new id |
| AsociacionCommand.PostRejectsTakenName | src/Controller/Asociacion/AsociacionCommandController.php:57-60 | a writer's complete create with a stored name answers 400 and leaves the store as it was |
| AsociacionCommand.Post | src/Controller/Asociacion/AsociacionCommandController.php:44-74 | 403 iff not a writer; 422 iff name or websiteUrl missing; 400 iff the name is taken; failures leave the store unchanged and return neither Location nor body; 201 inserts exactly one record under the new id with the requested fields and Location `uri/id`; name uniqueness is preserved |
| AsociacionCommand.Put | src/Controller/Asociacion/AsociacionCommandController.php:77-121 | 404 iff not a writer, id outside [1, 2^31 - 1] or no record; 428 iff the current fingerprint is not among the If-Match values; 400 iff the new name is held by another id; failures leave the store unchanged; 209 changes only that record, with the patched fields, and returns its projection |
| AsociacionCommandLemmas.FingerprintIdentifiesRecord | src/Controller/Asociacion/AsociacionCommandController.php:99 | with a collision-free hash, two records have the same ETag exactly when they are equal, so every change to a record changes its ETag |
| AsociacionCommand.ReplaceKeepsValid | src/Controller/Asociacion/AsociacionCommandController.php:105-116 | replacing a record by one with the same id and a name no other record holds keeps ids and names unique |
| AsociacionCommand.PatchedIdempotent | src/Controller/Asociacion/AsociacionCommandController.php:105-114 | applying the same update body twice gives the same record as applying it once |
| AsociacionCommand.PutSucceeds | src/Controller/Asociacion/AsociacionCommandController.php:99-120 | a writer's update of a stored in-range record, with its current ETag and no name clash, answers 209 and replaces exactly that record by its patched version |
| AsociacionCommandLemmas.StaleIfMatchRejected | src/Controller/Asociacion/AsociacionCommandController.php:99-103 | after an update whose new record hashes differently from the old one, replaying the old ETag answers 428 and changes nothing |
| AsociacionCommandLemmas.MissingIfMatchRejected | src/Controller/Asociacion/AsociacionCommandController.php:99-103 | an update without If-Match answers 428 and changes nothing |
| AsociacionCommandLemmas.RenameToOwnNameAccepted | src/Controller/Asociacion/AsociacionCommandController.php:105-112 | renaming a record to its own current name succeeds with 209 |
| AsociacionCommandLemmas.RenameToTakenNameRejected | src/Controller/Asociacion/AsociacionCommandController.php:105-110 | renaming to another record's name answers 400 and changes nothing |
| AsociacionCommandLemmas.PutReplayIdempotent | src/Controller/Asociacion/AsociacionCommandController.php:77-121 | a writer's update with a current ETag and no name clash succeeds; replaying it with the new ETag succeeds and changes nothing more |
| AsociacionCommandLemmas.DuplicatePostRejected | src/Controller/Asociacion/AsociacionCommandController.php:57-60 | a second create with an existing name answers 400 and exactly one record keeps that name |
| RelationsCommon.IdArg | src/Controller/Asociacion/AsociacionRelationsController.php:43 | a missing id argument reads as 0, a present one as its value |
| RelationsCommon.Find | src/Controller/Asociacion/AsociacionRelationsController.php:49-51 | finds a record iff its id is stored, and returns that record |
| AsociacionRelations.GetEntities | src/Controller/Asociacion/AsociacionRelationsController.php:41-56 | an owner is passed iff the id is in range and stored, with exactly its entities in order; otherwise null and an empty list |
| AsociacionRelations.GetEntitiesOutOfRangeIgnoresStore | src/Controller/Asociacion/AsociacionRelationsController.php:45-46 | an out-of-range id gives the same call whatever the store holds |
| AsociacionRelations.ListingAfterAddEntity | src/Controller/Asociacion/AsociacionRelationsController.php:53-55 | after `addEntity` on a stored association, its listing is the old list plus the new entity |
| AsociacionRelations.OperationEntity | src/Controller/Asociacion/AsociacionRelationsController.php:62-70 | delegates with the args unchanged and the related class Entity |
| EntityRelations.GetPersons | src/Controller/Entity/EntityRelationsController.php:49-66 | an owner is passed iff the id is in range and stored, with exactly its persons; otherwise null and an empty list |
| EntityRelations.GetProducts | src/Controller/Entity/EntityRelationsController.php:99-121 | an owner is passed iff the id is in range and stored, with exactly its products; otherwise null and an empty list |
| EntityRelations.ListingsAgreeOnOwner | src/Controller/Entity/EntityRelationsController.php:102-114 | both listings of one id resolve the same owner |
| EntityRelations.ListingAfterAddPerson | src/Controller/Entity/EntityRelationsController.php:58-64 | after `addPerson` on a stored entity, its person listing contains the person |
| EntityRelations.OperationPerson | src/Controller/Entity/EntityRelationsController.php:79-88 | delegates with the args unchanged and the related class Person |
| EntityRelations.OperationProduct | src/Controller/Entity/EntityRelationsController.php:134-143 | delegates with the args unchanged and the related class Product |
| JwtAuth.GetLifetime | src/Auth/JwtAuth.php:49-52 | returns the constructor's lifetime |
| JwtAuth.Unique | src/Auth/JwtAuth.php:66 | same elements, no duplicates, first-occurrence order |
| JwtAuth.Filter | src/Auth/JwtAuth.php:65-68 | keeps exactly the elements the predicate accepts |
| JwtAuth.FilterKeepsNoDuplicates | src/Auth/JwtAuth.php:65-68 | filtering a duplicate-free list leaves it duplicate-free |
| JwtAuth.FilterKeepsOrder | src/Auth/JwtAuth.php:65-68 | filtering keeps a list in first-occurrence order |
| JwtAuth.AwardedScopes | src/Auth/JwtAuth.php:65-68 | a scope is awarded iff it was requested or is the reader scope, and the user holds it; no duplicates; first-occurrence order |
| JwtAuth.ReaderAlwaysAwarded | src/Auth/JwtAuth.php:66-67 | a user holding the reader scope always gets it, requested or not |
| JwtAuth.AwardedScopesIgnoreRepeats | src/Auth/JwtAuth.php:66 | requesting any already requested scope again, or the reader scope, leaves the awarded list exactly as it was |
| JwtAuth.IssueTimes | src/Auth/JwtAuth.php:77-81 | `nbf` equals `iat` equals the issue time, and `exp` is `lifetime` seconds after `nbf` |

The membership tests `containsPerson`, `containsProduct`, `containsAsociacion`
and `containsEntity` (src/Entity/Entity.php:82-85, 133-136, 185-188;
src/Entity/Asociacion.php:85-88) and `getWebsiteUrl` are the predicates
`ContainsPerson`, `ContainsProduct`, `ContainsAsociacion`, `ContainsEntity`
and the function `GetWebsiteUrl`, used in the contracts above.

## Left out

- Hashing, JSON encoding and date parsing: library calls, taken as function parameters (`etag`, `parse`).
- FingerprintIdentifiesRecord: assumes the hash has no collisions on projections; md5 does have collisions, so `StaleIfMatchRejected` instead assumes only that the old and the new record hash differently.
- Persistence: Doctrine's find, persist, flush, transactions and `Criteria` queries become map operations; rollback returns the prior store. Which side of a relation Doctrine writes to the join table (the owning side) is not modelled.
- AsociacionRelations.ListingAfterAddEntity: the order it states holds in the model only. The model's collections keep insertion order across requests. Doctrine reloads `Entity.products` and `Entity.asociaciones` sorted by id (src/Entity/Entity.php:31, 36), and `Asociacion.entities` and `Entity.persons` in whatever order the database returns. Across requests the program promises the listed elements, not their order; the same holds for the id lists in the projections.
- `Element` (the base class), `Person`, `Product`, `User` and `Role` are not part of this model. The base projection is taken to be the six element fields. The effect of `Product::addEntity`/`removeEntity` is unknown, so `AddProduct`/`RemoveProduct` return the delegated call instead of changing a product.
- `checkWriterScope`, `delete`, `getElements` and `operationRelatedElements` live in base controllers that are not part of this model. The relation controllers are modelled up to the call they make, so the 404/406 relation statuses are not modelled.
- Unpersisted elements: all of them have id 0, so the id-as-identity choice cannot tell two of them apart.
- Name uniqueness compares names as exact strings; a database collation that matches names case- or accent-insensitively is not modelled.
- Request bodies with non-string values (JSON null, numbers, arrays) are not modelled.
- Post: with PHP assertions compiled out, an empty name would be stored. The model follows the assertion-enabled configuration, which answers 500.
- Post: the response body is the projection of the new record. The JSON encoding of responses and errors is not modelled.
- JwtAuth: token building, signing, the `iss`, `sub`, `jti`, `aud` and `uid` claims, parsing and `validateToken` belong to the JWT library. Time is whole seconds (DateTimeImmutable's microseconds are not modelled). The default `Role::ALL_VALUES` for the requested scopes is not modelled.
- If-None-Match/304 handling lives in query controllers that are not part of this model.
- The routing table is configuration; its only use here is that ids are digit strings, hence natural numbers.
