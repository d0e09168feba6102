/**
 * AsociacionCommandController: creating (`post`) and updating (`put`) an
 * association. The store is a map from id to record; each action is a pure
 * function from (store, request) to (store', response). Rollback is "the
 * store as it was". The writer-scope decision, the ETag hash and date
 * parsing come in as parameters.
 */
module AsociacionCommand {
  import opened Wrappers
  import opened Element
  import opened Projection
  import opened RequestBody
  import opened AsociacionModel
  import AsociacionFactory
  import Decimal

  type Store = map<nat, Asociacion>

  /**
   * What the database guarantees of the table: every record sits under its
   * own id, ids are in the controllers' range, and names are unique (the
   * unique index on `name`).
   */
  predicate ValidStore(store: Store) {
    && (forall k :: k in store ==> InIdRange(k) && store[k].element.id == k)
    && (forall j, k :: j in store && k in store && store[j].element.name == store[k].element.name ==> j == k)
  }

  /** Some stored association carries the name. */
  predicate NameTaken(store: Store, name: string) {
    exists k :: k in store && store[k].element.name == name
  }

  /** A stored association other than `id` carries the name. */
  predicate NameHeldByOther(store: Store, name: string, id: nat) {
    exists k :: k in store && k != id && store[k].element.name == name
  }

  /**
   * Inserting a record under a fresh in-range id with an unused name keeps the
   * store valid, and the new record is then the only one with its name.
   */
  lemma InsertKeepsValid(store: Store, id: nat, rec: Asociacion)
    requires ValidStore(store) && InIdRange(id) && id !in store
    requires rec.element.id == id && !NameTaken(store, rec.element.name)
    ensures ValidStore(store[id := rec])
    ensures NameTaken(store[id := rec], rec.element.name)
    ensures Matching(store[id := rec], rec.element.name) == {id}
  {
    assert store[id := rec][id] == rec;
  }

  /** Replacing a record by one with the same id and a name no other record holds keeps the store valid. */
  lemma ReplaceKeepsValid(store: Store, id: nat, rec: Asociacion)
    requires ValidStore(store) && id in store
    requires rec.element.id == id && !NameHeldByOther(store, rec.element.name, id)
    ensures ValidStore(store[id := rec])
  {
  }

  /** The records a `Criteria` query `name = …` matches. */
  function Matching(store: Store, name: string): (ks: set<nat>)
    ensures forall k :: k in ks <==> k in store && store[k].element.name == name
  {
    set k | k in store && store[k].element.name == name
  }

  /** A name is taken exactly when the `name = …` query matches some record. */
  lemma NameTakenIffMatched(store: Store, name: string)
    ensures NameTaken(store, name) <==> Matching(store, name) != {}
  {
    if NameTaken(store, name) {
      var k :| k in store && store[k].element.name == name;
      assert k in Matching(store, name);
    }
  }

  /** `findIdByName`: the id of the association with that name, 0 when there is none. */
  function FindIdByName(store: Store, name: string): (id: nat)
    requires ValidStore(store)
    ensures id == 0 <==> !NameTaken(store, name)
    ensures id != 0 ==> id in store && store[id].element.name == name
    ensures forall k :: k in store && store[k].element.name == name ==> k == id
  {
    if exists k :: k in store && store[k].element.name == name then
      var k :| k in store && store[k].element.name == name; k
    else
      0
  }

  datatype Status =
    | Created               // 201
    | ContentReturned       // 209
    | BadRequest            // 400
    | Forbidden             // 403
    | NotFound              // 404
    | UnprocessableEntity   // 422
    | PreconditionRequired  // 428
    | InternalError         // 500: the factory's assertion on an empty name

  datatype Response = Response(status: Status, location: Option<string>, json: Option<Envelope>)

  datatype Outcome = Outcome(store: Store, response: Response)

  function Error(store: Store, status: Status): Outcome {
    Outcome(store, Response(status, None, None))
  }

  // Field patching

  /** A date field after patching: a value that parses replaces the prior date, anything else keeps it. */
  function PatchedDate(prior: Option<Date>, datum: Option<string>, parse: string -> Option<Date>): Option<Date> {
    match datum
    case None => prior
    case Some(s) => if parse(s).Some? then parse(s) else prior
  }

  /** A URL field after patching: a supplied value replaces the prior one. */
  function PatchedUrl(prior: Option<string>, datum: Option<string>): Option<string> {
    if datum.Some? then datum else prior
  }

  /** One iteration of the `foreach`/`switch` in `updateAsociacionElement`. */
  function ApplyField(a: Asociacion, field: (string, string), parse: string -> Option<Date>): Asociacion {
    var (key, datum) := field;
    if key == "birthDate" then
      (if parse(datum).Some? then a.(element := a.element.(birthDate := parse(datum))) else a)
    else if key == "deathDate" then
      (if parse(datum).Some? then a.(element := a.element.(deathDate := parse(datum))) else a)
    else if key == "imageUrl" then a.(element := a.element.(imageUrl := Some(datum)))
    else if key == "wikiUrl" then a.(element := a.element.(wikiUrl := Some(datum)))
    else if key == "websiteUrl" then a.(websiteUrl := datum)
    else a
  }

  /**
   * `updateAsociacionElement`: walks the body in order. Whatever the order,
   * each of the five known fields ends up patched from its own entry; other
   * keys are ignored and id, name and entities never change.
   */
  function UpdateAsociacionElement(a: Asociacion, body: Body, parse: string -> Option<Date>): (r: Asociacion)
    requires DistinctKeys(body)
    ensures r.element.id == a.element.id && r.element.name == a.element.name
    ensures r.entities == a.entities
    ensures r.element.birthDate == PatchedDate(a.element.birthDate, Lookup(body, "birthDate"), parse)
    ensures r.element.deathDate == PatchedDate(a.element.deathDate, Lookup(body, "deathDate"), parse)
    ensures r.element.imageUrl == PatchedUrl(a.element.imageUrl, Lookup(body, "imageUrl"))
    ensures r.element.wikiUrl == PatchedUrl(a.element.wikiUrl, Lookup(body, "wikiUrl"))
    ensures r.websiteUrl == Lookup(body, "websiteUrl").GetOr(a.websiteUrl)
    decreases |body|
  {
    if body == [] then a
    else
      HeadKeyAbsentFromTail(body);
      ApplyFieldEffect(a, body[0], parse);
      UpdateAsociacionElement(ApplyField(a, body[0], parse), body[1..], parse)
  }

  /** One field applied: exactly the field its key names is patched from it. */
  lemma ApplyFieldEffect(a: Asociacion, field: (string, string), parse: string -> Option<Date>)
    ensures var r := ApplyField(a, field, parse);
            && r.element.id == a.element.id && r.element.name == a.element.name
            && r.entities == a.entities
            && r.element.birthDate == PatchedDate(a.element.birthDate, Lookup([field], "birthDate"), parse)
            && r.element.deathDate == PatchedDate(a.element.deathDate, Lookup([field], "deathDate"), parse)
            && r.element.imageUrl == PatchedUrl(a.element.imageUrl, Lookup([field], "imageUrl"))
            && r.element.wikiUrl == PatchedUrl(a.element.wikiUrl, Lookup([field], "wikiUrl"))
            && r.websiteUrl == Lookup([field], "websiteUrl").GetOr(a.websiteUrl)
  {
  }

  /** Patching twice with the same body is patching once. */
  lemma UpdateIdempotent(a: Asociacion, body: Body, parse: string -> Option<Date>)
    requires DistinctKeys(body)
    ensures UpdateAsociacionElement(UpdateAsociacionElement(a, body, parse), body, parse)
            == UpdateAsociacionElement(a, body, parse)
  {
  }

  // POST /asociaciones

  datatype PostRequest = PostRequest(isWriter: bool, uri: string, body: Body)

  /**
   * The record `post` inserts: the factory's association patched from the
   * body, under the id the database gives it.
   */
  function Inserted(req: PostRequest, newId: nat, parse: string -> Option<Date>): (r: Asociacion)
    requires DistinctKeys(req.body) && Lookup(req.body, "name").Some? && Lookup(req.body, "name").value != ""
    ensures r.element.id == newId && r.element.name == Lookup(req.body, "name").value
    ensures r.entities == [] && r.websiteUrl == Lookup(req.body, "websiteUrl").GetOr("")
    ensures r.element.birthDate == PatchedDate(None, Lookup(req.body, "birthDate"), parse)
    ensures r.element.deathDate == PatchedDate(None, Lookup(req.body, "deathDate"), parse)
    ensures r.element.imageUrl == Lookup(req.body, "imageUrl") && r.element.wikiUrl == Lookup(req.body, "wikiUrl")
  {
    var created := AsociacionFactory.CreateElement(Lookup(req.body, "name").value, None, None, None, None, None);
    var rec := UpdateAsociacionElement(created, req.body, parse);
    rec.(element := rec.element.(id := newId))
  }

  /**
   * `post`. `newId` is the id the database gives the inserted row: positive,
   * within range and not in use.
   */
  function Post(store: Store, req: PostRequest, newId: nat, parse: string -> Option<Date>): (o: Outcome)
    requires ValidStore(store) && DistinctKeys(req.body)
    requires InIdRange(newId) && newId !in store
    ensures ValidStore(o.store)
    ensures o.response.status in {Forbidden, UnprocessableEntity, BadRequest, InternalError, Created}
    ensures o.response.status == Forbidden <==> !req.isWriter
    ensures o.response.status == UnprocessableEntity
            <==> req.isWriter && (Lookup(req.body, "name").None? || Lookup(req.body, "websiteUrl").None?)
    ensures o.response.status == BadRequest
            <==> req.isWriter && Lookup(req.body, "name").Some? && Lookup(req.body, "websiteUrl").Some?
                 && NameTaken(store, Lookup(req.body, "name").value)
    ensures o.response.status == InternalError
            <==> req.isWriter && Lookup(req.body, "name") == Some("") && Lookup(req.body, "websiteUrl").Some?
                 && !NameTaken(store, "")
    ensures o.response.status != Created ==> o.store == store && o.response.location.None? && o.response.json.None?
    ensures o.response.status == Created ==>
              && o.store.Keys == store.Keys + {newId}
              && (forall k :: k in store ==> o.store[k] == store[k])
              && var rec := o.store[newId];
              && rec.element.id == newId
              && rec.element.name == Lookup(req.body, "name").value
              && rec.websiteUrl == Lookup(req.body, "websiteUrl").value
              && rec.entities == []
              && rec.element.birthDate == PatchedDate(None, Lookup(req.body, "birthDate"), parse)
              && rec.element.deathDate == PatchedDate(None, Lookup(req.body, "deathDate"), parse)
              && rec.element.imageUrl == Lookup(req.body, "imageUrl")
              && rec.element.wikiUrl == Lookup(req.body, "wikiUrl")
              && o.response.location == Some(req.uri + "/" + Decimal.NatToString(newId))
              && o.response.json == Some(Project(rec))
  {
    var name := Lookup(req.body, "name");
    if !req.isWriter then Error(store, Forbidden)
    else if name.None? || Lookup(req.body, "websiteUrl").None? then Error(store, UnprocessableEntity)
    else if |Matching(store, name.value)| != 0 then Error(store, BadRequest)
    else if name.value == "" then Error(store, InternalError)
    else
      var stored := Inserted(req, newId, parse);
      assert Matching(store, name.value) == {};
      InsertKeepsValid(store, newId, stored);
      Outcome(store[newId := stored],
              Response(Created, Some(req.uri + "/" + Decimal.NatToString(newId)), Some(Project(stored))))
  }

  // PUT /asociaciones/{asociacionId}

  datatype PutRequest = PutRequest(isWriter: bool, id: nat, ifMatch: seq<string>, body: Body)

  /** The ETag of a record: the hash of its projection. */
  function Fingerprint(a: Asociacion, etag: Envelope -> string): string {
    etag(Project(a))
  }

  /** `setName` when the body supplies a name; the record unchanged otherwise. */
  function Renamed(a: Asociacion, body: Body): Asociacion {
    if Lookup(body, "name").Some? then a.(element := a.element.(name := Lookup(body, "name").value)) else a
  }

  /** `setName` when a name is supplied, then `updateAsociacionElement`. */
  function Patched(a: Asociacion, body: Body, parse: string -> Option<Date>): (r: Asociacion)
    requires DistinctKeys(body)
    ensures r.element.id == a.element.id && r.entities == a.entities
    ensures r.element.name == Lookup(body, "name").GetOr(a.element.name)
    ensures r.websiteUrl == Lookup(body, "websiteUrl").GetOr(a.websiteUrl)
    ensures r.element.birthDate == PatchedDate(a.element.birthDate, Lookup(body, "birthDate"), parse)
    ensures r.element.deathDate == PatchedDate(a.element.deathDate, Lookup(body, "deathDate"), parse)
    ensures r.element.imageUrl == PatchedUrl(a.element.imageUrl, Lookup(body, "imageUrl"))
    ensures r.element.wikiUrl == PatchedUrl(a.element.wikiUrl, Lookup(body, "wikiUrl"))
  {
    UpdateAsociacionElement(Renamed(a, body), body, parse)
  }

  /** Patching twice with the same body is patching once. */
  lemma PatchedIdempotent(a: Asociacion, body: Body, parse: string -> Option<Date>)
    requires DistinctKeys(body)
    ensures Patched(Patched(a, body, parse), body, parse) == Patched(a, body, parse)
  {
    var named := Renamed(a, body);
    var once := UpdateAsociacionElement(named, body, parse);
    assert Renamed(once, body) == once;
    UpdateIdempotent(named, body, parse);
  }

  /**
   * `put`. A non-writer, an id outside [1, 2^31 - 1] and a missing record all
   * answer 404; a fingerprint absent from If-Match (no header at all, or only
   * stale values) answers 428; a name held by another record answers 400.
   * Every failure leaves the store as it was.
   */
  function Put(store: Store, req: PutRequest, etag: Envelope -> string, parse: string -> Option<Date>): (o: Outcome)
    requires ValidStore(store) && DistinctKeys(req.body)
    ensures ValidStore(o.store)
    ensures o.response.location.None?
    ensures o.response.status in {NotFound, PreconditionRequired, BadRequest, ContentReturned}
    ensures o.response.status == NotFound <==> !req.isWriter || !InIdRange(req.id) || req.id !in store
    ensures o.response.status == PreconditionRequired
            <==> req.isWriter && InIdRange(req.id) && req.id in store
                 && Fingerprint(store[req.id], etag) !in req.ifMatch
    ensures o.response.status == BadRequest
            <==> req.isWriter && InIdRange(req.id) && req.id in store
                 && Fingerprint(store[req.id], etag) in req.ifMatch
                 && Lookup(req.body, "name").Some? && NameHeldByOther(store, Lookup(req.body, "name").value, req.id)
    ensures o.response.status != ContentReturned ==> o.store == store && o.response.json.None?
    ensures o.response.status == ContentReturned ==>
              && req.id in store
              && o.store.Keys == store.Keys
              && (forall k :: k in store && k != req.id ==> o.store[k] == store[k])
              && var prior := store[req.id];
              && var rec := o.store[req.id];
              && rec.element.id == req.id
              && rec.element.name == Lookup(req.body, "name").GetOr(prior.element.name)
              && rec.entities == prior.entities
              && rec.websiteUrl == Lookup(req.body, "websiteUrl").GetOr(prior.websiteUrl)
              && rec.element.birthDate == PatchedDate(prior.element.birthDate, Lookup(req.body, "birthDate"), parse)
              && rec.element.deathDate == PatchedDate(prior.element.deathDate, Lookup(req.body, "deathDate"), parse)
              && rec.element.imageUrl == PatchedUrl(prior.element.imageUrl, Lookup(req.body, "imageUrl"))
              && rec.element.wikiUrl == PatchedUrl(prior.element.wikiUrl, Lookup(req.body, "wikiUrl"))
              && o.response.json == Some(Project(rec))
  {
    if !req.isWriter then Error(store, NotFound)
    else if req.id <= 0 || req.id > MaxId then Error(store, NotFound)
    else if req.id !in store then Error(store, NotFound)
    else
      var current := store[req.id];
      if Fingerprint(current, etag) !in req.ifMatch then Error(store, PreconditionRequired)
      else
        var name := Lookup(req.body, "name");
        var holder := if name.Some? then FindIdByName(store, name.value) else 0;
        if name.Some? && holder != 0 && req.id != holder then Error(store, BadRequest)
        else
          var rec := Patched(current, req.body, parse);
          ReplaceKeepsValid(store, req.id, rec);
          Outcome(store[req.id := rec], Response(ContentReturned, None, Some(Project(rec))))
  }

  /** The success path of `put` in closed form: the record is patched in place. */
  lemma PutSucceeds(store: Store, req: PutRequest, etag: Envelope -> string, parse: string -> Option<Date>)
    requires ValidStore(store) && DistinctKeys(req.body)
    requires req.isWriter && InIdRange(req.id) && req.id in store
    requires Fingerprint(store[req.id], etag) in req.ifMatch
    requires !(Lookup(req.body, "name").Some? && NameHeldByOther(store, Lookup(req.body, "name").value, req.id))
    ensures var rec := Patched(store[req.id], req.body, parse);
            Put(store, req, etag, parse) == Outcome(store[req.id := rec], Response(ContentReturned, None, Some(Project(rec))))
  {
    var name := Lookup(req.body, "name");
    if name.Some? {
      var holder := FindIdByName(store, name.value);
      assert holder != 0 ==> holder == req.id;
    }
  }

  /** The success path of `post` in closed form: the new record is inserted under `newId`. */
  lemma PostCreates(store: Store, req: PostRequest, newId: nat)
    requires ValidStore(store) && DistinctKeys(req.body)
    requires InIdRange(newId) && newId !in store
    requires req.isWriter && Lookup(req.body, "websiteUrl").Some?
    requires Lookup(req.body, "name").Some? && Lookup(req.body, "name").value != ""
    requires !NameTaken(store, Lookup(req.body, "name").value)
    ensures forall parse: string -> Option<Date> ::
              && Post(store, req, newId, parse).store == store[newId := Inserted(req, newId, parse)]
              && Post(store, req, newId, parse).response.status == Created
  {
    assert Matching(store, Lookup(req.body, "name").value) == {};
  }

  /** A writer's complete create whose name is already stored answers 400 and changes nothing. */
  lemma PostRejectsTakenName(store: Store, req: PostRequest, newId: nat)
    requires ValidStore(store) && DistinctKeys(req.body)
    requires InIdRange(newId) && newId !in store
    requires req.isWriter && Lookup(req.body, "websiteUrl").Some?
    requires Lookup(req.body, "name").Some? && NameTaken(store, Lookup(req.body, "name").value)
    ensures forall parse: string -> Option<Date> :: Post(store, req, newId, parse) == Error(store, BadRequest)
  {
    var name := Lookup(req.body, "name").value;
    var k :| k in store && store[k].element.name == name;
    assert k in Matching(store, name);
  }
}
