/**
 * Properties of the association command flow that relate several requests:
 * the optimistic-concurrency guard, renaming, and name uniqueness.
 */
module AsociacionCommandLemmas {
  import opened Wrappers
  import opened Element
  import opened Projection
  import opened RequestBody
  import opened AsociacionModel
  import opened AsociacionCommand

  /** The hash tells distinct projections apart (no md5 collision between them). */
  ghost predicate CollisionFree(etag: Envelope -> string) {
    forall x, y :: etag(x) == etag(y) ==> x == y
  }

  /**
   * With a hash free of collisions, two records share a fingerprint exactly
   * when they are the same record: every change to a record changes its ETag.
   */
  lemma {:induction false} FingerprintIdentifiesRecord(a: Asociacion, b: Asociacion, etag: Envelope -> string)
    requires CollisionFree(etag)
    ensures Fingerprint(a, etag) == Fingerprint(b, etag) <==> a == b
  {
    if Fingerprint(a, etag) == Fingerprint(b, etag) {
      ProjectInjective(a, b);
    }
  }

  /**
   * A write whose new record hashes differently from the old one makes the
   * earlier ETag stale: replaying that ETag in If-Match answers 428 and leaves
   * the store as it was.
   */
  lemma StaleIfMatchRejected(store: Store, id: nat, first: Body, second: Body,
                             etag: Envelope -> string, parse: string -> Option<Date>)
    requires ValidStore(store) && DistinctKeys(first) && DistinctKeys(second)
    requires id in store
    requires var o1 := Put(store, PutRequest(true, id, [Fingerprint(store[id], etag)], first), etag, parse);
             o1.response.status == ContentReturned && etag(Project(o1.store[id])) != etag(Project(store[id]))
    ensures var t0 := Fingerprint(store[id], etag);
            var o1 := Put(store, PutRequest(true, id, [t0], first), etag, parse);
            var o2 := Put(o1.store, PutRequest(true, id, [t0], second), etag, parse);
            o2.response.status == PreconditionRequired && o2.store == o1.store
  {
  }

  /** Without an If-Match header a writer's update of an existing record answers 428, store unchanged. */
  lemma MissingIfMatchRejected(store: Store, id: nat, body: Body,
                               etag: Envelope -> string, parse: string -> Option<Date>)
    requires ValidStore(store) && DistinctKeys(body)
    requires id in store
    ensures var o := Put(store, PutRequest(true, id, [], body), etag, parse);
            o.response.status == PreconditionRequired && o.store == store
  {
  }

  /** Renaming a record to its own current name is not a collision. */
  lemma RenameToOwnNameAccepted(store: Store, id: nat, body: Body,
                                etag: Envelope -> string, parse: string -> Option<Date>)
    requires ValidStore(store) && DistinctKeys(body)
    requires id in store && Lookup(body, "name") == Some(store[id].element.name)
    ensures var o := Put(store, PutRequest(true, id, [Fingerprint(store[id], etag)], body), etag, parse);
            o.response.status == ContentReturned && o.store[id].element.name == store[id].element.name
  {
  }

  /** Renaming to another record's name answers 400 and changes nothing. */
  lemma RenameToTakenNameRejected(store: Store, id: nat, other: nat, body: Body,
                                  etag: Envelope -> string, parse: string -> Option<Date>)
    requires ValidStore(store) && DistinctKeys(body)
    requires id in store && other in store && other != id
    requires Lookup(body, "name") == Some(store[other].element.name)
    ensures var o := Put(store, PutRequest(true, id, [Fingerprint(store[id], etag)], body), etag, parse);
            o.response.status == BadRequest && o.store == store
  {
  }

  /**
   * An update with a current ETag and no name clash succeeds, and replaying it
   * with the record's new ETag succeeds again and changes nothing more.
   */
  lemma {:induction false} PutReplayIdempotent(store: Store, req: PutRequest,
                                               etag: Envelope -> string, parse: string -> Option<Date>)
    requires ValidStore(store) && DistinctKeys(req.body)
    requires req.isWriter && InIdRange(req.id) && req.id in store
    requires Fingerprint(store[req.id], etag) in req.ifMatch
    requires !(Lookup(req.body, "name").Some? && NameHeldByOther(store, Lookup(req.body, "name").value, req.id))
    ensures var o1 := Put(store, req, etag, parse);
            var again := req.(ifMatch := [Fingerprint(o1.store[req.id], etag)]);
            var o2 := Put(o1.store, again, etag, parse);
            && o1.response.status == ContentReturned
            && o2.response.status == ContentReturned && o2.store == o1.store
  {
    var r1 := Patched(store[req.id], req.body, parse);
    var after := store[req.id := r1];
    PutSucceeds(store, req, etag, parse);
    assert !(Lookup(req.body, "name").Some? && NameHeldByOther(after, Lookup(req.body, "name").value, req.id));
    ReplaceKeepsValid(store, req.id, r1);
    PatchedIdempotent(store[req.id], req.body, parse);
    PutSucceeds(after, req.(ifMatch := [Fingerprint(r1, etag)]), etag, parse);
  }

  /**
   * After a successful create named X, a second create named X answers 400
   * and the store still holds exactly one record named X.
   */
  lemma {:induction false} DuplicatePostRejected(store: Store, first: PostRequest, second: PostRequest, name: string,
                                                 id1: nat, id2: nat)
    requires ValidStore(store) && !NameTaken(store, name) && name != ""
    requires DistinctKeys(first.body) && DistinctKeys(second.body)
    requires first.isWriter && second.isWriter
    requires Lookup(first.body, "name") == Some(name) && Lookup(second.body, "name") == Some(name)
    requires Lookup(first.body, "websiteUrl").Some? && Lookup(second.body, "websiteUrl").Some?
    requires InIdRange(id1) && id1 !in store && InIdRange(id2) && id2 !in store && id2 != id1
    ensures forall parse: string -> Option<Date> ::
              var o1 := Post(store, first, id1, parse);
              var o2 := Post(o1.store, second, id2, parse);
              && o1.response.status == Created
              && o2.response.status == BadRequest
              && o2.store == o1.store
              && Matching(o2.store, name) == {id1}
  {
    forall parse: string -> Option<Date>
      ensures var o1 := Post(store, first, id1, parse);
              var o2 := Post(o1.store, second, id2, parse);
              && o1.response.status == Created
              && o2.response.status == BadRequest
              && o2.store == o1.store
              && Matching(o2.store, name) == {id1}
    {
      var rec := Inserted(first, id1, parse);
      PostCreates(store, first, id1);
      InsertKeepsValid(store, id1, rec);
      PostRejectsTakenName(store[id1 := rec], second, id2);
    }
  }
}
