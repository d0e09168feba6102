/**
 * The JSON projection (`jsonSerialize`) of elements: the element's own
 * fields plus the ids of its related elements, one id list per relation, or
 * null when the relation is empty. The ETag fingerprint is a hash of this
 * projection; the hash itself is left uninterpreted (a function parameter
 * wherever it is used).
 */
module Projection {
  import opened Element

  /** A relation field: null for an empty collection, else the ids in order. */
  datatype IdList = Null | Ids(ids: seq<nat>)

  /** `count($c) !== 0 ? $this->getCodes($c) : null`. */
  function IdsOrNull(s: seq<nat>): (r: IdList)
    ensures r.Null? <==> s == []
    ensures r.Ids? ==> r.ids != []
  {
    if |s| != 0 then Ids(s) else Null
  }

  /** Reading a relation field back: null means no related elements. */
  function IdsOf(r: IdList): seq<nat> {
    match r
    case Null => []
    case Ids(ids) => ids
  }

  /** The relation field loses nothing: reading it back yields the collection. */
  lemma IdsRoundTrip(s: seq<nat>)
    ensures IdsOf(IdsOrNull(s)) == s
  {
  }

  /** The data part of a projection, one shape per concrete element class. */
  datatype Json =
    | EntityJson(element: ElementData, products: IdList, persons: IdList, asociaciones: IdList)
    | AsociacionJson(element: ElementData, websiteUrl: string, entities: IdList)

  /** `[ strtolower(short class name) => data ]`. */
  datatype Envelope = Envelope(key: string, json: Json)

  /** The projection decides each relation field, so equal projections mean equal collections. */
  lemma IdsOrNullInjective(s: seq<nat>, t: seq<nat>)
    requires IdsOrNull(s) == IdsOrNull(t)
    ensures s == t
  {
    IdsRoundTrip(s);
    IdsRoundTrip(t);
  }
}
