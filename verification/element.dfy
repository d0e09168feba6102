/**
 * The common shape of every catalogue element (the Element base class of
 * Entity and Asociacion) and the shared id bound used by the controllers.
 */
module Element {
  import opened Wrappers

  /** The largest id the controllers accept: 2^31 - 1. */
  const MaxId: nat := 2147483647

  /** The controllers' guard `!(id <= 0 || id > 2147483647)`. */
  predicate InIdRange(id: int) {
    0 < id <= MaxId
  }

  /** A calendar date as `DateTime::createFromFormat('!Y-m-d', …)` yields it. */
  datatype Date = Date(year: int, month: nat, day: nat)

  /**
   * The Element fields. `id` is 0 until the store assigns one; an element's
   * id is also its identity inside the relation collections of other elements.
   */
  datatype ElementData = ElementData(
    id: nat,
    name: string,
    birthDate: Option<Date>,
    deathDate: Option<Date>,
    imageUrl: Option<string>,
    wikiUrl: Option<string>)

  /** The base constructor: an unpersisted element (id 0) with the given fields. */
  function NewElement(name: string, birthDate: Option<Date>, deathDate: Option<Date>,
                      imageUrl: Option<string>, wikiUrl: Option<string>): (e: ElementData)
    ensures e.id == 0
    ensures e.name == name && e.birthDate == birthDate && e.deathDate == deathDate
    ensures e.imageUrl == imageUrl && e.wikiUrl == wikiUrl
  {
    ElementData(0, name, birthDate, deathDate, imageUrl, wikiUrl)
  }
}
