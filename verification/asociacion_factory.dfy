/** `AsociacionFactory::createElement`: builds an unpersisted association. */
module AsociacionFactory {
  import opened Wrappers
  import opened Element
  import opened AsociacionModel

  /**
   * The name must be non-empty (the factory asserts it); a null website URL
   * becomes the empty string; the other fields pass through unchanged.
   */
  function CreateElement(name: string, websiteUrl: Option<string>, birthDate: Option<Date>,
                         deathDate: Option<Date>, imageUrl: Option<string>, wikiUrl: Option<string>): (a: Asociacion)
    requires name != ""
    ensures a.element.id == 0 && a.entities == []
    ensures a.element.name == name
    ensures a.websiteUrl == (if websiteUrl.Some? then websiteUrl.value else "")
    ensures a.element.birthDate == birthDate && a.element.deathDate == deathDate
    ensures a.element.imageUrl == imageUrl && a.element.wikiUrl == wikiUrl
  {
    NewAsociacion(name, websiteUrl.GetOr(""), birthDate, deathDate, imageUrl, wikiUrl)
  }

  /** A freshly created association projects its entities as null and keeps its website URL. */
  lemma CreatedProjectsNoEntities(name: string, websiteUrl: Option<string>)
    requires name != ""
    ensures var env := Project(CreateElement(name, websiteUrl, None, None, None, None));
            env.json.entities.Null? && env.json.websiteUrl == websiteUrl.GetOr("")
  {
  }
}
