/**
 * The process-wide state of the Handlebars library that the action writes to: the
 * table of named partials and the table of named helpers. Compiling and rendering
 * are not modelled here; the action receives rendering as an opaque function.
 */
module Handlebars {

  /**
   * A helper function held in the helper table: one of the two the action installs
   * (`cardLinks` and `filter`, defined in module Helpers) or one installed by other code.
   */
  datatype Helper = CardLinksHelper | FilterHelper | OtherHelper(id: nat)

  /** The library's global environment. */
  class Engine {
    var partials: map<string, string>
    var helpers: map<string, Helper>

    constructor ()
      ensures partials == map[] && helpers == map[]
    {
      partials := map[];
      helpers := map[];
    }

    /** `Handlebars.registerPartial(name, source)`: last writer wins. */
    method RegisterPartial(name: string, source: string)
      modifies this
      ensures partials == old(partials)[name := source]
      ensures helpers == old(helpers)
    {
      partials := partials[name := source];
    }

    /** `Handlebars.registerHelper(name, h)`: last writer wins. */
    method RegisterHelper(name: string, h: Helper)
      modifies this
      ensures helpers == old(helpers)[name := h]
      ensures partials == old(partials)
    {
      helpers := helpers[name := h];
    }
  }
}
