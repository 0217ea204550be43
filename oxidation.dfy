/** The bulk structure and the choice of how its oxidation states are assigned
    (`oxidation_states`). The assignment itself belongs to the structure
    library; this module models which of its three routines is chosen and that
    the structure is decorated in place. */
module Oxidation {

  /** The value a caller passes as `ox_states`. The source tests the exact
      type, so only a plain dict or a plain list selects an explicit
      assignment; `None` and every other value (a tuple, a dict subclass) fall
      through to the guess. */
  datatype OxStates =
    | NoStates
    | ElementDict(byElement: map<string, int>)
    | SiteList(bySite: seq<int>)
    | OtherValue

  /** The oxidation states a structure carries. */
  datatype Decoration =
    | Undecorated
    | ByElement(byElement: map<string, int>)
    | BySite(bySite: seq<int>)
    | ByGuess(maxSites: int)

  /** What the slab generator sees of the bulk: its formula and its states. */
  datatype Bulk = Bulk(formula: string, decoration: Decoration)

  /** A structure read from a file; its decoration is updated in place. */
  class Structure {
    var formula: string
    var decoration: Decoration

    constructor (formula: string)
      ensures this.formula == formula && decoration == Undecorated
    {
      this.formula := formula;
      decoration := Undecorated;
    }

    function Value(): Bulk
      reads this
    {
      Bulk(formula, decoration)
    }
  }

  /** The decoration each kind of `ox_states` selects: a dict assigns by
      element, a list by site, anything else by guess over all sites
      (`max_sites=-1`). Exactly one branch applies. */
  function DecorationFor(ox: OxStates): (d: Decoration)
    ensures d.ByElement? <==> ox.ElementDict?
    ensures d.BySite? <==> ox.SiteList?
    ensures d.ByGuess? <==> ox.NoStates? || ox.OtherValue?
    ensures ox.ElementDict? ==> d.byElement == ox.byElement
    ensures ox.SiteList? ==> d.bySite == ox.bySite
    ensures d.ByGuess? ==> d.maxSites == -1
  {
    match ox
    case ElementDict(states) => ByElement(states)
    case SiteList(states) => BySite(states)
    case _ => ByGuess(-1)
  }

  /** `oxidation_states`: decorates the structure it is given and returns that
      same object. */
  method OxidationStates(structure: Structure, ox: OxStates) returns (r: Structure)
    modifies structure
    ensures r == structure
    ensures structure.decoration == DecorationFor(ox)
    ensures structure.formula == old(structure.formula)
  {
    if ox.ElementDict? {
      structure.decoration := ByElement(ox.byElement);
    } else if ox.SiteList? {
      structure.decoration := BySite(ox.bySite);
    } else {
      structure.decoration := ByGuess(-1);
    }
    r := structure;
  }
}
