/** The four vehicle classes shared by rides, drivers and pricing. */
module Vehicles {
  import opened Wrappers

  datatype VehicleType = Economy | Standard | Premium | Xl

  /** The wire and database spelling of each class. */
  function Name(v: VehicleType): string
  {
    match v
    case Economy => "economy"
    case Standard => "standard"
    case Premium => "premium"
    case Xl => "xl"
  }

  /** The enum `['economy', 'standard', 'premium', 'xl']`. */
  const Names: seq<string> := ["economy", "standard", "premium", "xl"]

  /** Reads a class name; anything outside the enum is absent. */
  function Parse(s: string): (r: Option<VehicleType>)
    ensures r.Some? <==> s in Names
    ensures r.Some? ==> Name(r.value) == s
  {
    if s == "economy" then Some(Economy)
    else if s == "standard" then Some(Standard)
    else if s == "premium" then Some(Premium)
    else if s == "xl" then Some(Xl)
    else None
  }

  /** Every class reads back from its own name. */
  lemma ParseName(v: VehicleType)
    ensures Parse(Name(v)) == Some(v)
  {
  }
}
