/** The fare formula: a base fare, a per-kilometre rate by vehicle class, a surge
    multiplier held in process-wide state, and a per-class minimum fare.  Amounts are
    rounded the way `Math.round` rounds. */
module Pricing {
  import Vehicles

  const BaseFare: int := 50

  /** `Math.round`: the nearest integer, halves rounding up. */
  function Round(x: real): (n: int)
    ensures n as real - 1.0 / 2.0 <= x < n as real + 1.0 / 2.0
  {
    (x + 1.0 / 2.0).Floor
  }

  /** Rounding never moves a larger value below a smaller one. */
  lemma RoundMonotone(x: real, y: real)
    requires x <= y
    ensures Round(x) <= Round(y)
  {
  }

  /** An integer rounds to itself. */
  lemma RoundInteger(n: int)
    ensures Round(n as real) == n
  {
  }

  /** `perKm[vehicleType] || perKm.standard`: any name outside the four classes pays the
      standard rate. */
  function PerKm(vehicleType: string): (k: int)
    ensures k > 0
    ensures vehicleType == "economy" ==> k == 10
    ensures vehicleType == "standard" ==> k == 15
    ensures vehicleType == "premium" ==> k == 25
    ensures vehicleType == "xl" ==> k == 20
    ensures vehicleType !in Vehicles.Names ==> k == 15
  {
    match Vehicles.Parse(vehicleType)
    case Some(Economy) => 10
    case Some(Standard) => 15
    case Some(Premium) => 25
    case Some(Xl) => 20
    case None => 15
  }

  /** `minimumFare[vehicleType] || minimumFare.standard`. */
  function MinimumFare(vehicleType: string): (m: int)
    ensures m >= 50
    ensures vehicleType == "economy" ==> m == 50
    ensures vehicleType == "standard" ==> m == 80
    ensures vehicleType == "premium" ==> m == 150
    ensures vehicleType == "xl" ==> m == 120
    ensures vehicleType !in Vehicles.Names ==> m == 80
  {
    match Vehicles.Parse(vehicleType)
    case Some(Economy) => 50
    case Some(Standard) => 80
    case Some(Premium) => 150
    case Some(Xl) => 120
    case None => 80
  }

  /** The process-wide pricing state: only the surge multiplier changes at run time. */
  datatype PricingState = PricingState(surge: real)

  const Initial: PricingState := PricingState(1.0)

  function SetSurgeMultiplier(st: PricingState, multiplier: real): (st': PricingState)
  {
    st.(surge := multiplier)
  }

  function GetSurgeMultiplier(st: PricingState): real
  {
    st.surge
  }

  /** The reader sees the last value written, and 1.0 before any write. */
  lemma SurgeReadsLastWrite(st: PricingState, m: real)
    ensures GetSurgeMultiplier(SetSurgeMultiplier(st, m)) == m
    ensures GetSurgeMultiplier(Initial) == 1.0
  {
  }

  datatype FareQuote = FareQuote(baseFare: int, distanceFare: int, totalFare: int, currency: string, surgeMultiplier: real)

  function Max(a: real, b: real): real
  {
    if a >= b then a else b
  }

  /** The unrounded total: base plus the unrounded distance fare, times the surge, but not
      below the class minimum; it is the larger of the two. */
  function RawTotal(vehicleType: string, distance: real, surge: real): (t: real)
    ensures t >= MinimumFare(vehicleType) as real
    ensures t >= (BaseFare as real + distance * PerKm(vehicleType) as real) * surge
    ensures t == MinimumFare(vehicleType) as real || t == (BaseFare as real + distance * PerKm(vehicleType) as real) * surge
  {
    Max((BaseFare as real + distance * PerKm(vehicleType) as real) * surge, MinimumFare(vehicleType) as real)
  }

  /** `calculateFare(vehicleType, distance)` under the current state. */
  function CalculateFare(st: PricingState, vehicleType: string, distance: real): (q: FareQuote)
    ensures q.baseFare == BaseFare && q.currency == "INR" && q.surgeMultiplier == st.surge
    ensures q.distanceFare as real - 1.0 / 2.0 <= distance * PerKm(vehicleType) as real < q.distanceFare as real + 1.0 / 2.0
    ensures q.totalFare == Round(RawTotal(vehicleType, distance, st.surge))
    ensures q.totalFare >= MinimumFare(vehicleType)
  {
    var total := RawTotal(vehicleType, distance, st.surge);
    RoundInteger(MinimumFare(vehicleType));
    RoundMonotone(MinimumFare(vehicleType) as real, total);
    FareQuote(Round(BaseFare as real), Round(distance * PerKm(vehicleType) as real), Round(total), "INR", st.surge)
  }

  /** The quote is a function of the class, the distance and the surge alone. */
  lemma QuoteDependsOnSurgeOnly(a: PricingState, b: PricingState, vehicleType: string, distance: real)
    requires a.surge == b.surge
    ensures CalculateFare(a, vehicleType, distance) == CalculateFare(b, vehicleType, distance)
  {
  }

  /** A name outside the four classes is priced exactly as `standard`. */
  lemma UnknownClassPricedAsStandard(st: PricingState, vehicleType: string, distance: real)
    requires vehicleType !in Vehicles.Names
    ensures CalculateFare(st, vehicleType, distance) == CalculateFare(st, "standard", distance)
  {
  }

  /** The total applies the surge to the unrounded distance fare: at surge 2 an economy ride
      of 0.25 km quotes a distance fare of 3 but a total of 105, not (50 + 3) * 2. */
  lemma TotalUsesUnroundedDistanceFare()
    ensures CalculateFare(PricingState(2.0), "economy", 0.25).distanceFare == 3
    ensures CalculateFare(PricingState(2.0), "economy", 0.25).totalFare == 105
    ensures (BaseFare + CalculateFare(PricingState(2.0), "economy", 0.25).distanceFare) * 2 == 106
  {
  }

  /** The minimum binds exactly when the surged fare falls short of it: then the total is the
      minimum itself, and otherwise it is the surged fare rounded. */
  lemma {:induction false} MinimumBindsBelow(st: PricingState, vehicleType: string, distance: real)
    ensures
      var surged := (BaseFare as real + distance * PerKm(vehicleType) as real) * st.surge;
      var q := CalculateFare(st, vehicleType, distance);
      && (surged <= MinimumFare(vehicleType) as real ==> q.totalFare == MinimumFare(vehicleType))
      && (surged >= MinimumFare(vehicleType) as real ==> q.totalFare == Round(surged))
  {
    var m := MinimumFare(vehicleType);
    var surged := (BaseFare as real + distance * PerKm(vehicleType) as real) * st.surge;
    if surged <= m as real {
      assert RawTotal(vehicleType, distance, st.surge) == m as real;
      RoundInteger(m);
    }
  }

  /** Without surge the parts add up: the total is the base plus the rounded distance fare,
      or the minimum when that is larger. */
  lemma {:induction false} UnitSurgeTotalIsSumOfParts(st: PricingState, vehicleType: string, distance: real)
    requires st.surge == 1.0
    ensures
      var q := CalculateFare(st, vehicleType, distance);
      q.totalFare == if q.baseFare + q.distanceFare >= MinimumFare(vehicleType) then q.baseFare + q.distanceFare
                     else MinimumFare(vehicleType)
  {
    var m := MinimumFare(vehicleType);
    var x := distance * PerKm(vehicleType) as real;
    var q := CalculateFare(st, vehicleType, distance);
    RoundShift(x, BaseFare);
    assert Round(BaseFare as real + x) == BaseFare + q.distanceFare;
    assert (BaseFare as real + x) * st.surge == BaseFare as real + x;
    RoundInteger(m);
    if BaseFare as real + x >= m as real {
      assert q.totalFare == Round(BaseFare as real + x);
    } else {
      assert q.totalFare == m;
      RoundMonotone(BaseFare as real + x, m as real);
    }
  }

  /** Adding an integer commutes with rounding. */
  lemma RoundShift(x: real, n: int)
    ensures Round(n as real + x) == n + Round(x)
  {
  }

  lemma {:induction false} ScaleMonotone(a: real, b: real, s: real)
    requires a <= b && s > 0.0
    ensures a * s <= b * s
  {
    assert b * s - a * s == (b - a) * s;
  }

  /** With a positive surge a longer ride never costs less. */
  lemma {:induction false} TotalMonotoneInDistance(st: PricingState, vehicleType: string, d1: real, d2: real)
    requires st.surge > 0.0 && d1 <= d2
    ensures CalculateFare(st, vehicleType, d1).totalFare <= CalculateFare(st, vehicleType, d2).totalFare
  {
    var k := PerKm(vehicleType) as real;
    ScaleMonotone(d1, d2, k);
    ScaleMonotone(BaseFare as real + d1 * k, BaseFare as real + d2 * k, st.surge);
    var m := MinimumFare(vehicleType) as real;
    var a1 := (BaseFare as real + d1 * k) * st.surge;
    var a2 := (BaseFare as real + d2 * k) * st.surge;
    assert a1 <= a2;
    assert Max(a1, m) <= Max(a2, m);
    assert RawTotal(vehicleType, d1, st.surge) == Max((BaseFare as real + d1 * k) * st.surge, m);
    assert RawTotal(vehicleType, d2, st.surge) == Max((BaseFare as real + d2 * k) * st.surge, m);
    RoundMonotone(RawTotal(vehicleType, d1, st.surge), RawTotal(vehicleType, d2, st.surge));
  }
}
