/** The domain layer: regulatory constants, the persisted entities and the
    three intensity formulas. Quantities are reals, so the `Number.isFinite`
    checks of `math.ts` have nothing to reject and are not modelled. */
module Domain {
  import opened Wrappers

  /** Target intensity for 2025, in gCO2e/MJ. */
  const TargetIntensity2025: real := 89.3368

  /** Energy (MJ) per unit of fuel consumed. */
  const MjPerFuelUnit: real := 41000.0

  /** A committed decision to carry `amount` of surplus forward. */
  datatype BankEntry = BankEntry(routeId: string, amount: real, period: string)

  /** A named collective of compliance records. */
  datatype Pool = Pool(id: string, name: string, memberRecordIds: seq<string>)

  /** Why a formula refuses its input (the message of the thrown error). */
  datatype MathError = NegativeFuel | ZeroBaseline

  /** The target a compliance balance is measured against: the caller's, or
      the 2025 regulatory target when the caller leaves it out. */
  function TargetOrDefault(target: Option<real>): (t: real)
    ensures target.None? ==> t == TargetIntensity2025
    ensures target.Some? ==> t == target.value
  {
    target.GetOr(TargetIntensity2025)
  }

  /** Energy in scope for a fuel consumption; negative fuel is an error. */
  function EnergyInScope(fuel: real): (r: Result<real, MathError>)
    ensures r.Ok? <==> fuel >= 0.0
    ensures r.Err? ==> r.error == NegativeFuel
    ensures r.Ok? ==> r.value == 41000.0 * fuel
    ensures r.Ok? ==> (r.value == 0.0 <==> fuel == 0.0)
  {
    if fuel < 0.0 then Err(NegativeFuel) else Ok(fuel * MjPerFuelUnit)
  }

  /** Compliance balance CB = (target - actual) * energy in scope. Positive
      is surplus, negative is deficit. */
  function ComplianceBalance(target: Option<real>, actual: real, fuel: real): (r: Result<real, MathError>)
    ensures r.Ok? <==> EnergyInScope(fuel).Ok?
    ensures r.Err? ==> r.error == NegativeFuel
    ensures r.Ok? ==> r.value == (TargetOrDefault(target) - actual) * (41000.0 * fuel)
    ensures r.Ok? && fuel > 0.0 ==>
              && (r.value > 0.0 <==> actual < TargetOrDefault(target))
              && (r.value == 0.0 <==> actual == TargetOrDefault(target))
              && (r.value < 0.0 <==> actual > TargetOrDefault(target))
    ensures r.Ok? && fuel == 0.0 ==> r.value == 0.0
  {
    var t := TargetOrDefault(target);
    match EnergyInScope(fuel)
    case Err(e) => Err(e)
    case Ok(energy) =>
      Ok((t - actual) * energy)
  }

  /** Percent deviation of `comparison` from `baseline`; a zero baseline is
      an error. */
  function PercentDifference(comparison: real, baseline: real): (r: Result<real, MathError>)
    ensures r.Ok? <==> baseline != 0.0
    ensures r.Err? ==> r.error == ZeroBaseline
    ensures r.Ok? ==> r.value * baseline == (comparison - baseline) * 100.0
    ensures r.Ok? && baseline > 0.0 ==> (r.value <= 0.0 <==> comparison <= baseline)
  {
    if baseline == 0.0 then Err(ZeroBaseline) else Ok((comparison / baseline - 1.0) * 100.0)
  }

  /** A value compared with itself deviates by zero percent. */
  lemma PercentDifferenceOfSelf(b: real)
    requires b != 0.0
    ensures PercentDifference(b, b) == Ok(0.0)
  {
  }

  /** Leaving the target out is the same as passing the 2025 target. */
  lemma DefaultTargetIs2025(actual: real, fuel: real)
    ensures ComplianceBalance(None, actual, fuel) == ComplianceBalance(Some(TargetIntensity2025), actual, fuel)
  {
  }

  /** CB is additive in fuel consumption for fixed target and actual. */
  lemma ComplianceBalanceAdditiveInFuel(target: Option<real>, actual: real, f1: real, f2: real)
    requires f1 >= 0.0 && f2 >= 0.0
    ensures ComplianceBalance(target, actual, f1 + f2).Ok?
    ensures ComplianceBalance(target, actual, f1 + f2).value
         == ComplianceBalance(target, actual, f1).value + ComplianceBalance(target, actual, f2).value
  {
  }

  /** CB scales with fuel consumption for fixed target and actual. */
  lemma ComplianceBalanceScalesWithFuel(target: Option<real>, actual: real, fuel: real, k: real)
    requires fuel >= 0.0 && k >= 0.0
    ensures ComplianceBalance(target, actual, k * fuel).Ok?
    ensures ComplianceBalance(target, actual, k * fuel).value == k * ComplianceBalance(target, actual, fuel).value
  {
  }

  /** Raising the actual intensity by `d` lowers CB by `d` times the energy. */
  lemma ComplianceBalanceSlopeInActual(target: Option<real>, actual: real, d: real, fuel: real)
    requires fuel >= 0.0
    ensures ComplianceBalance(target, actual + d, fuel).value
         == ComplianceBalance(target, actual, fuel).value - d * EnergyInScope(fuel).value
  {
  }
}
