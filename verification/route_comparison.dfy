/** The route comparison use case: compare an actual intensity with a
    baseline (the caller's, or the 2025 target once the route is known),
    giving the percent deviation and a compliance flag. */
module RouteComparison {
  import opened Wrappers
  import opened Domain
  import opened Ports

  datatype ComparisonRequest = ComparisonRequest(
    routeId: string,
    actualIntensity: real,
    baselineIntensity: Option<real>)

  datatype Comparison = Comparison(
    actualIntensity: real,
    baselineIntensity: real,
    percentDifference: real,
    compliant: bool)

  /** The errors the use case throws. */
  datatype ComparisonError = RouteNotFound(routeId: string) | MathFailure(cause: MathError)

  function Execute(s: Store, req: ComparisonRequest): (r: Result<Comparison, ComparisonError>)
    // an unknown route matters only when no baseline is supplied
    ensures req.baselineIntensity.None? && !RouteExists(s, req.routeId) ==> r == Err(RouteNotFound(req.routeId))
    // a division failure can only come from a supplied zero baseline: the 2025 target is nonzero
    ensures r.Err? && r.error.MathFailure? ==> req.baselineIntensity == Some(0.0) && r.error.cause == ZeroBaseline
    ensures req.baselineIntensity == Some(0.0) ==> r == Err(MathFailure(ZeroBaseline))
    ensures r.Ok? <==>
              (if req.baselineIntensity.Some? then req.baselineIntensity.value != 0.0 else RouteExists(s, req.routeId))
    ensures r.Ok? ==>
              && r.value.actualIntensity == req.actualIntensity
              && r.value.baselineIntensity == TargetOrDefault(req.baselineIntensity)
              && (r.value.compliant <==> req.actualIntensity <= r.value.baselineIntensity)
              && r.value.percentDifference * r.value.baselineIntensity
                 == (req.actualIntensity - r.value.baselineIntensity) * 100.0
  {
    var baseline :=
      if req.baselineIntensity.Some? then Ok(req.baselineIntensity.value)
      else if !RouteExists(s, req.routeId) then Err(RouteNotFound(req.routeId))
      else Ok(TargetIntensity2025);
    match baseline
    case Err(e) => Err(e)
    case Ok(b) =>
      match PercentDifference(req.actualIntensity, b)
      case Err(e) => Err(MathFailure(e))
      case Ok(pct) =>
        Ok(Comparison(req.actualIntensity, b, pct, req.actualIntensity <= b))
  }

  /** With a baseline supplied the route repository is not consulted: the
      answer is the same whatever routes are known. */
  lemma SuppliedBaselineIgnoresRoutes(s1: Store, s2: Store, req: ComparisonRequest)
    requires req.baselineIntensity.Some?
    ensures Execute(s1, req) == Execute(s2, req)
  {
  }

  /** The reported deviation is the percent difference of the actual
      intensity from the baseline used. */
  lemma ReportedDeviation(s: Store, req: ComparisonRequest)
    requires Execute(s, req).Ok?
    ensures PercentDifference(req.actualIntensity, Execute(s, req).value.baselineIntensity)
         == Ok(Execute(s, req).value.percentDifference)
  {
  }

  /** With no baseline and a known route, an intensity below the 2025
      target is compliant. */
  lemma DefaultBaselineExample(s: Store, routeId: string)
    requires RouteExists(s, routeId)
    ensures Execute(s, ComparisonRequest(routeId, 85.0, None))
         == Ok(Comparison(85.0, TargetIntensity2025, (85.0 / TargetIntensity2025 - 1.0) * 100.0, true))
  {
  }
}
