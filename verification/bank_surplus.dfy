/** The bank surplus use case: carry a positive compliance balance forward,
    bounded by the route's cumulative banked total plus the current balance.
    On acceptance it first upserts the period's balance, then appends one
    ledger entry; a rejection or a thrown error writes nothing. */
module BankSurplus {
  import opened Wrappers
  import opened Domain
  import opened Ports

  datatype BankRequest = BankRequest(
    routeId: string,
    fuelConsumption: real,
    actualIntensity: real,
    amountToBank: real,
    target: Option<real>,
    period: string)

  /** Why a request is refused (the `success: false` answers). */
  datatype BankRejection =
    | NonPositiveBalance(cb: real)
    | ExceedsAvailable(amount: real, available: real)

  datatype BankResponse = Banked(amount: real, cb: real) | NotBanked(reason: BankRejection)

  /** The balance the request is judged on; the optional target goes straight
      through to the formula. */
  function RequestBalance(req: BankRequest): (r: Result<real, MathError>)
    ensures r.Ok? <==> req.fuelConsumption >= 0.0
    ensures r.Ok? ==>
              r.value == (TargetOrDefault(req.target) - req.actualIntensity) * EnergyInScope(req.fuelConsumption).value
  {
    ComplianceBalance(req.target, req.actualIntensity, req.fuelConsumption)
  }

  /** Acceptance: a strict surplus now, and an amount within the cumulative
      banked total plus that surplus. There is no lower bound on the amount. */
  predicate Admissible(cb: real, totalBanked: real, amount: real)
  {
    cb > 0.0 && amount <= totalBanked + cb
  }

  function Execute(s: Store, req: BankRequest): (r: Step<Result<BankResponse, MathError>>)
    // a thrown error (negative fuel) happens before any write
    ensures r.out.Err? <==> req.fuelConsumption < 0.0
    ensures r.out.Err? ==> r.out.error == NegativeFuel && r.store == s
    ensures r.out.Ok? ==>
              var cb := ComplianceBalance(req.target, req.actualIntensity, req.fuelConsumption).value;
              var total := TotalBanked(s.ledger, req.routeId);
              && (r.out.value.Banked? <==> Admissible(cb, total, req.amountToBank))
              && (cb <= 0.0 ==> r.out.value == NotBanked(NonPositiveBalance(cb)))
              && (cb > 0.0 && req.amountToBank > total + cb ==>
                    r.out.value == NotBanked(ExceedsAvailable(req.amountToBank, total + cb)))
    // nothing is written on a rejection
    ensures r.out.Ok? && r.out.value.NotBanked? ==> r.store == s
    // on acceptance: the balance is upserted and exactly one entry is appended
    ensures r.out.Ok? && r.out.value.Banked? ==>
              && r.out.value.amount == req.amountToBank
              && r.out.value.cb == ComplianceBalance(req.target, req.actualIntensity, req.fuelConsumption).value
              && GetComplianceBalance(r.store, req.routeId, req.period) == Some(r.out.value.cb)
              && (forall rt, p :: (rt, p) != (req.routeId, req.period) ==>
                    GetComplianceBalance(r.store, rt, p) == GetComplianceBalance(s, rt, p))
              && r.store.ledger == s.ledger + [BankEntry(req.routeId, req.amountToBank, req.period)]
              && TotalBanked(r.store.ledger, req.routeId) == TotalBanked(s.ledger, req.routeId) + req.amountToBank
              && (forall rt :: rt != req.routeId ==> TotalBanked(r.store.ledger, rt) == TotalBanked(s.ledger, rt))
              && r.store.routes == s.routes && r.store.pools == s.pools
  {
    match RequestBalance(req)
    case Err(e) => Step(Err(e), s)
    case Ok(cb) =>
      if cb <= 0.0 then Step(Ok(NotBanked(NonPositiveBalance(cb))), s)
      else
        var total := TotalBanked(s.ledger, req.routeId);
        if req.amountToBank > total + cb then
          Step(Ok(NotBanked(ExceedsAvailable(req.amountToBank, total + cb))), s)
        else
          var s1 := SaveComplianceBalance(s, req.routeId, cb, req.period);
          var s2 := SaveBankEntry(s1, req.routeId, req.amountToBank, req.period);
          Step(Ok(Banked(req.amountToBank, cb)), s2)
  }

  /** Acceptance is downward closed in the amount: whatever is accepted in a
      state, every smaller amount is accepted in that state too. */
  lemma AcceptanceMonotone(s: Store, req: BankRequest, smaller: real)
    requires Execute(s, req).out.Ok? && Execute(s, req).out.value.Banked?
    requires smaller <= req.amountToBank
    ensures Execute(s, req.(amountToBank := smaller)).out.Ok?
    ensures Execute(s, req.(amountToBank := smaller)).out.value.Banked?
  {
  }

  /** An actual intensity at or above the target (or no fuel at all) is
      refused as a non-positive balance whatever the amount, and the refusal
      carries the computed balance. */
  lemma NoSurplusNoBanking(s: Store, req: BankRequest)
    requires req.fuelConsumption >= 0.0
    requires req.actualIntensity >= TargetOrDefault(req.target) || req.fuelConsumption == 0.0
    ensures Execute(s, req).out
         == Ok(NotBanked(NonPositiveBalance(ComplianceBalance(req.target, req.actualIntensity, req.fuelConsumption).value)))
    ensures Execute(s, req).store == s
  {
  }

  /** Banking 50 with 100 already banked, fuel 2 and intensity 80 against
      the default target succeeds and records the entry. */
  lemma BankingExampleAccepted(s: Store)
    requires TotalBanked(s.ledger, "route-1") == 100.0
    ensures Execute(s, BankRequest("route-1", 2.0, 80.0, 50.0, None, "2025")).out.Ok?
    ensures Execute(s, BankRequest("route-1", 2.0, 80.0, 50.0, None, "2025")).out.value.Banked?
    ensures Execute(s, BankRequest("route-1", 2.0, 80.0, 50.0, None, "2025")).store.ledger
         == s.ledger + [BankEntry("route-1", 50.0, "2025")]
  {
  }

  /** Banking 200 with 50 already banked, fuel 1 and intensity 80 against
      the default target is accepted: the balance (about 382 809) leaves a
      ceiling far above 200. */
  lemma ExceedsTestInputIsAccepted(s: Store)
    requires TotalBanked(s.ledger, "route-1") == 50.0
    ensures Execute(s, BankRequest("route-1", 1.0, 80.0, 200.0, None, "2025")).out.Ok?
    ensures Execute(s, BankRequest("route-1", 1.0, 80.0, 200.0, None, "2025")).out.value.Banked?
    ensures Execute(s, BankRequest("route-1", 1.0, 80.0, 200.0, None, "2025")).out.value.cb == 382808.8
  {
  }
}
