# FuelEU compliance accounting — a Dafny model

This project models the compliance-accounting engine of a FuelEU-style
shipping compliance tool. A route's compliance balance (CB) is
`(target − actual intensity) × energy in scope`. Energy in scope is
`fuel × 41000 MJ`, and the target defaults to 89.3368 gCO2e/MJ. A positive
CB is a surplus and a negative CB is a deficit. On top of these formulas sit
three use cases:

- **Route comparison**: the percent deviation of an actual intensity from a
  baseline, plus a compliance flag.
- **Banking**: carrying a surplus forward. The amount is bounded by the
  route's cumulative banked total plus the current CB.
- **Pooling**: a batch of balances whose aggregate is non-negative forms a
  pool. The aggregate surplus is spent greedily, in input order, to bring the
  deficits to zero.

Files, one module each:

- `wrappers.dfy`: `Option` (the source's `undefined`/`null`) and `Result`
  (a value, or the error a thrown exception carries).
- `domain.dfy`: the constants, the `Pool` and `BankEntry` entities, and the
  three formulas.
- `ports.dfy`: the four repository ports as one immutable `Store` record. It
  holds the set of known route ids, the bank ledger as a sequence, the stored
  balances as a map keyed by (route id, period), and the created pools as a
  list. Each port operation is a function on that record.
- `route_comparison.dfy`, `bank_surplus.dfy`, `create_pool.dfy`: one
  `Execute` per use case. Route comparison only reads the store, so it
  returns a bare `Result`. Banking and pooling write, so they return a `Step`:
  the answer together with the state left behind. A thrown error is an `Err`
  value. Every throw in the source happens before any write, so an `Err`
  always leaves the state unchanged. Business-rule refusals are ordinary answers with an enumerated
  reason. The message strings are not modelled.

All quantities are `real`.

Some members are plain definitions and state no property of their own:
`Ports.RouteExists` (a route id is known), `Ports.GetComplianceBalance` (the
stored balance of a (route, period), if any), `Ports.CreatePool` (append a
pool) and `BankSurplus.Admissible` (the banking acceptance test of
`BankSurplusUseCase.ts:50-64`). They give the abstract state and the
acceptance test a name. What they mean for the use cases is stated in the
contracts of `RouteComparison.Execute`, `Ports.SaveComplianceBalance`,
`BankSurplus.Execute` and `CreatePool.Execute`.

## Model

| member | source | states |
|---|---|---|
| Domain.EnergyInScope | backend/src/core/domain/math.ts:5-13 | fails (NegativeFuel) exactly for negative fuel; otherwise 41000 × fuel, which is zero exactly for zero fuel |
| Domain.TargetOrDefault | backend/src/core/domain/math.ts:20 | an omitted target resolves to 89.3368, a given target is used as is |
| Domain.ComplianceBalance | backend/src/core/domain/math.ts:15-28 | fails exactly when EnergyInScope fails; otherwise (target − actual) × 41000 × fuel; for positive fuel CB > 0, = 0, < 0 exactly when actual is below, at, above the target; zero fuel gives CB 0 |
| Domain.PercentDifference | backend/src/core/domain/math.ts:30-38 | fails (ZeroBaseline) exactly for a zero baseline; otherwise the result times the baseline is (comparison − baseline) × 100, and for a positive baseline it is ≤ 0 exactly when comparison ≤ baseline |
| Domain.PercentDifferenceOfSelf | backend/src/core/domain/math.ts:34-37 | a nonzero value deviates 0% from itself |
| Domain.DefaultTargetIs2025 | backend/src/core/domain/math.ts:20-27 | leaving the target out equals passing 89.3368 |
| Domain.ComplianceBalanceAdditiveInFuel | backend/src/core/domain/math.ts:25-27 | CB of f1 + f2 is CB of f1 plus CB of f2, for non-negative fuels |
| Domain.ComplianceBalanceScalesWithFuel | backend/src/core/domain/math.ts:25-27 | scaling fuel by k ≥ 0 scales CB by k |
| Domain.ComplianceBalanceSlopeInActual | backend/src/core/domain/math.ts:27 | raising the actual intensity by d lowers CB by d × energy |
| Ports.TotalBanked | backend/src/adapters/outbound/postgres/BankRepository.ts:23-31 | a route with no ledger entries has total 0 (the `COALESCE(SUM(amount), 0)`); a route whose entries are all non-negative has a non-negative total |
| Ports.TotalBankedAppend | backend/src/adapters/outbound/postgres/BankRepository.ts:12-31 | appending an entry raises its own route's cumulative total by its amount and leaves every other route's total alone |
| Ports.SaveBankEntry | backend/src/core/ports/IBankRepository.ts:12-23 | one entry is appended; the route's total grows by exactly the amount; other routes' totals and the rest of the state are unchanged |
| Ports.SaveComplianceBalance | backend/src/core/ports/IComplianceRepository.ts:12-27 | a read of (route, period) after the save returns the saved balance; every other key reads as before |
| RouteComparison.Execute | backend/src/core/application/CalculateRouteComparisonUseCase.ts:20-55 | no baseline and an unknown route gives RouteNotFound; a zero baseline gives ZeroBaseline, and only a supplied baseline can be zero; success exactly when the supplied baseline is nonzero or, with none supplied, the route is known; the result echoes the actual intensity, uses the supplied baseline or 89.3368, is compliant exactly when actual ≤ baseline, and its deviation satisfies the percent formula |
| RouteComparison.SuppliedBaselineIgnoresRoutes | backend/src/core/application/CalculateRouteComparisonUseCase.ts:33-41 | with a baseline supplied the answer does not depend on which routes exist |
| RouteComparison.ReportedDeviation | backend/src/core/application/CalculateRouteComparisonUseCase.ts:43-54 | the reported deviation is PercentDifference of the actual intensity from the baseline reported |
| RouteComparison.DefaultBaselineExample | backend/src/core/application/__tests__/CalculateRouteComparisonUseCase.test.ts:50-63 | a known route compared at 85 without a baseline uses 89.3368 and is compliant |
| BankSurplus.RequestBalance | backend/src/core/application/BankSurplusUseCase.ts:42-47 | the balance is computed with the request's own target (or 89.3368 when omitted); it fails exactly for negative fuel, and otherwise is (target − actual) × energy |
| BankSurplus.Execute | backend/src/core/application/BankSurplusUseCase.ts:25-80 | fails exactly for negative fuel, writing nothing; accepted exactly when CB > 0 and amount ≤ total banked + CB, with no lower bound on the amount; CB ≤ 0 gives NonPositiveBalance and an amount above the ceiling gives ExceedsAvailable, both writing nothing; on acceptance the reported and stored (route, period) balance is the computed CB, other keys are untouched, exactly one entry (route, amount, period) is appended, the route's total grows by the amount and other routes' totals are unchanged |
| BankSurplus.AcceptanceMonotone | backend/src/core/application/BankSurplusUseCase.ts:57-64 | if an amount is accepted in a state, every smaller amount is accepted in that state |
| BankSurplus.NoSurplusNoBanking | backend/src/core/application/BankSurplusUseCase.ts:42-55 | with non-negative fuel and either actual intensity at or above the target or zero fuel, the request is refused as NonPositiveBalance carrying the computed CB, whatever the amount, and nothing is written |
| BankSurplus.BankingExampleAccepted | backend/src/core/application/__tests__/BankSurplusUseCase.test.ts:24-42 | with 100 already banked, fuel 2 and intensity 80, banking 50 is accepted and records the entry (route-1, 50, 2025) |
| BankSurplus.ExceedsTestInputIsAccepted | backend/src/core/application/__tests__/BankSurplusUseCase.test.ts:59-72 | with 50 already banked, fuel 1 and intensity 80, banking 200 is accepted with CB 382 808.8, although the test expects a rejection |
| CreatePool.Classify | backend/src/core/application/CreatePoolUseCase.ts:63-72 | deficit exactly when CB < 0, surplus exactly when CB > 0, compliant exactly when CB = 0 |
| CreatePool.ClassifyAll | backend/src/core/application/CreatePoolUseCase.ts:63-72 | same length, record ids and balances as the input, every member tagged with its balance's class |
| CreatePool.RecordIds | backend/src/core/application/CreatePoolUseCase.ts:135-139 | the pool's member record ids are the input record ids, same length, same order |
| CreatePool.TotalCB | backend/src/core/application/CreatePoolUseCase.ts:52 | all non-negative balances give a non-negative total; a non-empty batch of deficits gives a negative total |
| CreatePool.TotalCBAppend | backend/src/core/application/CreatePoolUseCase.ts:52 | the total is the left-to-right running sum: appending a member adds its balance |
| CreatePool.FundsSurplus | backend/src/core/application/CreatePoolUseCase.ts:76-80 | for a correctly classified member, the surplus filter keeps it exactly when its balance is positive |
| CreatePool.AvailableSurplus | backend/src/core/application/CreatePoolUseCase.ts:74-89 | the surplus sum is never negative |
| CreatePool.TotalIsSurplusMinusNeed | backend/src/core/application/CreatePoolUseCase.ts:51-89 | the aggregate CB equals the available surplus minus the total deficit need |
| CreatePool.Allocate | backend/src/core/application/CreatePoolUseCase.ts:85-103 | same length, ids and classes; surplus and compliant members are unchanged; each deficit ends between its before-value and 0; the leftover stays between 0 and the initial surplus; leftover plus total relief equals the initial surplus; after the partial branch the leftover is 0; input order: a later member changes only once every earlier deficit is zeroed |
| CreatePool.BrokeEarlyIff | backend/src/core/application/CreatePoolUseCase.ts:91-103 | the loop takes its partial branch exactly when the surplus is below the total deficit need |
| CreatePool.CoveredDeficitsAreZeroed | backend/src/core/application/CreatePoolUseCase.ts:91-103 | when the surplus covers the total need, every deficit ends at exactly 0, the leftover is surplus minus need, and the loop never breaks |
| CreatePool.AdmissibleBatchIsFullyCovered | backend/src/core/application/CreatePoolUseCase.ts:52-103 | for an aggregate CB ≥ 0, the partial branch is unreachable, every deficit ends at 0 and the leftover surplus equals the aggregate CB |
| CreatePool.FirstWorsenedDeficit | backend/src/core/application/CreatePoolUseCase.ts:105-118 | none exactly when no deficit member ends below its before-value; otherwise the id of the first one in input order that does |
| CreatePool.FirstNegativeSurplus | backend/src/core/application/CreatePoolUseCase.ts:120-132 | none exactly when no surplus member ends negative; otherwise the id of the first one in input order that does |
| CreatePool.PostValidationsPass | backend/src/core/application/CreatePoolUseCase.ts:105-132 | after the greedy pass neither post-validation finds a violation |
| CreatePool.Execute | backend/src/core/application/CreatePoolUseCase.ts:34-149 | EmptyPool exactly for no members; NegativeAggregate exactly for a non-empty batch with sum < 0; a rejection persists nothing; a created pool is persisted once with the given id and name and the input record ids in order; its allocation keeps the input's length, ids and order, zeroes every deficit, keeps every other balance, and reports the aggregate CB (≥ 0) |
| CreatePool.CreatedIff | backend/src/core/application/CreatePoolUseCase.ts:44-60 | a pool is created exactly when the batch is non-empty and its aggregate CB is ≥ 0, zero included |
| CreatePool.MixedPoolExample | backend/src/core/application/__tests__/CreatePoolUseCase.test.ts:69-96 | CBs −30 and +80 give a pool with balances 0 and 80 and aggregate 50 |
| CreatePool.NegativePoolExample | backend/src/core/application/__tests__/CreatePoolUseCase.test.ts:31-43 | CBs −100 and +50 are rejected as a negative aggregate of −50, and nothing is persisted |
| CreatePool.BalancedPoolExample | backend/src/core/application/__tests__/CreatePoolUseCase.test.ts:56-67 | CBs −50 and +50 sum to zero and are accepted, with balances 0 and 50 |

The model follows the code as written:

- Pool allocation takes each member's balance from the caller
  (`CreatePoolUseCase.ts:34-41`). It does not recompute balances from stored
  readings.
- The deficit loop runs in input order (`CreatePoolUseCase.ts:91`). The
  class comment's "highest deficit first" (`:12`) is not what the loop does.
- Banking answers `{success, message}`. It does not return energy or the
  amount banked.

Two tests in `BankSurplusUseCase.test.ts` disagree with the code. They are
not encoded as properties:

- At `:56` the test expects the word "positive". The message at
  `BankSurplusUseCase.ts:53` says "must be > 0".
- At `:59-72` the test expects a rejection. The code accepts that input: CB
  is 382 808.8, so the ceiling 50 + CB is far above 200
  (`BankSurplus.ExceedsTestInputIsAccepted`).

## Left out

- Finiteness checks (`Number.isFinite`) and IEEE-754 rounding: reals have no
  NaN or infinity. The lemma that every deficit is zeroed holds over reals,
  not necessarily over doubles.
- Descending sort of the surplus members (`CreatePoolUseCase.ts:83`): only
  their sum is used, and a permutation does not change a sum.
- Object aliasing in the pool validations (`CreatePoolUseCase.ts:85,106`):
  the model compares each member's balance before and after by position. As
  written in the source, validation 2 compares an object with itself. Both
  readings never reject, as `CreatePool.PostValidationsPass` shows. With
  duplicate record ids the source's id map would keep only the last member;
  the positional model does not reproduce that.
- Read order in banking: reading the banked total happens after the CB check
  in the source. Reads do not change the state, so the model cannot observe
  their order.
- Atomicity and concurrency of the two banking writes: the model applies the
  balance upsert and then the ledger append as one step.
- The PostgreSQL adapters, the HTTP controllers, server wiring and the whole
  frontend: these are I/O.
- The adapter's storage of the balance in the `actual_intensity` column is
  not modelled. Neither is its `ON CONFLICT DO NOTHING` on a duplicate pool
  id, since `Ports.CreatePool` models the port's "create a new pool".
- `addPoolMember`, `getPool`, `getAllRoutes` and `updateBaseline` on the
  ports: no modelled use case calls them.
- Route records: only whether a route id is known matters to the core, so
  routes are a set of ids.
- Message strings: rejections are enumerated reasons that carry the numbers
  the messages print.
