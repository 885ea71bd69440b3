/** The create pool use case: check that a batch of compliance balances may
    form a pool, redistribute the aggregate surplus to the deficit members
    greedily in input order, check that no member is made worse off, and
    persist the pool. */
module CreatePool {
  import opened Wrappers
  import opened Domain
  import Ports

  datatype MemberInput = MemberInput(recordId: string, complianceBalance: real)

  datatype PoolRequest = PoolRequest(poolId: string, poolName: string, members: seq<MemberInput>)

  datatype InitialState = Deficit | Surplus | Compliant

  /** A member with its (current) balance and the class of its balance
      before allocation. */
  datatype PoolMember = PoolMember(recordId: string, complianceBalance: real, initialState: InitialState)

  /** The outcome of the greedy pass: the members after allocation, the
      surplus left over, and whether the pass stopped at a deficit it could
      only partly cover. */
  datatype Allocation = Allocation(members: seq<PoolMember>, leftover: real, brokeEarly: bool)

  datatype PoolRejection =
    | EmptyPool
    | NegativeAggregate(totalCB: real)
    | DeficitWorse(recordId: string)
    | SurplusNegative(recordId: string)

  datatype PoolResponse = Created(allocation: seq<PoolMember>, totalCB: real) | Rejected(reason: PoolRejection)

  function Abs(x: real): (r: real)
    ensures r >= 0.0 && (r == x || r == -x)
  {
    if x < 0.0 then -x else x
  }

  // ---------------------------------------------------------------------
  // Classification

  function Classify(cb: real): (c: InitialState)
    ensures c == Deficit <==> cb < 0.0
    ensures c == Surplus <==> cb > 0.0
    ensures c == Compliant <==> cb == 0.0
  {
    if cb < 0.0 then Deficit else if cb > 0.0 then Surplus else Compliant
  }

  ghost predicate WellClassified(cs: seq<PoolMember>) {
    forall i :: 0 <= i < |cs| ==> cs[i].initialState == Classify(cs[i].complianceBalance)
  }

  /** Each input member, tagged with the class of its balance. */
  function ClassifyAll(members: seq<MemberInput>): (cs: seq<PoolMember>)
    ensures |cs| == |members|
    ensures forall i :: 0 <= i < |members| ==>
              && cs[i].recordId == members[i].recordId
              && cs[i].complianceBalance == members[i].complianceBalance
    ensures WellClassified(cs)
  {
    seq(|members|, i requires 0 <= i < |members| =>
      PoolMember(members[i].recordId, members[i].complianceBalance, Classify(members[i].complianceBalance)))
  }

  function RecordIds(members: seq<MemberInput>): (ids: seq<string>)
    ensures |ids| == |members|
    ensures forall i :: 0 <= i < |members| ==> ids[i] == members[i].recordId
  {
    seq(|members|, i requires 0 <= i < |members| => members[i].recordId)
  }

  // ---------------------------------------------------------------------
  // Sums

  /** The aggregate compliance balance of the inputs. */
  function TotalCB(members: seq<MemberInput>): (total: real)
    ensures (forall i :: 0 <= i < |members| ==> members[i].complianceBalance >= 0.0) ==> total >= 0.0
    ensures (forall i :: 0 <= i < |members| ==> members[i].complianceBalance < 0.0) && |members| > 0 ==> total < 0.0
    decreases |members|
  {
    if |members| == 0 then 0.0 else members[0].complianceBalance + TotalCB(members[1..])
  }

  /** The total is the left-to-right running sum the source's `reduce`
      computes: appending a member adds its balance. */
  lemma {:induction false} TotalCBAppend(members: seq<MemberInput>, m: MemberInput)
    ensures TotalCB(members + [m]) == TotalCB(members) + m.complianceBalance
    decreases |members|
  {
    if |members| == 0 {
      assert members + [m] == [m];
    } else {
      assert (members + [m])[1..] == members[1..] + [m];
      TotalCBAppend(members[1..], m);
    }
  }

  /** Members whose balance feeds the surplus: surplus ones, and (for
      robustness) compliant ones with a positive balance. */
  function FundsSurplus(m: PoolMember): (funds: bool)
    ensures m.initialState == Classify(m.complianceBalance) ==> (funds <==> m.complianceBalance > 0.0)
  {
    m.initialState == Surplus || (m.initialState == Compliant && m.complianceBalance > 0.0)
  }

  /** The surplus available to the greedy pass. */
  function AvailableSurplus(cs: seq<PoolMember>): (total: real)
    requires WellClassified(cs)
    ensures total >= 0.0
  {
    if |cs| == 0 then 0.0
    else (if FundsSurplus(cs[0]) then cs[0].complianceBalance else 0.0) + AvailableSurplus(cs[1..])
  }

  /** What it takes to bring every deficit member to zero. */
  function DeficitNeed(cs: seq<PoolMember>): (need: real)
    ensures need >= 0.0
    decreases |cs|
  {
    if |cs| == 0 then 0.0
    else (if cs[0].initialState == Deficit then Abs(cs[0].complianceBalance) else 0.0) + DeficitNeed(cs[1..])
  }

  /** Total relief given: how much the balances rose from `before` to `after`. */
  function Relief(before: seq<PoolMember>, after: seq<PoolMember>): (relief: real)
    requires |before| == |after|
    decreases |before|
  {
    if |before| == 0 then 0.0
    else (after[0].complianceBalance - before[0].complianceBalance) + Relief(before[1..], after[1..])
  }

  lemma {:induction false} ReliefOfUnchanged(cs: seq<PoolMember>)
    ensures Relief(cs, cs) == 0.0
    decreases |cs|
  {
    if |cs| > 0 {
      ReliefOfUnchanged(cs[1..]);
    }
  }

  /** The aggregate balance is the available surplus minus the total need. */
  lemma {:induction false} TotalIsSurplusMinusNeed(members: seq<MemberInput>)
    ensures TotalCB(members) == AvailableSurplus(ClassifyAll(members)) - DeficitNeed(ClassifyAll(members))
    decreases |members|
  {
    if |members| > 0 {
      assert ClassifyAll(members)[1..] == ClassifyAll(members[1..]);
      TotalIsSurplusMinusNeed(members[1..]);
    }
  }

  // ---------------------------------------------------------------------
  // Greedy allocation

  /** The greedy pass over the members in input order. A deficit member whose
      need fits in the available surplus is brought to zero and the surplus
      drawn down; otherwise it receives all that is left and the pass stops.
      Other members are passed through untouched. */
  function Allocate(cs: seq<PoolMember>, available: real): (a: Allocation)
    requires WellClassified(cs)
    requires available >= 0.0
    ensures |a.members| == |cs|
    ensures forall i :: 0 <= i < |cs| ==>
              a.members[i].recordId == cs[i].recordId && a.members[i].initialState == cs[i].initialState
    ensures forall i :: 0 <= i < |cs| && cs[i].initialState != Deficit ==> a.members[i] == cs[i]
    ensures forall i :: 0 <= i < |cs| && cs[i].initialState == Deficit ==>
              cs[i].complianceBalance <= a.members[i].complianceBalance <= 0.0
    ensures 0.0 <= a.leftover <= available
    ensures a.leftover + Relief(cs, a.members) == available
    // the partial branch hands over everything that is left
    ensures a.brokeEarly ==> a.leftover == 0.0
    // input order: a member is changed only once every deficit before it is zeroed
    ensures forall i, j :: 0 <= i < j < |cs| && cs[i].initialState == Deficit && a.members[j] != cs[j] ==>
              a.members[i].complianceBalance == 0.0
    decreases |cs|
  {
    if |cs| == 0 then Allocation([], available, false)
    else
      var m := cs[0];
      if m.initialState != Deficit then
        var rest := Allocate(cs[1..], available);
        Allocation([m] + rest.members, rest.leftover, rest.brokeEarly)
      else
        var need := Abs(m.complianceBalance);
        if available >= need then
          var rest := Allocate(cs[1..], available - need);
          Allocation([m.(complianceBalance := 0.0)] + rest.members, rest.leftover, rest.brokeEarly)
        else
          ReliefOfUnchanged(cs[1..]);
          Allocation([m.(complianceBalance := m.complianceBalance + available)] + cs[1..], 0.0, true)
  }

  /** The pass stops early exactly when the surplus does not cover the total
      need. */
  lemma {:induction false} BrokeEarlyIff(cs: seq<PoolMember>, available: real)
    requires WellClassified(cs)
    requires available >= 0.0
    ensures Allocate(cs, available).brokeEarly <==> available < DeficitNeed(cs)
    decreases |cs|
  {
    if |cs| > 0 {
      var m := cs[0];
      if m.initialState != Deficit {
        BrokeEarlyIff(cs[1..], available);
      } else if available >= Abs(m.complianceBalance) {
        BrokeEarlyIff(cs[1..], available - Abs(m.complianceBalance));
      }
    }
  }

  /** When the surplus covers the total need, every deficit member ends at
      exactly zero and the leftover is the surplus minus the need. */
  lemma {:induction false} CoveredDeficitsAreZeroed(cs: seq<PoolMember>, available: real)
    requires WellClassified(cs)
    requires available >= DeficitNeed(cs)
    requires available >= 0.0
    ensures forall i :: 0 <= i < |cs| && cs[i].initialState == Deficit ==>
              Allocate(cs, available).members[i].complianceBalance == 0.0
    ensures Allocate(cs, available).leftover == available - DeficitNeed(cs)
    ensures !Allocate(cs, available).brokeEarly
    decreases |cs|
  {
    if |cs| > 0 {
      var m := cs[0];
      var a := Allocate(cs, available);
      var next := if m.initialState == Deficit then available - Abs(m.complianceBalance) else available;
      CoveredDeficitsAreZeroed(cs[1..], next);
      var rest := Allocate(cs[1..], next);
      assert a.members[1..] == rest.members && a.leftover == rest.leftover && a.brokeEarly == rest.brokeEarly;
      forall i | 1 <= i < |cs| && cs[i].initialState == Deficit
        ensures a.members[i].complianceBalance == 0.0
      {
        assert cs[1..][i - 1] == cs[i];
        assert a.members[i] == rest.members[i - 1];
      }
    }
  }

  /** For an admissible batch (non-negative aggregate) the greedy pass never
      takes its partial branch, zeroes every deficit and leaves exactly the
      aggregate balance as surplus. */
  lemma AdmissibleBatchIsFullyCovered(members: seq<MemberInput>)
    requires TotalCB(members) >= 0.0
    ensures !Allocate(ClassifyAll(members), AvailableSurplus(ClassifyAll(members))).brokeEarly
    ensures Allocate(ClassifyAll(members), AvailableSurplus(ClassifyAll(members))).leftover == TotalCB(members)
    ensures forall i :: 0 <= i < |members| && ClassifyAll(members)[i].initialState == Deficit ==>
              Allocate(ClassifyAll(members), AvailableSurplus(ClassifyAll(members))).members[i].complianceBalance == 0.0
  {
    var cs := ClassifyAll(members);
    TotalIsSurplusMinusNeed(members);
    CoveredDeficitsAreZeroed(cs, AvailableSurplus(cs));
  }

  // ---------------------------------------------------------------------
  // Post-allocation validation

  /** The first deficit member whose balance after allocation is below its
      balance before, if any. */
  function FirstWorsenedDeficit(before: seq<PoolMember>, after: seq<PoolMember>): (r: Option<string>)
    requires |before| == |after|
    ensures r.None? <==> forall i :: 0 <= i < |before| && before[i].initialState == Deficit ==>
                           after[i].complianceBalance >= before[i].complianceBalance
    ensures r.Some? ==> exists i :: 0 <= i < |before| && before[i].initialState == Deficit &&
                           after[i].complianceBalance < before[i].complianceBalance && r.value == before[i].recordId &&
                           forall j :: 0 <= j < i && before[j].initialState == Deficit ==>
                             after[j].complianceBalance >= before[j].complianceBalance
    decreases |before|
  {
    if |before| == 0 then None
    else if before[0].initialState == Deficit && after[0].complianceBalance < before[0].complianceBalance then
      Some(before[0].recordId)
    else
      var r := FirstWorsenedDeficit(before[1..], after[1..]);
      assert forall i :: 1 <= i < |before| ==> before[i] == before[1..][i - 1] && after[i] == after[1..][i - 1];
      r
  }

  /** The first surplus member whose balance after allocation is negative,
      if any. */
  function FirstNegativeSurplus(before: seq<PoolMember>, after: seq<PoolMember>): (r: Option<string>)
    requires |before| == |after|
    ensures r.None? <==> forall i :: 0 <= i < |before| && before[i].initialState == Surplus ==>
                           after[i].complianceBalance >= 0.0
    ensures r.Some? ==> exists i :: 0 <= i < |before| && before[i].initialState == Surplus &&
                           after[i].complianceBalance < 0.0 && r.value == before[i].recordId &&
                           forall j :: 0 <= j < i && before[j].initialState == Surplus ==> after[j].complianceBalance >= 0.0
    decreases |before|
  {
    if |before| == 0 then None
    else if before[0].initialState == Surplus && after[0].complianceBalance < 0.0 then
      Some(before[0].recordId)
    else
      var r := FirstNegativeSurplus(before[1..], after[1..]);
      assert forall i :: 1 <= i < |before| ==> before[i] == before[1..][i - 1] && after[i] == after[1..][i - 1];
      r
  }

  // ---------------------------------------------------------------------
  // The use case

  function Execute(s: Ports.Store, req: PoolRequest): (r: Ports.Step<PoolResponse>)
    ensures r.out == Rejected(EmptyPool) <==> |req.members| == 0
    ensures r.out == Rejected(NegativeAggregate(TotalCB(req.members))) <==>
              |req.members| > 0 && TotalCB(req.members) < 0.0
    // nothing is persisted on a rejection
    ensures r.out.Rejected? ==> r.store == s
    // a created pool is persisted once, with the input record ids in order
    ensures r.out.Created? ==>
              && r.store == Ports.CreatePool(s, Pool(req.poolId, req.poolName, RecordIds(req.members)))
              && r.store.pools == s.pools + [Pool(req.poolId, req.poolName, RecordIds(req.members))]
    ensures r.out.Created? ==>
              var ms := req.members;
              var al := r.out.allocation;
              && r.out.totalCB == TotalCB(ms) >= 0.0
              && |al| == |ms|
              && (forall i :: 0 <= i < |ms| ==>
                    && al[i].recordId == ms[i].recordId
                    && al[i].initialState == Classify(ms[i].complianceBalance))
              // every deficit is brought to exactly zero
              && (forall i :: 0 <= i < |ms| && ms[i].complianceBalance < 0.0 ==> al[i].complianceBalance == 0.0)
              // surplus and compliant members keep their balance
              && (forall i :: 0 <= i < |ms| && ms[i].complianceBalance >= 0.0 ==>
                    al[i].complianceBalance == ms[i].complianceBalance)
  {
    if |req.members| == 0 then Ports.Step(Rejected(EmptyPool), s)
    else
      var total := TotalCB(req.members);
      if total < 0.0 then Ports.Step(Rejected(NegativeAggregate(total)), s)
      else
        var classified := ClassifyAll(req.members);
        var allocation := Allocate(classified, AvailableSurplus(classified));
        match FirstWorsenedDeficit(classified, allocation.members)
        case Some(id) => Ports.Step(Rejected(DeficitWorse(id)), s)
        case None =>
          match FirstNegativeSurplus(classified, allocation.members)
          case Some(id) => Ports.Step(Rejected(SurplusNegative(id)), s)
          case None =>
            AdmissibleBatchIsFullyCovered(req.members);
            var pool := Pool(req.poolId, req.poolName, RecordIds(req.members));
            Ports.Step(Created(allocation.members, total), Ports.CreatePool(s, pool))
  }

  /** The two post-allocation validations never reject: the greedy pass
      never lowers a deficit and never touches a surplus. */
  lemma PostValidationsPass(members: seq<MemberInput>)
    ensures var cs := ClassifyAll(members);
            var a := Allocate(cs, AvailableSurplus(cs));
            FirstWorsenedDeficit(cs, a.members).None? && FirstNegativeSurplus(cs, a.members).None?
  {
  }

  /** A pool is created exactly when the batch is non-empty and its
      aggregate balance is non-negative (zero included). */
  lemma CreatedIff(s: Ports.Store, req: PoolRequest)
    ensures Execute(s, req).out.Created? <==> |req.members| > 0 && TotalCB(req.members) >= 0.0
  {
  }

  /** A deficit of 30 next to a surplus of 80: the deficit ends at zero and
      the surplus keeps its 80. */
  lemma MixedPoolExample(s: Ports.Store)
    ensures var r := Execute(s, PoolRequest("pool-1", "Mixed Pool",
                       [MemberInput("ship-deficit", -30.0), MemberInput("ship-surplus", 80.0)]));
            && r.out.Created?
            && r.out.allocation == [PoolMember("ship-deficit", 0.0, Deficit), PoolMember("ship-surplus", 80.0, Surplus)]
            && r.out.totalCB == 50.0
  {
    var ms := [MemberInput("ship-deficit", -30.0), MemberInput("ship-surplus", 80.0)];
    assert TotalCB(ms) == 50.0;
    CreatedIff(s, PoolRequest("pool-1", "Mixed Pool", ms));
  }

  /** A deficit of 100 next to a surplus of 50 sums to -50: rejected, and no
      pool is persisted. */
  lemma NegativePoolExample(s: Ports.Store)
    ensures var r := Execute(s, PoolRequest("pool-1", "Atlantic Pool",
                       [MemberInput("ship-a", -100.0), MemberInput("ship-b", 50.0)]));
            r.out == Rejected(NegativeAggregate(-50.0)) && r.store == s
  {
    assert TotalCB([MemberInput("ship-a", -100.0), MemberInput("ship-b", 50.0)]) == -50.0;
  }

  /** A deficit of 50 next to a surplus of 50 sums to zero, which is
      accepted. */
  lemma BalancedPoolExample(s: Ports.Store)
    ensures var r := Execute(s, PoolRequest("pool-1", "Balanced Pool",
                       [MemberInput("ship-a", -50.0), MemberInput("ship-b", 50.0)]));
            && r.out.Created?
            && r.out.allocation == [PoolMember("ship-a", 0.0, Deficit), PoolMember("ship-b", 50.0, Surplus)]
            && r.out.totalCB == 0.0
  {
    var ms := [MemberInput("ship-a", -50.0), MemberInput("ship-b", 50.0)];
    assert TotalCB(ms) == 0.0;
    CreatedIff(s, PoolRequest("pool-1", "Balanced Pool", ms));
  }
}
