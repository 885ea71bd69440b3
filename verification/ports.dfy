/** The repository ports the use cases call, replaced by one immutable state
    record: the known route ids, the bank ledger, the stored compliance
    balances keyed by (route id, period), and the created pools. Each port
    operation is a function on that record. */
module Ports {
  import opened Wrappers
  import opened Domain

  datatype Store = Store(
    routes: set<string>,
    ledger: seq<BankEntry>,
    balances: map<(string, string), real>,
    pools: seq<Pool>)

  /** A use case's answer together with the state it leaves behind. */
  datatype Step<+T> = Step(out: T, store: Store)

  /** Route lookup by id: found or not found. */
  predicate RouteExists(s: Store, routeId: string)
  {
    routeId in s.routes
  }

  /** Cumulative amount banked for a route over every period: the sum of the
      ledger's entries for that route, zero when there are none. */
  function TotalBanked(ledger: seq<BankEntry>, routeId: string): (total: real)
    ensures (forall i :: 0 <= i < |ledger| ==> ledger[i].routeId != routeId) ==> total == 0.0
    ensures (forall i :: 0 <= i < |ledger| && ledger[i].routeId == routeId ==> ledger[i].amount >= 0.0) ==> total >= 0.0
    decreases |ledger|
  {
    if |ledger| == 0 then 0.0
    else (if ledger[0].routeId == routeId then ledger[0].amount else 0.0) + TotalBanked(ledger[1..], routeId)
  }

  /** Appending an entry adds its amount to its own route's total and
      leaves every other route's total alone. */
  lemma {:induction false} TotalBankedAppend(ledger: seq<BankEntry>, e: BankEntry, routeId: string)
    ensures TotalBanked(ledger + [e], routeId)
         == TotalBanked(ledger, routeId) + (if e.routeId == routeId then e.amount else 0.0)
    decreases |ledger|
  {
    if |ledger| == 0 {
      assert ledger + [e] == [e];
    } else {
      assert (ledger + [e])[1..] == ledger[1..] + [e];
      TotalBankedAppend(ledger[1..], e, routeId);
    }
  }

  /** Append one bank entry to the ledger. */
  function SaveBankEntry(s: Store, routeId: string, amount: real, period: string): (s': Store)
    ensures s'.ledger == s.ledger + [BankEntry(routeId, amount, period)]
    ensures TotalBanked(s'.ledger, routeId) == TotalBanked(s.ledger, routeId) + amount
    ensures forall r :: r != routeId ==> TotalBanked(s'.ledger, r) == TotalBanked(s.ledger, r)
    ensures s'.routes == s.routes && s'.balances == s.balances && s'.pools == s.pools
  {
    var e := BankEntry(routeId, amount, period);
    TotalBankedAppend(s.ledger, e, routeId);
    assert forall r :: r != routeId ==> TotalBanked(s.ledger + [e], r) == TotalBanked(s.ledger, r) by {
      forall r | r != routeId {
        TotalBankedAppend(s.ledger, e, r);
      }
    }
    s.(ledger := s.ledger + [e])
  }

  /** Stored compliance balance for (route, period), if any. */
  function GetComplianceBalance(s: Store, routeId: string, period: string): Option<real>
  {
    if (routeId, period) in s.balances then Some(s.balances[(routeId, period)]) else None
  }

  /** Upsert the compliance balance of (route, period): a later save for the
      same key overwrites the earlier one. */
  function SaveComplianceBalance(s: Store, routeId: string, balance: real, period: string): (s': Store)
    ensures GetComplianceBalance(s', routeId, period) == Some(balance)
    ensures forall r, p :: (r, p) != (routeId, period) ==> GetComplianceBalance(s', r, p) == GetComplianceBalance(s, r, p)
    ensures s'.routes == s.routes && s'.ledger == s.ledger && s'.pools == s.pools
  {
    s.(balances := s.balances[(routeId, period) := balance])
  }

  /** Persist a new pool. */
  function CreatePool(s: Store, pool: Pool): Store
  {
    s.(pools := s.pools + [pool])
  }
}
