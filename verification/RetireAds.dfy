/** The retirement of the advertising pallets: seven tables of reserves and claimable
    revenue, refunded from the treasury before their storage is wiped. */
module RetireAds {
  import opened Sums
  import opened Balances
  import opened Retirement

  type Id = nat

  /** Encoded rows appear as what they decode to, `None` if they do not decode. */
  datatype Tables = Tables(
    campaigns: map<Id, Option<AccountId>>,
    campaignEscrow: map<Id, nat>,
    placements: map<Id, Option<AccountId>>,
    placementDeposits: map<Id, nat>,
    placementClaimable: map<Id, nat>,
    referrerClaimable: map<AccountId, nat>,
    communityStakers: map<(Id, AccountId), nat>,
    unbonding: map<(Id, AccountId), seq<nat>>,
    communityAdmins: map<Id, AccountId>,
    stakerClaimable: map<(Id, AccountId), nat>)

  const WIPED: Tables := Tables(map[], map[], map[], map[], map[], map[], map[], map[], map[], map[])

  function Decoded(rows: map<Id, Option<AccountId>>, id: Id): Option<AccountId> {
    if id in rows then rows[id] else None
  }

  /** Who registered the placement, or else who administers the community. */
  function ClaimRecipient(t: Tables, id: Id): Option<AccountId> {
    if Decoded(t.placements, id).Some? then Decoded(t.placements, id)
    else if id in t.communityAdmins then Some(t.communityAdmins[id]) else None
  }

  function QueueTotal(queue: seq<nat>): nat {
    if queue == [] then 0 else Min(QueueTotal(queue[..|queue| - 1]) + queue[|queue| - 1], MAX_BALANCE)
  }

  function EscrowClaims(t: Tables): map<Id, Claim> {
    map id | id in t.campaignEscrow :: Claim(Decoded(t.campaigns, id), t.campaignEscrow[id], false)
  }

  function DepositClaims(t: Tables): map<Id, Claim> {
    map id | id in t.placementDeposits :: Claim(Decoded(t.placements, id), t.placementDeposits[id], false)
  }

  function StakeClaims(t: Tables): map<(Id, AccountId), Claim> {
    map key | key in t.communityStakers :: Claim(Some(key.1), t.communityStakers[key], false)
  }

  function UnbondingClaims(t: Tables): map<(Id, AccountId), Claim> {
    map key | key in t.unbonding :: Claim(Some(key.1), QueueTotal(t.unbonding[key]), false)
  }

  function PlacementClaims(t: Tables): map<Id, Claim> {
    map id | id in t.placementClaimable :: Claim(ClaimRecipient(t, id), t.placementClaimable[id], false)
  }

  function ReferrerClaims(t: Tables): map<AccountId, Claim> {
    map who | who in t.referrerClaimable :: Claim(Some(who), t.referrerClaimable[who], false)
  }

  function StakerClaims(t: Tables): map<(Id, AccountId), Claim> {
    map key | key in t.stakerClaimable :: Claim(Some(key.1), t.stakerClaimable[key], false)
  }

  /** Every row that holds anything belongs to somebody. */
  ghost predicate Resolvable(t: Tables) {
    AllResolved(EscrowClaims(t)) && AllResolved(DepositClaims(t)) && AllResolved(PlacementClaims(t))
  }

  ghost function ReservedFor(t: Tables, who: AccountId): nat {
    Attributed(EscrowClaims(t), who) + Attributed(DepositClaims(t), who)
    + Attributed(StakeClaims(t), who) + Attributed(UnbondingClaims(t), who)
  }

  ghost function ClaimableBy(t: Tables, who: AccountId): nat {
    Attributed(PlacementClaims(t), who) + Attributed(ReferrerClaims(t), who) + Attributed(StakerClaims(t), who)
  }

  /** The plan these tables call for: there is exactly one. */
  ghost predicate Collected(t: Tables, plan: Plan) {
    && Resolvable(t) && Positive(plan.unreserve) && Positive(plan.payout)
    && (forall who :: At(plan.unreserve, who) == Min(ReservedFor(t, who), MAX_BALANCE))
    && (forall who :: At(plan.payout, who) == Min(ClaimableBy(t, who), MAX_BALANCE))
  }

  lemma PlanIsUnique(t: Tables, p: Plan, q: Plan)
    requires Collected(t, p) && Collected(t, q)
    ensures p == q
  {
    SameAmounts(p.unreserve, q.unreserve);
    SameAmounts(p.payout, q.payout);
  }

  ghost function ReservedTotal(t: Tables): nat {
    Total(EscrowClaims(t)) + Total(DepositClaims(t)) + Total(StakeClaims(t)) + Total(UnbondingClaims(t))
  }

  ghost function ClaimableTotal(t: Tables): nat {
    Total(PlacementClaims(t)) + Total(ReferrerClaims(t)) + Total(StakerClaims(t))
  }

  /** A plan that passes the preflight gives every account exactly the sum of the rows
      attributed to it, and all accounts together exactly what the tables hold. */
  lemma PlanIsExact(t: Tables, b: Bank, plan: Plan)
    requires Collected(t, plan) && b.Valid() && b.issuance < MAX_BALANCE && Affordable(b, plan, Treasury)
    ensures forall who :: At(plan.unreserve, who) == ReservedFor(t, who) && At(plan.payout, who) == ClaimableBy(t, who)
    ensures SumOf(plan.unreserve) == ReservedTotal(t) && SumOf(plan.payout) == ClaimableTotal(t)
  {
    hide Attributed, Total, EscrowClaims, DepositClaims, PlacementClaims, Affordable, Bank.Valid;
    forall who ensures At(plan.unreserve, who) == ReservedFor(t, who) && At(plan.payout, who) == ClaimableBy(t, who) {
      NothingSaturated(b, plan, Treasury, who);
    }
    var m1 := TakeTableAway(EscrowClaims(t), plan.unreserve);
    var m2 := TakeTableAway(DepositClaims(t), m1);
    var m3 := TakeTableAway(StakeClaims(t), m2);
    var m4 := TakeTableAway(UnbondingClaims(t), m3);
    NothingLeft(m4);
    var n1 := TakeTableAway(PlacementClaims(t), plan.payout);
    var n2 := TakeTableAway(ReferrerClaims(t), n1);
    var n3 := TakeTableAway(StakerClaims(t), n2);
    NothingLeft(n3);
  }

  lemma NothingYet(t: Tables)
    ensures Positive(map[]) && AllResolved(StakeClaims(t)) && AllResolved(UnbondingClaims(t))
    ensures AllResolved(ReferrerClaims(t)) && AllResolved(StakerClaims(t))
    ensures forall plan :: Collected(t, plan) ==>
      AllResolved(EscrowClaims(t)) && AllResolved(DepositClaims(t)) && AllResolved(PlacementClaims(t))
  {
  }

  lemma UpTo<K>(m: Amounts, m': Amounts, claims: map<K, Claim>)
    requires AddedUp(m, m', claims)
    ensures Positive(m')
  {
  }

  /** Seven tables added one after the other make the plan. */
  lemma AddedIsCollected(t: Tables, u1: Amounts, u2: Amounts, u3: Amounts, u4: Amounts, p1: Amounts, p2: Amounts,
                         p3: Amounts)
    requires Resolvable(t)
    requires AddedUp(map[], u1, EscrowClaims(t)) && AddedUp(u1, u2, DepositClaims(t))
    requires AddedUp(u2, u3, StakeClaims(t)) && AddedUp(u3, u4, UnbondingClaims(t))
    requires AddedUp(map[], p1, PlacementClaims(t)) && AddedUp(p1, p2, ReferrerClaims(t))
        && AddedUp(p2, p3, StakerClaims(t))
    ensures Collected(t, Plan(u4, p3))
  {
    hide Attributed, EscrowClaims, DepositClaims, PlacementClaims, StakeClaims, UnbondingClaims, ReferrerClaims,
        StakerClaims;
    forall who ensures At(u4, who) == Min(ReservedFor(t, who), MAX_BALANCE)
        && At(p3, who) == Min(ClaimableBy(t, who), MAX_BALANCE) {
      assert At(map[], who) == 0;
      assert At(u2, who) == Min(At(u1, who) + Attributed(DepositClaims(t), who), MAX_BALANCE);
      assert At(u3, who) == Min(At(u2, who) + Attributed(StakeClaims(t), who), MAX_BALANCE);
      assert At(p2, who) == Min(At(p1, who) + Attributed(ReferrerClaims(t), who), MAX_BALANCE);
    }
  }

  /** The refund that the tables and the balances call for can be carried out. */
  ghost predicate Refundable(t: Tables, b: Bank) {
    exists plan :: Collected(t, plan) && Affordable(b, plan, Treasury) && Payable(b, plan, Treasury)
  }

  class AdsRetirement {
    var tables: Tables
    var bank: Bank
    var version: nat

    constructor (tables: Tables, bank: Bank)
      ensures this.tables == tables && this.bank == bank && version == 0
    {
      this.tables, this.bank, this.version := tables, bank, 0;
    }

    /** One pass over each table, then the preflight. */
    method CollectPlan() returns (r: Option<Plan>)
      ensures r.Some? ==> Collected(tables, r.value) && Affordable(bank, r.value, Treasury)
      ensures r.None? ==> forall plan :: Collected(tables, plan) ==> !Affordable(bank, plan, Treasury)
    {
      hide Affordable, AddedUp, Collected, AllResolved, Positive, Attributed, EscrowClaims, DepositClaims,
          PlacementClaims, StakeClaims, UnbondingClaims, ReferrerClaims, StakerClaims;
      NothingYet(tables);
      var ok, unreserve, payout := true, map[], map[];
      ok, unreserve := AddTable(EscrowClaims(tables), unreserve);
      if !ok { return None; }
      ghost var u1 := unreserve;
      UpTo(map[], u1, EscrowClaims(tables));
      ok, unreserve := AddTable(DepositClaims(tables), unreserve);
      if !ok { return None; }
      ghost var u2 := unreserve;
      UpTo(u1, u2, DepositClaims(tables));
      ok, payout := AddTable(PlacementClaims(tables), payout);
      if !ok { return None; }
      ghost var p1 := payout;
      UpTo(map[], p1, PlacementClaims(tables));
      ok, payout := AddTable(ReferrerClaims(tables), payout);
      ghost var p2 := payout;
      UpTo(p1, p2, ReferrerClaims(tables));
      ok, unreserve := AddTable(StakeClaims(tables), unreserve);
      ghost var u3 := unreserve;
      UpTo(u2, u3, StakeClaims(tables));
      ok, unreserve := AddTable(UnbondingClaims(tables), unreserve);
      ok, payout := AddTable(StakerClaims(tables), payout);
      var plan := Plan(unreserve, payout);
      AddedIsCollected(tables, u1, u2, u3, unreserve, p1, p2, payout);
      CollectedIsPositive(tables, plan);
      ok := Preflight(bank, plan, Treasury);
      forall other | Collected(tables, other) ensures other == plan { PlanIsUnique(tables, other, plan); }
      r := if ok then Some(plan) else None;
    }

    /** The migration. An error aborts the upgrade, which leaves nothing of it behind. */
    method OnRuntimeUpgrade() returns (ok: bool)
      requires bank.Valid() && bank.issuance < MAX_BALANCE
      modifies this`bank, this`version
      ensures old(version) >= RETIRED_VERSION ==> ok && bank == old(bank) && version == old(version)
      ensures old(version) < RETIRED_VERSION ==> (ok <==> Refundable(tables, old(bank)))
      ensures ok ==> version >= RETIRED_VERSION
      ensures !ok ==> bank == old(bank) && version == old(version)
      ensures ok && old(version) < RETIRED_VERSION ==>
        exists plan :: Collected(tables, plan) && Settled(old(bank), bank, plan, Treasury)
    {
      hide Collected, Affordable, Payable, Settled, Bank.Valid;
      if version >= RETIRED_VERSION { return true; }
      var collected := CollectPlan();
      if collected.None? { return false; }
      var plan := collected.value;
      forall other | Collected(tables, other) ensures other == plan { PlanIsUnique(tables, other, plan); }
      CollectedIsPositive(tables, plan);
      var after;
      ok, after := ApplyPlan(bank, plan, Treasury);
      if !ok { return; }
      bank := after;
      version := RETIRED_VERSION;
    }

    /** Wipes the tables only once the refund is on record. */
    method RemoveAfterRefund() returns (ok: bool)
      modifies this`tables
      ensures ok <==> version >= RETIRED_VERSION
      ensures tables == if ok then WIPED else old(tables)
    {
      if version < RETIRED_VERSION { return false; }
      tables := WIPED;
      ok := true;
    }

    /** Refund and wipe in one upgrade, from an unretired state: the rows are gone only if
        every one of them was settled exactly. */
    method Retire() returns (ok: bool)
      requires bank.Valid() && bank.issuance < MAX_BALANCE && version < RETIRED_VERSION
      modifies this
      ensures ok <==> Refundable(old(tables), old(bank))
      ensures !ok ==> tables == old(tables) && bank == old(bank) && version == old(version)
      ensures ok ==> tables == WIPED && exists plan ::
          Collected(old(tables), plan) && Settled(old(bank), bank, plan, Treasury)
    {
      hide Collected, Refundable, Settled, Bank.Valid;
      ok := OnRuntimeUpgrade();
      if ok { ok := RemoveAfterRefund(); }
    }
  }

  lemma CollectedIsPositive(t: Tables, plan: Plan)
    requires Collected(t, plan)
    ensures Positive(plan.unreserve) && Positive(plan.payout)
  {
  }
}
