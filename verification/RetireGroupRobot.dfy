/** The retirement of the group-robot pallets: node stakes and subscription escrows are
    released, pending rewards are paid from the reward pool, then their storage is wiped. */
module RetireGroupRobot {
  import opened Sums
  import opened Balances
  import opened Retirement

  type Id = nat

  datatype Node = Node(operator: AccountId, stake: nat)

  /** Encoded rows appear as what they decode to, `None` if they do not decode. */
  datatype Tables = Tables(
    nodes: map<Id, Option<Node>>,
    subscriptions: map<Id, Option<AccountId>>,
    subscriptionEscrow: map<Id, nat>,
    bots: map<Id, Option<AccountId>>,
    nodePending: map<Id, nat>,
    ownerPending: map<Id, nat>,
    rewardRecipients: map<Id, AccountId>)

  const WIPED: Tables := Tables(map[], map[], map[], map[], map[], map[], map[])

  function Decoded(rows: map<Id, Option<AccountId>>, id: Id): Option<AccountId> {
    if id in rows then rows[id] else None
  }

  function Operator(t: Tables, id: Id): Option<AccountId> {
    if id in t.nodes && t.nodes[id].Some? then Some(t.nodes[id].value.operator) else None
  }

  function NodeClaim(row: Option<Node>): Claim {
    match row
    case None => Claim(None, 0, true)
    case Some(node) => Claim(Some(node.operator), node.stake, true)
  }

  /** A node row must decode even if nothing is staked. */
  function NodeClaims(t: Tables): map<Id, Claim> {
    map id | id in t.nodes :: NodeClaim(t.nodes[id])
  }

  function EscrowClaims(t: Tables): map<Id, Claim> {
    map id | id in t.subscriptionEscrow :: Claim(Decoded(t.subscriptions, id), t.subscriptionEscrow[id], false)
  }

  /** The registered recipient, or else the node's operator. */
  function NodeRewardClaims(t: Tables): map<Id, Claim> {
    map id | id in t.nodePending ::
      Claim(if id in t.rewardRecipients then Some(t.rewardRecipients[id]) else Operator(t, id), t.nodePending[id],
          false)
  }

  function OwnerRewardClaims(t: Tables): map<Id, Claim> {
    map id | id in t.ownerPending :: Claim(Decoded(t.bots, id), t.ownerPending[id], false)
  }

  ghost predicate Resolvable(t: Tables) {
    && AllResolved(NodeClaims(t)) && AllResolved(EscrowClaims(t))
    && AllResolved(NodeRewardClaims(t)) && AllResolved(OwnerRewardClaims(t))
  }

  ghost function ReservedFor(t: Tables, who: AccountId): nat {
    Attributed(NodeClaims(t), who) + Attributed(EscrowClaims(t), who)
  }

  ghost function ClaimableBy(t: Tables, who: AccountId): nat {
    Attributed(NodeRewardClaims(t), who) + Attributed(OwnerRewardClaims(t), who)
  }

  /** The plan these tables call for: there is exactly one. */
  ghost predicate Collected(t: Tables, plan: Plan) {
    && Resolvable(t) && Positive(plan.unreserve) && Positive(plan.payout)
    && (forall who :: At(plan.unreserve, who) == Min(ReservedFor(t, who), MAX_BALANCE))
    && (forall who :: At(plan.payout, who) == Min(ClaimableBy(t, who), MAX_BALANCE))
  }

  lemma PlanIsUnique(t: Tables, p: Plan, q: Plan)
    requires Collected(t, p) && Collected(t, q)
    ensures p == q
  {
    SameAmounts(p.unreserve, q.unreserve);
    SameAmounts(p.payout, q.payout);
  }

  /** A plan that passes the preflight gives every account exactly the sum of the rows
      attributed to it, and all accounts together exactly what the tables hold. */
  lemma PlanIsExact(t: Tables, b: Bank, plan: Plan)
    requires Collected(t, plan) && b.Valid() && b.issuance < MAX_BALANCE && Affordable(b, plan, RewardPool)
    ensures forall who :: At(plan.unreserve, who) == ReservedFor(t, who) && At(plan.payout, who) == ClaimableBy(t, who)
    ensures SumOf(plan.unreserve) == Total(NodeClaims(t)) + Total(EscrowClaims(t))
    ensures SumOf(plan.payout) == Total(NodeRewardClaims(t)) + Total(OwnerRewardClaims(t))
  {
    hide Attributed, Total, NodeClaims, EscrowClaims, NodeRewardClaims, OwnerRewardClaims, Affordable, Bank.Valid;
    forall who ensures At(plan.unreserve, who) == ReservedFor(t, who) && At(plan.payout, who) == ClaimableBy(t, who) {
      NothingSaturated(b, plan, RewardPool, who);
    }
    var m1 := TakeTableAway(NodeClaims(t), plan.unreserve);
    var m2 := TakeTableAway(EscrowClaims(t), m1);
    NothingLeft(m2);
    var n1 := TakeTableAway(NodeRewardClaims(t), plan.payout);
    var n2 := TakeTableAway(OwnerRewardClaims(t), n1);
    NothingLeft(n2);
  }

  /** Four tables added one after the other make the plan. */
  lemma AddedIsCollected(t: Tables, u1: Amounts, u2: Amounts, p1: Amounts, p2: Amounts)
    requires Resolvable(t)
    requires AddedUp(map[], u1, NodeClaims(t)) && AddedUp(u1, u2, EscrowClaims(t))
    requires AddedUp(map[], p1, NodeRewardClaims(t)) && AddedUp(p1, p2, OwnerRewardClaims(t))
    ensures Collected(t, Plan(u2, p2))
  {
    hide Attributed, NodeClaims, EscrowClaims, NodeRewardClaims, OwnerRewardClaims;
    forall who ensures At(u2, who) == Min(ReservedFor(t, who), MAX_BALANCE)
        && At(p2, who) == Min(ClaimableBy(t, who), MAX_BALANCE) {
      assert At(map[], who) == 0;
    }
  }

  /** The refund that the tables and the balances call for can be carried out. */
  ghost predicate Refundable(t: Tables, b: Bank) {
    exists plan :: Collected(t, plan) && Affordable(b, plan, RewardPool) && Payable(b, plan, RewardPool)
  }

  lemma CollectedFacts(t: Tables)
    ensures forall plan :: Collected(t, plan) ==> Resolvable(t) && Positive(plan.unreserve) && Positive(plan.payout)
  {
  }

  lemma UpTo<K>(m: Amounts, m': Amounts, claims: map<K, Claim>)
    requires AddedUp(m, m', claims)
    ensures Positive(m')
  {
  }

  class GroupRobotRetirement {
    var tables: Tables
    var bank: Bank
    var version: nat

    constructor (tables: Tables, bank: Bank)
      ensures this.tables == tables && this.bank == bank && version == 0
    {
      this.tables, this.bank, this.version := tables, bank, 0;
    }

    /** One pass over each table, then the preflight. */
    method CollectPlan() returns (r: Option<Plan>)
      ensures r.Some? ==> Collected(tables, r.value) && Affordable(bank, r.value, RewardPool)
      ensures r.None? ==> forall plan :: Collected(tables, plan) ==> !Affordable(bank, plan, RewardPool)
    {
      hide Affordable, AddedUp, Collected, AllResolved, Attributed, NodeClaims, EscrowClaims, NodeRewardClaims,
          OwnerRewardClaims;
      CollectedFacts(tables);
      var ok, unreserve, payout := true, map[], map[];
      ok, unreserve := AddTable(NodeClaims(tables), unreserve);
      if !ok { return None; }
      ghost var u1 := unreserve;
      UpTo(map[], u1, NodeClaims(tables));
      ok, unreserve := AddTable(EscrowClaims(tables), unreserve);
      if !ok { return None; }
      ok, payout := AddTable(NodeRewardClaims(tables), payout);
      if !ok { return None; }
      ghost var p1 := payout;
      UpTo(map[], p1, NodeRewardClaims(tables));
      ok, payout := AddTable(OwnerRewardClaims(tables), payout);
      if !ok { return None; }
      var plan := Plan(unreserve, payout);
      AddedIsCollected(tables, u1, unreserve, p1, payout);
      ok := Preflight(bank, plan, RewardPool);
      forall other | Collected(tables, other) ensures other == plan { PlanIsUnique(tables, other, plan); }
      r := if ok then Some(plan) else None;
    }

    /** The migration. An error aborts the upgrade, which leaves nothing of it behind. */
    method OnRuntimeUpgrade() returns (ok: bool)
      requires bank.Valid() && bank.issuance < MAX_BALANCE
      modifies this`bank, this`version
      ensures old(version) >= RETIRED_VERSION ==> ok && bank == old(bank) && version == old(version)
      ensures old(version) < RETIRED_VERSION ==> (ok <==> Refundable(tables, old(bank)))
      ensures ok ==> version >= RETIRED_VERSION
      ensures !ok ==> bank == old(bank) && version == old(version)
      ensures ok && old(version) < RETIRED_VERSION ==>
        exists plan :: Collected(tables, plan) && Settled(old(bank), bank, plan, RewardPool)
    {
      hide Collected, Affordable, Payable, Settled, Bank.Valid;
      if version >= RETIRED_VERSION { return true; }
      var collected := CollectPlan();
      if collected.None? { return false; }
      var plan := collected.value;
      forall other | Collected(tables, other) ensures other == plan { PlanIsUnique(tables, other, plan); }
      CollectedFacts(tables);
      var after;
      ok, after := ApplyPlan(bank, plan, RewardPool);
      if !ok { return; }
      bank := after;
      version := RETIRED_VERSION;
    }

    /** Wipes the tables only once the refund is on record. */
    method RemoveAfterRefund() returns (ok: bool)
      modifies this`tables
      ensures ok <==> version >= RETIRED_VERSION
      ensures tables == if ok then WIPED else old(tables)
    {
      if version < RETIRED_VERSION { return false; }
      tables := WIPED;
      ok := true;
    }

    /** Refund and wipe in one upgrade, from an unretired state: the rows are gone only if
        every one of them was settled exactly. */
    method Retire() returns (ok: bool)
      requires bank.Valid() && bank.issuance < MAX_BALANCE && version < RETIRED_VERSION
      modifies this
      ensures ok <==> Refundable(old(tables), old(bank))
      ensures !ok ==> tables == old(tables) && bank == old(bank) && version == old(version)
      ensures ok ==> tables == WIPED && exists plan ::
          Collected(old(tables), plan) && Settled(old(bank), bank, plan, RewardPool)
    {
      hide Collected, Refundable, Settled, Bank.Valid;
      ok := OnRuntimeUpgrade();
      if ok { ok := RemoveAfterRefund(); }
    }
  }
}
