/** The plan of a fund retirement: rows of many tables added up per account, checked
    against the balances, and carried out account by account. */
module Retirement {
  import opened Sums
  import opened Balances

  const RETIRED_VERSION: nat := 1

  /** One row: whose it is, if that can be told, and how much. A row of nothing is skipped
      unless its table must decode anyway. */
  datatype Claim = Claim(owner: Option<AccountId>, amount: nat, mustDecode: bool)
  {
    predicate Resolved() { owner.Some? || (amount == 0 && !mustDecode) }
  }

  type Amounts = map<AccountId, nat>

  datatype Plan = Plan(unreserve: Amounts, payout: Amounts)

  function Shares<K>(claims: map<K, Claim>, who: AccountId): map<K, nat> {
    map k | k in claims && claims[k].owner == Some(who) :: claims[k].amount
  }

  function Rows<K>(claims: map<K, Claim>): map<K, nat> {
    map k | k in claims :: claims[k].amount
  }

  /** What a table attributes to an account, and what it holds in all. */
  ghost function Attributed<K>(claims: map<K, Claim>, who: AccountId): nat { SumOf(Shares(claims, who)) }

  ghost function Total<K>(claims: map<K, Claim>): nat { SumOf(Rows(claims)) }

  ghost predicate AllResolved<K>(claims: map<K, Claim>) {
    forall k :: k in claims ==> claims[k].Resolved()
  }

  predicate Positive(m: Amounts) {
    forall who :: who in m ==> 0 < m[who] <= MAX_BALANCE
  }

  /** Adds without exceeding the balance type; adding nothing makes no entry. */
  function AddAmount(m: Amounts, who: AccountId, amount: nat): Amounts {
    if amount == 0 then m else m[who := Min(At(m, who) + amount, MAX_BALANCE)]
  }

  // ------------------------------------------------------------------------ attribution

  lemma AttributedAdds<K>(claims: map<K, Claim>, k: K, c: Claim)
    requires k !in claims
    ensures Total(claims[k := c]) == Total(claims) + c.amount
    ensures forall who ::
        Attributed(claims[k := c], who) == Attributed(claims, who) + if c.owner == Some(who) then c.amount else 0
  {
    assert Rows(claims[k := c]) == Rows(claims)[k := c.amount];
    SumWrite(Rows(claims), k, c.amount);
    forall who ensures Attributed(claims[k := c], who) == Attributed(claims, who)
        + if c.owner == Some(who) then c.amount else 0 {
      if c.owner == Some(who) {
        assert Shares(claims[k := c], who) == Shares(claims, who)[k := c.amount];
        SumWrite(Shares(claims, who), k, c.amount);
      } else {
        assert Shares(claims[k := c], who) == Shares(claims, who);
      }
    }
  }

  lemma NothingAttributed<K>(claims: map<K, Claim>)
    requires claims == map[]
    ensures Total(claims) == 0 && forall who :: Attributed(claims, who) == 0
  {
    assert Rows(claims) == map[];
    forall who ensures Attributed(claims, who) == 0 { assert Shares(claims, who) == map[]; }
  }

  /** `rest` is what the amounts leave beyond the table. */
  ghost predicate Beyond<K>(m: Amounts, rest: Amounts, claims: map<K, Claim>) {
    forall who :: At(rest, who) + Attributed(claims, who) == At(m, who)
  }

  ghost predicate Contains<K>(m: Amounts, claims: map<K, Claim>) {
    forall who :: Attributed(claims, who) <= At(m, who)
  }

  /** One row taken from its owner. */
  lemma RowTaken<K>(fewer: map<K, Claim>, k: K, who: AccountId, amount: nat, mustDecode: bool, m: Amounts)
    requires k !in fewer && Contains(m, fewer[k := Claim(Some(who), amount, mustDecode)])
    ensures At(m, who) >= amount
    ensures var claims, m1 := fewer[k := Claim(Some(who), amount, mustDecode)], m[who := At(m, who) - amount];
      && Contains(m1, fewer) && SumOf(m1) + amount == SumOf(m)
      && forall rest :: Beyond(m1, rest, fewer) ==> Beyond(m, rest, claims)
  {
    hide Attributed;
    var c := Claim(Some(who), amount, mustDecode);
    AttributedAdds(fewer, k, c);
    assert Attributed(fewer[k := c], who) >= amount;
    SumWrite(m, who, At(m, who) - amount);
  }

  lemma RowSkipped<K>(fewer: map<K, Claim>, k: K, c: Claim, m: Amounts)
    requires k !in fewer && c.owner.None? && Contains(m, fewer[k := c])
    ensures Contains(m, fewer) && forall rest :: Beyond(m, rest, fewer) ==> Beyond(m, rest, fewer[k := c])
  {
    hide Attributed;
    AttributedAdds(fewer, k, c);
  }

  lemma EmptyTable<K>(claims: map<K, Claim>, m: Amounts)
    requires claims == map[]
    ensures Beyond(m, m, claims) && Total(claims) == 0
  {
    NothingAttributed(claims);
  }

  lemma StillResolved<K>(claims: map<K, Claim>, k: K)
    requires AllResolved(claims) && k in claims
    ensures AllResolved(claims - {k}) && claims[k].Resolved()
  {
  }

  /** The attribution is a partition: taking from each account what a table attributes to
      it takes the table's total from all accounts together. */
  lemma {:induction false} TakeTableAway<K>(claims: map<K, Claim>, m: Amounts) returns (rest: Amounts)
    requires AllResolved(claims) && Contains(m, claims)
    ensures Beyond(m, rest, claims)
    ensures SumOf(m) == SumOf(rest) + Total(claims)
    decreases |claims|
  {
    hide Attributed, Total, Contains, Beyond, AllResolved;
    if claims == map[] {
      EmptyTable(claims, m);
      rest := m;
    } else {
      var k :| k in claims;
      var fewer, c := claims - {k}, claims[k];
      assert fewer[k := c] == claims;
      StillResolved(claims, k);
      AttributedAdds(fewer, k, c);
      match c.owner {
        case Some(who) =>
          RowTaken(fewer, k, who, c.amount, c.mustDecode, m);
          rest := TakeTableAway(fewer, m[who := At(m, who) - c.amount]);
        case None =>
          RowSkipped(fewer, k, c, m);
          rest := TakeTableAway(fewer, m);
      }
    }
  }

  lemma NothingLeft(m: Amounts)
    requires forall who :: At(m, who) == 0
    ensures SumOf(m) == 0
  {
    SumSame(m, map[]);
  }

  /** Positive amounts are determined by what they hold for each account. */
  lemma SameAmounts(m: Amounts, n: Amounts)
    requires Positive(m) && Positive(n) && forall who :: At(m, who) == At(n, who)
    ensures m == n
  {
    assert forall who :: who in m <==> At(m, who) > 0;
    assert forall who :: who in n <==> At(n, who) > 0;
  }

  /** `m'` is `m` plus what the rows attribute to each account, up to the balance maximum. */
  ghost predicate AddedUp<K>(m: Amounts, m': Amounts, rows: map<K, Claim>) {
    Positive(m') && forall who :: At(m', who) == Min(At(m, who) + Attributed(rows, who), MAX_BALANCE)
  }

  lemma RowAdded<K>(m: Amounts, m': Amounts, rows: map<K, Claim>, k: K, c: Claim)
    requires AddedUp(m, m', rows) && k !in rows && c.Resolved()
    ensures AddedUp(m, if c.owner.Some? then AddAmount(m', c.owner.value, c.amount) else m', rows[k := c])
  {
    hide Attributed;
    AttributedAdds(rows, k, c);
  }

  /** Adds one table to the amounts so far, in whatever order its rows come; fails exactly
      when a row that matters has no owner. */
  method AddTable<K>(claims: map<K, Claim>, m: Amounts) returns (ok: bool, m': Amounts)
    requires Positive(m)
    ensures ok <==> AllResolved(claims)
    ensures ok ==> AddedUp(m, m', claims)
  {
    m' := m;
    var todo := claims.Keys;
    ghost var rows: map<K, Claim> := map[];
    NothingAttributed(rows);
    assert AddedUp(m, m', rows);
    hide AddedUp, AddAmount;
    while todo != {}
      invariant todo <= claims.Keys && rows == map k | k in claims && k !in todo :: claims[k]
      invariant AllResolved(rows) && AddedUp(m, m', rows)
    {
      var k :| k in todo;
      var c := claims[k];
      if !c.Resolved() { return false, m'; }
      RowAdded(m, m', rows, k, c);
      if c.owner.Some? { m' := AddAmount(m', c.owner.value, c.amount); }
      todo := todo - {k};
      rows := rows[k := c];
    }
    assert rows == claims;
    ok := true;
  }

  // ---------------------------------------------------------------------------- preflight

  /** What the checks before the first movement ask: every reserve covers its amount, and
      the source can pay all of it and keep the existential deposit. */
  ghost predicate Affordable(b: Bank, plan: Plan, source: AccountId) {
    && (forall who :: who in plan.unreserve ==> plan.unreserve[who] <= b.Reserved(who))
    && (plan.payout == map[] || Min(SumOf(plan.payout) + EXISTENTIAL_DEPOSIT, MAX_BALANCE) <= b.Free(source))
  }

  method Preflight(b: Bank, plan: Plan, source: AccountId) returns (ok: bool)
    requires Positive(plan.payout)
    ensures ok <==> Affordable(b, plan, source)
  {
    var todo := plan.unreserve.Keys;
    while todo != {}
      invariant todo <= plan.unreserve.Keys
      invariant forall who :: who in plan.unreserve && who !in todo ==> plan.unreserve[who] <= b.Reserved(who)
    {
      var who :| who in todo;
      if b.Reserved(who) < plan.unreserve[who] { return false; }
      todo := todo - {who};
    }
    var total := SaturatingTotal(plan.payout);
    PositiveTotal(plan.payout);
    ok := total == 0 || b.Free(source) >= Min(total + EXISTENTIAL_DEPOSIT, MAX_BALANCE);
  }

  /** A saturating fold of a map's values, in any order. */
  method SaturatingTotal(m: Amounts) returns (total: nat)
    ensures total == Min(SumOf(m), MAX_BALANCE)
  {
    total := 0;
    var todo := m;
    while todo != map[]
      invariant Min(total + SumOf(todo), MAX_BALANCE) == Min(SumOf(m), MAX_BALANCE) && total <= MAX_BALANCE
      decreases |todo|
    {
      var who :| who in todo;
      SumWithout(todo, who);
      total := Min(total + todo[who], MAX_BALANCE);
      todo := todo - {who};
    }
  }

  lemma PositiveTotal(m: Amounts)
    requires Positive(m)
    ensures SumOf(m) == 0 <==> m == map[]
  {
    if m != map[] {
      var who :| who in m;
      SumWithout(m, who);
    }
  }

  // -------------------------------------------------------------------------- application

  /** What the source pays to others: a payment to itself moves nothing. */
  ghost function Paid(payout: Amounts, source: AccountId): nat { SumOf(payout - {source}) }

  /** What the preflight does not ask and the transfers do: every payee ends at or above
      the existential deposit, and no lock of the source is in the way. */
  ghost predicate Payable(b: Bank, plan: Plan, source: AccountId) {
    && (forall who :: who in plan.payout && who != source ==>
          EXISTENTIAL_DEPOSIT <= b.Free(who) + At(plan.unreserve, who) + plan.payout[who])
    && (Paid(plan.payout, source) == 0
        || Paid(plan.payout, source) + Locked(b, plan.unreserve, source) <= b.Free(source) + At(plan.unreserve, source))
  }

  /** What the locks of an account withhold from its free balance after unreserving. */
  function Locked(b: Bank, unreserve: Amounts, who: AccountId): nat {
    SatSub(b.Frozen(who), SatSub(b.Reserved(who), At(unreserve, who)))
  }

  /** Exactly the planned amounts have moved, and nothing else: no other account, no
      issuance, no lock. */
  ghost predicate Settled(b: Bank, b': Bank, plan: Plan, source: AccountId) {
    && b'.Valid() && b'.issuance == b.issuance && b'.frozen == b.frozen && b'.burnedDust == b.burnedDust
    && (forall who :: SettledFor(b, b', plan, source, who))
  }

  /** One account's reserve is released and its payout received; the source pays. */
  ghost predicate SettledFor(b: Bank, b': Bank, plan: Plan, source: AccountId, who: AccountId) {
    && b'.Reserved(who) + At(plan.unreserve, who) == b.Reserved(who)
    && b'.Free(who) + (if who == source then Paid(plan.payout, source) else 0)
       == b.Free(who) + At(plan.unreserve, who) + if who == source then 0 else At(plan.payout, who)
  }

  lemma NothingSettled(b: Bank, source: AccountId)
    requires b.Valid()
    ensures Settled(b, b, Plan(map[], map[]), source)
  {
    var none: Amounts := map[];
    assert none - {source} == map[];
    assert forall who :: SettledFor(b, b, Plan(map[], map[]), source, who);
  }

  /** One more reserve released. */
  lemma UnreserveSettles(b: Bank, now: Bank, plan: Plan, source: AccountId, who: AccountId, amount: nat)
    requires Settled(b, now, plan, source) && who !in plan.unreserve && amount <= b.Reserved(who)
    ensures now.Unreserve(who, amount).1 == 0
    ensures Settled(b, now.Unreserve(who, amount).0, Plan(plan.unreserve[who := amount], plan.payout), source)
  {
    assert SettledFor(b, now, plan, source, who);
    assert amount <= now.Reserved(who);
    hide Bank.Unreserve, Bank.Valid, SettledFor, Bank.Free, Bank.Reserved;
    UnreserveMoves(now, who, amount);
    var after, plan' := now.Unreserve(who, amount).0, Plan(plan.unreserve[who := amount], plan.payout);
    forall other ensures SettledFor(b, after, plan', source, other) {
      assert SettledFor(b, now, plan, source, other);
      UnreserveSettlesOne(b, now, after, plan, source, who, amount, other);
    }
  }

  lemma UnreserveSettlesOne(b: Bank, now: Bank, after: Bank, plan: Plan, source: AccountId, who: AccountId,
                            amount: nat, other: AccountId)
    requires SettledFor(b, now, plan, source, other) && who !in plan.unreserve
    requires after.Reserved(other) == now.Reserved(other) - (if other == who then amount else 0)
    requires after.Free(other) == now.Free(other) + (if other == who then amount else 0)
    ensures SettledFor(b, after, Plan(plan.unreserve[who := amount], plan.payout), source, other)
  {
    hide Paid;
  }

  lemma UnreserveMoves(b: Bank, who: AccountId, amount: nat)
    requires b.Valid() && amount <= b.Reserved(who)
    ensures var (b', leftover) := b.Unreserve(who, amount);
      && leftover == 0 && b'.Valid() && b'.issuance == b.issuance && b'.frozen == b.frozen
          && b'.burnedDust == b.burnedDust
      && b'.Free(who) == b.Free(who) + amount && b'.Reserved(who) == b.Reserved(who) - amount
      && (forall other :: other != who ==> b'.Free(other) == b.Free(other) && b'.Reserved(other) == b.Reserved(other))
  {
    UnreserveConserves(b, who, amount);
  }

  /** When the next payment goes through: the payee becomes viable, and the source keeps
      both the existential deposit and its locks. */
  lemma TransferGoesThroughIff(b: Bank, now: Bank, plan: Plan, source: AccountId, who: AccountId, amount: nat)
    requires Settled(b, now, plan, source) && who !in plan.payout && who != source && amount > 0
    ensures now.Transfer(source, who, amount, true).Some? <==>
      && EXISTENTIAL_DEPOSIT <= b.Free(who) + At(plan.unreserve, who) + amount
      && Paid(plan.payout, source) + amount + Max(EXISTENTIAL_DEPOSIT,
          Locked(b, plan.unreserve, source)) <= b.Free(source) + At(plan.unreserve, source)
  {
    assert SettledFor(b, now, plan, source, source) && SettledFor(b, now, plan, source, who);
    hide Paid;
    FreeWithinIssuance(now, source);
    SumTwoRows(now.free, source, who);
  }

  lemma TransferSettles(b: Bank, now: Bank, plan: Plan, source: AccountId, who: AccountId, amount: nat)
    requires Settled(b, now, plan, source) && who !in plan.payout && who != source && amount > 0
    requires now.Transfer(source, who, amount, true).Some?
    ensures Settled(b, now.Transfer(source, who, amount, true).value, Plan(plan.unreserve, plan.payout[who := amount]),
        source)
  {
    hide Bank.Transfer, Paid, Bank.Valid;
    KeepAliveMovesExactly(now, source, who, amount);
    TransferConserves(now, source, who, amount, true);
    PaidGrows(plan.payout, source, who, amount);
    var after, plan' := now.Transfer(source, who, amount, true).value, Plan(plan.unreserve, plan.payout[who := amount]);
    forall other ensures SettledFor(b, after, plan', source, other) { assert SettledFor(b, now, plan, source, other); }
  }

  lemma PaidGrows(payout: Amounts, source: AccountId, who: AccountId, amount: nat)
    requires who !in payout
    ensures Paid(payout[who := amount], source) == Paid(payout, source) + if who == source then 0 else amount
  {
    if who == source {
      assert payout[who := amount] - {source} == payout - {source};
    } else {
      assert payout[who := amount] - {source} == (payout - {source})[who := amount];
      SumWrite(payout - {source}, who, amount);
    }
  }

  lemma PaidIsMonotone(part: Amounts, payout: Amounts, source: AccountId)
    requires part.Keys <= payout.Keys && forall who :: who in part ==> part[who] == payout[who]
    ensures Paid(part, source) <= Paid(payout, source) <= SumOf(payout)
  {
    SumMonotone(part - {source}, payout - {source});
    SumMonotone(payout - {source}, payout);
  }

  /** Releases every planned reserve. After a passed preflight none can fall short. */
  method ReleaseReserves(b: Bank, plan: Plan, source: AccountId) returns (ok: bool, b': Bank)
    requires b.Valid() && Affordable(b, plan, source)
    ensures ok && Settled(b, b', Plan(plan.unreserve, map[]), source)
  {
    hide Settled, Bank.Unreserve;
    b' := b;
    var todo := plan.unreserve.Keys;
    ghost var released: Amounts := map[];
    NothingSettled(b, source);
    while todo != {}
      invariant todo <= plan.unreserve.Keys && released == map who | who in plan.unreserve
          && who !in todo :: plan.unreserve[who]
      invariant Settled(b, b', Plan(released, map[]), source)
    {
      var who :| who in todo;
      var amount := plan.unreserve[who];
      UnreserveSettles(b, b', Plan(released, map[]), source, who, amount);
      ReserveLeft(b, b', Plan(released, map[]), source, who);
      if b'.Reserved(who) < amount { return false, b'; }
      var (after, leftover) := b'.Unreserve(who, amount);
      if leftover != 0 { return false, b'; }
      b' := after;
      todo := todo - {who};
      released := released[who := amount];
    }
    assert released == plan.unreserve;
    ok := true;
  }

  lemma ReserveLeft(b: Bank, now: Bank, plan: Plan, source: AccountId, who: AccountId)
    requires Settled(b, now, plan, source) && who !in plan.unreserve
    ensures now.Reserved(who) == b.Reserved(who)
  {
    assert SettledFor(b, now, plan, source, who);
  }

  lemma SelfPaymentSettles(b: Bank, now: Bank, plan: Plan, source: AccountId, amount: nat)
    requires Settled(b, now, plan, source) && source !in plan.payout
    ensures now.Transfer(source, source, amount, true) == Some(now)
    ensures Settled(b, now, Plan(plan.unreserve, plan.payout[source := amount]), source)
  {
    PaidGrows(plan.payout, source, source, amount);
    hide Paid;
    var plan' := Plan(plan.unreserve, plan.payout[source := amount]);
    forall other ensures SettledFor(b, now, plan', source, other) { assert SettledFor(b, now, plan, source, other); }
  }

  /** A payment that fails shows that the whole plan could not be paid. */
  lemma FailureMeansUnpayable(b: Bank, now: Bank, plan: Plan, paid: Amounts, source: AccountId, who: AccountId)
    requires b.issuance < MAX_BALANCE && b.Valid() && Affordable(b, plan, source)
    requires Settled(b, now, Plan(plan.unreserve, paid), source) && who !in paid && who in plan.payout
        && plan.payout[who] > 0
    requires paid.Keys <= plan.payout.Keys && forall a :: a in paid ==> paid[a] == plan.payout[a]
    requires now.Transfer(source, who, plan.payout[who], true).None?
    ensures !Payable(b, plan, source)
  {
    hide Bank.Transfer;
    if who == source {
      var any := plan.payout[who];
      SelfPaymentSettles(b, now, Plan(plan.unreserve, paid), source, any);
    } else {
      var amount := plan.payout[who];
      TransferGoesThroughIff(b, now, Plan(plan.unreserve, paid), source, who, amount);
      PaidGrows(paid, source, who, amount);
      PaidIsMonotone(paid[who := amount], plan.payout, source);
      FreeWithinIssuance(b, source);
    }
  }

  /** A payment that goes through keeps what is paid so far payable. */
  lemma SuccessStaysPayable(b: Bank, now: Bank, plan: Plan, source: AccountId, who: AccountId, amount: nat)
    requires Settled(b, now, plan, source) && Payable(b, plan, source) && who !in plan.payout && amount > 0
    requires now.Transfer(source, who, amount, true).Some?
    ensures Payable(b, Plan(plan.unreserve, plan.payout[who := amount]), source)
  {
    hide Bank.Transfer, Locked, Settled;
    PaidGrows(plan.payout, source, who, amount);
    if who != source { TransferGoesThroughIff(b, now, plan, source, who, amount); }
  }

  lemma NothingPayable(b: Bank, unreserve: Amounts, source: AccountId)
    ensures Payable(b, Plan(unreserve, map[]), source)
  {
    var none: Amounts := map[];
    assert none - {source} == map[];
  }

  /** Pays everyone from the source, in any order. It succeeds exactly when every payee
      ends viable and the source's locks allow it, whatever the order. */
  method PayEveryone(b: Bank, now: Bank, plan: Plan, source: AccountId) returns (ok: bool, b': Bank)
    requires b.Valid() && b.issuance < MAX_BALANCE && Affordable(b, plan, source) && Positive(plan.payout)
    requires Settled(b, now, Plan(plan.unreserve, map[]), source)
    ensures ok <==> Payable(b, plan, source)
    ensures ok ==> Settled(b, b', plan, source)
  {
    hide Settled, Payable, Affordable, Bank.Transfer, Bank.Valid;
    b' := now;
    var todo := plan.payout.Keys;
    ghost var paid: Amounts := map[];
    NothingPayable(b, plan.unreserve, source);
    while todo != {}
      invariant todo <= plan.payout.Keys && paid == map who | who in plan.payout && who !in todo :: plan.payout[who]
      invariant Settled(b, b', Plan(plan.unreserve, paid), source) && Payable(b, Plan(plan.unreserve, paid), source)
    {
      var who :| who in todo;
      var amount := plan.payout[who];
      match b'.Transfer(source, who, amount, true) {
        case None =>
          FailureMeansUnpayable(b, b', plan, paid, source, who);
          return false, b';
        case Some(after) =>
          SuccessStaysPayable(b, b', Plan(plan.unreserve, paid), source, who, amount);
          if who == source {
            SelfPaymentSettles(b, b', Plan(plan.unreserve, paid), source, amount);
          } else {
            TransferSettles(b, b', Plan(plan.unreserve, paid), source, who, amount);
          }
          b' := after;
      }
      todo := todo - {who};
      paid := paid[who := amount];
    }
    assert paid == plan.payout;
    ok := true;
  }

  /** The plan as a whole: after a passed preflight no reserve falls short and the source
      can pay; what can still fail is a payee left below the existential deposit, or a
      lock on the source. */
  method ApplyPlan(b: Bank, plan: Plan, source: AccountId) returns (ok: bool, b': Bank)
    requires b.Valid() && b.issuance < MAX_BALANCE && Affordable(b, plan, source) && Positive(plan.payout)
    ensures ok <==> Payable(b, plan, source)
    ensures ok ==> Settled(b, b', plan, source)
  {
    hide Settled, Payable, Affordable;
    ok, b' := ReleaseReserves(b, plan, source);
    if ok { ok, b' := PayEveryone(b, b', plan, source); }
  }

  /** The source stays alive, and by exactly what it paid to others less its own reserve. */
  lemma SourceKeepsDeposit(b: Bank, b': Bank, plan: Plan, source: AccountId)
    requires b.Valid() && b.issuance < MAX_BALANCE && Affordable(b, plan, source) && plan.payout != map[]
    requires Settled(b, b', plan, source)
    ensures b'.Free(source) >= EXISTENTIAL_DEPOSIT
  {
    assert SettledFor(b, b', plan, source, source);
    PaidIsMonotone(plan.payout, plan.payout, source);
    FreeWithinIssuance(b, source);
  }

  // ------------------------------------------------------- the check after the upgrade

  /** Compares each account of the plan with a snapshot from before. */
  ghost predicate PostCheck(b: Bank, b': Bank, plan: Plan, source: AccountId) {
    && (forall who :: who in plan.unreserve ==> b'.Reserved(who) == SatSub(b.Reserved(who), plan.unreserve[who]))
    && (forall who ::
        who in plan.payout && who != source ==> b'.Free(who) == Min(b.Free(who) + plan.payout[who], MAX_BALANCE))
    && b'.Free(source) == SatSub(b.Free(source), Min(SumOf(plan.payout), MAX_BALANCE))
  }

  /** After a correct application the check passes if and only if no payee also had a
      reserve released and the source is in neither set: otherwise it rejects a correct
      retirement. */
  lemma PostCheckPassesIff(b: Bank, b': Bank, plan: Plan, source: AccountId)
    requires b.Valid() && b.issuance < MAX_BALANCE && Affordable(b, plan, source)
    requires Positive(plan.unreserve) && Positive(plan.payout) && Settled(b, b', plan, source)
    ensures PostCheck(b, b', plan, source) <==>
      plan.unreserve.Keys !! plan.payout.Keys && source !in plan.unreserve && source !in plan.payout
  {
    hide Settled, Affordable, Bank.Valid, PostCheck;
    if plan.unreserve.Keys !! plan.payout.Keys && source !in plan.unreserve && source !in plan.payout {
      PostCheckPasses(b, b', plan, source);
    } else if source in plan.unreserve || source in plan.payout {
      PostCheckSeesSource(b, b', plan, source);
    } else {
      var who :| who in plan.unreserve && who in plan.payout;
      PostCheckSeesBoth(b, b', plan, source, who);
    }
  }

  lemma PostCheckPasses(b: Bank, b': Bank, plan: Plan, source: AccountId)
    requires b.Valid() && b.issuance < MAX_BALANCE && Affordable(b, plan, source) && Settled(b, b', plan, source)
    requires plan.unreserve.Keys !! plan.payout.Keys && source !in plan.unreserve && source !in plan.payout
    ensures PostCheck(b, b', plan, source)
  {
    hide Affordable, Bank.Valid, Settled, Paid;
    AffordableExactly(b, plan, source);
    SplitPaid(plan.payout, source);
    forall who | who in plan.unreserve ensures b'.Reserved(who) == SatSub(b.Reserved(who), plan.unreserve[who]) {
      SettledAt(b, b', plan, source, who);
    }
    forall who | who in plan.payout ensures b'.Free(who) == Min(b.Free(who) + plan.payout[who], MAX_BALANCE) {
      SettledAt(b, b', plan, source, who);
    }
    SettledAt(b, b', plan, source, source);
  }

  /** A settlement, seen from one account. */
  lemma SettledAt(b: Bank, b': Bank, plan: Plan, source: AccountId, who: AccountId)
    requires Settled(b, b', plan, source) && b.issuance < MAX_BALANCE
    ensures b'.Reserved(who) + At(plan.unreserve, who) == b.Reserved(who)
    ensures who != source ==> b'.Free(who) == b.Free(who) + At(plan.unreserve, who) + At(plan.payout, who)
    ensures who == source ==> b'.Free(who) + Paid(plan.payout, source) == b.Free(who) + At(plan.unreserve, who)
    ensures b'.Free(who) < MAX_BALANCE
  {
    hide Paid;
    assert SettledFor(b, b', plan, source, who);
    FreeWithinIssuance(b', who);
  }

  lemma PostCheckSeesSource(b: Bank, b': Bank, plan: Plan, source: AccountId)
    requires b.Valid() && b.issuance < MAX_BALANCE && Affordable(b, plan, source) && Settled(b, b', plan, source)
    requires Positive(plan.unreserve) && Positive(plan.payout) && (source in plan.unreserve || source in plan.payout)
    ensures !PostCheck(b, b', plan, source)
  {
    AffordableExactly(b, plan, source);
    SplitPaid(plan.payout, source);
    assert SettledFor(b, b', plan, source, source);
    hide Affordable, Bank.Valid;
    assert At(plan.unreserve, source) + At(plan.payout, source) > 0;
  }

  lemma PostCheckSeesBoth(b: Bank, b': Bank, plan: Plan, source: AccountId, who: AccountId)
    requires b.Valid() && b.issuance < MAX_BALANCE && Settled(b, b', plan, source)
    requires Positive(plan.unreserve) && Positive(plan.payout) && who in plan.unreserve && who in plan.payout
        && who != source
    ensures !PostCheck(b, b', plan, source)
  {
    assert SettledFor(b, b', plan, source, who);
    FreeWithinIssuance(b', who);
    hide Bank.Valid;
  }

  /** Below the balance maximum the preflight's saturating test is the exact one. */
  lemma AffordableExactly(b: Bank, plan: Plan, source: AccountId)
    requires b.Valid() && b.issuance < MAX_BALANCE && Affordable(b, plan, source)
    ensures plan.payout != map[] ==> SumOf(plan.payout) + EXISTENTIAL_DEPOSIT <= b.Free(source) < MAX_BALANCE
    ensures plan.payout == map[] ==> SumOf(plan.payout) == 0
    ensures forall who :: who in plan.unreserve ==> plan.unreserve[who] <= b.Reserved(who)
  {
    FreeWithinIssuance(b, source);
  }

  lemma SplitPaid(payout: Amounts, source: AccountId)
    ensures SumOf(payout) == Paid(payout, source) + At(payout, source)
  {
    if source in payout { SumWithout(payout, source); } else { assert payout - {source} == payout; }
  }

  /** A plan that passed the preflight was added up without ever hitting the maximum. */
  lemma NothingSaturated(b: Bank, plan: Plan, source: AccountId, who: AccountId)
    requires b.Valid() && b.issuance < MAX_BALANCE && Affordable(b, plan, source)
    ensures At(plan.unreserve, who) < MAX_BALANCE && At(plan.payout, who) < MAX_BALANCE
  {
    AffordableExactly(b, plan, source);
    FreeWithinIssuance(b, who);
    SumWrite(plan.payout, who, 0);
  }

  // ---------------------------------------------------------------------- counterexamples

  lemma OneRow(who: AccountId, amount: nat)
    ensures SumOf(map[who := amount]) == amount
  {
    var none: Amounts := map[];
    SumWrite(none, who, amount);
    assert none[who := amount] == map[who := amount];
  }

  /** A plan the preflight passes and the transfers refuse: five units to an account that
      does not exist. */
  lemma PreflightMissesDeadPayee()
    ensures var b := Bank(map[Treasury := 10 * EXISTENTIAL_DEPOSIT], map[], map[], 10 * EXISTENTIAL_DEPOSIT, 0);
      var plan := Plan(map[], map[User(1) := 5]);
      b.Valid() && Affordable(b, plan, Treasury) && !Payable(b, plan, Treasury)
  {
    OneRow(Treasury, 10 * EXISTENTIAL_DEPOSIT);
    OneRow(User(1), 5);
    var payout: Amounts := map[User(1) := 5];
    assert User(1) in payout;
  }

  /** And another: the payee is alive, but a lock holds the source back. */
  lemma PreflightMissesLock()
    ensures var held := map[Treasury := 10 * EXISTENTIAL_DEPOSIT, User(1) := EXISTENTIAL_DEPOSIT];
      var b := Bank(held, map[], map[Treasury := 9 * EXISTENTIAL_DEPOSIT], 11 * EXISTENTIAL_DEPOSIT, 0);
      var plan := Plan(map[], map[User(1) := 2 * EXISTENTIAL_DEPOSIT]);
      b.Valid() && Affordable(b, plan, Treasury) && !Payable(b, plan, Treasury)
  {
    TwoRows(Treasury, 10 * EXISTENTIAL_DEPOSIT, User(1), EXISTENTIAL_DEPOSIT);
    OneRow(User(1), 2 * EXISTENTIAL_DEPOSIT);
    var payout: Amounts := map[User(1) := 2 * EXISTENTIAL_DEPOSIT];
    assert payout - {Treasury} == payout;
  }

  /** A retirement carried out exactly and rejected by the check after the upgrade: the
      same account has a reserve released and a claim paid. */
  lemma PostCheckRejectsExactSettlement()
    ensures var u := EXISTENTIAL_DEPOSIT;
      var b := Bank(map[Treasury := 5 * u, User(1) := u], map[User(1) := u], map[], 7 * u, 0);
      var b' := Bank(map[Treasury := 4 * u, User(1) := 3 * u], map[User(1) := 0], map[], 7 * u, 0);
      var plan := Plan(map[User(1) := u], map[User(1) := u]);
      && b.Valid() && Affordable(b, plan, Treasury) && Payable(b, plan, Treasury)
      && Settled(b, b', plan, Treasury) && !PostCheck(b, b', plan, Treasury)
  {
    var u := EXISTENTIAL_DEPOSIT;
    var b := Bank(map[Treasury := 5 * u, User(1) := u], map[User(1) := u], map[], 7 * u, 0);
    var b' := Bank(map[Treasury := 4 * u, User(1) := 3 * u], map[User(1) := 0], map[], 7 * u, 0);
    var plan := Plan(map[User(1) := u], map[User(1) := u]);
    TwoRows(Treasury, 5 * u, User(1), u);
    TwoRows(Treasury, 4 * u, User(1), 3 * u);
    OneRow(User(1), u);
    OneRow(User(1), 0);
    assert plan.payout - {Treasury} == plan.payout;
    assert forall who :: SettledFor(b, b', plan, Treasury, who);
    assert b'.Free(User(1)) != Min(b.Free(User(1)) + plan.payout[User(1)], MAX_BALANCE);
  }

  lemma TwoRows(a: AccountId, x: nat, b: AccountId, y: nat)
    requires a != b
    ensures SumOf(map[a := x, b := y]) == x + y
  {
    var one: Amounts := map[a := x];
    OneRow(a, x);
    SumWrite(one, b, y);
    assert one[b := y] == map[a := x, b := y];
  }
}
