/** What a send over the token bridge is worth, and what its timeout gives back, for every
    decimal gap the registry admits: it admits all of them. */
module HftRefunds {
  import opened Sums
  import opened Balances
  import opened Messages
  import opened Precision
  import opened IsmpHost
  import opened HftRegistry
  import opened HftRegistryLaws
  import opened HftTransfers
  import opened HftLaws

  // ------------------------------------------------------------- sent and timed out

  /** No account holds a positive amount below the asset's minimum. */
  ghost predicate Viable(t: Token) {
    forall a :: t.Held(a) == 0 || t.Held(a) >= t.minBalance
  }

  ghost predicate SameHoldings(t: Token, u: Token) {
    t.supply == u.supply && forall a :: t.Held(a) == u.Held(a)
  }

  /** What leaves an account comes back whole if and only if leaving swept no remainder,
      or the remainder alone sat in custody and was swept back. */
  lemma OutAndBack(t: Token, locks: bool, who: AccountId, amount: nat)
    requires t.Valid() && Viable(t) && who != HftCustody && t.minBalance > 0
    requires (if locks then t.Move(who, HftCustody, amount) else t.Burn(who, amount)).Some?
    ensures var out := (if locks then t.Move(who, HftCustody, amount) else t.Burn(who, amount)).value;
      var back := if locks then out.Move(HftCustody, who, amount) else out.Mint(who, amount);
      back.Some? && SameHoldings(t, back.value) <==>
        amount == 0 || t.Taken(who, amount) == amount || (locks && t.Held(HftCustody) == 0)
  {
    var out := (if locks then t.Move(who, HftCustody, amount) else t.Burn(who, amount)).value;
    if locks { MoveConserves(t, who, HftCustody, amount); } else { BurnConserves(t, who, amount); }
    var back := if locks then out.Move(HftCustody, who, amount) else out.Mint(who, amount);
    assert t.Held(who) == 0 || t.Held(who) >= t.minBalance;
    assert t.Held(HftCustody) == 0 || t.Held(HftCustody) >= t.minBalance;
    SumTwoRows(t.held, who, HftCustody);
    if back.Some? {
      if locks { MoveConserves(out, HftCustody, who, amount); } else { MintConserves(out, who, amount); }
      assert SameHoldings(t, back.value) ==> t.Held(who) == back.value.Held(who);
    }
  }

  /** How many decimals the lane of a send has beyond the asset's own. */
  function Gap(s: Hft, p: SendParams): nat
    requires (p.asset, p.dest) in s.tables.precisions
  {
    SatSub(s.tables.precisions[(p.asset, p.dest)], DecimalsOf(s, p.asset))
  }

  /** The request a send leaves behind, and what its timeout, with the registry rows
      unchanged, amounts to: the release of exactly the amount sent, unless the gap is so
      wide that the message carries nothing. */
  lemma TimeoutOfSend(s: Hft, who: AccountId, p: SendParams)
    requires OneToOne(s.tables) && p.amount <= MAX_BALANCE && Send(s, who, p).0.error.None?
    ensures var (a, k) := Send(s, who, p);
      && (p.asset, p.dest) in s.tables.precisions && k.Some? && k.value.Post? && k.value.post.body.Encoded?
      && k.value.post.body.message.amount
         == ConvertToErc20(p.amount, s.tables.precisions[(p.asset, p.dest)], DecimalsOf(s, p.asset))
      && OnTimeout(a.state, k.value) ==
           if Gap(s, p) >= 128 then Attempt(a.state, Some(InvalidAmount))
           else match GiveBack(a.state, p.asset, who, p.amount, TimedOut(k.value)) {
             case None => Attempt(a.state, Some(TransferFailed))
             case Some(s') => Attempt(s', None)
           }
  {
    hide Dispatch, GiveBack, ConvertToErc20, ConvertToBalance, OneToOne, TakeOut;
    var contract, precision := s.tables.contracts[(p.dest, p.asset)], s.tables.precisions[(p.asset, p.dest)];
    RoundTrip(p.amount, precision, DecimalsOf(s, p.asset));
    RowsPointBack(s.tables, p.dest, p.asset);
    var s1 := TakeOut(s, p.asset, who, p.dest, p.amount).value;
    DispatchedRequest(s1.host, s1.bank, SendDraft(s, who, p, contract, precision), FeeMetadata(who, p.fee));
    TakenRows(s, p.asset, who, p.dest, p.amount);
  }

  lemma TakenRows(s: Hft, asset: AssetId, who: AccountId, dest: Chain, amount: nat)
    requires TakeOut(s, asset, who, dest, amount).Some?
    ensures var s1 := TakeOut(s, asset, who, dest, amount).value;
      s1.tables == s.tables && DecimalsOf(s1, asset) == DecimalsOf(s, asset)
  {
    hide Bank.Transfer;
  }

  /** A token send that times out: the refund goes through and restores every holding if
      and only if the gap leaves the message something to carry, and no remainder was swept
      on the way out, or it alone sat in custody and is swept back. */
  lemma SendThenTimeout(s: Hft, who: AccountId, p: SendParams)
    requires OneToOne(s.tables) && p.asset != NATIVE_ID && p.asset in s.tokens && who != HftCustody
    requires s.tokens[p.asset].Valid() && Viable(s.tokens[p.asset]) && s.tokens[p.asset].minBalance > 0
    requires p.amount <= MAX_BALANCE && Send(s, who, p).0.error.None?
    ensures var (a, k) := Send(s, who, p);
      var token, back := s.tokens[p.asset], OnTimeout(a.state, k.value);
      back.error.None? && SameHoldings(token, back.state.tokens[p.asset]) <==>
        && Gap(s, p) < 128
        && (p.amount == 0 || token.Taken(who, p.amount)
            == p.amount || (Locks(s, p.asset) && token.Held(HftCustody) == 0))
  {
    hide Dispatch, OnTimeout, Token.Move, Token.Burn, Token.Mint, Token.Taken, OneToOne, SameHoldings, Release;
    TimeoutOfSend(s, who, p);
    OutAndBack(s.tokens[p.asset], Locks(s, p.asset), who, p.amount);
  }

  /** A native send that times out: the release goes through if and only if the gap leaves
      the message something to carry, custody may pay it out and the sender may receive it;
      then the sender gains exactly the amount, and custody is back where it was if and
      only if what it had before could stay behind. */
  lemma NativeSendThenTimeout(s: Hft, who: AccountId, p: SendParams)
    requires OneToOne(s.tables) && p.asset == NATIVE_ID && who != HftCustody && s.bank.Valid()
    requires p.amount <= MAX_BALANCE && Send(s, who, p).0.error.None?
    ensures var (a, k) := Send(s, who, p);
      var now, before, back := a.state.bank, s.bank.Free(HftCustody), OnTimeout(a.state, k.value);
      && (back.error.None? <==>
            && Gap(s, p) < 128
            && (p.amount == 0 || (p.amount <= now.Reducible(HftCustody, false) && now.CanDeposit(who, p.amount))))
      && (back.error.None? ==>
            && (who != Treasury ==> back.state.bank.Free(who) == now.Free(who) + p.amount)
            && (back.state.bank.Free(HftCustody) == before <==>
                  p.amount == 0 || before == 0 || before >= EXISTENTIAL_DEPOSIT || now.Reserved(HftCustody) > 0))
  {
    hide OnTimeout, OneToOne, Dispatch, Bank.PayFee;
    TimeoutOfSend(s, who, p);
    CustodyAfterSend(s, who, p);
    var (a, k) := Send(s, who, p);
    if OnTimeout(a.state, k.value).error.None? && p.amount > 0 {
      TransferTakes(a.state.bank, HftCustody, who, p.amount, false);
    }
  }

  lemma CustodyAfterSend(s: Hft, who: AccountId, p: SendParams)
    requires p.asset == NATIVE_ID && who != HftCustody && s.bank.Valid() && Send(s, who, p).0.error.None?
    ensures Send(s, who, p).0.state.bank.Free(HftCustody) == s.bank.Free(HftCustody) + p.amount
  {
    hide Bank.Transfer, Bank.PayFee, ProtocolFee, Numbered, SendDraft, Bank.Valid;
    var s1 := TakeOut(s, NATIVE_ID, who, p.dest, p.amount).value;
    TransferConserves(s.bank, who, HftCustody, p.amount, false);
    if p.amount > 0 {
      TransferTakes(s.bank, who, HftCustody, p.amount, false); } else { NothingMoves(s.bank, who, HftCustody, 0);
    }
    var draft := SendDraft(s, who, p, s.tables.contracts[(p.dest, p.asset)], s.tables.precisions[(p.asset, p.dest)]);
    PayFeeConserves(s1.bank, who, RelayerFees, ProtocolFee(s1.host, draft));
    PayFeeConserves(s1.bank.PayFee(who, RelayerFees, ProtocolFee(s1.host, draft)).value, who, RelayerFees, p.fee);
  }

  // --------------------------------------------------------------- a gap without a cap

  /** What a send carries is what it took, in the lane's decimals, if and only if the gap
      is at most 38 or nothing was sent. */
  lemma MessageWorthIff(s: Hft, who: AccountId, p: SendParams)
    requires OneToOne(s.tables) && p.amount <= MAX_BALANCE && Send(s, who, p).0.error.None?
    ensures (p.asset, p.dest) in s.tables.precisions
    ensures Send(s, who, p).1.value.post.body.message.amount == p.amount * Pow10(Gap(s, p)) <==>
      p.amount == 0 || Gap(s, p) <= MAX_ERC_NATIVE_DECIMAL_GAP
  {
    hide Send, OnTimeout, Pow10, OneToOne, Wrap128;
    TimeoutOfSend(s, who, p);
    var precision, decimals := s.tables.precisions[(p.asset, p.dest)], DecimalsOf(s, p.asset);
    ScaleFactorExactIffGapAtMost38(precision, decimals);
    if p.amount > 0 && p.amount * ScaleFactor(precision, decimals) == p.amount * Pow10(Gap(s, p)) {
      SameMultiple(ScaleFactor(precision, decimals), Pow10(Gap(s, p)), p.amount);
    }
  }

  /** From a gap of 128 on a send succeeds, carries nothing, and never comes back: its
      timeout is refused, at the host too, for as long as the rows stand. */
  lemma SendIsLostBeyondTheScale(s: Hft, who: AccountId, p: SendParams)
    requires OneToOne(s.tables) && p.amount <= MAX_BALANCE && Send(s, who, p).0.error.None?
    requires (p.asset, p.dest) in s.tables.precisions && Gap(s, p) >= 128
    ensures var (a, k) := Send(s, who, p);
      && k.value.post.body.message.amount == 0
      && OnTimeout(a.state, k.value) == Attempt(a.state, Some(InvalidAmount))
      && k.value in a.state.host.requests && Refund(a.state, k.value) == Attempt(a.state, Some(InvalidAmount))
  {
    hide Send, OnTimeout, OneToOne, RefundFee;
    TimeoutOfSend(s, who, p);
    RoundTrip(p.amount, s.tables.precisions[(p.asset, p.dest)], DecimalsOf(s, p.asset));
    SendRecords(s, who, p);
    var (a, k) := Send(s, who, p);
    RefusalIgnoresHost(a.state, a.state.host.(requests := a.state.host.requests - {k.value}), k.value);
  }

  lemma SendRecords(s: Hft, who: AccountId, p: SendParams)
    requires Send(s, who, p).0.error.None?
    ensures var (a, k) := Send(s, who, p); k.Some? && k.value in a.state.host.requests
  {
    hide Bank.PayFee, ProtocolFee, Numbered, SendDraft, TakeOut;
  }

  /** Whether a refund is refused before any release does not depend on the records. */
  lemma RefusalIgnoresHost(s: Hft, host: HostState, k: Commitment)
    requires OnTimeout(s, k).error == Some(InvalidAmount)
    ensures OnTimeout(s.(host := host), k).error == Some(InvalidAmount)
  {
    hide ConvertToBalance, Bank.Transfer, Token.Move, Token.Mint, Release;
  }

  /** The registry accepts a lane with any number of decimals beyond the asset's six. */
  lemma AnyGapIsRegistered(gap: nat)
    ensures var contract: H160 := [1, 0, 0, 0, 0, 0, 0, 0, 0, 0, 0, 0, 0, 0, 0, 0, 0, 0, 0, 0];
      var r := Registration(7, false, [Entry(Evm(1), Lane(contract, 6 + gap))]);
      var outcome := Register(EMPTY, Assets(NATIVE_ID, NATIVE_DECIMALS, map[7 := 6]), r);
      && outcome.Done? && OneToOne(outcome.value) && Row(outcome.value.native, 7) == Some(false)
      && Row(outcome.value.contracts, (Evm(1), 7)) == Some(contract)
      && Row(outcome.value.precisions, (7, Evm(1))) == Some(6 + gap)
  {
    var contract: H160 := [1, 0, 0, 0, 0, 0, 0, 0, 0, 0, 0, 0, 0, 0, 0, 0, 0, 0, 0, 0];
    var e := Entry(Evm(1), Lane(contract, 6 + gap));
    var r, assets := Registration(7, false, [e]), Assets(NATIVE_ID, NATIVE_DECIMALS, map[7 := 6]);
    assert contract[0] == 1 && ZERO_ADDRESS[0] == 0;
    assert EntryFault(EMPTY, 7, e, 6, false).None?;
    AddFaultNone(EMPTY, 7, r.chains, 6, false);
    assert LocalDecimals(assets, 7) == Some(6);
    EmptyOneToOne();
    RegisterKeepsOneToOne(EMPTY, assets, r);
    assert r.chains[1..] == [];
  }

  const FAR: H160 := [1, 0, 0, 0, 0, 0, 0, 0, 0, 0, 0, 0, 0, 0, 0, 0, 0, 0, 0, 0]

  /** One asset with ten units of one holder, no fees, an empty registry. */
  function TenUnits(): Hft {
    Hft(EMPTY, map[7 := Token(6, 1, 10, map[User(1) := 10])], Bank(map[], map[], map[], 0, 0),
        HostState(0, map[], {}, map[], 0, map[]), [])
  }

  /** A lane with 134 decimals for the asset's six is registered, and all is sent over it. */
  function LosingOps(): seq<HftOp> {
    [GovernOp(RegisterOp(Registration(7, false, [Entry(Evm(1), Lane(FAR, 134))]))),
     SendOp(User(1), SendParams(7, Evm(1), Bytes20(9), 10, 0, 0, Empty, 160))]
  }

  /** A run in which everything is burned, a message carrying nothing goes out for it, and
      the refund is refused. */
  lemma RegisteredGapLosesValue()
    ensures var r := HftRun(TenUnits(), LosingOps());
      && 7 in r.tokens && r.tokens[7].supply == 0
      && exists k: Commitment ::
           && k in r.host.requests && k.Post? && k.post.body.Encoded? && k.post.body.message.amount == 0
           && Refund(r, k) == Attempt(r, Some(InvalidAmount))
  {
    var s, ops := TenUnits(), LosingOps();
    AnyGapIsRegistered(128);
    hide HftRun, Register, OneToOne, OnTimeout, Refund;
    assert AssetsOf(s) == Assets(NATIVE_ID, NATIVE_DECIMALS, map[7 := 6]);
    RunOfTwo(s, ops);
    var s1 := HftStep(s, ops[0]);
    var p := ops[1].params;
    FreeSend(s1, p);
    SendIsLostBeyondTheScale(s1, User(1), p);
    var (a, k) := Send(s1, User(1), p);
    assert k.value in a.state.host.requests;
  }

  lemma RunOfTwo(s: Hft, ops: seq<HftOp>)
    requires |ops| == 2
    ensures HftRun(s, ops) == HftStep(HftStep(s, ops[0]), ops[1])
  {
    hide HftStep;
    assert ops[..1][..0] == [];
    assert HftRun(s, ops[..1]) == HftStep(s, ops[0]);
  }

  lemma FreeSend(s: Hft, p: SendParams)
    requires p.asset == 7 && p.amount == 10 && p.fee == 0 && !Locks(s, 7)
    requires (p.dest, 7) in s.tables.contracts && (7, p.dest) in s.tables.precisions
    requires 7 in s.tokens && s.tokens[7] == Token(6, 1, 10, map[User(1) := 10])
    requires s.host.perByteFees == map[] && s.host.defaultPerByteFee == 0 && s.host.requests == map[]
    ensures var a := Send(s, User(1), p).0; a.error.None? && 7 in a.state.tokens && a.state.tokens[7].supply == 0
  {
    hide Bank.PayFee, Numbered;
    PayNothing(s.bank, User(1));
  }

  lemma RowsPointBack(t: Tables, chain: Chain, asset: AssetId)
    requires OneToOne(t) && (chain, asset) in t.contracts
    ensures Row(t.assets, (chain, t.contracts[(chain, asset)])) == Some(asset)
  {
    assert CheckedForward(t, chain, asset);
  }

  lemma DispatchedRequest(h: HostState, b: Bank, draft: Draft, meta: FeeMetadata)
    requires Dispatch(h, b, draft, meta).Some?
    ensures Dispatch(h, b, draft, meta).value.commitment == Numbered(draft, h.nonce)
  {
  }
}
