/** Conservation laws of the bridge over every interleaving of its calls, callbacks and
    business handlers. */
module BridgeLaws {
  import opened Sums
  import opened Balances
  import opened Messages
  import opened Precision
  import opened IsmpHost
  import opened BridgeState
  import opened BridgeTrace

  /** Everything ever burned to a lane, and everything ever minted back from it. */
  function BurnedTo(events: seq<Event>, lane: Chain): nat {
    if events == [] then 0
    else
      var e := events[|events| - 1];
      BurnedTo(events[..|events| - 1], lane) + if e.Burned? && e.lane == lane then e.amount else 0
  }

  function MintedFrom(events: seq<Event>, lane: Chain): nat {
    if events == [] then 0
    else
      var e := events[|events| - 1];
      MintedFrom(events[..|events| - 1], lane) + if e.Minted? && e.lane == lane then e.amount else 0
  }

  lemma FlowsAppend(events: seq<Event>, e: Event)
    ensures forall lane ::
        BurnedTo(events + [e], lane) == BurnedTo(events, lane) + if e.Burned? && e.lane == lane then e.amount else 0
    ensures forall lane ::
        MintedFrom(events + [e], lane) == MintedFrom(events, lane) + if e.Minted? && e.lane == lane then e.amount else 0
  {
    assert (events + [e])[..|events|] == events;
  }

  /** What exists of the currency: issued here, bridged out, or lost as dust. */
  function Supply(s: Storage): nat {
    s.bank.issuance + s.bridgedOut + s.bank.burnedDust
  }

  ghost predicate LanesBooked(byChain: map<Chain, nat>, events: seq<Event>) {
    forall lane :: At(byChain, lane) + MintedFrom(events, lane) == BurnedTo(events, lane)
  }

  ghost predicate DecimalsCapped(cfg: Config, s: Storage) {
    forall c :: c in s.chains ==>
      && c.Evm?
      && cfg.nativeDecimals <= s.chains[c].ercDecimals <= cfg.nativeDecimals + MAX_ERC_NATIVE_DECIMAL_GAP
  }

  /** The law of the ledger: the lanes add up to the total, each lane is what was burned
      to it minus what was minted from it, and the supply is constant. */
  ghost predicate Lawful(cfg: Config, s: Storage, supply: nat) {
    && s.bank.Valid()
    && SumOf(s.byChain) == s.bridgedOut
    && Supply(s) == supply <= MAX_BALANCE
    && LanesBooked(s.byChain, s.events)
    && DecimalsCapped(cfg, s)
  }

  /** The storage a chain starts the bridge with: any currency, empty bridge items. */
  predicate Genesis(s: Storage) {
    && s.bridgedOut == 0 && s.byChain == map[] && s.chains == map[] && s.events == []
    && s.windowStart == 0 && s.windowUsed == 0
    && s.payoutRefunds == map[] && s.pending == map[] && s.nextWithdrawId == 0
    && s.host.requests == map[] && s.host.nonce == 0
  }

  // ---------------------------------------------------------------------- single steps

  lemma DispatchConserves(h: HostState, b: Bank, draft: Draft, meta: FeeMetadata)
    requires b.Valid() && Dispatch(h, b, draft, meta).Some?
    ensures var d := Dispatch(h, b, draft, meta).value;
      && d.bank.Valid() && d.bank.issuance + d.bank.burnedDust == b.issuance + b.burnedDust
      && d.commitment == Numbered(draft, h.nonce) && d.commitment !in h.requests
      && d.host.requests == h.requests[d.commitment := meta]
      && d.host.nonce == NextNonce(h.nonce) && d.host.receipts == h.receipts
  {
    hide Bank.PayFee;
    PayFeeConserves(b, meta.payer, RelayerFees, ProtocolFee(h, draft));
    var b1 := b.PayFee(meta.payer, RelayerFees, ProtocolFee(h, draft)).value;
    PayFeeConserves(b1, meta.payer, RelayerFees, meta.fee);
  }

  /** What a successful outbound transfer does to the ledger, stated without its
      control flow: guards passed, payer kept alive, one burn booked on one lane. */
  lemma OutboundEffect(cfg: Config, s: Storage, who: AccountId, dest: Chain, recipient: nat, amount: nat, fee: nat,
                       wire: Wire)
    requires s.bank.Valid() && Outbound(cfg, s, who, dest, recipient, amount, fee, wire).Ok?
    ensures var (s1, k) := Outbound(cfg, s, who, dest, recipient, amount, fee, wire).value;
      && !s.paused && dest !in s.pausedChains && dest in s.chains
      && cfg.minAmount <= amount <= s.perTxLimit && s1.windowUsed <= s.dailyLimit
      && (s1.windowStart, s1.windowUsed - amount) == CurrentWindow(cfg, s)
      && s1.bank.Valid() && s1.bank.issuance + s1.bank.burnedDust + amount == s.bank.issuance + s.bank.burnedDust
      && s1.bridgedOut == s.bridgedOut + amount
      && s1.byChain == s.byChain[dest := At(s.byChain, dest) + amount]
      && s1.events == s.events + [Burned(s.now, dest, who, amount)]
      && k == Numbered(OutboundDraft(cfg, s.chains[dest], who, dest, recipient, amount, wire), s.host.nonce)
      && k !in s.host.requests && s1.host.requests == s.host.requests[k := FeeMetadata(who, fee)]
      && s1.host.nonce == NextNonce(s.host.nonce) && s1.host.receipts == s.host.receipts
      && s1 == s.(bank := s1.bank, host := s1.host, bridgedOut := s1.bridgedOut, byChain := s1.byChain,
                  windowStart := s1.windowStart, windowUsed := s1.windowUsed, events := s1.events)
  {
    hide Dispatch, Bank.Withdraw, OutboundDraft;
    if amount > 0 { WithdrawBurns(s.bank, who, amount); } else { WithdrawNothing(s.bank, who); }
    var b := s.bank.Withdraw(who, amount).value;
    DispatchConserves(s.host, b, OutboundDraft(cfg, s.chains[dest], who, dest, recipient, amount, wire),
        FeeMetadata(who, fee));
  }

  lemma WithdrawNothing(b: Bank, who: AccountId)
    ensures b.Withdraw(who, 0) == Some(b)
  {
  }

  lemma OutboundLawful(cfg: Config, s: Storage, supply: nat, who: AccountId, dest: Chain, recipient: nat, amount: nat,
                       fee: nat, wire: Wire)
    requires Lawful(cfg, s, supply) && Outbound(cfg, s, who, dest, recipient, amount, fee, wire).Ok?
    ensures Lawful(cfg, Outbound(cfg, s, who, dest, recipient, amount, fee, wire).value.0, supply)
  {
    hide Outbound, OutboundDraft;
    OutboundEffect(cfg, s, who, dest, recipient, amount, fee, wire);
    SumWrite(s.byChain, dest, At(s.byChain, dest) + amount);
    FlowsAppend(s.events, Burned(s.now, dest, who, amount));
  }

  lemma TrackedLawful(cfg: Config, s: Storage, supply: nat, who: AccountId, dest: Chain, recipient: nat, amount: nat,
                      fee: nat, wire: Wire, meta: seq<nat>)
    requires Lawful(cfg, s, supply) && OutboundTracked(cfg, s, who, dest, recipient, amount, fee, wire, meta).Ok?
    ensures Lawful(cfg, OutboundTracked(cfg, s, who, dest, recipient, amount, fee, wire, meta).value.0, supply)
  {
    hide Outbound;
    OutboundLawful(cfg, s, supply, who, dest, recipient, amount, fee, wire);
    var (s1, k) := Outbound(cfg, s, who, dest, recipient, amount, fee, wire).value;
    FlowsAppend(s1.events, PayoutTracked(k, meta, s.now));
  }

  /** A credit keeps the supply constant if and only if it actually mints: it reaches
      the existential deposit, or its account exists, or it is zero. */
  lemma CreditConservesIffItMints(s: Storage, beneficiary: AccountId, lane: Chain, amount: nat)
    requires s.bank.Valid() && Supply(s) <= MAX_BALANCE
    requires CreditInbound(s, beneficiary, lane, amount).Ok?
    ensures var s1 := CreditInbound(s, beneficiary, lane, amount).value;
      Supply(s1) == Supply(s) <==> amount == 0 || amount >= EXISTENTIAL_DEPOSIT || s.bank.Exists(beneficiary)
  {
    DepositMints(s.bank, beneficiary, amount);
  }

  lemma CreditLawful(cfg: Config, s: Storage, supply: nat, beneficiary: AccountId, lane: Chain, amount: nat)
    requires cfg.Sound() && cfg.minAmount <= amount
    requires Lawful(cfg, s, supply) && CreditInbound(s, beneficiary, lane, amount).Ok?
    ensures var s1 := CreditInbound(s, beneficiary, lane, amount).value;
      && Lawful(cfg, s1, supply)
      && s1.bank.Free(beneficiary) == s.bank.Free(beneficiary) + amount
      && s1.bank.issuance == s.bank.issuance + amount
  {
    DepositMints(s.bank, beneficiary, amount);
    hide Bank.DepositCreating;
    SumWrite(s.byChain, lane, At(s.byChain, lane) - amount);
    FlowsAppend(s.events, Minted(s.now, lane, beneficiary, amount));
  }

  lemma ExecuteLawful(cfg: Config, s: Storage, supply: nat, id: nat, wire: Wire)
    requires Lawful(cfg, s, supply) && ExecuteWithdraw(cfg, s, id, wire).Ok?
    ensures Lawful(cfg, ExecuteWithdraw(cfg, s, id, wire).value, supply)
  {
    hide Outbound;
    var p := s.pending[id];
    OutboundLawful(cfg, s, supply, p.owner, p.dest, p.recipient, p.amount, 0, wire);
    var s1 := Outbound(cfg, s, p.owner, p.dest, p.recipient, p.amount, 0, wire).value.0;
    FlowsAppend(s1.events, WithdrawExecuted(id, s.now));
  }

  /** A credited amount is a decoded amount, so it reaches the minimum and mints. */
  lemma WorthCreditLawful(cfg: Config, s: Storage, supply: nat, lane: Chain, body: Body, beneficiary: AccountId,
                          amount: nat)
    requires cfg.Sound() && Lawful(cfg, s, supply) && Worth(cfg, s, lane, body, amount)
    requires CreditInbound(s, beneficiary, lane, amount).Ok?
    ensures Lawful(cfg, CreditInbound(s, beneficiary, lane, amount).value, supply)
  {
    AmountReachesMinimum(cfg, body.message.amount, s.chains[lane].ercDecimals);
    CreditLawful(cfg, s, supply, beneficiary, lane, amount);
  }

  /** A change that moves no funds and books nothing. */
  lemma QuietLawful(cfg: Config, s: Storage, s': Storage, supply: nat)
    requires Lawful(cfg, s, supply)
    requires s'.bank == s.bank && s'.bridgedOut == s.bridgedOut && s'.byChain == s.byChain && s'.chains == s.chains
    requires s'.events == s.events
      || exists e: Event :: !e.Burned? && !e.Minted? && s'.events == s.events + [e]
    ensures Lawful(cfg, s', supply)
  {
    if s'.events != s.events {
      var e: Event :| !e.Burned? && !e.Minted? && s'.events == s.events + [e];
      FlowsAppend(s.events, e);
    }
  }

  /** A movement of funds that neither mints nor burns. */
  lemma MoveLawful(cfg: Config, s: Storage, b: Bank, supply: nat)
    requires Lawful(cfg, s, supply)
    requires b.Valid() && b.issuance + b.burnedDust == s.bank.issuance + s.bank.burnedDust
    ensures Lawful(cfg, s.(bank := b), supply)
  {
  }

  lemma ChainsLawful(cfg: Config, s: Storage, supply: nat, p: Primitive)
    requires Lawful(cfg, s, supply) && (p.AddChain? || p.RemoveChain?) && Apply(cfg, s, p).Some?
    ensures Lawful(cfg, Apply(cfg, s, p).value, supply)
  {
  }

  /** Every primitive change keeps the law of the ledger. */
  lemma PrimitiveLawful(cfg: Config, s: Storage, supply: nat, p: Primitive)
    requires cfg.Sound() && Lawful(cfg, s, supply) && Apply(cfg, s, p).Some?
    ensures Lawful(cfg, Apply(cfg, s, p).value, supply)
  {
    hide Outbound, OutboundTracked, ExecuteWithdraw, CreditInbound, TopUp, Worth, Bank.Transfer, Bank.PayFee, Lawful;
    var s' := Apply(cfg, s, p).value;
    if p.SendOut? {
      OutboundLawful(cfg, s, supply, p.who, p.dest, p.recipient, p.amount, p.fee, p.wire);
    } else if p.SendTracked? {
      TrackedLawful(cfg, s, supply, p.who, p.dest, p.recipient, p.amount, p.fee, p.wire, p.meta);
    } else if p.ExecutePending? {
      ExecuteLawful(cfg, s, supply, p.id, p.wire);
    } else if p.AcceptCredit? {
      WorthMoves(cfg, s, Received(s, p.post), p.post.source, p.post.body, p.amount);
      QuietLawful(cfg, s, Received(s, p.post), supply);
      WorthCreditLawful(cfg, Received(s, p.post), supply, p.post.source, p.post.body, p.beneficiary, p.amount);
    } else if p.RefundCredit? {
      WorthMoves(cfg, s, Forgotten(s, p.k), p.k.post.dest, p.k.post.body, p.amount);
      QuietLawful(cfg, s, Forgotten(s, p.k), supply);
      WorthCreditLawful(cfg, Forgotten(s, p.k), supply, p.k.post.dest, p.k.post.body, p.sender, p.amount);
    } else if p.MoveFunds? {
      ValidBank(cfg, s, supply);
      TransferConserves(s.bank, p.from, p.to, p.amount, false);
      MoveLawful(cfg, s, s'.bank, supply);
    } else if p.RefundRelayerFee? {
      ValidBank(cfg, s, supply);
      if p.escrowed.fee != 0 { PayFeeConserves(s.bank, RelayerFees, p.escrowed.payer, p.escrowed.fee); }
      MoveLawful(cfg, s, s'.bank, supply);
    } else if p.TopUpRecord? {
      ValidBank(cfg, s, supply);
      TopUpFrame(s, p.who, p.k, p.amount);
      PayFeeConserves(s.bank, p.who, RelayerFees, p.amount);
      QuietLawful(cfg, s, s.(host := s'.host), supply);
      MoveLawful(cfg, s.(host := s'.host), s'.bank, supply);
    } else if p.AddChain? || p.RemoveChain? {
      ChainsLawful(cfg, s, supply, p);
    } else {
      StillLawful(cfg, s, supply, p);
    }
  }

  /** Primitives that move no funds and book nothing. */
  lemma StillLawful(cfg: Config, s: Storage, supply: nat, p: Primitive)
    requires Lawful(cfg, s, supply) && Apply(cfg, s, p).Some?
    requires p.CancelPending? || p.QueueNew? || p.ReceiptOnly? || p.TakeContext? || p.WriteBusiness? || p.NoteOrder?
             || p.NoteRefund? || p.PruneContexts? || p.Pause? || p.Limit? || p.Tick?
    ensures Lawful(cfg, Apply(cfg, s, p).value, supply)
  {
    hide Lawful;
    var s' := Apply(cfg, s, p).value;
    if p.CancelPending? { assert s'.events == s.events + [WithdrawCancelled(p.id)]; }
    else if p.QueueNew? { assert s'.events == s.events + [s'.events[|s.events|]]; }
    else if p.TakeContext? { assert s'.events == s.events + [ContextTaken(p.k, s.payoutRefunds[p.k].meta)]; }
    else if p.NoteOrder? { assert s'.events == s.events + [CrossOrder(p.buyer, p.placed)]; }
    else if p.NoteRefund? { assert s'.events == s.events + [PayoutRefundNotified(p.k, p.meta, p.handled)]; }
    QuietLawful(cfg, s, s', supply);
  }

  lemma ValidBank(cfg: Config, s: Storage, supply: nat)
    requires Lawful(cfg, s, supply)
    ensures s.bank.Valid()
  {
  }

  lemma WorthMoves(cfg: Config, s: Storage, s': Storage, lane: Chain, body: Body, amount: nat)
    requires s'.chains == s.chains
    ensures Worth(cfg, s', lane, body, amount) <==> Worth(cfg, s, lane, body, amount)
  {
  }

  lemma {:induction false} PrimitivesLawful(cfg: Config, s: Storage, supply: nat, ps: seq<Primitive>)
    requires cfg.Sound() && Lawful(cfg, s, supply) && ApplyAll(cfg, s, ps).Some?
    ensures Lawful(cfg, ApplyAll(cfg, s, ps).value, supply)
    decreases ps
  {
    hide Apply, Lawful;
    if ps != [] {
      PrimitiveLawful(cfg, s, supply, ps[0]);
      PrimitivesLawful(cfg, Apply(cfg, s, ps[0]).value, supply, ps[1..]);
    }
  }

  /** Every step, whatever it is and whoever takes it, keeps the law of the ledger. */
  lemma StepLawful(cfg: Config, s: Storage, supply: nat, op: Op)
    requires cfg.Sound() && Lawful(cfg, s, supply)
    ensures Lawful(cfg, Step(cfg, s, op), supply)
  {
    hide Perform, Trace, Lawful;
    if Perform(cfg, s, op).Ok? {
      OperationTraced(cfg, s, op);
      PrimitivesLawful(cfg, s, supply, Trace(cfg, s, op));
    }
  }

  // ---------------------------------------------------------------------- main results

  /** Over every run from genesis: issuance plus bridged-out (plus unreceivable dust) is
      constant, the lanes add up to the total, and each lane equals what was burned to it
      minus what was minted from it. */
  lemma {:induction false} ConservationLaw(cfg: Config, s: Storage, ops: seq<Op>)
    requires cfg.Sound() && Genesis(s) && s.bank.Valid() && Supply(s) <= MAX_BALANCE
    ensures Lawful(cfg, Run(cfg, s, ops), Supply(s))
  {
    hide Step;
    if ops == [] {
      assert SumOf(s.byChain) == 0;
    } else {
      ConservationLaw(cfg, s, ops[..|ops| - 1]);
      StepLawful(cfg, Run(cfg, s, ops[..|ops| - 1]), Supply(s), ops[|ops| - 1]);
    }
  }

  /** At every prefix of every run, what has been minted from a lane never exceeds what
      had been burned to it, and the lane never exceeds the total. */
  lemma NeverMintsMoreThanBurned(cfg: Config, s: Storage, ops: seq<Op>, n: nat, lane: Chain)
    requires cfg.Sound() && Genesis(s) && s.bank.Valid() && Supply(s) <= MAX_BALANCE && n <= |ops|
    ensures var r := Run(cfg, s, ops[..n]);
      MintedFrom(r.events, lane) <= BurnedTo(r.events, lane) && At(r.byChain, lane) <= r.bridgedOut
  {
    hide Run;
    ConservationLaw(cfg, s, ops[..n]);
    SumWrite(Run(cfg, s, ops[..n]).byChain, lane, 0);
  }
}
