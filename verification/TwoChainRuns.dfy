/** What two-chain safety is good for, over whole runs: legitimate requests are accepted,
    and a transfer that times out, however much later, is undone exactly. */
module TwoChainRuns {
  import opened Sums
  import opened Balances
  import opened Messages
  import opened Precision
  import opened IsmpHost
  import opened BridgeState
  import opened BridgeTrace
  import opened BridgeLaws
  import opened BridgeRefunds
  import opened LaneCover
  import opened TwoChain

  /** Every move of either side keeps both laws. */
  lemma MoveSafe(cfg: Config, lanes: Lanes, w: World, total: nat, m: Move)
    requires cfg.Sound() && Lawful(cfg, w.s, total) && Consistent(cfg, lanes, w)
    ensures var now := Next(cfg, lanes, w, m);
      Lawful(cfg, now.s, total) && Consistent(cfg, lanes, now)
  {
    hide Lawful, Consistent, Step, Remaining;
    if Possible(lanes, w, m) {
      match m {
        case Local(op) =>
          LocalSafe(cfg, lanes, w, total, op);
          StepLawful(cfg, w.s, total, op);
        case _ => CounterpartySafe(cfg, lanes, w, m);
      }
    }
  }

  lemma {:induction false} RunSafe(cfg: Config, lanes: Lanes, w: World, total: nat, moves: seq<Move>)
    requires cfg.Sound() && Lawful(cfg, w.s, total) && Consistent(cfg, lanes, w)
    ensures var now := RunWorld(cfg, lanes, w, moves);
      Lawful(cfg, now.s, total) && Consistent(cfg, lanes, now)
  {
    hide Lawful, Consistent, Next;
    if moves != [] {
      var front := moves[..|moves| - 1];
      RunSafe(cfg, lanes, w, total, front);
      MoveSafe(cfg, lanes, RunWorld(cfg, lanes, w, front), total, moves[|moves| - 1]);
    }
  }

  /** Over every run of both sides: each lane's booked amount, in ERC-20 units, covers
      what is in flight out, the supply over there and what is in flight back, and exceeds
      them by less than one native unit for every credit made. */
  lemma TwoChainSafety(cfg: Config, lanes: Lanes, w: World, moves: seq<Move>)
    requires cfg.Sound() && NewWorld(w) && w.s.bank.Valid() && Supply(w.s) <= MAX_BALANCE
    ensures var now := RunWorld(cfg, lanes, w, moves);
      Lawful(cfg, now.s, Supply(w.s)) && Consistent(cfg, lanes, now)
  {
    hide Lawful, Consistent, RunWorld;
    ConservationLaw(cfg, w.s, []);
    NewWorldConsistent(cfg, lanes, w);
    RunSafe(cfg, lanes, w, Supply(w.s), moves);
  }

  // ----------------------------------------------------------- what safety is good for

  /** A claim no larger than what its lane owes decodes to an amount the lane can pay. */
  lemma ClaimIsPayable(cfg: Config, lanes: Lanes, w: World, total: nat, lane: Chain, claim: nat)
    requires Lawful(cfg, w.s, total) && Consistent(cfg, lanes, w) && lane in w.s.chains
    requires claim <= Owed(w, lane) && DecodeAmount(cfg, claim, At(lanes, lane)).Ok?
    ensures DecodeAmount(cfg, claim, At(lanes, lane)).value <= At(w.s.byChain, lane) <= w.s.bridgedOut
  {
    hide DecodeAmount, Unit, Lawful, Owed, Refundable;
    LawfulCaps(cfg, w.s, total);
    var amount := DecodeAmount(cfg, claim, At(lanes, lane)).value;
    DecodedWorth(cfg, lanes, lane, claim, amount);
    assert Backed(cfg, lanes, w, lane);
    NoMoreUnits(amount, At(w.s.byChain, lane), Unit(cfg, lanes, lane));
  }

  lemma InFlightIsOwed(w: World, post: PostRequest)
    requires post in w.inbound
    ensures Backing(post) <= Owed(w, post.source)
  {
    InFlightGone(w.inbound, post, post.source);
  }

  /** Why the bridge may refuse an inbound request: never for want of a booked amount. */
  predicate Acceptable(cfg: Config, s: Storage, post: PostRequest) {
    && !s.paused && post.source !in s.pausedChains
    && Genuine(s, post) && post.body.Encoded?
    && var m, decimals := post.body.message, s.chains[post.source].ercDecimals;
    match m.data
    case Empty => DecodeAmount(cfg, m.amount, decimals).Ok? && !m.to.BadLength?
    case Order(intent) => intent.schemaVersion == PAYLOAD_SCHEMA_VERSION && DecodeAmount(cfg, m.amount, decimals).Ok?
    case Withdraw(req) => req.schemaVersion == PAYLOAD_SCHEMA_VERSION && DecodeAmount(cfg, req.amount, decimals).Ok?
    case Garbled(_) => false
  }

  lemma DecodeErrors(cfg: Config)
    ensures forall claim, decimals {:trigger DecodeAmount(cfg, claim, decimals)} ::
              DecodeAmount(cfg, claim, decimals) != Err(InvariantViolation)
  {
    hide ConvertToBalance;
  }

  /** A legitimate inbound request is accepted if and only if it is new and well formed:
      the ledger invariant check can never refuse it. */
  lemma InboundAcceptedIff(cfg: Config, lanes: Lanes, w: World, total: nat, post: PostRequest, h: Handler)
    requires Lawful(cfg, w.s, total) && Consistent(cfg, lanes, w) && post in w.inbound
    ensures HandleAccept(cfg, w.s, post, h).Ok? <==> Post(post) !in w.s.host.receipts && Acceptable(cfg, w.s, post)
    ensures HandleAccept(cfg, w.s, post, h) != Err(InvariantViolation)
  {
    hide DecodeAmount, Lawful, RunHandler, Backed, Refundable, Owed, Bank.DepositCreating, QueueWithdraw;
    DecodeErrors(cfg);
    if Acceptable(cfg, w.s, post) && !post.body.message.data.Withdraw? {
      InFlightIsOwed(w, post);
      ClaimIsPayable(cfg, lanes, w, total, post.source, post.body.message.amount);
    }
  }

  /** The refund of an undelivered request goes through if and only if its lane is still
      registered with the contract it was sent to. */
  lemma UndeliveredRefundsIff(cfg: Config, lanes: Lanes, w: World, total: nat, k: Commitment, h: Handler)
    requires Lawful(cfg, w.s, total) && Consistent(cfg, lanes, w)
    requires k in w.s.host.requests && k !in w.delivered
    ensures OnTimeout(cfg, Forgotten(w.s, k), k, h).Ok? <==>
            k.post.dest in w.s.chains && k.post.to == H160(w.s.chains[k.post.dest].contract)
  {
    hide DecodeAmount, Lawful, RunHandler, Backed, Owed, Bank.DepositCreating, NotifyRefund;
    assert Refundable(cfg, lanes, k);
    if k.post.dest in w.s.chains {
      OutstandingIsOwed(w, k);
      ClaimIsPayable(cfg, lanes, w, total, k.post.dest, SentAmount(k));
    }
  }

  lemma OutstandingIsOwed(w: World, k: Commitment)
    requires k in w.s.host.requests && k !in w.delivered && k.Post?
    ensures SentAmount(k) <= Owed(w, k.post.dest)
  {
    OutFlightGone(w.s.host.requests, w.delivered, k, k.post.dest);
  }

  /** With the lane's row as it was at dispatch, the timeout of an outstanding, undelivered
      transfer re-mints exactly what was burned, to its sender, un-books exactly that, runs
      the refund handler if a context is stored, and pays the recorded relayer fee back;
      only that last payment can still fail. */
  lemma OutstandingTimeoutIsExact(cfg: Config, lanes: Lanes, w: World, total: nat, lane: ChainConfig, nonce: nat,
                                  who: AccountId, dest: Chain, recipient: nat, amount: nat, wire: Wire, h: Handler)
    requires Lawful(cfg, w.s, total) && Consistent(cfg, lanes, w)
    requires dest in w.s.chains && w.s.chains[dest] == lane && cfg.minAmount <= amount <= MAX_BALANCE
    requires var k := SentAs(cfg, lane, nonce, who, dest, recipient, amount, wire);
      k in w.s.host.requests && k !in w.delivered
    ensures var k := SentAs(cfg, lane, nonce, who, dest, recipient, amount, wire);
      && CreditInbound(Forgotten(w.s, k), who, dest, amount).Ok?
      && var after := NotifyRefund(cfg, CreditInbound(Forgotten(w.s, k), who, dest, amount).value, k, h);
         HandleTimeout(cfg, w.s, k, h) ==
           match RefundFee(after.bank, w.s.host.requests[k]) {
             case None => Err(FeeRefundFailed)
             case Some(b) => Ok(after.(bank := b))
           }
  {
    hide Lawful, DecodeAmount, ConvertToErc20, NotifyRefund, Owed, RefundFee, Bank.DepositCreating;
    var k := SentAs(cfg, lane, nonce, who, dest, recipient, amount, wire);
    LawfulCaps(cfg, w.s, total);
    assert SatSub(lane.ercDecimals, cfg.nativeDecimals) <= MAX_ERC_NATIVE_DECIMAL_GAP;
    EncodedDecodes(cfg, lane.ercDecimals, amount);
    OutstandingIsOwed(w, k);
    ClaimIsPayable(cfg, lanes, w, total, dest, SentAmount(k));
    TimeoutRefundsExactly(cfg, Forgotten(w.s, k), lane, nonce, who, dest, recipient, amount, wire, h);
  }

  // -------------------------------------------------------------------- over whole runs

  /** A run of both chains from the beginning. */
  predicate Starts(cfg: Config, w: World) {
    cfg.Sound() && NewWorld(w) && Supply(w.s) <= MAX_BALANCE
  }

  /** After any run, a legitimate inbound request is accepted if and only if it is new and
      well formed; the ledger check can never be what refuses it. */
  lemma LegitimateInboundAccepted(cfg: Config, lanes: Lanes, w: World, moves: seq<Move>, post: PostRequest, h: Handler)
    requires Starts(cfg, w) && w.s.bank.Valid()
    requires post in RunWorld(cfg, lanes, w, moves).inbound
    ensures var now := RunWorld(cfg, lanes, w, moves);
      && (HandleAccept(cfg, now.s, post, h).Ok? <==> Post(post) !in now.s.host.receipts && Acceptable(cfg, now.s, post))
      && HandleAccept(cfg, now.s, post, h) != Err(InvariantViolation)
  {
    hide RunWorld, HandleAccept, Acceptable, Lawful, Consistent;
    TwoChainSafety(cfg, lanes, w, moves);
    InboundAcceptedIff(cfg, lanes, RunWorld(cfg, lanes, w, moves), Supply(w.s), post, h);
  }

  /** After any run, the refund of an outstanding, undelivered request goes through if and
      only if its lane is still registered with the contract it was sent to. */
  lemma UndeliveredRefunds(cfg: Config, lanes: Lanes, w: World, moves: seq<Move>, k: Commitment, h: Handler)
    requires Starts(cfg, w) && w.s.bank.Valid() && k.Post?
    requires var now := RunWorld(cfg, lanes, w, moves); k in now.s.host.requests && k !in now.delivered
    ensures var now := RunWorld(cfg, lanes, w, moves);
      OnTimeout(cfg, Forgotten(now.s, k), k, h).Ok? <==>
        k.post.dest in now.s.chains && k.post.to == H160(now.s.chains[k.post.dest].contract)
  {
    hide RunWorld, OnTimeout, Lawful, Consistent;
    TwoChainSafety(cfg, lanes, w, moves);
    UndeliveredRefundsIff(cfg, lanes, RunWorld(cfg, lanes, w, moves), Supply(w.s), k, h);
  }

  // ------------------------------------------------------ a record until its own timeout

  /** The change is neither the refund nor a top-up of this record. */
  predicate Spares(p: Primitive, k: Commitment) {
    !((p.RefundCredit? || p.TopUpRecord?) && p.k == k)
  }

  lemma OutboundSpares(cfg: Config, s: Storage, who: AccountId, dest: Chain, recipient: nat, amount: nat, fee: nat,
                       wire: Wire, k: Commitment)
    requires s.bank.Valid() && k in s.host.requests && Outbound(cfg, s, who, dest, recipient, amount, fee, wire).Ok?
    ensures var requests := Outbound(cfg, s, who, dest, recipient, amount, fee, wire).value.0.host.requests;
      k in requests && requests[k] == s.host.requests[k]
  {
    hide Outbound, OutboundDraft;
    OutboundEffect(cfg, s, who, dest, recipient, amount, fee, wire);
  }

  /** No change but its own refund or top-up touches an outstanding record: not the payer,
      not the fee. A new request cannot take its place while it is outstanding. */
  lemma RecordStays(cfg: Config, s: Storage, p: Primitive, k: Commitment)
    requires s.bank.Valid() && k in s.host.requests && Spares(p, k) && Apply(cfg, s, p).Some?
    ensures var requests := Apply(cfg, s, p).value.host.requests;
      k in requests && requests[k] == s.host.requests[k]
  {
    hide Outbound, RegisterChain, Bank.Transfer, RefundFee, Worth, Bank.DepositCreating;
    if p.SendOut? { OutboundSpares(cfg, s, p.who, p.dest, p.recipient, p.amount, p.fee, p.wire, k); }
    else if p.SendTracked? { OutboundSpares(cfg, s, p.who, p.dest, p.recipient, p.amount, p.fee, p.wire, k); }
    else if p.ExecutePending? && p.id in s.pending {
      var q := s.pending[p.id];
      if Outbound(cfg, s, q.owner, q.dest, q.recipient, q.amount, 0, p.wire).Ok? {
        OutboundSpares(cfg, s, q.owner, q.dest, q.recipient, q.amount, 0, p.wire, k);
      }
    }
    else if p.AddChain? { RegisterFrame(cfg, s, p.chain, p.contract, p.ercDecimals); }
    else if p.TopUpRecord? { TopUpFrame(s, p.who, p.k, p.amount); }
  }

  lemma {:induction false} RecordStaysThrough(cfg: Config, s: Storage, total: nat, ps: seq<Primitive>, k: Commitment)
    requires cfg.Sound() && Lawful(cfg, s, total) && k in s.host.requests
    requires (forall p :: p in ps ==> Spares(p, k)) && ApplyAll(cfg, s, ps).Some?
    ensures var requests := ApplyAll(cfg, s, ps).value.host.requests;
      k in requests && requests[k] == s.host.requests[k]
    decreases ps
  {
    hide Apply, Lawful;
    if ps != [] {
      ValidBank(cfg, s, total);
      PrimitiveLawful(cfg, s, total, ps[0]);
      RecordStays(cfg, s, ps[0], k);
      RecordStaysThrough(cfg, Apply(cfg, s, ps[0]).value, total, ps[1..], k);
    }
  }

  lemma TraceSpares(cfg: Config, s: Storage, op: Op, k: Commitment)
    requires Perform(cfg, s, op).Ok? && !((op.TimeoutOp? || op.TopUpOp?) && op.commitment == k)
    ensures forall p :: p in Trace(cfg, s, op) ==> Spares(p, k)
  {
    hide HandleAccept, HandleTimeout, AcceptTrace, TimeoutTrace, OfHandler;
    TraceShape(cfg, s, op);
    var ps := Trace(cfg, s, op);
    if op.AcceptOp? {
      AcceptShape(cfg, s, op.post, op.handler);
      assert ps == [ps[0]] + ps[1..];
    } else if op.TimeoutOp? {
      FirstRefund(cfg, s, op.commitment, op.handler);
      assert ps == [ps[0]] + ps[1..];
    }
  }

  lemma FirstRefund(cfg: Config, s: Storage, k: Commitment, h: Handler)
    requires HandleTimeout(cfg, s, k, h).Ok?
    ensures var ps := TimeoutTrace(cfg, s, k, h); ps != [] && ps[0].RefundCredit? && ps[0].k == k
  {
    hide CreditInbound, NotifyTrace, DecodeAmount, NotifyRefund, RefundFee;
  }

  /** The move neither delivers the request nor times it out. */
  predicate Leaves(m: Move, k: Commitment) {
    m != Deliver(k) && !(m.Local? && m.op.TimeoutOp? && m.op.commitment == k)
  }

  /** The request is outstanding, undelivered, and recorded with this payer and fee. */
  predicate Outstanding(w: World, k: Commitment, payer: AccountId, fee: nat) {
    k in w.s.host.requests && w.s.host.requests[k] == FeeMetadata(payer, fee) && k !in w.delivered
  }

  /** The recorded fee after a move: a top-up that goes through adds to it. */
  function FeeAfter(cfg: Config, lanes: Lanes, w: World, m: Move, k: Commitment, fee: nat): nat {
    if Possible(lanes, w, m) && m.Local? && m.op.TopUpOp? && m.op.commitment == k && Perform(cfg, w.s, m.op).Ok?
    then Wrap128(fee + m.op.amount) else fee
  }

  function FeeAfterAll(cfg: Config, lanes: Lanes, w: World, moves: seq<Move>, k: Commitment, fee: nat): nat {
    if moves == [] then fee
    else
      var front := moves[..|moves| - 1];
      FeeAfter(cfg, lanes, RunWorld(cfg, lanes, w, front), moves[|moves| - 1], k,
          FeeAfterAll(cfg, lanes, w, front, k, fee))
  }

  lemma MoveLeaves(cfg: Config, lanes: Lanes, w: World, total: nat, m: Move, k: Commitment, payer: AccountId, fee: nat)
    requires cfg.Sound() && Lawful(cfg, w.s, total) && Outstanding(w, k, payer, fee) && Leaves(m, k)
    ensures Outstanding(Next(cfg, lanes, w, m), k, payer, FeeAfter(cfg, lanes, w, m, k, fee))
  {
    if m.Local? && m.op.TopUpOp? && m.op.commitment == k {
      hide Lawful, Possible, TopUp;
      if Perform(cfg, w.s, m.op).Ok? { TopUpFrame(w.s, m.op.who, k, m.op.amount); }
    } else {
      hide Perform, Trace, Lawful, Possible;
      if m.Local? && Perform(cfg, w.s, m.op).Ok? {
        OperationTraced(cfg, w.s, m.op);
        TraceSpares(cfg, w.s, m.op, k);
        RecordStaysThrough(cfg, w.s, total, Trace(cfg, w.s, m.op), k);
      }
    }
  }

  lemma {:induction false} RunLeaves(cfg: Config, lanes: Lanes, w: World, total: nat, moves: seq<Move>, k: Commitment,
                                     payer: AccountId, fee: nat)
    requires cfg.Sound() && Lawful(cfg, w.s, total) && Consistent(cfg, lanes, w) && Outstanding(w, k, payer, fee)
    requires forall m :: m in moves ==> Leaves(m, k)
    ensures Outstanding(RunWorld(cfg, lanes, w, moves), k, payer, FeeAfterAll(cfg, lanes, w, moves, k, fee))
  {
    hide Lawful, Consistent, Next, Outstanding, Leaves, FeeAfter;
    if moves != [] {
      var front := moves[..|moves| - 1];
      RunLeaves(cfg, lanes, w, total, front, k, payer, fee);
      RunSafe(cfg, lanes, w, total, front);
      MoveLeaves(cfg, lanes, RunWorld(cfg, lanes, w, front), total, moves[|moves| - 1], k, payer,
                 FeeAfterAll(cfg, lanes, w, front, k, fee));
    }
  }

  /** What a transfer leaves in the world: the request, recorded with its payer and fee. */
  lemma SentIsOutstanding(cfg: Config, lanes: Lanes, w: World, total: nat, who: AccountId, dest: Chain, recipient: nat,
                          amount: nat, fee: nat, wire: Wire)
    requires Lawful(cfg, w.s, total) && Consistent(cfg, lanes, w)
    requires Outbound(cfg, w.s, who, dest, recipient, amount, fee, wire).Ok?
    ensures var (s1, k) := Outbound(cfg, w.s, who, dest, recipient, amount, fee, wire).value;
      && dest in w.s.chains && k == SentAs(cfg, w.s.chains[dest], w.s.host.nonce, who, dest, recipient, amount, wire)
      && Outstanding(w.(s := s1), k, who, fee)
      && Lawful(cfg, s1, total) && Consistent(cfg, lanes, w.(s := s1))
      && cfg.minAmount <= amount <= MAX_BALANCE
  {
    hide Outbound, OutboundDraft, Lawful;
    ValidBank(cfg, w.s, total);
    OutboundEffect(cfg, w.s, who, dest, recipient, amount, fee, wire);
    OutboundLawful(cfg, w.s, total, who, dest, recipient, amount, fee, wire);
    SendSafe(cfg, lanes, w, total, who, dest, recipient, amount, fee, wire);
    var s1 := Outbound(cfg, w.s, who, dest, recipient, amount, fee, wire).value.0;
    LawfulCaps(cfg, s1, total);
    assert amount <= At(s1.byChain, dest);
  }

  /** A transfer, with a refund context attached or without. */
  function Departs(cfg: Config, s: Storage, who: AccountId, dest: Chain, recipient: nat, amount: nat, fee: nat,
                   wire: Wire, meta: Option<seq<nat>>): Result<(Storage, Commitment)> {
    match meta
    case None => Outbound(cfg, s, who, dest, recipient, amount, fee, wire)
    case Some(attached) => OutboundTracked(cfg, s, who, dest, recipient, amount, fee, wire, attached)
  }

  lemma DepartedIsOutstanding(cfg: Config, lanes: Lanes, w: World, total: nat, who: AccountId, dest: Chain,
                              recipient: nat, amount: nat, fee: nat, wire: Wire, meta: Option<seq<nat>>)
    requires Lawful(cfg, w.s, total) && Consistent(cfg, lanes, w)
    requires Departs(cfg, w.s, who, dest, recipient, amount, fee, wire, meta).Ok?
    ensures var (s1, k) := Departs(cfg, w.s, who, dest, recipient, amount, fee, wire, meta).value;
      && dest in w.s.chains && k == SentAs(cfg, w.s.chains[dest], w.s.host.nonce, who, dest, recipient, amount, wire)
      && Outstanding(w.(s := s1), k, who, fee)
      && Lawful(cfg, s1, total) && Consistent(cfg, lanes, w.(s := s1))
      && cfg.minAmount <= amount <= MAX_BALANCE
  {
    hide Outbound, OutboundDraft, Lawful, Consistent, SentAs;
    SentIsOutstanding(cfg, lanes, w, total, who, dest, recipient, amount, fee, wire);
    if meta.Some? {
      TrackedLawful(cfg, w.s, total, who, dest, recipient, amount, fee, wire, meta.value);
      TrackedSafe(cfg, lanes, w, total, who, dest, recipient, amount, fee, wire, meta.value);
    }
  }

  /** Send, anything at all, then time out. After any run a transfer is sent, tracked or
      not; whatever both chains do next, short of delivering it or timing it out, its
      timeout, with the lane's row as it was at the send, re-mints exactly what was burned,
      to its sender, un-books exactly that, hands on a stored context, and pays the
      dispatched fee and every top-up since to whoever sent it. Only that last payment can
      still fail. */
  lemma LaterTimeoutIsExact(cfg: Config, lanes: Lanes, start: World, before: seq<Move>, after: seq<Move>,
                            who: AccountId, dest: Chain, recipient: nat, amount: nat, fee: nat, wire: Wire,
                            meta: Option<seq<nat>>, h: Handler)
    requires Starts(cfg, start) && start.s.bank.Valid()
    requires var w := RunWorld(cfg, lanes, start, before);
      && Departs(cfg, w.s, who, dest, recipient, amount, fee, wire, meta).Ok?
      && var (s1, k) := Departs(cfg, w.s, who, dest, recipient, amount, fee, wire, meta).value;
         var later := RunWorld(cfg, lanes, w.(s := s1), after);
         && (forall m :: m in after ==> Leaves(m, k))
         && dest in w.s.chains && dest in later.s.chains && later.s.chains[dest] == w.s.chains[dest]
    ensures var w := RunWorld(cfg, lanes, start, before);
      var (s1, k) := Departs(cfg, w.s, who, dest, recipient, amount, fee, wire, meta).value;
      var later := RunWorld(cfg, lanes, w.(s := s1), after);
      && CreditInbound(Forgotten(later.s, k), who, dest, amount).Ok?
      && var undone := NotifyRefund(cfg, CreditInbound(Forgotten(later.s, k), who, dest, amount).value, k, h);
         HandleTimeout(cfg, later.s, k, h) ==
           match RefundFee(undone.bank, FeeMetadata(who, FeeAfterAll(cfg, lanes, w.(s := s1), after, k, fee))) {
             case None => Err(FeeRefundFailed)
             case Some(b) => Ok(undone.(bank := b))
           }
  {
    hide RunWorld, Departs, SentAs, Leaves, HandleTimeout, CreditInbound, NotifyRefund, RefundFee, Lawful, Consistent,
        FeeAfterAll;
    var w, total := RunWorld(cfg, lanes, start, before), Supply(start.s);
    TwoChainSafety(cfg, lanes, start, before);
    DepartedIsOutstanding(cfg, lanes, w, total, who, dest, recipient, amount, fee, wire, meta);
    var (s1, k) := Departs(cfg, w.s, who, dest, recipient, amount, fee, wire, meta).value;
    RunSafe(cfg, lanes, w.(s := s1), total, after);
    RunLeaves(cfg, lanes, w.(s := s1), total, after, k, who, fee);
    OutstandingTimeoutIsExact(cfg, lanes, RunWorld(cfg, lanes, w.(s := s1), after), total,
                              w.s.chains[dest], w.s.host.nonce, who, dest, recipient, amount, wire, h);
  }

  /** What a credit leaves the fee account free to pay. */
  lemma CreditThenFee(cfg: Config, s: Storage, total: nat, who: AccountId, dest: Chain, amount: nat, fee: nat)
    requires cfg.Sound() && Lawful(cfg, s, total) && cfg.minAmount <= amount
    requires CreditInbound(s, who, dest, amount).Ok?
    ensures var b := CreditInbound(s, who, dest, amount).value.bank;
      && (RefundFee(b, FeeMetadata(who, fee)).Some? <==> fee == 0 || fee <= b.Reducible(RelayerFees, false))
      && (who != RelayerFees ==> b.Reducible(RelayerFees, false) == s.bank.Reducible(RelayerFees, false))
  {
    hide Lawful, Bank.DepositCreating;
    CreditLawful(cfg, s, total, who, dest, amount);
    ValidBank(cfg, s, total);
    LawfulCaps(cfg, s, total);
    var s1 := CreditInbound(s, who, dest, amount).value;
    ValidBank(cfg, s1, total);
    FreeWithinIssuance(s1.bank, who);
    DepositMints(s.bank, who, amount);
    if who != RelayerFees { RefundGoesThroughIff(s1.bank, who, fee); }
  }

  /** When the timeout of a transfer without a stored context goes through, whatever happened
      since the send: exactly when the fee account can pay its recorded fee back. Where it
      cannot, the burned amount is not minted again either. */
  lemma LaterTimeoutGoesThroughIff(cfg: Config, lanes: Lanes, start: World, before: seq<Move>, after: seq<Move>,
                                   who: AccountId, dest: Chain, recipient: nat, amount: nat, fee: nat, wire: Wire,
                                   meta: Option<seq<nat>>, h: Handler)
    requires Starts(cfg, start) && start.s.bank.Valid()
    requires var w := RunWorld(cfg, lanes, start, before);
      && Departs(cfg, w.s, who, dest, recipient, amount, fee, wire, meta).Ok?
      && var (s1, k) := Departs(cfg, w.s, who, dest, recipient, amount, fee, wire, meta).value;
         var later := RunWorld(cfg, lanes, w.(s := s1), after);
         && (forall m :: m in after ==> Leaves(m, k)) && k !in later.s.payoutRefunds
         && dest in w.s.chains && dest in later.s.chains && later.s.chains[dest] == w.s.chains[dest]
    ensures var w := RunWorld(cfg, lanes, start, before);
      var (s1, k) := Departs(cfg, w.s, who, dest, recipient, amount, fee, wire, meta).value;
      var later := RunWorld(cfg, lanes, w.(s := s1), after);
      var owed := FeeAfterAll(cfg, lanes, w.(s := s1), after, k, fee);
      var credited := CreditInbound(Forgotten(later.s, k), who, dest, amount);
      && credited.Ok?
      && var payable := credited.value.bank.Reducible(RelayerFees, false);
         && (HandleTimeout(cfg, later.s, k, h).Ok? <==> owed == 0 || owed <= payable)
         && (who != RelayerFees ==> payable == later.s.bank.Reducible(RelayerFees, false))
         && (owed > payable ==> HandleTimeout(cfg, later.s, k, h) == Err(FeeRefundFailed))
  {
    hide RunWorld, Departs, Leaves, HandleTimeout, RefundFee, Lawful, Consistent, FeeAfterAll, Bank.Reducible,
        Bank.DepositCreating;
    var w, total := RunWorld(cfg, lanes, start, before), Supply(start.s);
    TwoChainSafety(cfg, lanes, start, before);
    DepartedIsOutstanding(cfg, lanes, w, total, who, dest, recipient, amount, fee, wire, meta);
    var (s1, k) := Departs(cfg, w.s, who, dest, recipient, amount, fee, wire, meta).value;
    RunSafe(cfg, lanes, w.(s := s1), total, after);
    LaterTimeoutIsExact(cfg, lanes, start, before, after, who, dest, recipient, amount, fee, wire, meta, h);
    var later := RunWorld(cfg, lanes, w.(s := s1), after);
    ForgottenIsLawful(cfg, later.s, total, k);
    CreditThenFee(cfg, Forgotten(later.s, k), total, who, dest, amount,
                  FeeAfterAll(cfg, lanes, w.(s := s1), after, k, fee));
  }

  lemma ForgottenIsLawful(cfg: Config, s: Storage, total: nat, k: Commitment)
    requires Lawful(cfg, s, total)
    ensures Lawful(cfg, Forgotten(s, k), total)
  {
  }
}
