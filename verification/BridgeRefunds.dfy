/** Refund contexts of tracked payouts over every run, and the refund of a timed-out
    transfer as the inverse of sending it. */
module BridgeRefunds {
  import opened Sums
  import opened Balances
  import opened Messages
  import opened Precision
  import opened IsmpHost
  import opened BridgeState
  import opened BridgeTrace
  import opened BridgeLaws

  /** How many transfers were sent; each consumed one nonce. */
  function BurnCount(events: seq<Event>): nat {
    if events == [] then 0
    else BurnCount(events[..|events| - 1]) + if events[|events| - 1].Burned? then 1 else 0
  }

  function TrackedTimes(events: seq<Event>, k: Commitment): nat {
    if events == [] then 0
    else
      var e := events[|events| - 1];
      TrackedTimes(events[..|events| - 1], k) + if e.PayoutTracked? && e.commitment == k then 1 else 0
  }

  /** How often a context was taken out and handed to the business handler. */
  function TakenTimes(events: seq<Event>, k: Commitment): nat {
    if events == [] then 0
    else
      var e := events[|events| - 1];
      TakenTimes(events[..|events| - 1], k) + if e.ContextTaken? && e.commitment == k then 1 else 0
  }

  lemma CountsAppend(events: seq<Event>, e: Event)
    ensures BurnCount(events + [e]) == BurnCount(events) + if e.Burned? then 1 else 0
    ensures forall k ::
        TrackedTimes(events + [e], k) == TrackedTimes(events, k)
            + if e.PayoutTracked? && e.commitment == k then 1 else 0
    ensures forall k ::
        TakenTimes(events + [e], k) == TakenTimes(events, k) + if e.ContextTaken? && e.commitment == k then 1 else 0
  {
    assert (events + [e])[..|events|] == events;
  }

  lemma {:induction false} UntrackedCountsZero(events: seq<Event>, k: Commitment)
    requires forall e :: e in events && e.PayoutTracked? ==> e.commitment != k
    ensures TrackedTimes(events, k) == 0
  {
    if events != [] {
      assert events[|events| - 1] in events;
      UntrackedCountsZero(events[..|events| - 1], k);
    }
  }

  type Contexts = map<Commitment, RefundContext>

  /** The nonce counts the transfers, so a new commitment was never tracked before. */
  ghost predicate Unrepeated(events: seq<Event>, nonce: nat) {
    && nonce == BurnCount(events)
    && (forall e :: e in events && e.PayoutTracked? ==> NonceOf(e.commitment) < nonce)
  }

  /** A context is stored at most once and taken at most once. */
  ghost predicate TakenOnce(events: seq<Event>, contexts: Contexts) {
    forall k ::
      && TrackedTimes(events, k) <= 1
      && TakenTimes(events, k) + (if k in contexts then 1 else 0) <= TrackedTimes(events, k)
  }

  /** What the handler is given, and what is stored, is what the dispatch attached. */
  ghost predicate Faithful(events: seq<Event>, contexts: Contexts) {
    && (forall e :: e in events && e.ContextTaken? ==>
         exists block :: PayoutTracked(e.commitment, e.meta, block) in events)
    && (forall k :: k in contexts ==> PayoutTracked(k, contexts[k].meta, contexts[k].dispatchedAt) in events)
  }

  /** A context stays until it is taken, or until its time to live has passed. */
  ghost predicate Surviving(cfg: Config, events: seq<Event>, contexts: Contexts, now: nat) {
    && (forall k :: k in contexts ==> contexts[k].dispatchedAt <= now)
    && (forall e :: e in events && e.PayoutTracked? ==>
        || (e.commitment in contexts && contexts[e.commitment] == RefundContext(e.block, e.meta))
        || TakenTimes(events, e.commitment) >= 1
        || now >= e.block + cfg.refundTtl)
  }

  ghost predicate Kept(cfg: Config, events: seq<Event>, contexts: Contexts, now: nat, nonce: nat) {
    && Unrepeated(events, nonce)
    && TakenOnce(events, contexts)
    && Faithful(events, contexts)
    && Surviving(cfg, events, contexts, now)
  }

  /** Holds of every reachable storage, until 2^64 transfers have been sent. */
  ghost predicate Contextual(cfg: Config, s: Storage) {
    BurnCount(s.events) <= MAX_U64 ==> Kept(cfg, s.events, s.payoutRefunds, s.now, s.host.nonce)
  }

  /** An event that neither stores nor takes a context; a burn moves the nonce on. */
  lemma OtherEventKept(cfg: Config, events: seq<Event>, contexts: Contexts, now: nat, nonce: nat, e: Event)
    requires Kept(cfg, events, contexts, now, nonce) && !e.PayoutTracked? && !e.ContextTaken?
    ensures Kept(cfg, events + [e], contexts, now, nonce + if e.Burned? then 1 else 0)
  {
    CountsAppend(events, e);
    StillFaithful(events, contexts, e);
  }

  lemma StillFaithful(events: seq<Event>, contexts: Contexts, e: Event)
    requires Faithful(events, contexts)
    requires e.ContextTaken? ==> exists block :: PayoutTracked(e.commitment, e.meta, block) in events
    ensures Faithful(events + [e], contexts)
  {
    forall t | t in events + [e] && t.ContextTaken?
      ensures exists block :: PayoutTracked(t.commitment, t.meta, block) in events + [e]
    {
      var block :| PayoutTracked(t.commitment, t.meta, block) in events;
      assert PayoutTracked(t.commitment, t.meta, block) in events + [e];
    }
  }

  /** A commitment that was never tracked is tracked now. */
  lemma NewlyTracked(cfg: Config, events: seq<Event>, contexts: Contexts, now: nat, nonce: nat, k: Commitment,
                     meta: seq<nat>)
    requires Kept(cfg, events, contexts, now, nonce) && NonceOf(k) < nonce
    requires forall t :: t in events && t.PayoutTracked? ==> t.commitment != k
    ensures Kept(cfg, events + [PayoutTracked(k, meta, now)], contexts[k := RefundContext(now, meta)], now, nonce)
  {
    hide BurnCount, TrackedTimes, TakenTimes, NonceOf;
    UntrackedCountsZero(events, k);
    CountsAppend(events, PayoutTracked(k, meta, now));
    StillFaithful(events, contexts, PayoutTracked(k, meta, now));
  }

  lemma TrackKept(cfg: Config, events: seq<Event>, contexts: Contexts, now: nat, nonce: nat, k: Commitment,
                  meta: seq<nat>, burn: Event)
    requires Kept(cfg, events, contexts, now, nonce) && burn.Burned? && NonceOf(k) == nonce
    ensures Kept(cfg, events + [burn] + [PayoutTracked(k, meta, now)], contexts[k := RefundContext(now, meta)], now,
        nonce + 1)
  {
    hide TakenOnce, Faithful, Surviving, BurnCount, NonceOf;
    OtherEventKept(cfg, events, contexts, now, nonce, burn);
    NewlyTracked(cfg, events + [burn], contexts, now, nonce + 1, k, meta);
  }

  lemma TakeKept(cfg: Config, events: seq<Event>, contexts: Contexts, now: nat, nonce: nat, k: Commitment)
    requires Kept(cfg, events, contexts, now, nonce) && k in contexts
    ensures Kept(cfg, events + [ContextTaken(k, contexts[k].meta)], contexts - {k}, now, nonce)
  {
    var e := ContextTaken(k, contexts[k].meta);
    assert PayoutTracked(k, e.meta, contexts[k].dispatchedAt) in events;
    CountsAppend(events, e);
    StillFaithful(events, contexts, e);
  }

  /** Fewer contexts, the missing ones past their time to live; or later in time. */
  lemma FewerKept(cfg: Config, events: seq<Event>, contexts: Contexts, fewer: Contexts, now: nat, later: nat,
                  nonce: nat)
    requires Kept(cfg, events, contexts, now, nonce) && now <= later
    requires forall k :: k in fewer ==> k in contexts && fewer[k] == contexts[k]
    requires forall k :: k in contexts && k !in fewer ==> later >= contexts[k].dispatchedAt + cfg.refundTtl
    ensures Kept(cfg, events, fewer, later, nonce)
  {
  }

  lemma OutboundContextual(cfg: Config, s: Storage, who: AccountId, dest: Chain, recipient: nat, amount: nat, fee: nat,
                           wire: Wire)
    requires s.bank.Valid() && Contextual(cfg, s) && Outbound(cfg, s, who, dest, recipient, amount, fee, wire).Ok?
    ensures Contextual(cfg, Outbound(cfg, s, who, dest, recipient, amount, fee, wire).value.0)
  {
    hide Outbound, OutboundDraft, Kept;
    OutboundEffect(cfg, s, who, dest, recipient, amount, fee, wire);
    var burn := Burned(s.now, dest, who, amount);
    CountsAppend(s.events, burn);
    if BurnCount(s.events) < MAX_U64 {
      OtherEventKept(cfg, s.events, s.payoutRefunds, s.now, s.host.nonce, burn);
      NonceCounts(cfg, s.events, s.payoutRefunds, s.now, s.host.nonce);
    }
  }

  lemma NonceCounts(cfg: Config, events: seq<Event>, contexts: Contexts, now: nat, nonce: nat)
    requires Kept(cfg, events, contexts, now, nonce)
    ensures nonce == BurnCount(events)
  {
  }

  lemma TrackedContextual(cfg: Config, s: Storage, who: AccountId, dest: Chain, recipient: nat, amount: nat, fee: nat,
                          wire: Wire, meta: seq<nat>)
    requires s.bank.Valid() && Contextual(cfg, s)
        && OutboundTracked(cfg, s, who, dest, recipient, amount, fee, wire, meta).Ok?
    ensures Contextual(cfg, OutboundTracked(cfg, s, who, dest, recipient, amount, fee, wire, meta).value.0)
  {
    hide Outbound, Kept;
    OutboundEffect(cfg, s, who, dest, recipient, amount, fee, wire);
    var burn, k := Burned(s.now, dest, who, amount), Outbound(cfg, s, who, dest, recipient, amount, fee, wire).value.1;
    CountsAppend(s.events, burn);
    CountsAppend(s.events + [burn], PayoutTracked(k, meta, s.now));
    if BurnCount(s.events) < MAX_U64 {
      TrackKept(cfg, s.events, s.payoutRefunds, s.now, s.host.nonce, k, meta, burn);
      NonceCounts(cfg, s.events, s.payoutRefunds, s.now, s.host.nonce);
    }
  }

  lemma ExecuteContextual(cfg: Config, s: Storage, id: nat, wire: Wire)
    requires s.bank.Valid() && Contextual(cfg, s) && ExecuteWithdraw(cfg, s, id, wire).Ok?
    ensures Contextual(cfg, ExecuteWithdraw(cfg, s, id, wire).value)
  {
    hide Outbound, Contextual;
    var p := s.pending[id];
    OutboundContextual(cfg, s, p.owner, p.dest, p.recipient, p.amount, 0, wire);
    QuietContextual(cfg, Outbound(cfg, s, p.owner, p.dest, p.recipient, p.amount, 0, wire).value.0,
                    ExecuteWithdraw(cfg, s, id, wire).value);
  }

  /** A change that leaves nonce, clock and contexts alone. */
  lemma QuietContextual(cfg: Config, s: Storage, s': Storage)
    requires Contextual(cfg, s)
    requires s'.host.nonce == s.host.nonce && s'.now == s.now && s'.payoutRefunds == s.payoutRefunds
    requires s'.events == s.events
      || exists e: Event :: !e.Burned? && !e.PayoutTracked? && !e.ContextTaken? && s'.events == s.events + [e]
    ensures Contextual(cfg, s')
  {
    hide Kept;
    if s'.events != s.events {
      var e: Event :| !e.Burned? && !e.PayoutTracked? && !e.ContextTaken? && s'.events == s.events + [e];
      CountsAppend(s.events, e);
      if BurnCount(s.events) <= MAX_U64 {
        OtherEventKept(cfg, s.events, s.payoutRefunds, s.now, s.host.nonce, e);
      }
    }
  }

  lemma TakeContextual(cfg: Config, s: Storage, k: Commitment)
    requires Contextual(cfg, s) && k in s.payoutRefunds
    ensures Contextual(cfg, Taken(s, k))
  {
    hide Kept;
    CountsAppend(s.events, ContextTaken(k, s.payoutRefunds[k].meta));
    if BurnCount(s.events) <= MAX_U64 {
      TakeKept(cfg, s.events, s.payoutRefunds, s.now, s.host.nonce, k);
    }
  }

  lemma PruneContextual(cfg: Config, s: Storage, visited: seq<Commitment>)
    requires Contextual(cfg, s)
    ensures Contextual(cfg, Prune(cfg, s, visited))
  {
    if BurnCount(s.events) <= MAX_U64 {
      assert forall k :: k in s.payoutRefunds ==> s.payoutRefunds[k].dispatchedAt <= s.now;
      hide Kept;
      FewerKept(cfg, s.events, s.payoutRefunds, Prune(cfg, s, visited).payoutRefunds, s.now, s.now, s.host.nonce);
    }
  }

  lemma TickContextual(cfg: Config, s: Storage)
    requires Contextual(cfg, s)
    ensures Contextual(cfg, Apply(cfg, s, Tick).value)
  {
    hide Kept;
    if BurnCount(s.events) <= MAX_U64 {
      FewerKept(cfg, s.events, s.payoutRefunds, s.payoutRefunds, s.now, NextBlockNumber(s.now), s.host.nonce);
    }
  }

  /** Primitives that leave the contexts alone. */
  lemma ContextsFrame(cfg: Config, s: Storage, p: Primitive)
    requires !p.SendOut? && !p.SendTracked? && !p.ExecutePending? && !p.TakeContext? && !p.PruneContexts? && !p.Tick?
    requires Apply(cfg, s, p).Some?
    ensures var s' := Apply(cfg, s, p).value;
      && s'.host.nonce == s.host.nonce && s'.now == s.now && s'.payoutRefunds == s.payoutRefunds
      && (s'.events == s.events
          || exists e: Event :: !e.Burned? && !e.PayoutTracked? && !e.ContextTaken? && s'.events == s.events + [e])
  {
    hide Worth, Bank.Transfer, RefundFee, Bank.DepositCreating, Outbound, OutboundTracked, ExecuteWithdraw, TopUp,
        RegisterChain;
    if p.AddChain? { RegisterFrame(cfg, s, p.chain, p.contract, p.ercDecimals); }
    else if p.TopUpRecord? { TopUpFrame(s, p.who, p.k, p.amount); }
  }

  lemma PrimitiveContextual(cfg: Config, s: Storage, p: Primitive)
    requires s.bank.Valid() && Contextual(cfg, s) && Apply(cfg, s, p).Some?
    ensures Contextual(cfg, Apply(cfg, s, p).value)
  {
    hide Outbound, OutboundTracked, ExecuteWithdraw, Contextual, Prune, Taken;
    match p {
      case SendOut(who, dest, recipient, amount, fee, wire) =>
        OutboundContextual(cfg, s, who, dest, recipient, amount, fee, wire);
      case SendTracked(who, dest, recipient, amount, fee, wire, meta) =>
        TrackedContextual(cfg, s, who, dest, recipient, amount, fee, wire, meta);
      case ExecutePending(id, wire) => ExecuteContextual(cfg, s, id, wire);
      case TakeContext(k) => TakeContextual(cfg, s, k);
      case PruneContexts(visited) => PruneContextual(cfg, s, visited);
      case Tick => TickContextual(cfg, s);
      case _ =>
        hide Apply;
        ContextsFrame(cfg, s, p);
        QuietContextual(cfg, s, Apply(cfg, s, p).value);
    }
  }

  lemma {:induction false} PrimitivesContextual(cfg: Config, s: Storage, supply: nat, ps: seq<Primitive>)
    requires cfg.Sound() && Lawful(cfg, s, supply) && Contextual(cfg, s) && ApplyAll(cfg, s, ps).Some?
    ensures Contextual(cfg, ApplyAll(cfg, s, ps).value)
    decreases ps
  {
    hide Apply, Lawful, Contextual;
    if ps != [] {
      ValidBank(cfg, s, supply);
      PrimitiveLawful(cfg, s, supply, ps[0]);
      PrimitiveContextual(cfg, s, ps[0]);
      PrimitivesContextual(cfg, Apply(cfg, s, ps[0]).value, supply, ps[1..]);
    }
  }

  lemma StepContextual(cfg: Config, s: Storage, supply: nat, op: Op)
    requires cfg.Sound() && Lawful(cfg, s, supply) && Contextual(cfg, s)
    ensures Contextual(cfg, Step(cfg, s, op))
  {
    hide Perform, Trace, Lawful, Contextual;
    if Perform(cfg, s, op).Ok? {
      OperationTraced(cfg, s, op);
      PrimitivesContextual(cfg, s, supply, Trace(cfg, s, op));
    }
  }

  /** Over every run of fewer than 2^64 transfers: a tracked payout's handler is given its
      context at most once, it is exactly the one attached at dispatch, and until then
      the context survives every prune younger than the time to live. */
  lemma {:induction false} RefundContextLaw(cfg: Config, s: Storage, ops: seq<Op>)
    requires cfg.Sound() && Genesis(s) && s.bank.Valid() && Supply(s) <= MAX_BALANCE
    ensures Contextual(cfg, Run(cfg, s, ops))
  {
    hide Step, Lawful;
    if ops != [] {
      var front := ops[..|ops| - 1];
      RefundContextLaw(cfg, s, front);
      ConservationLaw(cfg, s, front);
      StepContextual(cfg, Run(cfg, s, front), Supply(s), ops[|ops| - 1]);
    }
  }

  // ------------------------------------------------------------- send, then time out

  /** What was encoded under a lane's decimals decodes to exactly what was burned. */
  lemma EncodedDecodes(cfg: Config, ercDecimals: nat, amount: nat)
    requires cfg.minAmount <= amount <= MAX_BALANCE
    requires SatSub(ercDecimals, cfg.nativeDecimals) <= MAX_ERC_NATIVE_DECIMAL_GAP
    ensures DecodeAmount(cfg, ConvertToErc20(amount, ercDecimals, cfg.nativeDecimals), ercDecimals) == Ok(amount)
  {
    hide ConvertToBalance, ConvertToErc20;
    RoundTrip(amount, ercDecimals, cfg.nativeDecimals);
  }

  /** The request a transfer was sent as. */
  function SentAs(cfg: Config, lane: ChainConfig, nonce: nat, who: AccountId, dest: Chain, recipient: nat, amount: nat,
                  wire: Wire): Commitment {
    Numbered(OutboundDraft(cfg, lane, who, dest, recipient, amount, wire), nonce)
  }

  /** At any later point, with the lane's row unchanged and its ledger covering the
      amount, the timeout callback re-mints exactly what was burned, to its sender, and
      un-books exactly that from the lane. */
  lemma TimeoutRefundsExactly(cfg: Config, s: Storage, lane: ChainConfig, nonce: nat, who: AccountId, dest: Chain,
                              recipient: nat, amount: nat, wire: Wire, h: Handler)
    requires dest in s.chains && s.chains[dest] == lane
    requires SatSub(lane.ercDecimals, cfg.nativeDecimals) <= MAX_ERC_NATIVE_DECIMAL_GAP
    requires cfg.minAmount <= amount <= MAX_BALANCE && amount <= At(s.byChain, dest) && amount <= s.bridgedOut
    ensures var k := SentAs(cfg, lane, nonce, who, dest, recipient, amount, wire);
      OnTimeout(cfg, s, k, h) == Ok(NotifyRefund(cfg, CreditInbound(s, who, dest, amount).value, k, h))
  {
    hide NotifyRefund, DecodeAmount, ConvertToErc20;
    EncodedDecodes(cfg, lane.ercDecimals, amount);
  }

  // --------------------------------------------------- timing out under another lane row

  predicate Extends(longer: seq<Event>, events: seq<Event>) {
    |events| <= |longer| && longer[..|events|] == events
  }

  lemma ActExtends(cfg: Config, s: Storage, a: Action)
    requires Act(cfg, s, a).Some?
    ensures Extends(Act(cfg, s, a).value.events, s.events)
  {
    hide Dispatch, Bank.Withdraw, Bank.Transfer, OutboundDraft, Guard;
  }

  lemma {:induction false} ActionsExtend(cfg: Config, s: Storage, actions: seq<Action>)
    requires ActAll(cfg, s, actions).Some?
    ensures Extends(ActAll(cfg, s, actions).value.events, s.events)
    decreases actions
  {
    hide Act;
    if actions != [] {
      ActExtends(cfg, s, actions[0]);
      ActionsExtend(cfg, Act(cfg, s, actions[0]).value, actions[1..]);
    }
  }

  /** Whatever a refund handler does, it only adds to the log. */
  lemma NotifyExtends(cfg: Config, s: Storage, k: Commitment, h: Handler)
    ensures Extends(NotifyRefund(cfg, s, k, h).events, s.events)
  {
    hide ActAll;
    if k in s.payoutRefunds && RunHandler(cfg, Taken(s, k), h).Some? { ActionsExtend(cfg, Taken(s, k), h.actions); }
  }

  /** What `amount`, sent under `sent` decimals, decodes to under `now` decimals. */
  function Redecoded(cfg: Config, amount: nat, sent: nat, now: nat): nat
    requires cfg.nativeDecimals <= sent && cfg.nativeDecimals <= now
  {
    Quotient(amount * Pow10(sent - cfg.nativeDecimals), Pow10(now - cfg.nativeDecimals))
  }

  /** The timeout of a transfer whose lane was re-registered since, with other decimals
      and the same contract: it succeeds exactly when the re-decoded amount is a balance
      of at least the minimum and the lane has that much booked, and it mints just that. */
  lemma TimeoutUnderNewDecimals(cfg: Config, s: Storage, lane: ChainConfig, nonce: nat, who: AccountId, dest: Chain,
                                recipient: nat, amount: nat, wire: Wire, h: Handler)
    requires dest in s.chains && s.chains[dest].contract == lane.contract
    requires cfg.nativeDecimals <= lane.ercDecimals <= cfg.nativeDecimals + MAX_ERC_NATIVE_DECIMAL_GAP
    requires cfg.nativeDecimals <= s.chains[dest].ercDecimals <= cfg.nativeDecimals + MAX_ERC_NATIVE_DECIMAL_GAP
    ensures var k := SentAs(cfg, lane, nonce, who, dest, recipient, amount, wire);
      var got := Redecoded(cfg, amount, lane.ercDecimals, s.chains[dest].ercDecimals);
      var r := OnTimeout(cfg, s, k, h);
      && (r.Ok? <==> cfg.minAmount <= got <= MAX_BALANCE && got <= s.bridgedOut && got <= At(s.byChain, dest))
      && (r.Err? && cfg.minAmount <= got <= MAX_BALANCE ==> r.error == InvariantViolation)
      && (r.Ok? ==>
            && r.value == NotifyRefund(cfg, CreditInbound(s, who, dest, got).value, k, h)
            && |s.events| < |r.value.events| && r.value.events[|s.events|] == Minted(s.now, dest, who, got))
  {
    hide ConvertToBalance, ConvertToErc20, NotifyRefund, Quotient, Bank.DepositCreating;
    var now := s.chains[dest].ercDecimals;
    ToErc20IsProduct(amount, lane.ercDecimals, cfg.nativeDecimals);
    ToBalanceIsFloor(amount * Pow10(lane.ercDecimals - cfg.nativeDecimals), now, cfg.nativeDecimals);
    var k := SentAs(cfg, lane, nonce, who, dest, recipient, amount, wire);
    var got := Redecoded(cfg, amount, lane.ercDecimals, now);
    if OnTimeout(cfg, s, k, h).Ok? { NotifyExtends(cfg, CreditInbound(s, who, dest, got).value, k, h); }
  }

  /** The refund is exact, minting to the sender what was burned, if and only if the lane's
      decimals are still those of the dispatch. Lowered by j they mint 10^j times as much
      and take the excess from what other senders have booked on the lane: what is left
      there no longer covers them. Raised, they mint too little. */
  lemma TimeoutExactIffDecimalsUnchanged(cfg: Config, s: Storage, lane: ChainConfig, nonce: nat, who: AccountId,
                                         dest: Chain, recipient: nat, amount: nat, wire: Wire, h: Handler)
    requires cfg.Sound() && cfg.minAmount <= amount <= MAX_BALANCE
    requires dest in s.chains && s.chains[dest].contract == lane.contract
    requires cfg.nativeDecimals <= lane.ercDecimals <= cfg.nativeDecimals + MAX_ERC_NATIVE_DECIMAL_GAP
    requires cfg.nativeDecimals <= s.chains[dest].ercDecimals <= cfg.nativeDecimals + MAX_ERC_NATIVE_DECIMAL_GAP
    requires OnTimeout(cfg, s, SentAs(cfg, lane, nonce, who, dest, recipient, amount, wire), h).Ok?
    ensures var r := OnTimeout(cfg, s, SentAs(cfg, lane, nonce, who, dest, recipient, amount, wire), h);
      var sent, now := lane.ercDecimals, s.chains[dest].ercDecimals;
      && |s.events| < |r.value.events|
      && var minted := r.value.events[|s.events|];
         && minted.Minted? && minted.lane == dest && minted.who == who
         && (minted.amount == amount <==> now == sent)
         && (now < sent ==> minted.amount == amount * Pow10(sent - now) >= 10 * amount)
         && (now > sent ==> minted.amount < amount)
         && var credited := CreditInbound(s, who, dest, minted.amount);
         && credited.Ok?
         && (now < sent ==> At(credited.value.byChain, dest) < At(s.byChain, dest) - amount)
  {
    hide OnTimeout, Redecoded, NotifyRefund, Bank.DepositCreating, Pow10;
    TimeoutUnderNewDecimals(cfg, s, lane, nonce, who, dest, recipient, amount, wire, h);
    RedecodedIff(cfg, amount, lane.ercDecimals, s.chains[dest].ercDecimals);
  }

  lemma RedecodedIff(cfg: Config, amount: nat, sent: nat, now: nat)
    requires amount > 0 && cfg.nativeDecimals <= sent && cfg.nativeDecimals <= now
    ensures var got := Redecoded(cfg, amount, sent, now);
      && (got == amount <==> now == sent)
      && (now < sent ==> got == amount * Pow10(sent - now) >= 10 * amount)
      && (now > sent ==> got < amount)
  {
    hide Quotient, Pow10;
    RescaledAmount(amount, sent - cfg.nativeDecimals, now - cfg.nativeDecimals);
    PowerOfNothing();
    if now == sent {
      QuotientOfMultiple(amount, 1);
    } else if now < sent {
      Pow10Grows(0, sent - now);
      MulMonotone(10, Pow10(sent - now), amount);
    } else {
      Pow10Grows(0, now - sent);
      QuotientBracket(amount, Pow10(now - sent));
      MulMonotone(10, Pow10(now - sent), Quotient(amount, Pow10(now - sent)));
    }
  }

  lemma PowerOfNothing()
    ensures Pow10(0) == 1
  {
  }

  // ------------------------------------------------------------------- exact identity

  /** The remainder reaped from an account that ends at `rest` after paying. */
  predicate NothingReaped(b: Bank, who: AccountId, paid: nat, rest: nat) {
    paid == 0 || rest == 0 || rest >= EXISTENTIAL_DEPOSIT || b.Reserved(who) > 0
  }

  /** One payment of the fee layer between two accounts, other than the treasury's. */
  lemma OnePayment(b: Bank, from: AccountId, to: AccountId, amount: nat)
    requires b.Valid() && from != to && to != Treasury && b.PayFee(from, to, amount).Some?
    ensures var b' := b.PayFee(from, to, amount).value;
      var reaped := if amount == 0 then 0 else b.Remainder(from, amount);
      && b'.Valid() && b'.reserved == b.reserved && amount <= b.Free(from)
      && b'.Free(from) == b.Free(from) - amount - reaped && b'.Free(to) == b.Free(to) + amount
      && b'.issuance <= b.issuance
  {
    TransferConserves(b, from, to, amount, false);
    if amount > 0 { TransferTakes(b, from, to, amount, false); }
    DustOnlyGrows(b, from, to, amount);
  }

  lemma DustOnlyGrows(b: Bank, from: AccountId, to: AccountId, amount: nat)
    requires b.PayFee(from, to, amount).Some?
    ensures b.PayFee(from, to, amount).value.burnedDust >= b.burnedDust
  {
  }

  /** The relayer fee comes back unless locks or reserves of the fee account forbid it. */
  lemma RefundGoesThroughIff(b: Bank, who: AccountId, fee: nat)
    requires b.Valid() && who != RelayerFees && b.Free(who) >= EXISTENTIAL_DEPOSIT
    ensures RefundFee(b, FeeMetadata(who, fee)).Some? <==> fee == 0 || fee <= b.Reducible(RelayerFees, false)
  {
    FreeWithinIssuance(b, RelayerFees);
    SumTwoRows(b.free, who, RelayerFees);
  }

  /** Burning, escrowing both fees, minting again and refunding the relayer fee: sender and
      fee account end as they began up to the protocol fee, less what was reaped. */
  lemma TripOfTheMoney(h: HostState, b0: Bank, who: AccountId, amount: nat, draft: Draft, fee: nat)
    requires b0.Valid() && amount >= EXISTENTIAL_DEPOSIT && who != RelayerFees && who != Treasury
    requires b0.Withdraw(who, amount).Some?
    requires Dispatch(h, b0.Withdraw(who, amount).value, draft, FeeMetadata(who, fee)).Some?
    ensures var sent := Dispatch(h, b0.Withdraw(who, amount).value, draft, FeeMetadata(who, fee)).value.bank;
      var p, back := ProtocolFee(h, draft), RefundFee(sent.DepositCreating(who, amount), FeeMetadata(who, fee));
      && amount + p + fee <= b0.Free(who)
      && (back.Some? <==> fee == 0 || fee <= sent.Reducible(RelayerFees, false))
      && (back.Some? ==>
            && (back.value.Free(who) == b0.Free(who) - p
                <==> NothingReaped(b0, who, p + fee, b0.Free(who) - amount - p - fee))
            && (back.value.Free(RelayerFees) == b0.Free(RelayerFees) + p <==>
                  NothingReaped(b0, RelayerFees, fee, b0.Free(RelayerFees) + p)))
  {
    hide Bank.PayFee, Bank.Withdraw, ProtocolFee, Bank.DepositCreating, Bank.Valid;
    WithdrawBurns(b0, who, amount);
    var b1, p := b0.Withdraw(who, amount).value, ProtocolFee(h, draft);
    OnePayment(b1, who, RelayerFees, p);
    var b2 := b1.PayFee(who, RelayerFees, p).value;
    OnePayment(b2, who, RelayerFees, fee);
    var b3 := b2.PayFee(who, RelayerFees, fee).value;
    MintFits(b0, b3, amount);
    DepositMints(b3, who, amount);
    var b4 := b3.DepositCreating(who, amount);
    RefundGoesThroughIff(b4, who, fee);
    assert b4.Reducible(RelayerFees, false) == b3.Reducible(RelayerFees, false);
    if fee > 0 && RefundFee(b4, FeeMetadata(who, fee)).Some? { OnePayment(b4, RelayerFees, who, fee); }
  }

  lemma MintFits(b0: Bank, b3: Bank, amount: nat)
    requires b0.Valid() && b3.issuance + amount <= b0.issuance
    ensures b3.issuance + amount <= MAX_BALANCE
  {
  }

  /** What the timeout right after a send amounts to: lane ledger and records are restored,
      the burned amount is minted again and the relayer fee paid back, if it can be. */
  lemma TimeoutRightAfter(cfg: Config, s: Storage, supply: nat, who: AccountId, dest: Chain, recipient: nat,
                          amount: nat, fee: nat, wire: Wire, h: Handler)
    requires cfg.Sound() && Lawful(cfg, s, supply)
    requires Outbound(cfg, s, who, dest, recipient, amount, fee, wire).Ok?
    requires Outbound(cfg, s, who, dest, recipient, amount, fee, wire).value.1 !in s.payoutRefunds
    ensures var (s1, k) := Outbound(cfg, s, who, dest, recipient, amount, fee, wire).value;
      var back, refund := HandleTimeout(cfg, s1, k, h),
                          RefundFee(s1.bank.DepositCreating(who, amount), FeeMetadata(who, fee));
      && (back.Ok? <==> refund.Some?)
      && (back.Ok? ==>
            && back.value.bank == refund.value && back.value.bridgedOut == s.bridgedOut
            && back.value.host.requests == s.host.requests
            && forall lane :: At(back.value.byChain, lane) == At(s.byChain, lane))
  {
    hide Outbound, OnTimeout, RefundFee, Bank.DepositCreating, OutboundDraft, CurrentWindow, Bank.Withdraw, Extends;
    OutboundEffect(cfg, s, who, dest, recipient, amount, fee, wire);
    OutboundBank(cfg, s, who, dest, recipient, amount, fee, wire);
    FreeWithinIssuance(s.bank, who);
    var (s1, k) := Outbound(cfg, s, who, dest, recipient, amount, fee, wire).value;
    var forgotten := s1.(host := s1.host.(requests := s1.host.requests - {k}));
    assert forgotten.host.requests == s.host.requests;
    TimeoutRefundsExactly(cfg, forgotten, s.chains[dest], s.host.nonce, who, dest, recipient, amount, wire, h);
  }

  /** Sending a transfer and timing it out again: the lane ledger and the records are
      restored whenever the timeout goes through, which it does unless the fee account is
      held back by locks or reserves; the sender ends with all but the protocol fee, and
      the fee account with just that more, if and only if no remainder of theirs was reaped
      on the way. (Neither the fee account nor the treasury sends.) */
  lemma SendThenTimeoutIsIdentity(cfg: Config, s: Storage, supply: nat, who: AccountId, dest: Chain, recipient: nat,
                                  amount: nat, fee: nat, wire: Wire, h: Handler)
    requires cfg.Sound() && Lawful(cfg, s, supply)
    requires Outbound(cfg, s, who, dest, recipient, amount, fee, wire).Ok?
    requires Outbound(cfg, s, who, dest, recipient, amount, fee, wire).value.1 !in s.payoutRefunds
    requires who != RelayerFees && who != Treasury
    ensures var (s1, k) := Outbound(cfg, s, who, dest, recipient, amount, fee, wire).value;
      var p := ProtocolFee(s.host, OutboundDraft(cfg, s.chains[dest], who, dest, recipient, amount, wire));
      var back := HandleTimeout(cfg, s1, k, h);
      && amount + p + fee <= s.bank.Free(who)
      && (back.Ok? <==> fee == 0 || fee <= s1.bank.Reducible(RelayerFees, false))
      && (back.Ok? ==>
            && back.value.bridgedOut == s.bridgedOut && back.value.host.requests == s.host.requests
            && (forall lane :: At(back.value.byChain, lane) == At(s.byChain, lane))
            && (back.value.bank.Free(who) == s.bank.Free(who) - p <==>
                  NothingReaped(s.bank, who, p + fee, s.bank.Free(who) - amount - p - fee))
            && (back.value.bank.Free(RelayerFees) == s.bank.Free(RelayerFees) + p <==>
                  NothingReaped(s.bank, RelayerFees, fee, s.bank.Free(RelayerFees) + p)))
  {
    hide Outbound, Dispatch, Bank.Withdraw, ProtocolFee, HandleTimeout, RefundFee, Bank.DepositCreating, OutboundDraft,
        Bank.Reducible, NothingReaped;
    TimeoutRightAfter(cfg, s, supply, who, dest, recipient, amount, fee, wire, h);
    OutboundEffect(cfg, s, who, dest, recipient, amount, fee, wire);
    OutboundBank(cfg, s, who, dest, recipient, amount, fee, wire);
    var draft := OutboundDraft(cfg, s.chains[dest], who, dest, recipient, amount, wire);
    TripOfTheMoney(s.host, s.bank, who, amount, draft, fee);
  }

  /** The currency after an outbound transfer. */
  lemma OutboundBank(cfg: Config, s: Storage, who: AccountId, dest: Chain, recipient: nat, amount: nat, fee: nat,
                     wire: Wire)
    requires Outbound(cfg, s, who, dest, recipient, amount, fee, wire).Ok?
    ensures dest in s.chains && s.bank.Withdraw(who, amount).Some?
    ensures var d := Dispatch(s.host, s.bank.Withdraw(who, amount).value,
                              OutboundDraft(cfg, s.chains[dest], who, dest, recipient, amount, wire),
                                  FeeMetadata(who, fee));
      d.Some? && Outbound(cfg, s, who, dest, recipient, amount, fee, wire).value.0.bank == d.value.bank
  {
    hide Dispatch, Bank.Withdraw, OutboundDraft;
  }
}
