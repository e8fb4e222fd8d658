/** The NEX bridge as the pallet runs it: storage items written one after another, and
    storage layers that put everything back when the work inside them fails. Every
    method is proved against the corresponding function of `BridgeState`. */
module BridgePallet {
  import opened Sums
  import opened Balances
  import opened Messages
  import opened Precision
  import opened IsmpHost
  import opened BridgeState

  predicate Distinct(ks: seq<Commitment>) {
    forall i, j :: 0 <= i < j < |ks| ==> ks[i] != ks[j]
  }

  class Bridge {
    const cfg: Config
    var bank: Bank
    var host: HostState
    var bridgedOut: nat
    var byChain: map<Chain, nat>
    var paused: bool
    var pausedChains: set<Chain>
    var windowStart: nat
    var windowUsed: nat
    var perTxLimit: nat
    var dailyLimit: nat
    var chains: map<Chain, ChainConfig>
    var payoutRefunds: map<Commitment, RefundContext>
    var nextWithdrawId: nat
    var pending: map<nat, PendingWithdraw>
    var business: int
    var now: nat
    var events: seq<Event>

    function Image(): Storage
      reads this
    {
      Storage(bank, host, bridgedOut, byChain, paused, pausedChains, windowStart, windowUsed,
              perTxLimit, dailyLimit, chains, payoutRefunds, nextWithdrawId, pending, business, now, events)
    }

    /** Rolls a storage layer back to the image taken when it was opened. */
    method Restore(s: Storage)
      modifies this
      ensures Image() == s
    {
      RestoreLedger(s);
      RestoreSettings(s);
      RestoreQueues(s);
    }

    method RestoreLedger(s: Storage)
      modifies this`bank, this`host, this`bridgedOut, this`byChain, this`windowStart, this`windowUsed
      ensures bank == s.bank && host == s.host && bridgedOut == s.bridgedOut && byChain == s.byChain
      ensures windowStart == s.windowStart && windowUsed == s.windowUsed
    {
      bank := s.bank;
      host := s.host;
      bridgedOut := s.bridgedOut;
      byChain := s.byChain;
      windowStart := s.windowStart;
      windowUsed := s.windowUsed;
    }

    method RestoreSettings(s: Storage)
      modifies this`paused, this`pausedChains, this`perTxLimit, this`dailyLimit, this`chains
      ensures paused == s.paused && pausedChains == s.pausedChains
      ensures perTxLimit == s.perTxLimit && dailyLimit == s.dailyLimit && chains == s.chains
    {
      paused := s.paused;
      pausedChains := s.pausedChains;
      perTxLimit := s.perTxLimit;
      dailyLimit := s.dailyLimit;
      chains := s.chains;
    }

    method RestoreQueues(s: Storage)
      modifies this`payoutRefunds, this`nextWithdrawId, this`pending, this`business, this`now, this`events
      ensures payoutRefunds == s.payoutRefunds && nextWithdrawId == s.nextWithdrawId && pending == s.pending
      ensures business == s.business && now == s.now && events == s.events
    {
      payoutRefunds := s.payoutRefunds;
      nextWithdrawId := s.nextWithdrawId;
      pending := s.pending;
      business := s.business;
      now := s.now;
      events := s.events;
    }

    constructor (cfg: Config, bank: Bank, host: HostState)
      ensures this.cfg == cfg
      ensures Image() == Storage(bank, host, 0, map[], false, {}, 0, 0, 0, 0, map[], map[], 0, map[], 0, 0, [])
    {
      this.cfg, this.bank, this.host := cfg, bank, host;
      bridgedOut, byChain, paused, pausedChains := 0, map[], false, {};
      windowStart, windowUsed, perTxLimit, dailyLimit := 0, 0, 0, 0;
      chains, payoutRefunds, nextWithdrawId, pending := map[], map[], 0, map[];
      business, now, events := 0, 0, [];
    }

    // --------------------------------------------------------------------- outbound

    /** Guards, burn, ledger, dispatch, in this order. Every error but `Overflow` and
        `DispatchFailed` is found before the burn and leaves the storage untouched;
        after those two the burn may stand, so callers roll back. */
    method DoOutbound(who: AccountId, dest: Chain, recipient: nat, amount: nat, fee: nat, wire: Wire)
      returns (r: Result<Commitment>)
      modifies this
      ensures var spec := Outbound(cfg, old(Image()), who, dest, recipient, amount, fee, wire);
        match r {
          case Ok(k) => spec == Ok((Image(), k))
          case Err(e) => spec == Err(e)
        }
      ensures r.Err? && r.error != Overflow && r.error != DispatchFailed ==> Image() == old(Image())
    {
      hide Dispatch, Guard, OutboundDraft, Bank.Withdraw;
      var window := CheckGuards(dest, amount);
      if window.Err? { return Err(window.error); }
      var lane := chains[dest];
      var booked := BurnAndBook(who, dest, amount, window.value.0, window.value.1);
      if booked.Err? { return Err(booked.error); }
      r := Send(who, dest, lane, recipient, amount, fee, wire);
    }

    /** The guardrails; they return the accounting window the burn will count in. */
    method CheckGuards(dest: Chain, amount: nat) returns (r: Result<(nat, nat)>)
      ensures match Guard(cfg, Image(), dest, amount) {
        case Some(e) => r == Err(e)
        case None => r == Ok(CurrentWindow(cfg, Image())) && dest in chains
      }
    {
      if paused || dest in pausedChains { return Err(BridgePaused); }
      if dest !in chains { return Err(ChainNotRegistered); }
      if amount < cfg.minAmount { return Err(AmountBelowMin); }
      if amount > perTxLimit { return Err(PerTxLimitExceeded); }
      var start, used := windowStart, windowUsed;
      if SatSub(now, start) >= cfg.window {
        start, used := now, 0;
      }
      if used + amount > MAX_BALANCE { return Err(Overflow); }
      if used + amount > dailyLimit { return Err(DailyLimitExceeded); }
      r := Ok((start, used));
    }

    /** The real burn, which respects locks and keeps the payer alive, then the ledger. */
    method BurnAndBook(who: AccountId, dest: Chain, amount: nat, start: nat, used: nat) returns (r: Result<()>)
      requires (start, used) == CurrentWindow(cfg, Image())
      modifies this`bank, this`bridgedOut, this`byChain, this`windowStart, this`windowUsed, this`events
      ensures match old(bank).Withdraw(who, amount) {
        case None => r == Err(InsufficientFreeBalance) && Image() == old(Image())
        case Some(b) =>
          if old(bridgedOut) + amount > MAX_BALANCE || At(old(byChain), dest) + amount > MAX_BALANCE
          then r == Err(Overflow)
          else r == Ok(()) && Image() == Booked(cfg, old(Image()).(bank := b), who, dest, amount)
      }
    {
      hide Bank.Withdraw;
      match bank.Withdraw(who, amount) {
        case None => return Err(InsufficientFreeBalance);
        case Some(b) => bank := b;
      }
      r := Book(who, dest, amount, start, used);
    }

    /** The in-flight ledger, in total and by lane, and the accounting window. */
    method Book(who: AccountId, dest: Chain, amount: nat, start: nat, used: nat) returns (r: Result<()>)
      modifies this`bridgedOut, this`byChain, this`windowStart, this`windowUsed, this`events
      ensures r == if old(bridgedOut) + amount > MAX_BALANCE || At(old(byChain), dest) + amount > MAX_BALANCE
                   then Err(Overflow) else Ok(())
      ensures r.Ok? ==>
        && bridgedOut == old(bridgedOut) + amount
        && byChain == old(byChain)[dest := At(old(byChain), dest) + amount]
        && windowStart == start && windowUsed == used + amount
        && events == old(events) + [Burned(now, dest, who, amount)]
    {
      if bridgedOut + amount > MAX_BALANCE { return Err(Overflow); }
      bridgedOut := bridgedOut + amount;
      if At(byChain, dest) + amount > MAX_BALANCE { return Err(Overflow); }
      byChain := byChain[dest := At(byChain, dest) + amount];
      windowStart := start;
      windowUsed := used + amount;
      events := events + [Burned(now, dest, who, amount)];
      r := Ok(());
    }

    /** Encodes the transfer and hands it to the dispatcher. */
    method Send(who: AccountId, dest: Chain, lane: ChainConfig, recipient: nat, amount: nat, fee: nat, wire: Wire)
      returns (r: Result<Commitment>)
      modifies this`host, this`bank
      ensures match Dispatch(old(host), old(bank), OutboundDraft(cfg, lane, who, dest, recipient, amount, wire),
          FeeMetadata(who, fee)) {
        case None => r == Err(DispatchFailed)
        case Some(d) => r == Ok(d.commitment) && Image() == old(Image()).(host := d.host, bank := d.bank)
      }
    {
      var ercAmount := ConvertToErc20(amount, lane.ercDecimals, cfg.nativeDecimals);
      var message := Message(Bytes32(who), Bytes20(recipient), ercAmount, Empty);
      var draft := DraftPost(dest, BRIDGE_MODULE, H160(lane.contract), wire.deadline, Encoded(message),
          wire.bodyLength);
      match Dispatch(host, bank, draft, FeeMetadata(who, fee)) {
        case None => r := Err(DispatchFailed);
        case Some(d) =>
          host := d.host;
          bank := d.bank;
          r := Ok(d.commitment);
      }
    }

    method DoOutboundTracked(who: AccountId, dest: Chain, recipient: nat, amount: nat, fee: nat, wire: Wire,
                             meta: seq<nat>)
      returns (r: Result<Commitment>)
      modifies this
      ensures var spec := OutboundTracked(cfg, old(Image()), who, dest, recipient, amount, fee, wire, meta);
        match r {
          case Ok(k) => spec == Ok((Image(), k))
          case Err(e) => spec == Err(e)
        }
    {
      hide Dispatch, Guard, OutboundDraft, Bank.Withdraw;
      r := DoOutbound(who, dest, recipient, amount, fee, wire);
      if r.Ok? {
        payoutRefunds := payoutRefunds[r.value := RefundContext(now, meta)];
        events := events + [PayoutTracked(r.value, meta, now)];
      }
    }

    /** The signed call: a storage layer around `DoOutbound`. */
    method BridgeOut(who: AccountId, dest: Chain, recipient: nat, amount: nat, fee: nat, wire: Wire)
      returns (r: Result<Commitment>)
      modifies this
      ensures var spec := Outbound(cfg, old(Image()), who, dest, recipient, amount, fee, wire);
        match r {
          case Ok(k) => spec == Ok((Image(), k))
          case Err(e) => spec == Err(e) && Image() == old(Image())
        }
    {
      var layer := Image();
      r := DoOutbound(who, dest, recipient, amount, fee, wire);
      if r.Err? { Restore(layer); }
    }

    // --------------------------------------------------------------------- handlers

    /** Runs a business handler in a nested storage layer: when it fails, everything
        inside the layer is undone and everything before it stays. */
    method InNestedLayer(h: Handler) returns (ok: bool)
      modifies this
      ensures var spec := RunHandler(cfg, old(Image()), h);
        ok == spec.Some? && Image() == if ok then spec.value else old(Image())
    {
      var layer := Image();
      var i := 0;
      ok := true;
      while i < |h.actions| && ok
        invariant 0 <= i <= |h.actions|
        invariant ok ==> ActAll(cfg, Image(), h.actions[i..]) == ActAll(cfg, layer, h.actions)
        invariant !ok ==> ActAll(cfg, layer, h.actions) == None
      {
        assert h.actions[i..][1..] == h.actions[i + 1..];
        match h.actions[i] {
          case Move(from, to, amount) =>
            match bank.Transfer(from, to, amount, false) {
              case None => ok := false;
              case Some(b) => bank := b;
            }
          case Payout(who, dest, recipient, amount, meta, wire) =>
            ok := PayOut(who, dest, recipient, amount, meta, wire);
          case Write(value) =>
            business := value;
        }
        i := i + 1;
      }
      if !ok || !h.succeeds {
        Restore(layer);
        ok := false;
      }
    }

    /** The commission payout port: a non-empty context makes the transfer tracked. */
    method PayOut(who: AccountId, dest: Chain, recipient: nat, amount: nat, meta: seq<nat>,
                  wire: Wire) returns (ok: bool)
      modifies this
      ensures var spec := Act(cfg, old(Image()), Payout(who, dest, recipient, amount, meta, wire));
        ok == spec.Some? && (ok ==> Image() == spec.value)
    {
      if |meta| > MAX_PAYOUT_META { return false; }
      var r;
      if meta == [] {
        r := DoOutbound(who, dest, recipient, amount, 0, wire);
      } else {
        r := DoOutboundTracked(who, dest, recipient, amount, 0, wire, meta);
      }
      ok := r.Ok?;
    }

    // ---------------------------------------------------------------------- inbound

    /** All checks come before the mint, so an error leaves no partial state. */
    method DoCreditInbound(beneficiary: AccountId, lane: Chain, amount: nat) returns (r: Result<()>)
      modifies this`bridgedOut, this`byChain, this`bank, this`events
      ensures var spec := CreditInbound(old(Image()), beneficiary, lane, amount);
        match r {
          case Ok(_) => spec == Ok(Image())
          case Err(e) => spec == Err(e) && Image() == old(Image())
        }
    {
      var total, perChain := bridgedOut, At(byChain, lane);
      if amount > total || amount > perChain { return Err(InvariantViolation); }
      bridgedOut := SatSub(total, amount);
      byChain := byChain[lane := SatSub(perChain, amount)];
      bank := bank.DepositCreating(beneficiary, amount);
      events := events + [Minted(now, lane, beneficiary, amount)];
      r := Ok(());
    }

    method DoCrossOrder(source: Chain, amount: nat, intent: OrderIntent, h: Handler) returns (r: Result<()>)
      modifies this
      ensures var spec := OnCrossOrder(cfg, old(Image()), source, amount, intent, h);
        match r {
          case Ok(_) => spec == Ok(Image())
          case Err(e) => spec == Err(e)
        }
    {
      var buyer := Derived(intent.buyerEvm);
      r := DoCreditInbound(buyer, source, amount);
      if r.Err? { return; }
      var placed := InNestedLayer(h);
      events := events + [CrossOrder(buyer, placed)];
    }

    method DoQueueWithdraw(owner: AccountId, dest: Chain, recipient: nat, amount: nat) returns (id: nat, executeAt: nat)
      modifies this`nextWithdrawId, this`pending, this`events
      ensures Image() == QueueWithdraw(cfg, old(Image()), owner, dest, recipient, amount)
      ensures id == old(nextWithdrawId) && id in pending && pending[id].executeAt == executeAt
    {
      id := nextWithdrawId;
      nextWithdrawId := if id < MAX_U64 then id + 1 else id;
      executeAt := Min(now + cfg.withdrawDelay, MAX_BLOCK);
      var entry := PendingWithdraw(owner, dest, recipient, amount, executeAt);
      pending := pending[id := entry];
      events := events + [WithdrawQueued(id, entry, now)];
    }

    method DoWithdraw(source: Chain, req: WithdrawRequest) returns (r: Result<()>)
      modifies this
      ensures var spec := OnWithdraw(cfg, old(Image()), source, req);
        match r {
          case Ok(_) => spec == Ok(Image())
          case Err(e) => spec == Err(e)
        }
    {
      if source !in chains { return Err(UnregisteredChain); }
      match DecodeAmount(cfg, req.amount, chains[source].ercDecimals) {
        case Err(e) => return Err(e);
        case Ok(amount) =>
          var id, executeAt := DoQueueWithdraw(Derived(req.ownerEvm), source, req.recipient, amount);
          r := Ok(());
      }
    }

    /** The body of the inbound callback, before its storage layer is closed. */
    method AcceptBody(post: PostRequest, h: Handler) returns (r: Result<()>)
      modifies this
      ensures var spec := OnAccept(cfg, old(Image()), post, h);
        match r {
          case Ok(_) => spec == Ok(Image())
          case Err(e) => spec == Err(e)
        }
    {
      if paused || post.source in pausedChains { return Err(BridgePaused); }
      if post.source !in chains { return Err(UnregisteredChain); }
      var lane := chains[post.source];
      if post.from != H160(lane.contract) { return Err(UnknownSourceContract); }
      if post.body.Undecodable? { return Err(DecodeError); }
      var m := post.body.message;
      match m.data {
        case Empty =>
          var amount := DecodeAmount(cfg, m.amount, lane.ercDecimals);
          if amount.Err? { return Err(amount.error); }
          var to := AccountFromBytes(m.to);
          if to.Err? { return Err(InvalidRecipientLength); }
          r := DoCreditInbound(to.value, post.source, amount.value);
        case Garbled(_) =>
          r := Err(InvalidPayload);
        case Order(intent) =>
          if intent.schemaVersion != PAYLOAD_SCHEMA_VERSION { return Err(UnsupportedSchemaVersion); }
          var amount := DecodeAmount(cfg, m.amount, lane.ercDecimals);
          if amount.Err? { return Err(amount.error); }
          r := DoCrossOrder(post.source, amount.value, intent, h);
        case Withdraw(req) =>
          if req.schemaVersion != PAYLOAD_SCHEMA_VERSION { return Err(UnsupportedSchemaVersion); }
          r := DoWithdraw(post.source, req);
      }
    }

    /** The inbound callback: `Ok` commits its storage layer, any error undoes it. */
    method Accept(post: PostRequest, h: Handler) returns (r: Result<()>)
      modifies this
      ensures var spec := OnAccept(cfg, old(Image()), post, h);
        match r {
          case Ok(_) => spec == Ok(Image())
          case Err(e) => spec == Err(e) && Image() == old(Image())
        }
    {
      var layer := Image();
      r := AcceptBody(post, h);
      if r.Err? { Restore(layer); }
    }

    method TimeoutBody(k: Commitment, h: Handler) returns (r: Result<()>)
      modifies this
      ensures var spec := OnTimeout(cfg, old(Image()), k, h);
        match r {
          case Ok(_) => spec == Ok(Image())
          case Err(e) => spec == Err(e)
        }
    {
      hide CreditInbound, DecodeAmount, RunHandler;
      if k.Get? { return Err(UnsupportedTimeoutType); }
      var post := k.post;
      if post.dest !in chains { return Err(UnregisteredChain); }
      var lane := chains[post.dest];
      if post.to != H160(lane.contract) { return Err(UnknownSourceContract); }
      if post.body.Undecodable? { return Err(DecodeError); }
      var m := post.body.message;
      var sender := AccountFromBytes(m.from);
      if sender.Err? { return Err(InvalidSenderLength); }
      var amount := DecodeAmount(cfg, m.amount, lane.ercDecimals);
      if amount.Err? { return Err(amount.error); }
      r := DoCreditInbound(sender.value, post.dest, amount.value);
      if r.Err? { return; }
      if k in payoutRefunds {
        var meta := payoutRefunds[k].meta;
        payoutRefunds := payoutRefunds - {k};
        events := events + [ContextTaken(k, meta)];
        var handled := InNestedLayer(h);
        events := events + [PayoutRefundNotified(k, meta, handled)];
      }
    }

    method Timeout(k: Commitment, h: Handler) returns (r: Result<()>)
      modifies this
      ensures var spec := OnTimeout(cfg, old(Image()), k, h);
        match r {
          case Ok(_) => spec == Ok(Image())
          case Err(e) => spec == Err(e) && Image() == old(Image())
        }
    {
      var layer := Image();
      r := TimeoutBody(k, h);
      if r.Err? { Restore(layer); }
    }

    // ------------------------------------------------------------- calls by the users

    method Execute(id: nat, wire: Wire) returns (r: Result<()>)
      modifies this
      ensures var spec := ExecuteWithdraw(cfg, old(Image()), id, wire);
        match r {
          case Ok(_) => spec == Ok(Image())
          case Err(e) => spec == Err(e) && Image() == old(Image())
        }
    {
      var layer := Image();
      if id !in pending { return Err(WithdrawNotFound); }
      var p := pending[id];
      if now < p.executeAt { return Err(WithdrawNotDue); }
      var sent := DoOutbound(p.owner, p.dest, p.recipient, p.amount, 0, wire);
      if sent.Err? {
        Restore(layer);
        return Err(sent.error);
      }
      pending := pending - {id};
      events := events + [WithdrawExecuted(id, now)];
      r := Ok(());
    }

    method Cancel(id: nat) returns (r: Result<()>)
      modifies this`pending, this`events
      ensures var spec := CancelWithdraw(old(Image()), id);
        match r {
          case Ok(_) => spec == Ok(Image())
          case Err(e) => spec == Err(e) && Image() == old(Image())
        }
    {
      if id !in pending { return Err(WithdrawNotFound); }
      pending := pending - {id};
      events := events + [WithdrawCancelled(id)];
      r := Ok(());
    }

    /** Examines `visited`, the first contexts in storage order, collects the stale ones,
        then removes them. */
    method PrunePayoutRefunds(visited: seq<Commitment>) returns (removed: nat)
      requires Distinct(visited) && forall k :: k in visited ==> k in payoutRefunds
      modifies this`payoutRefunds
      ensures Image() == Prune(cfg, old(Image()), visited)
      ensures removed == |old(payoutRefunds)| - |payoutRefunds|
    {
      var stale := CollectStale(visited);
      removed := |stale|;
      RemoveContexts(stale);
    }

    method CollectStale(visited: seq<Commitment>) returns (stale: seq<Commitment>)
      requires Distinct(visited) && forall k :: k in visited ==> k in payoutRefunds
      ensures Distinct(stale)
      ensures forall k :: k in stale <==> k in visited && Stale(cfg, Image(), k)
    {
      stale := [];
      for i := 0 to |visited|
        invariant Distinct(stale)
        invariant forall k ::
            k in stale <==> k in visited[..i] && SatSub(now, payoutRefunds[k].dispatchedAt) >= cfg.refundTtl
      {
        if SatSub(now, payoutRefunds[visited[i]].dispatchedAt) >= cfg.refundTtl {
          assert visited[i] !in visited[..i];
          stale := stale + [visited[i]];
        }
      }
      assert visited[..|visited|] == visited;
    }

    method RemoveContexts(stale: seq<Commitment>)
      requires Distinct(stale) && forall k :: k in stale ==> k in payoutRefunds
      modifies this`payoutRefunds
      ensures payoutRefunds == map k | k in old(payoutRefunds) && k !in stale :: old(payoutRefunds)[k]
      ensures |payoutRefunds| == |old(payoutRefunds)| - |stale|
    {
      ghost var before := payoutRefunds;
      for i := 0 to |stale|
        invariant payoutRefunds == map k | k in before && k !in stale[..i] :: before[k]
        invariant |payoutRefunds| == |before| - i
      {
        assert stale[i] in stale && stale[i] !in stale[..i];
        payoutRefunds := payoutRefunds - {stale[i]};
      }
      assert stale[..|stale|] == stale;
    }

    // -------------------------------------------------------------------- governance

    method SetPaused(scope: Option<Chain>, flag: bool)
      modifies this`paused, this`pausedChains
      ensures Image() == BridgeState.SetPaused(old(Image()), scope, flag)
    {
      match scope {
        case None => paused := flag;
        case Some(c) => pausedChains := if flag then pausedChains + {c} else pausedChains - {c};
      }
    }

    method SetLimits(perTx: nat, daily: nat)
      modifies this`perTxLimit, this`dailyLimit
      ensures Image() == old(Image()).(perTxLimit := perTx, dailyLimit := daily)
    {
      perTxLimit, dailyLimit := perTx, daily;
    }

    method Register(chain: Chain, contract: nat, ercDecimals: nat) returns (r: Result<()>)
      modifies this`chains
      ensures var spec := RegisterChain(cfg, old(Image()), chain, contract, ercDecimals);
        match r {
          case Ok(_) => spec == Ok(Image())
          case Err(e) => spec == Err(e) && Image() == old(Image())
        }
    {
      if !chain.Evm? { return Err(NotEvmChain); }
      if ercDecimals < cfg.nativeDecimals { return Err(ErcDecimalsBelowLocal); }
      if SatSub(ercDecimals, cfg.nativeDecimals) > MAX_ERC_NATIVE_DECIMAL_GAP { return Err(ErcDecimalsTooHigh); }
      chains := chains[chain := ChainConfig(contract, ercDecimals)];
      r := Ok(());
    }

    /** Adds a payment to an outstanding record's relayer fee. */
    method TopUpRecord(who: AccountId, k: Commitment, amount: nat) returns (r: Result<()>)
      modifies this`host, this`bank
      ensures match TopUp(old(Image()), who, k, amount)
              case Ok(s) => r == Ok(()) && Image() == s
              case Err(e) => r == Err(e) && Image() == old(Image())
    {
      if k !in host.requests { return Err(NotOutstanding); }
      match Fund(host, bank, who, k, amount) {
        case None => r := Err(InsufficientFreeBalance);
        case Some((h, b)) =>
          host, bank := h, b;
          r := Ok(());
      }
    }

    method Deregister(chain: Chain)
      modifies this`chains
      ensures Image() == old(Image()).(chains := old(chains) - {chain})
    {
      chains := chains - {chain};
    }

    /** The ledger check: adds the lanes up, in any order, and compares with the total. */
    method CheckLedgerInvariant() returns (ok: bool)
      ensures ok <==> SumOf(byChain) == bridgedOut && bridgedOut <= MAX_BALANCE
    {
      var rest := byChain;
      var sum := 0;
      while rest != map[]
        invariant sum + SumOf(rest) == SumOf(byChain) && sum <= MAX_BALANCE
        decreases |rest|
      {
        var c :| c in rest;
        SumWithout(rest, c);
        if sum + rest[c] > MAX_BALANCE { return false; }
        sum := sum + rest[c];
        rest := rest - {c};
      }
      ok := sum == bridgedOut;
    }
  }
}
