/** Transfers on a chain without fees and with funded senders: the steps of the runs that
    show where a promise of the bridge fails. */
module BridgeExamples {
  import opened Sums
  import opened Balances
  import opened Messages
  import opened IsmpHost
  import opened BridgeState
  import opened BridgeLaws

  const LANE: Chain := Evm(1)
  const WIRE: Wire := Wire(160, 0)

  function Spend(who: AccountId, amount: nat): Op { BridgeOut(who, LANE, 7, amount, 0, WIRE) }

  /** No fees, no locks, no pause, and no request of the current nonce or later. */
  predicate Plain(s: Storage) {
    && s.host.perByteFees == map[] && s.host.defaultPerByteFee == 0
    && s.bank.frozen == map[] && s.bank.reserved == map[]
    && (forall k :: k in s.host.requests ==> NonceOf(k) < s.host.nonce) && s.host.nonce < 9
  }

  /** A transfer on a chain without fees goes through once guards and balance allow it. */
  lemma FreeOutbound(cfg: Config, s: Storage, who: AccountId, amount: nat)
    requires Guard(cfg, s, LANE, amount).None? && LANE in s.chains && Plain(s)
    requires 0 < amount && amount + EXISTENTIAL_DEPOSIT <= s.bank.Free(who)
    requires s.bridgedOut + amount <= MAX_BALANCE && At(s.byChain, LANE) + amount <= MAX_BALANCE
    ensures var r := Outbound(cfg, s, who, LANE, 7, amount, 0, WIRE);
      && r.Ok? && s.bank.Withdraw(who, amount) == Some(r.value.0.bank)
      && r.value.0.host.perByteFees == map[] && r.value.0.host.defaultPerByteFee == 0
  {
    hide Bank.PayFee, Guard;
    var b := s.bank.Withdraw(who, amount).value;
    var draft := OutboundDraft(cfg, s.chains[LANE], who, LANE, 7, amount, WIRE);
    assert ProtocolFee(s.host, draft) == 0;
    PayNothing(b, who);
    assert NonceOf(Numbered(draft, s.host.nonce)) == s.host.nonce;
  }

  /** One such transfer as a step of a run: what it changes, and what it leaves alone. */
  lemma Spends(cfg: Config, s: Storage, who: AccountId, amount: nat) returns (after: Storage)
    requires cfg.Sound() && s.bank.Valid() && Guard(cfg, s, LANE, amount).None? && LANE in s.chains && Plain(s)
    requires amount + EXISTENTIAL_DEPOSIT <= s.bank.Free(who)
    requires s.bridgedOut + amount <= MAX_BALANCE && At(s.byChain, LANE) + amount <= MAX_BALANCE
    ensures after == Step(cfg, s, Spend(who, amount))
    ensures after.bank.Valid() && after.bank.Free(who) == s.bank.Free(who) - amount
    ensures forall a :: a != who ==> after.bank.Free(a) == s.bank.Free(a)
    ensures after.bridgedOut == s.bridgedOut + amount && At(after.byChain, LANE) == At(s.byChain, LANE) + amount
    ensures after.events == s.events + [Burned(s.now, LANE, who, amount)]
    ensures after.windowStart == CurrentWindow(cfg, s).0 && after.windowUsed == CurrentWindow(cfg, s).1 + amount
    ensures var k := Numbered(OutboundDraft(cfg, s.chains[LANE], who, LANE, 7, amount, WIRE), s.host.nonce);
      after.host.requests == s.host.requests[k := FeeMetadata(who, 0)]
    ensures after.host.nonce == s.host.nonce + 1 && (s.host.nonce < 8 ==> Plain(after))
    ensures (after.paused, after.pausedChains, after.chains, after.perTxLimit, after.dailyLimit, after.now)
         == (s.paused, s.pausedChains, s.chains, s.perTxLimit, s.dailyLimit, s.now)
    ensures after.payoutRefunds == s.payoutRefunds
  {
    after := Step(cfg, s, Spend(who, amount));
    assert amount >= cfg.minAmount;
    FreeOutbound(cfg, s, who, amount);
    hide Outbound, OutboundDraft, Bank.Withdraw, Bank.Valid, CurrentWindow, Guard;
    OutboundEffect(cfg, s, who, LANE, 7, amount, 0, WIRE);
    WithdrawBurns(s.bank, who, amount);
    var k := Outbound(cfg, s, who, LANE, 7, amount, 0, WIRE).value.1;
    assert NonceOf(k) == s.host.nonce;
  }
}
