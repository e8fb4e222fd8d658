/** The fungible-token pallet's calls and callbacks, changing storage step by step. */
module HftPallet {
  import opened Sums
  import opened Balances
  import opened Messages
  import opened Precision
  import opened IsmpHost
  import opened HftRegistry
  import opened HftTransfers

  class Pallet {
    var tables: Tables
    var tokens: map<AssetId, Token>
    var bank: Bank
    var host: HostState
    var log: seq<Flow>

    function Now(): Hft
      reads this
    {
      Hft(tables, tokens, bank, host, log)
    }

    constructor (tables: Tables, tokens: map<AssetId, Token>, bank: Bank, host: HostState)
      ensures Now() == Hft(tables, tokens, bank, host, [])
    {
      this.tables, this.tokens, this.bank, this.host, this.log := tables, tokens, bank, host, [];
    }

    method Restore(s: Hft)
      modifies this
      ensures Now() == s
    {
      tables, tokens, bank, host, log := s.tables, s.tokens, s.bank, s.host, s.log;
    }

    /** Native value goes into custody; a token into custody or out of existence. */
    method CollectFrom(asset: AssetId, who: AccountId, dest: Chain, amount: nat) returns (ok: bool)
      modifies this
      ensures match TakeOut(old(Now()), asset, who, dest, amount)
              case Some(s) => ok && Now() == s
              case None => !ok && Now() == old(Now())
    {
      if asset == NATIVE_ID {
        match bank.Transfer(who, HftCustody, amount, false) {
          case None => return false;
          case Some(b) => bank := b;
        }
        log := log + [Left(asset, who, dest, amount, 0)];
        return true;
      }
      if asset !in tokens || amount > tokens[asset].Held(who) { return false; }
      var token := tokens[asset];
      var swept := if amount == 0 then 0 else token.Taken(who, amount) - amount;
      var locks := Row(tables.native, asset) == Some(true);
      var after := if locks then token.Move(who, HftCustody, amount) else token.Burn(who, amount);
      if after.None? { return false; }
      tokens := tokens[asset := after.value];
      log := log + [Left(asset, who, dest, amount, swept)];
      ok := true;
    }

    /** Escrows both fees, numbers and records the request. */
    method DispatchPost(draft: Draft, meta: FeeMetadata) returns (k: Option<Commitment>)
      modifies this
      ensures match Dispatch(old(host), old(bank), draft, meta)
              case Some(d) => k == Some(d.commitment) && Now() == old(Now()).(host := d.host, bank := d.bank)
              case None => k == None && Now() == old(Now())
    {
      match Dispatch(host, bank, draft, meta) {
        case None => return None;
        case Some(d) =>
          host, bank := d.host, d.bank;
          k := Some(d.commitment);
      }
    }

    /** Moves the value first and dispatches second; a dispatch that fails rolls the
        movement back. */
    method Send(who: AccountId, p: SendParams) returns (k: Option<Commitment>, error: Option<HftError>)
      modifies this
      ensures HftTransfers.Send(old(Now()), who, p) == (Attempt(Now(), error), k)
    {
      hide TakeOut, Dispatch;
      var snapshot := Now();
      if (p.dest, p.asset) !in tables.contracts { return None, Some(TokenContractNotFound); }
      var contract := tables.contracts[(p.dest, p.asset)];
      if (p.asset, p.dest) !in tables.precisions { return None, Some(DecimalsNotFound); }
      var ercDecimals := tables.precisions[(p.asset, p.dest)];
      var ok := CollectFrom(p.asset, who, p.dest, p.amount);
      if !ok { return None, Some(AssetTransferError); }
      k := DispatchPost(SendDraft(snapshot, who, p, contract, ercDecimals), FeeMetadata(who, p.fee));
      if k.None? {
        Restore(snapshot);
        return None, Some(DispatchError);
      }
      error := None;
    }

    method ReleaseTo(asset: AssetId, to: AccountId, amount: nat, cause: Cause) returns (ok: bool)
      modifies this
      ensures match GiveBack(old(Now()), asset, to, amount, cause)
              case Some(s) => ok && Now() == s
              case None => !ok && Now() == old(Now())
    {
      hide Release;
      var (moved, swept) := Release(Now(), asset, to, amount);
      var entry := Returned(asset, to, amount, moved, swept, cause);
      if asset == NATIVE_ID {
        match bank.Transfer(HftCustody, to, amount, false) {
          case None => return false;
          case Some(b) => bank := b;
        }
      } else {
        if asset !in tokens { return false; }
        var token := tokens[asset];
        var locks := Row(tables.native, asset) == Some(true);
        var after := if locks then token.Move(HftCustody, to, amount) else token.Mint(to, amount);
        if after.None? { return false; }
        tokens := tokens[asset := after.value];
      }
      log := log + [entry];
      ok := true;
    }

    method CreditBeneficiary(chain: Chain, contract: Endpoint, to: Address, ercAmount: nat,
                             cause: Cause) returns (error: Option<HftError>)
      modifies this
      ensures Credit(old(Now()), chain, contract, to, ercAmount, cause) == Attempt(Now(), error)
    {
      hide GiveBack, ConvertToBalance;
      var asset := AssetAt(Now(), chain, contract);
      if asset.None? { return Some(UnknownContract); }
      var beneficiary := HftAccount(to);
      if beneficiary.None? { return Some(BadAddressLength); }
      var decimals := DecimalsOf(Now(), asset.value);
      if (asset.value, chain) !in tables.precisions { return Some(DecimalsNotConfigured); }
      var amount := ConvertToBalance(ercAmount, tables.precisions[(asset.value, chain)], decimals);
      if amount.None? { return Some(InvalidAmount); }
      var ok := ReleaseTo(asset.value, beneficiary.value, amount.value, cause);
      error := if ok then None else Some(TransferFailed);
    }

    method AcceptBody(post: PostRequest, callSucceeds: bool) returns (error: Option<HftError>)
      modifies this
      ensures OnAccept(old(Now()), post, callSucceeds) == Attempt(Now(), error)
    {
      hide Credit;
      if AssetAt(Now(), post.source, post.from).None? { return Some(UnknownContract); }
      if post.body.Undecodable? { return Some(DecodeFailed); }
      var m := post.body.message;
      error := CreditBeneficiary(post.source, post.from, m.to, m.amount, Delivered(post));
      if error.None? && !m.data.Empty? && !callSucceeds { error := Some(CallFailed); }
    }

    /** The runtime's adapter: a message with calldata never reaches the pallet. */
    method NoCallDataAccept(post: PostRequest, callSucceeds: bool) returns (error: Option<HftError>)
      modifies this
      ensures GuardedAccept(old(Now()), post, callSucceeds) == Attempt(Now(), error)
    {
      if post.body.Undecodable? { return Some(DecodeFailed); }
      if !post.body.message.data.Empty? { return Some(CallDataDisabled); }
      error := AcceptBody(post, callSucceeds);
    }

    method TimeoutBody(k: Commitment) returns (error: Option<HftError>)
      modifies this
      ensures OnTimeout(old(Now()), k) == Attempt(Now(), error)
    {
      hide Credit;
      if k.Get? { return Some(UnsupportedTimeout); }
      if k.post.body.Undecodable? { return Some(DecodeFailed); }
      var m := k.post.body.message;
      if HftAccount(m.from).None? { return Some(BadAddressLength); }
      error := CreditBeneficiary(k.post.dest, k.post.to, m.from, m.amount, TimedOut(k));
    }

    /** The receipt goes in before the callback and comes out when the callback fails. */
    method HandleDelivery(post: PostRequest, guarded: bool, callSucceeds: bool) returns (error: Option<HftError>)
      modifies this
      ensures Deliver(old(Now()), post, guarded, callSucceeds) == Attempt(Now(), error)
    {
      hide GuardedAccept, OnAccept;
      if Post(post) in host.receipts { return Some(Duplicate); }
      host := host.(receipts := host.receipts + {Post(post)});
      if guarded { error := NoCallDataAccept(post, callSucceeds); } else { error := AcceptBody(post, callSucceeds); }
      if error.Some? { host := host.(receipts := host.receipts - {Post(post)}); }
    }

    /** The record goes first, then the refund, then the relayer fee; a failure anywhere
        brings all of it back. */
    method HandleTimeout(k: Commitment) returns (error: Option<HftError>)
      modifies this
      ensures Refund(old(Now()), k) == Attempt(Now(), error)
    {
      hide OnTimeout, Bank.PayFee;
      if k !in host.requests { return Some(NotOutstanding); }
      var snapshot, meta := Now(), host.requests[k];
      host := host.(requests := host.requests - {k});
      error := TimeoutBody(k);
      if error.Some? {
        Restore(snapshot);
        return;
      }
      match RefundFee(bank, meta) {
        case None =>
          Restore(snapshot);
          error := Some(FeeRefundFailed);
        case Some(b) => bank := b;
      }
    }

    method HandleMessage(m: HftMessage, guarded: bool) returns (error: Option<HftError>)
      modifies this
      ensures Handle(old(Now()), m, guarded) == Attempt(Now(), error)
    {
      hide Deliver, Refund;
      match m {
        case Inbound(post, callSucceeds) => error := HandleDelivery(post, guarded, callSucceeds);
        case Expired(k) => error := HandleTimeout(k);
      }
    }

    /** Runs a batch message by message. Only a rejection stops it; the errors of modules
        are looked at when all messages have run. */
    method HandleMessages(ms: seq<HftMessage>, guarded: bool) returns (error: Option<HftError>)
      modifies this
      ensures Handled(old(Now()), ms, guarded) == Attempt(Now(), error)
    {
      hide Handle;
      error := None;
      for i := 0 to |ms|
        invariant !Rejected(error)
        invariant var all, rest := Handled(old(Now()), ms, guarded), Handled(Now(), ms[i..], guarded);
          && all.state == rest.state
          && all.error == CarriedOver(error, rest.error)
      {
        assert ms[i..][1..] == ms[i + 1..];
        var fault := HandleMessage(ms[i], guarded);
        if Rejected(fault) {
          error := CarriedOver(error, fault);
          return;
        }
        if error.None? { error := fault; }
      }
    }

    /** The transactional call around a batch. */
    method ExecuteBatch(ms: seq<HftMessage>, guarded: bool) returns (error: Option<HftError>)
      modifies this
      ensures Execute(old(Now()), ms, guarded) == Attempt(Now(), error)
    {
      hide Handled;
      var snapshot := Now();
      error := HandleMessages(ms, guarded);
      if error.Some? {
        Restore(snapshot);
        error := Some(InvalidMessage);
      }
    }
  }

  /** The error a batch reports: the first one. */
  function CarriedOver(first: Option<HftError>, later: Option<HftError>): Option<HftError> {
    if first.Some? then first else later
  }
}
