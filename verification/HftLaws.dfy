/** What the fungible-token bridge keeps over every run: the conservation law of each asset,
    the native currency included, in the mode it was registered with. */
module HftLaws {
  import opened Sums
  import opened Balances
  import opened Messages
  import opened Precision
  import opened IsmpHost
  import opened HftRegistry
  import opened HftRegistryLaws
  import opened HftTransfers

  /** What the log holds of one part of an asset's account. */
  function Total(log: seq<Flow>, asset: AssetId, part: Part): nat {
    if log == [] then 0 else Total(log[..|log| - 1], asset, part) + log[|log| - 1].Share(asset, part)
  }

  /** The net amount an asset's holders lost to the bridge. */
  function Net(log: seq<Flow>, asset: AssetId): int {
    Total(log, asset, Sent) + Total(log, asset, SweptOut) + Total(log, asset, Given)
    - Total(log, asset, Released) - Total(log, asset, SweptBack)
  }

  lemma TotalAppend(log: seq<Flow>, f: Flow)
    ensures forall asset, part :: Total(log + [f], asset, part) == Total(log, asset, part) + f.Share(asset, part)
  {
    assert (log + [f])[..|log|] == log;
  }

  // ------------------------------------------------------------------------ one asset

  lemma MoveConserves(t: Token, from: AccountId, to: AccountId, amount: nat)
    requires t.Valid() && t.Move(from, to, amount).Some?
    ensures var t' := t.Move(from, to, amount).value;
      && t'.Valid() && t'.supply == t.supply && t'.minBalance == t.minBalance && t'.decimals == t.decimals
      && (forall a :: a != from && a != to ==> t'.Held(a) == t.Held(a))
      && (amount > 0 && from != to ==>
            && amount <= t.Held(from)
            && t'.Held(from) == t.Held(from) - t.Taken(from, amount)
            && t'.Held(to) == t.Held(to) + t.Taken(from, amount))
      && (amount == 0 || from == to ==> t' == t)
  {
    if amount > 0 && from != to {
      var taken := t.Taken(from, amount);
      SumWrite(t.held, from, t.Held(from) - taken);
      SumWrite(t.held[from := t.Held(from) - taken], to, t.Held(to) + taken);
    }
  }

  lemma BurnConserves(t: Token, who: AccountId, amount: nat)
    requires t.Valid() && t.Burn(who, amount).Some?
    ensures var t' := t.Burn(who, amount).value;
      && t'.Valid() && t'.minBalance == t.minBalance && t'.decimals == t.decimals
      && amount <= t.Held(who)
      && t'.supply == t.supply - (if amount == 0 then 0 else t.Taken(who, amount))
      && t'.Held(who) == t.Held(who) - (if amount == 0 then 0 else t.Taken(who, amount))
      && (forall a :: a != who ==> t'.Held(a) == t.Held(a))
  {
    if amount > 0 { SumWrite(t.held, who, t.Held(who) - t.Taken(who, amount)); }
  }

  lemma MintConserves(t: Token, to: AccountId, amount: nat)
    requires t.Valid() && t.Mint(to, amount).Some?
    ensures var t' := t.Mint(to, amount).value;
      && t'.Valid() && t'.minBalance == t.minBalance && t'.decimals == t.decimals
      && t'.supply == t.supply + amount && t'.Held(to) == t.Held(to) + amount
      && (forall a :: a != to ==> t'.Held(a) == t.Held(a))
  {
    SumWrite(t.held, to, t.Held(to) + amount);
  }

  // --------------------------------------------------------------- the conservation law

  /** What an asset started with: its supply and what was in custody. */
  datatype Opening = Opening(supply: nat, custody: nat)

  /** No outstanding record would be refunded to the custody account. */
  ghost predicate PayersOutside(h: HostState) {
    forall k :: k in h.requests ==> h.requests[k].payer != HftCustody
  }

  /** The native currency is only moved: what is issued or lost as dust is constant, and
      custody holds its opening balance and the net outflow. */
  ghost predicate NativeBalanced(s: Hft, o: Opening) {
    && s.bank.Valid() && s.bank.issuance + s.bank.burnedDust == o.supply
    && s.bank.Free(HftCustody) == o.custody + Net(s.log, NATIVE_ID)
    && Total(s.log, NATIVE_ID, SweptOut) == 0
    && PayersOutside(s.host)
  }

  /** A locked token keeps its supply and custody holds its opening balance and the net
      outflow; a burned one is short of exactly the net outflow. */
  ghost predicate TokenBalanced(s: Hft, asset: AssetId, o: Opening) {
    && asset in s.tokens && s.tokens[asset].Valid()
    && if Locks(s, asset)
       then s.tokens[asset].supply == o.supply && s.tokens[asset].Held(HftCustody) == o.custody + Net(s.log, asset)
       else
         && s.tokens[asset].supply + Net(s.log, asset) == o.supply
         && Total(s.log, asset, SweptBack) == 0 && Total(s.log, asset, Given) == 0
  }

  ghost predicate Balanced(s: Hft, asset: AssetId, o: Opening) {
    if asset == NATIVE_ID then NativeBalanced(s, o) else TokenBalanced(s, asset, o)
  }

  /** A change that does not concern the asset. */
  lemma BalancedElsewhere(s: Hft, s': Hft, asset: AssetId, o: Opening)
    requires Balanced(s, asset, o)
    requires asset == NATIVE_ID ==> s'.bank == s.bank && PayersOutside(s'.host)
    requires asset != NATIVE_ID ==>
      && asset in s.tokens && asset in s'.tokens && s'.tokens[asset] == s.tokens[asset]
      && Row(s'.tables.native, asset) == Row(s.tables.native, asset)
    requires s'.log == s.log || exists f: Flow :: f.asset != asset && s'.log == s.log + [f]
    ensures Balanced(s', asset, o)
  {
    if s'.log != s.log {
      var f: Flow :| f.asset != asset && s'.log == s.log + [f];
      TotalAppend(s.log, f);
    }
  }

  lemma TokenTakeOut(s: Hft, asset: AssetId, o: Opening, who: AccountId, dest: Chain, amount: nat)
    requires asset != NATIVE_ID && TokenBalanced(s, asset, o) && who != HftCustody
    requires TakeOut(s, asset, who, dest, amount).Some?
    ensures TokenBalanced(TakeOut(s, asset, who, dest, amount).value, asset, o)
  {
    hide Token.Move, Token.Burn, Token.Valid, Total;
    var s', token := TakeOut(s, asset, who, dest, amount).value, s.tokens[asset];
    TotalAppend(s.log, s'.log[|s.log|]);
    if Locks(s, asset) { MoveConserves(token, who, HftCustody, amount); } else { BurnConserves(token, who, amount); }
  }

  lemma CustodyReceives(b: Bank, who: AccountId, amount: nat)
    requires b.Valid() && who != HftCustody && b.Transfer(who, HftCustody, amount, false).Some?
    ensures var b' := b.Transfer(who, HftCustody, amount, false).value;
      && b'.Valid() && b'.issuance + b'.burnedDust == b.issuance + b.burnedDust
      && b'.Free(HftCustody) == b.Free(HftCustody) + amount
  {
    hide Bank.Valid, Bank.Transfer;
    TransferConserves(b, who, HftCustody, amount, false);
    if amount > 0 {
      TransferTakes(b, who, HftCustody, amount, false);
    } else {
      NothingMoves(b, who, HftCustody, amount);
    }
  }

  lemma CustodyPays(b: Bank, to: AccountId, amount: nat)
    requires b.Valid() && b.Transfer(HftCustody, to, amount, false).Some?
    ensures var b' := b.Transfer(HftCustody, to, amount, false).value;
      && b'.Valid() && b'.issuance + b'.burnedDust == b.issuance + b.burnedDust
      && var paid := if amount == 0 || to == HftCustody then 0 else amount + b.Remainder(HftCustody, amount);
         b'.Free(HftCustody) == b.Free(HftCustody) - paid
  {
    hide Bank.Valid, Bank.Transfer, Bank.Remainder;
    TransferConserves(b, HftCustody, to, amount, false);
    if amount > 0 && to != HftCustody {
      TransferTakes(b, HftCustody, to, amount, false);
    } else {
      NothingMoves(b, HftCustody, to, amount);
    }
  }

  /** A native movement that is logged for what custody gained or lost by it. */
  lemma NativeLogged(s: Hft, s': Hft, o: Opening, f: Flow)
    requires NativeBalanced(s, o) && s'.host == s.host && s'.log == s.log + [f]
    requires s'.bank.Valid() && s'.bank.issuance + s'.bank.burnedDust == s.bank.issuance + s.bank.burnedDust
    requires f.Share(NATIVE_ID, SweptOut) == 0
    requires s'.bank.Free(HftCustody) + f.Share(NATIVE_ID, Released) + f.Share(NATIVE_ID, SweptBack)
          == s.bank.Free(HftCustody) + f.Share(NATIVE_ID, Sent) + f.Share(NATIVE_ID, Given)
    ensures NativeBalanced(s', o)
  {
    hide Total, Bank.Valid, Bank.Free;
    TotalAppend(s.log, f);
  }

  lemma NativeTakeOut(s: Hft, o: Opening, who: AccountId, dest: Chain, amount: nat)
    requires NativeBalanced(s, o) && who != HftCustody && TakeOut(s, NATIVE_ID, who, dest, amount).Some?
    ensures NativeBalanced(TakeOut(s, NATIVE_ID, who, dest, amount).value, o)
  {
    hide Bank.Transfer, Bank.Valid, Net, Total, PayersOutside;
    NativeBank(s, o);
    CustodyReceives(s.bank, who, amount);
    NativeLogged(s, TakeOut(s, NATIVE_ID, who, dest, amount).value, o, Left(NATIVE_ID, who, dest, amount, 0));
  }

  lemma NativeBank(s: Hft, o: Opening)
    requires NativeBalanced(s, o)
    ensures s.bank.Valid()
  {
  }

  lemma TakeOutBalanced(s: Hft, asset: AssetId, o: Opening, moving: AssetId, who: AccountId, dest: Chain, amount: nat)
    requires Balanced(s, asset, o) && who != HftCustody && TakeOut(s, moving, who, dest, amount).Some?
    ensures Balanced(TakeOut(s, moving, who, dest, amount).value, asset, o)
  {
    hide Bank.Transfer, Token.Move, Token.Burn, NativeBalanced;
    if moving != asset {
      var s' := TakeOut(s, moving, who, dest, amount).value;
      NativePayers(s, asset, o);
      assert s'.log == s.log + [s'.log[|s.log|]];
      BalancedElsewhere(s, s', asset, o);
    } else if asset == NATIVE_ID {
      NativeTakeOut(s, o, who, dest, amount);
    } else {
      TokenTakeOut(s, asset, o, who, dest, amount);
    }
  }

  lemma NativePayers(s: Hft, asset: AssetId, o: Opening)
    requires Balanced(s, asset, o)
    ensures asset == NATIVE_ID ==> PayersOutside(s.host)
  {
  }

  lemma TokenGiveBack(s: Hft, asset: AssetId, o: Opening, to: AccountId, amount: nat, cause: Cause)
    requires asset != NATIVE_ID && TokenBalanced(s, asset, o) && GiveBack(s, asset, to, amount, cause).Some?
    ensures TokenBalanced(GiveBack(s, asset, to, amount, cause).value, asset, o)
  {
    hide Token.Move, Token.Mint, Token.Valid, Total;
    var s', token := GiveBack(s, asset, to, amount, cause).value, s.tokens[asset];
    TotalAppend(s.log, s'.log[|s.log|]);
    if Locks(s, asset) { MoveConserves(token, HftCustody, to, amount); } else { MintConserves(token, to, amount); }
  }

  lemma NativeGiveBack(s: Hft, o: Opening, to: AccountId, amount: nat, cause: Cause)
    requires NativeBalanced(s, o) && GiveBack(s, NATIVE_ID, to, amount, cause).Some?
    ensures NativeBalanced(GiveBack(s, NATIVE_ID, to, amount, cause).value, o)
  {
    hide Bank.Transfer, Bank.Valid, Bank.Remainder, Net, Total, PayersOutside;
    NativeBank(s, o);
    CustodyPays(s.bank, to, amount);
    var (moved, swept) := Release(s, NATIVE_ID, to, amount);
    NativeLogged(s, GiveBack(s, NATIVE_ID, to, amount, cause).value, o,
                 Returned(NATIVE_ID, to, amount, moved, swept, cause));
  }

  lemma GiveBackBalanced(s: Hft, asset: AssetId, o: Opening, moving: AssetId, to: AccountId, amount: nat, cause: Cause)
    requires Balanced(s, asset, o) && GiveBack(s, moving, to, amount, cause).Some?
    ensures Balanced(GiveBack(s, moving, to, amount, cause).value, asset, o)
  {
    hide Bank.Transfer, Token.Move, Token.Mint, NativeBalanced, Release;
    if moving != asset {
      var s' := GiveBack(s, moving, to, amount, cause).value;
      NativePayers(s, asset, o);
      assert s'.log == s.log + [s'.log[|s.log|]];
      BalancedElsewhere(s, s', asset, o);
    } else if asset == NATIVE_ID {
      NativeGiveBack(s, o, to, amount, cause);
    } else {
      TokenGiveBack(s, asset, o, to, amount, cause);
    }
  }

  /** A native release takes exactly its amount from custody if and only if what stays is
      nothing, at least the existential deposit, or beside a reserve. */
  lemma NativeReleaseExactIff(s: Hft, to: AccountId, amount: nat, cause: Cause)
    requires to != HftCustody && amount > 0 && GiveBack(s, NATIVE_ID, to, amount, cause).Some?
    ensures var rest := s.bank.Free(HftCustody) - amount;
      GiveBack(s, NATIVE_ID, to, amount, cause).value.bank.Free(HftCustody) == rest <==>
        rest == 0 || rest >= EXISTENTIAL_DEPOSIT || s.bank.Reserved(HftCustody) > 0
  {
    TransferTakes(s.bank, HftCustody, to, amount, false);
  }

  /** What a credit attempt amounts to: nothing on error, one return on success. */
  lemma CreditShape(s: Hft, chain: Chain, contract: Endpoint, to: Address, ercAmount: nat, cause: Cause)
    ensures var a := Credit(s, chain, contract, to, ercAmount, cause);
      && (a.error.Some? ==> a.state == s)
      && (a.error.None? ==>
            && AssetAt(s, chain, contract).Some? && HftAccount(to).Some?
            && exists amount ::
                 GiveBack(s, AssetAt(s, chain, contract).value, HftAccount(to).value, amount, cause) == Some(a.state))
  {
    hide GiveBack, ConvertToBalance;
  }

  lemma CreditBalanced(s: Hft, asset: AssetId, o: Opening, chain: Chain, contract: Endpoint, to: Address,
                       ercAmount: nat, cause: Cause)
    requires Balanced(s, asset, o)
    ensures Balanced(Credit(s, chain, contract, to, ercAmount, cause).state, asset, o)
  {
    hide Credit, GiveBack, Balanced;
    CreditShape(s, chain, contract, to, ercAmount, cause);
    var a := Credit(s, chain, contract, to, ercAmount, cause);
    if a.error.None? {
      var moving, who := AssetAt(s, chain, contract).value, HftAccount(to).value;
      var amount :| GiveBack(s, moving, who, amount, cause) == Some(a.state);
      GiveBackBalanced(s, asset, o, moving, who, amount, cause);
    }
  }

  /** The fees of a dispatch come from its payer, who is not the custody account. */
  lemma FeesBalanced(s: Hft, asset: AssetId, o: Opening, draft: Draft, meta: FeeMetadata)
    requires Balanced(s, asset, o) && meta.payer != HftCustody && Dispatch(s.host, s.bank, draft, meta).Some?
    ensures var d := Dispatch(s.host, s.bank, draft, meta).value;
      Balanced(s.(host := d.host, bank := d.bank), asset, o)
  {
    var d := Dispatch(s.host, s.bank, draft, meta).value;
    if asset == NATIVE_ID {
      PayFeeConserves(s.bank, meta.payer, RelayerFees, ProtocolFee(s.host, draft));
      var b1 := s.bank.PayFee(meta.payer, RelayerFees, ProtocolFee(s.host, draft)).value;
      PayFeeConserves(b1, meta.payer, RelayerFees, meta.fee);
    }
    hide Bank.PayFee, Bank.Valid;
  }

  lemma SendBalanced(s: Hft, asset: AssetId, o: Opening, who: AccountId, p: SendParams)
    requires Balanced(s, asset, o) && who != HftCustody
    ensures Balanced(Send(s, who, p).0.state, asset, o)
  {
    hide TakeOut, Dispatch, SendDraft, Balanced;
    if Send(s, who, p).0.error.None? {
      var s1 := TakeOut(s, p.asset, who, p.dest, p.amount).value;
      TakeOutBalanced(s, asset, o, p.asset, who, p.dest, p.amount);
      var contract, decimals := s.tables.contracts[(p.dest, p.asset)], s.tables.precisions[(p.asset, p.dest)];
      FeesBalanced(s1, asset, o, SendDraft(s, who, p, contract, decimals), FeeMetadata(who, p.fee));
    }
  }

  lemma DeliverBalanced(s: Hft, asset: AssetId, o: Opening, post: PostRequest, guarded: bool, callSucceeds: bool)
    requires Balanced(s, asset, o)
    ensures Balanced(Deliver(s, post, guarded, callSucceeds).state, asset, o)
  {
    hide Credit;
    assert Balanced(Receipted(s, post), asset, o);
    if post.body.Encoded? {
      var m := post.body.message;
      CreditBalanced(Receipted(s, post), asset, o, post.source, post.from, m.to, m.amount, Delivered(post));
    }
  }

  /** The relayer fee goes back to whoever escrowed it, and not from custody. */
  lemma FeeBackBalanced(s: Hft, asset: AssetId, o: Opening, meta: FeeMetadata)
    requires Balanced(s, asset, o) && (asset == NATIVE_ID ==> meta.payer != HftCustody)
    requires RefundFee(s.bank, meta).Some?
    ensures Balanced(s.(bank := RefundFee(s.bank, meta).value), asset, o)
  {
    if asset == NATIVE_ID && meta.fee > 0 { PayFeeConserves(s.bank, RelayerFees, meta.payer, meta.fee); }
    hide Bank.PayFee, Bank.Valid;
  }

  lemma RefundBalanced(s: Hft, asset: AssetId, o: Opening, k: Commitment)
    requires Balanced(s, asset, o)
    ensures Balanced(Refund(s, k).state, asset, o)
  {
    hide Credit, RefundFee;
    if k in s.host.requests && k.Post? && k.post.body.Encoded? {
      var s0 := s.(host := s.host.(requests := s.host.requests - {k}));
      var m := k.post.body.message;
      assert Balanced(s0, asset, o);
      CreditBalanced(s0, asset, o, k.post.dest, k.post.to, m.from, m.amount, TimedOut(k));
      var credited := Credit(s0, k.post.dest, k.post.to, m.from, m.amount, TimedOut(k)).state;
      if RefundFee(credited.bank, s.host.requests[k]).Some? {
        FeeBackBalanced(credited, asset, o, s.host.requests[k]);
      }
    }
  }

  /** A batch changes storage message by message, or not at all. */
  lemma {:induction false} HandledBalanced(s: Hft, asset: AssetId, o: Opening, ms: seq<HftMessage>, guarded: bool)
    requires Balanced(s, asset, o)
    ensures Balanced(Handled(s, ms, guarded).state, asset, o)
    decreases ms
  {
    hide Balanced, Deliver, Refund;
    if ms != [] {
      match ms[0] {
        case Inbound(post, callSucceeds) => DeliverBalanced(s, asset, o, post, guarded, callSucceeds);
        case Expired(k) => RefundBalanced(s, asset, o, k);
      }
      HandledBalanced(Handle(s, ms[0], guarded).state, asset, o, ms[1..], guarded);
    }
  }

  lemma TokenMoveBalanced(s: Hft, asset: AssetId, o: Opening, moving: AssetId, from: AccountId, to: AccountId,
                          amount: nat)
    requires Balanced(s, asset, o) && from != HftCustody
    ensures Balanced(TokenMove(s, moving, from, to, amount), asset, o)
  {
    hide Token.Move, TokenBalanced, NativeBalanced;
    var s' := TokenMove(s, moving, from, to, amount);
    if s' == s {
    } else if moving != asset {
      NativePayers(s, asset, o);
      if asset != NATIVE_ID { TokenKnown(s, asset, o); }
      assert s'.log == s.log || s'.log == s.log + [s'.log[|s.log|]];
      BalancedElsewhere(s, s', asset, o);
    } else {
      TokenMoved(s, asset, o, from, to, amount);
    }
  }

  lemma TokenMoved(s: Hft, asset: AssetId, o: Opening, from: AccountId, to: AccountId, amount: nat)
    requires asset != NATIVE_ID && TokenBalanced(s, asset, o) && from != HftCustody
    requires amount <= s.tokens[asset].Held(from) && s.tokens[asset].Move(from, to, amount).Some?
    ensures TokenBalanced(TokenMove(s, asset, from, to, amount), asset, o)
  {
    hide Token.Move, Token.Valid, Total;
    MoveConserves(s.tokens[asset], from, to, amount);
    var s' := TokenMove(s, asset, from, to, amount);
    if s'.log != s.log { TotalAppend(s.log, s'.log[|s.log|]); }
  }

  lemma NativeMoveBalanced(s: Hft, asset: AssetId, o: Opening, from: AccountId, to: AccountId, amount: nat)
    requires Balanced(s, asset, o) && from != HftCustody
    ensures Balanced(NativeMove(s, from, to, amount), asset, o)
  {
    hide Bank.Transfer, TokenBalanced, NativeBalanced;
    var s' := NativeMove(s, from, to, amount);
    if s' == s {
    } else if asset == NATIVE_ID {
      NativeMoved(s, o, from, to, amount);
    } else {
      assert s'.log == s.log || s'.log == s.log + [s'.log[|s.log|]];
      TokenKnown(s, asset, o);
      BalancedElsewhere(s, s', asset, o);
    }
  }

  lemma TokenKnown(s: Hft, asset: AssetId, o: Opening)
    requires TokenBalanced(s, asset, o)
    ensures asset in s.tokens
  {
  }

  lemma NativeMoved(s: Hft, o: Opening, from: AccountId, to: AccountId, amount: nat)
    requires NativeBalanced(s, o) && from != HftCustody && s.bank.Transfer(from, to, amount, false).Some?
    ensures NativeBalanced(NativeMove(s, from, to, amount), o)
  {
    NativeBank(s, o);
    TransferConserves(s.bank, from, to, amount, false);
    var s' := NativeMove(s, from, to, amount);
    if to == HftCustody {
      hide Bank.Transfer, Bank.Valid, Net, Total, PayersOutside;
      CustodyReceives(s.bank, from, amount);
      NativeLogged(s, s', o, Donated(NATIVE_ID, amount));
    } else {
      hide Bank.Transfer, Bank.Valid, Bank.Remainder;
      if from != to && amount > 0 {
        TransferTakes(s.bank, from, to, amount, false);
      } else {
        NothingMoves(s.bank, from, to, amount);
      }
    }
  }

  lemma NothingMoves(b: Bank, from: AccountId, to: AccountId, amount: nat)
    requires from == to || amount == 0
    ensures b.Transfer(from, to, amount, false) == Some(b)
  {
  }

  /** Registrations and updates cannot change the mode an asset already has. */
  lemma GovernBalanced(s: Hft, asset: AssetId, o: Opening, call: HftRegistry.Op)
    requires Balanced(s, asset, o) && OneToOne(s.tables) && WellTyped(call)
    requires asset == NATIVE_ID || asset in s.tables.native
    ensures Balanced(HftStep(s, GovernOp(call)), asset, o)
  {
    hide OneToOne, HftRegistry.Step;
    StepKeepsOneToOne(s.tables, AssetsOf(s), call);
  }

  lemma StepBalanced(s: Hft, asset: AssetId, o: Opening, op: HftOp)
    requires Balanced(s, asset, o) && OneToOne(s.tables) && op.WellFormed()
    requires asset == NATIVE_ID || asset in s.tables.native
    ensures Balanced(HftStep(s, op), asset, o)
  {
    hide Balanced, OneToOne, Send, Handled, TokenMove, NativeMove;
    match op {
      case SendOp(who, p) => SendBalanced(s, asset, o, who, p);
      case ExecuteOp(messages, guarded) => HandledBalanced(s, asset, o, messages, guarded);
      case GovernOp(call) => GovernBalanced(s, asset, o, call);
      case TokenMoveOp(moving, from, to, amount) => TokenMoveBalanced(s, asset, o, moving, from, to, amount);
      case NativeMoveOp(from, to, amount) => NativeMoveBalanced(s, asset, o, from, to, amount);
    }
  }

  // ----------------------------------------------------------- the registry meanwhile

  lemma HandleTables(s: Hft, m: HftMessage, guarded: bool)
    ensures Handle(s, m, guarded).state.tables == s.tables
  {
    hide Bank.Transfer, Token.Move, Token.Mint, RefundFee, ConvertToBalance, Release;
  }

  lemma {:induction false} HandledTables(s: Hft, ms: seq<HftMessage>, guarded: bool)
    ensures Handled(s, ms, guarded).state.tables == s.tables
    decreases ms
  {
    hide Handle;
    if ms != [] {
      HandleTables(s, ms[0], guarded);
      HandledTables(Handle(s, ms[0], guarded).state, ms[1..], guarded);
    }
  }

  /** Only governance touches the registry. */
  lemma TablesFrame(s: Hft, op: HftOp)
    requires !op.GovernOp?
    ensures HftStep(s, op).tables == s.tables
  {
    hide Bank.Transfer, Token.Move, Token.Burn, Dispatch, SendDraft, Handled;
    if op.ExecuteOp? { HandledTables(s, op.messages, op.guarded); }
  }

  lemma StepTables(s: Hft, op: HftOp)
    requires OneToOne(s.tables) && op.WellFormed()
    ensures OneToOne(HftStep(s, op).tables)
    ensures forall asset ::
        asset in s.tables.native ==> Row(HftStep(s, op).tables.native, asset) == Some(s.tables.native[asset])
  {
    hide OneToOne, HftRegistry.Step;
    if op.GovernOp? { StepKeepsOneToOne(s.tables, AssetsOf(s), op.call); } else { TablesFrame(s, op); }
  }

  // ------------------------------------------------------------------------ main results

  /** Over every run a registered asset keeps its mode and the registry stays one-to-one. */
  lemma {:induction false} ModesKept(s: Hft, ops: seq<HftOp>)
    requires OneToOne(s.tables) && forall op :: op in ops ==> op.WellFormed()
    ensures var now := HftRun(s, ops);
      && OneToOne(now.tables)
      && forall asset :: asset in s.tables.native ==> Row(now.tables.native, asset) == Some(s.tables.native[asset])
  {
    hide OneToOne, HftStep;
    if ops != [] {
      ModesKept(s, ops[..|ops| - 1]);
      StepTables(HftRun(s, ops[..|ops| - 1]), ops[|ops| - 1]);
    }
  }

  /** The account an asset opens with. */
  ghost function Opened(s: Hft, asset: AssetId): Opening
    requires asset == NATIVE_ID || asset in s.tokens
  {
    if asset == NATIVE_ID then Opening(s.bank.issuance + s.bank.burnedDust, s.bank.Free(HftCustody))
    else Opening(s.tokens[asset].supply, s.tokens[asset].Held(HftCustody))
  }

  lemma {:induction false} RunBalanced(s: Hft, asset: AssetId, o: Opening, ops: seq<HftOp>)
    requires OneToOne(s.tables) && Balanced(s, asset, o) && (asset == NATIVE_ID || asset in s.tables.native)
    requires forall op :: op in ops ==> op.WellFormed()
    ensures Balanced(HftRun(s, ops), asset, o)
  {
    hide OneToOne, HftStep, Balanced;
    if ops != [] {
      var front := ops[..|ops| - 1];
      RunBalanced(s, asset, o, front);
      ModesKept(s, front);
      StepBalanced(HftRun(s, front), asset, o, ops[|ops| - 1]);
    }
  }

  /** Tokens, over every run: a locked token's supply never changes and custody moves by
      exactly what came in less what went out; a burned token's supply plus the net
      outflow never changes. */
  lemma HftConservation(s: Hft, asset: AssetId, ops: seq<HftOp>)
    requires OneToOne(s.tables) && asset != NATIVE_ID && asset in s.tables.native
    requires asset in s.tokens && s.tokens[asset].Valid() && s.log == []
    requires forall op :: op in ops ==> op.WellFormed()
    ensures TokenBalanced(HftRun(s, ops), asset, Opened(s, asset))
    ensures Locks(HftRun(s, ops), asset) == Locks(s, asset)
  {
    RunBalanced(s, asset, Opened(s, asset), ops);
    ModesKept(s, ops);
  }

  /** The native currency, over every run: custody holds its opening balance, plus what was
      sent and given, minus what was released and what was reaped with it; and what is
      issued or lost as dust is constant. */
  lemma NativeCustodyLaw(s: Hft, ops: seq<HftOp>)
    requires OneToOne(s.tables) && s.bank.Valid() && PayersOutside(s.host) && s.log == []
    requires forall op :: op in ops ==> op.WellFormed()
    ensures var now := HftRun(s, ops);
      && now.bank.Valid() && now.bank.issuance + now.bank.burnedDust == s.bank.issuance + s.bank.burnedDust
      && now.bank.Free(HftCustody) + Total(now.log, NATIVE_ID, Released) + Total(now.log, NATIVE_ID, SweptBack)
         == s.bank.Free(HftCustody) + Total(now.log, NATIVE_ID, Sent) + Total(now.log, NATIVE_ID, Given)
  {
    RunBalanced(s, NATIVE_ID, Opened(s, NATIVE_ID), ops);
  }

  /** In burn mode the amounts sent and released alone account for the supply if and only
      if no send ever swept a remainder out of existence with it. */
  lemma SentBalancesIff(s: Hft, asset: AssetId, ops: seq<HftOp>)
    requires OneToOne(s.tables) && asset != NATIVE_ID && asset in s.tables.native && !Locks(s, asset)
    requires asset in s.tokens && s.tokens[asset].Valid() && s.log == []
    requires forall op :: op in ops ==> op.WellFormed()
    ensures var now := HftRun(s, ops);
      && asset in now.tokens
      && (now.tokens[asset].supply + Total(now.log, asset, Sent)
          == s.tokens[asset].supply + Total(now.log, asset, Released)
          <==> forall f :: f in now.log ==> f.Share(asset, SweptOut) == 0)
  {
    HftConservation(s, asset, ops);
    NothingSweptIff(HftRun(s, ops).log, asset);
  }

  lemma {:induction false} NothingSweptIff(log: seq<Flow>, asset: AssetId)
    ensures Total(log, asset, SweptOut) == 0 <==> forall f :: f in log ==> f.Share(asset, SweptOut) == 0
  {
    if log != [] {
      NothingSweptIff(log[..|log| - 1], asset);
      assert log == log[..|log| - 1] + [log[|log| - 1]];
    }
  }
}
