/** What two-chain safety of the token bridge is good for: when custody covers what it
    owes, and when a legitimate claim on it goes through. */
module HftClaims {
  import opened Sums
  import opened Balances
  import opened Messages
  import opened Precision
  import opened IsmpHost
  import opened HftRegistry
  import opened HftTransfers
  import opened HftLaws
  import opened HftDelivery
  import opened LaneCover
  import opened HftTwoChain

  // ------------------------------------------------------------------ custody and claims

  function Custody(s: Hft, asset: AssetId): nat {
    if asset == NATIVE_ID then s.bank.Free(HftCustody)
    else if asset in s.tokens then s.tokens[asset].Held(HftCustody) else 0
  }

  /** Releases took no more remainders out of custody than it opened with, was given, or
      gained from remainders on the way in. */
  predicate Covered(s: Hft, asset: AssetId, o: Opening) {
    Total(s.log, asset, SweptBack) <= o.custody + Total(s.log, asset, SweptOut) + Total(s.log, asset, Given)
  }

  /** Custody holds what was sent and not released if and only if remainders swept out of
      it stay within what it had besides. */
  lemma CustodyCoversIff(s: Hft, asset: AssetId, o: Opening)
    requires Balanced(s, asset, o) && (asset == NATIVE_ID || Locks(s, asset))
    ensures Total(s.log, asset, Sent) <= Custody(s, asset) + Total(s.log, asset, Released) <==> Covered(s, asset, o)
  {
    hide Total, Bank.Valid, Token.Valid;
  }

  predicate CanHold(t: Token, who: AccountId, amount: nat) {
    t.minBalance <= t.Held(who) + amount <= MAX_BALANCE
  }

  /** What a release brings its beneficiary: from custody a swept remainder too. */
  function Brought(t: Token, locks: bool, amount: nat): nat {
    if locks && amount <= t.Held(HftCustody) then t.Taken(HftCustody, amount) else amount
  }

  /** The beneficiary may hold what a release of `amount` would bring, and no lock of the
      custody account stands in the way. How much custody holds does not matter here. */
  predicate Receivable(s: Hft, asset: AssetId, to: AccountId, amount: nat) {
    amount == 0
    || if asset == NATIVE_ID then
         to == HftCustody
         || (s.bank.CanDeposit(to, amount)
             && (s.bank.Untouchable(HftCustody, false) == 0 || amount <= s.bank.Reducible(HftCustody, false)))
       else asset in s.tokens && CanHold(s.tokens[asset], to, Brought(s.tokens[asset], Locks(s, asset), amount))
  }

  /** An amount within what was sent and not released, of an asset whose custody covers
      that, is released if and only if its beneficiary can receive it. */
  lemma ReleaseIff(s: Hft, asset: AssetId, o: Opening, to: AccountId, amount: nat, cause: Cause)
    requires Balanced(s, asset, o) && Covered(s, asset, o) && o.supply <= MAX_BALANCE
    requires amount + Total(s.log, asset, Released) <= Total(s.log, asset, Sent)
    ensures GiveBack(s, asset, to, amount, cause).Some? <==> Receivable(s, asset, to, amount)
  {
    hide Total, Bank.Valid, Release;
    if asset == NATIVE_ID || Locks(s, asset) { CustodyCoversIff(s, asset, o); }
    if asset != NATIVE_ID { SumWrite(s.tokens[asset].held, to, 0); }
  }

  // ------------------------------------------------------------------------- over runs

  /** A new world and an asset whose mode is settled: the account it opens with. */
  ghost predicate Opens(lanes: Lanes, w: World, asset: AssetId) {
    && NewWorld(lanes, w) && OneToOne(w.s.tables) && w.s.bank.Valid() && PayersOutside(w.s.host)
    && w.s.bank.issuance + w.s.bank.burnedDust <= MAX_BALANCE
    && (asset != NATIVE_ID ==> asset in w.s.tables.native && asset in w.s.tokens && w.s.tokens[asset].Valid())
  }

  lemma OpensBalanced(lanes: Lanes, w: World, asset: AssetId)
    requires Opens(lanes, w, asset)
    ensures Balanced(w.s, asset, Opened(w.s, asset)) && OneToOne(w.s.tables)
    ensures asset == NATIVE_ID || asset in w.s.tables.native
    ensures (asset == NATIVE_ID || asset in w.s.tokens) && Opened(w.s, asset).supply <= MAX_BALANCE
  {
    hide Agrees, OneToOne, Bank.Valid;
  }

  lemma {:induction false} WorldBalanced(lanes: Lanes, w: World, asset: AssetId, moves: seq<Move>)
    requires Opens(lanes, w, asset)
    ensures var now := RunWorld(lanes, w, moves);
      && Balanced(now.s, asset, Opened(w.s, asset)) && OneToOne(now.s.tables)
      && (asset == NATIVE_ID || asset in now.s.tables.native)
  {
    hide Balanced, OneToOne, HftStep, Opens, Opened, Possible;
    OpensBalanced(lanes, w, asset);
    if moves != [] {
      WorldBalanced(lanes, w, asset, moves[..|moves| - 1]);
      var before, m := RunWorld(lanes, w, moves[..|moves| - 1]), moves[|moves| - 1];
      if m.Local? && Possible(lanes, before, m) {
        PossibleWellFormed(lanes, before, m);
        StepBalanced(before.s, asset, Opened(w.s, asset), m.op);
        StepTables(before.s, m.op);
      }
    }
  }

  lemma PossibleWellFormed(lanes: Lanes, w: World, m: Move)
    requires m.Local? && Possible(lanes, w, m)
    ensures m.op.WellFormed()
  {
    hide Agrees, HftStep;
  }

  /** Over every run, custody holds what was sent and not released if and only if the
      remainders its releases swept stay within what it had besides. */
  lemma CustodyCoverage(lanes: Lanes, w: World, asset: AssetId, moves: seq<Move>)
    requires Opens(lanes, w, asset)
    ensures var s := RunWorld(lanes, w, moves).s;
      asset == NATIVE_ID || Locks(s, asset) ==>
        (Total(s.log, asset, Sent) <= Custody(s, asset) + Total(s.log, asset, Released)
         <==> Covered(s, asset, Opened(w.s, asset)))
  {
    hide Balanced, Opens, RunWorld, Opened, Custody;
    OpensBalanced(lanes, w, asset);
    WorldBalanced(lanes, w, asset, moves);
    var s := RunWorld(lanes, w, moves).s;
    if asset == NATIVE_ID || Locks(s, asset) { CustodyCoversIff(s, asset, Opened(w.s, asset)); }
  }

  /** What a lane owes is within what was sent of its asset and not released. */
  lemma ClaimFits(lanes: Lanes, w: World, lane: LaneId, claim: nat, amount: nat)
    requires Consistent(lanes, w) && lane in lanes && claim <= Owed(lanes, w, lane)
    requires ConvertToBalance(claim, lanes[lane].decimals, lanes[lane].local) == Some(amount)
    ensures amount + Total(w.s.log, lane.1, Released) <= Total(w.s.log, lane.1, Sent)
  {
    hide ConvertToBalance, ScaleFactor, Owed, Agrees, Total, Books, CreditCount, Covers;
    assert Backed(lanes, w, lane) && WithinSent(w.s.log, lane.1);
    DecodedWorth(claim, lanes[lane].decimals, lanes[lane].local, amount);
    var books := Books(w.s.log, lane.1);
    CoveredClaim(At(books, lane.0), Unit(lanes, lane), Owed(lanes, w, lane), CreditCount(w.s.log, lane), amount, claim);
    SumWrite(books, lane.0, 0);
  }

  lemma InFlightIsOwed(lanes: Lanes, w: World, post: PostRequest, lane: LaneId)
    requires post in w.sent && Post(post) !in w.s.host.receipts && Back(lanes, post, lane)
    ensures Carried(post.body) <= Owed(lanes, w, lane)
  {
    InFlightGone(lanes, w.sent, w.s.host.receipts, post, lane);
  }

  lemma OutstandingIsOwed(lanes: Lanes, w: World, k: Commitment, lane: LaneId)
    requires k in w.s.host.requests && k !in w.delivered && Toward(lanes, k, lane)
    ensures SentAmount(k) <= Owed(lanes, w, lane)
  {
    OutFlightGone(lanes, w.s.host.requests, w.delivered, k, lane);
  }

  /** What the bridge may refuse a claim on `asset` for: not for want of value. */
  predicate Admissible(s: Hft, asset: AssetId, chain: Chain, to: Address, claim: nat) {
    && HftAccount(to).Some? && (asset, chain) in s.tables.precisions
    && var amount := ConvertToBalance(claim, s.tables.precisions[(asset, chain)], DecimalsOf(s, asset));
       amount.Some? && Receivable(s, asset, HftAccount(to).value, amount.value)
  }

  /** A claim that its lane owes is credited if and only if it is admissible. */
  lemma ClaimIff(lanes: Lanes, w: World, o: Opening, asset: AssetId, s: Hft, chain: Chain, contract: Endpoint,
                 to: Address, claim: nat, cause: Cause)
    requires Consistent(lanes, w) && Balanced(s, asset, o) && Covered(s, asset, o) && o.supply <= MAX_BALANCE
    requires s.tables == w.s.tables && s.tokens == w.s.tokens && s.log == w.s.log
    requires AssetAt(s, chain, contract) == Some(asset) && (chain, asset) in lanes
    requires claim <= Owed(lanes, w, (chain, asset))
    ensures Credit(s, chain, contract, to, claim, cause).error.None? <==> Admissible(s, asset, chain, to, claim)
  {
    hide ConvertToBalance, GiveBack, Owed, Balanced, Covered, Receivable, Backed, SentOver, WithinSent;
    if HftAccount(to).Some? && (asset, chain) in s.tables.precisions {
      var decimals := s.tables.precisions[(asset, chain)];
      assert lanes[(chain, asset)].decimals == decimals && lanes[(chain, asset)].local == DecimalsOf(s, asset);
      var amount := ConvertToBalance(claim, decimals, DecimalsOf(s, asset));
      if amount.Some? {
        ClaimFits(lanes, w, (chain, asset), claim, amount.value);
        ReleaseIff(s, asset, o, HftAccount(to).value, amount.value, cause);
      }
    }
  }

  /** After any run, a request that a registered contract sent and that is still under way
      is delivered if and only if its calldata does not stop it and its claim is
      admissible, as long as custody covers what it owes. Want of value is no reason. */
  lemma LegitimateDeliveryIff(lanes: Lanes, w: World, moves: seq<Move>, asset: AssetId, post: PostRequest,
                              guarded: bool, callSucceeds: bool)
    requires Opens(lanes, w, asset)
    requires var now := RunWorld(lanes, w, moves);
      && post in now.sent && Post(post) !in now.s.host.receipts && post.body.Encoded?
      && AssetAt(now.s, post.source, post.from) == Some(asset) && Covered(now.s, asset, Opened(w.s, asset))
    ensures var s, m := RunWorld(lanes, w, moves).s, post.body.message;
      Execute(s, [Inbound(post, callSucceeds)], guarded).error.None? <==>
        && (m.data.Empty? || (!guarded && callSucceeds))
        && Admissible(s, asset, post.source, m.to, m.amount)
  {
    hide RunWorld, Opens, Balanced, Opened, Covered, Consistent, Credit, Execute, Admissible, Owed;
    OpensBalanced(lanes, w, asset);
    WorldBalanced(lanes, w, asset, moves);
    HftTwoChainSafety(lanes, w, moves) by { Began(lanes, w, asset); }
    var now, m, o := RunWorld(lanes, w, moves), post.body.message, Opened(w.s, asset);
    var s := Receipted(now.s, post);
    OnItsLane(lanes, now, post.source, post.from, asset);
    assert Back(lanes, post, (post.source, asset));
    InFlightIsOwed(lanes, now, post, (post.source, asset));
    DeliverySucceedsIff(now.s, post, guarded, callSucceeds);
    ReceiptBalanced(now.s, asset, o, post);
    ClaimIff(lanes, now, o, asset, s, post.source, post.from, m.to, m.amount, Delivered(post));
    SameAdmissible(now.s, s, asset, post.source, m.to, m.amount);
  }

  lemma Began(lanes: Lanes, w: World, asset: AssetId)
    requires Opens(lanes, w, asset)
    ensures NewWorld(lanes, w) && Distinct(lanes)
  {
  }

  lemma OnItsLane(lanes: Lanes, w: World, chain: Chain, contract: Endpoint, asset: AssetId)
    requires Consistent(lanes, w) && AssetAt(w.s, chain, contract) == Some(asset)
    ensures (chain, asset) in lanes && contract == RawBytes(lanes[(chain, asset)].contract)
  {
    hide DecimalsOf, SentOver, Backed, WithinSent;
    assert (chain, contract.bytes) in w.s.tables.assets;
  }

  lemma ReceiptBalanced(s: Hft, asset: AssetId, o: Opening, post: PostRequest)
    requires Balanced(s, asset, o) && Covered(s, asset, o)
    ensures Balanced(Receipted(s, post), asset, o) && Covered(Receipted(s, post), asset, o)
  {
    hide Total, Bank.Valid, Token.Valid;
  }

  /** Records and receipts do not matter for whether a claim is admissible. */
  lemma SameAdmissible(s: Hft, s1: Hft, asset: AssetId, chain: Chain, to: Address, claim: nat)
    requires s1 == s.(host := s1.host)
    ensures Admissible(s1, asset, chain, to, claim) <==> Admissible(s, asset, chain, to, claim)
  {
    hide ConvertToBalance;
  }

  /** After any run, the timeout of a request that is outstanding and undelivered gives its
      sender back exactly what was sent, if and only if the lane is still registered, its
      scale is not zero and the sender can receive it, as long as custody covers what it
      owes. */
  lemma UndeliveredRefundIff(lanes: Lanes, w: World, moves: seq<Move>, k: Commitment, lane: LaneId, amount: nat)
    requires Opens(lanes, w, lane.1)
    requires var now := RunWorld(lanes, w, moves);
      && k in now.s.host.requests && k !in now.delivered && SentOver(lanes, k, lane, amount)
      && Covered(now.s, lane.1, Opened(w.s, lane.1))
    ensures var s, who := RunWorld(lanes, w, moves).s, k.post.body.message.from.account;
      && (OnTimeout(s, k).error.None? <==>
            && AssetAt(s, k.post.dest, k.post.to).Some? && (lane.1, lane.0) in s.tables.precisions
            && Unit(lanes, lane) > 0 && Receivable(s, lane.1, who, amount))
      && (OnTimeout(s, k).error.None? ==>
            GiveBack(s, lane.1, who, amount, TimedOut(k)) == Some(OnTimeout(s, k).state))
  {
    hide RunWorld, Opens, Balanced, Opened, Covered, Consistent, GiveBack, Receivable, Owed, ScaleFactor,
        ConvertToBalance;
    OpensBalanced(lanes, w, lane.1);
    WorldBalanced(lanes, w, lane.1, moves);
    HftTwoChainSafety(lanes, w, moves) by { Began(lanes, w, lane.1); }
    Began(lanes, w, lane.1);
    var now, m := RunWorld(lanes, w, moves), k.post.body.message;
    if AssetAt(now.s, k.post.dest, k.post.to).Some? {
      var asset := AssetAt(now.s, k.post.dest, k.post.to).value;
      OnItsLane(lanes, now, k.post.dest, k.post.to, asset);
      OneLane(lanes, k, (k.post.dest, asset), lane);
      OutstandingIsOwed(lanes, now, k, lane);
      ClaimIff(lanes, now, Opened(w.s, lane.1), lane.1, now.s, lane.0, k.post.to, m.from, m.amount, TimedOut(k));
      SentComesBack(lanes, now, lane, amount);
    }
  }

  lemma SentComesBack(lanes: Lanes, w: World, lane: LaneId, amount: nat)
    requires Consistent(lanes, w) && lane in lanes && amount <= MAX_BALANCE
    ensures (lane.1, lane.0) in w.s.tables.precisions ==>
      ConvertToBalance(amount * Unit(lanes, lane), w.s.tables.precisions[(lane.1, lane.0)], DecimalsOf(w.s, lane.1))
      == if Unit(lanes, lane) > 0 then Some(amount) else None
  {
    hide ConvertToBalance, ScaleFactor, SentOver, Backed, WithinSent, DecimalsOf;
    RoundTrip(amount, lanes[lane].decimals, lanes[lane].local);
    ScaleFactorZeroIff(lanes[lane].decimals, lanes[lane].local);
  }
}
