/** Runs in which a release sweeps from custody what another holder is owed: of a token no
    account may hold less than d of, d + r units are sent, and d come back first. */
module HftStranded {
  import opened Sums
  import opened Balances
  import opened Messages
  import opened Precision
  import opened IsmpHost
  import opened HftRegistry
  import opened HftTransfers
  import opened HftLaws
  import opened HftDelivery
  import opened HftTwoChain
  import opened HftClaims

  const FAR: H160 := [1, 0, 0, 0, 0, 0, 0, 0, 0, 0, 0, 0, 0, 0, 0, 0, 0, 0, 0, 0]

  const LANE: LaneId := (Evm(1), 7)

  const ONE_LANE: Lanes := map[LANE := Track(FAR, 6, 6)]

  const ROWS: Tables := Tables(map[LANE := FAR], map[(Evm(1), FAR) := 7], map[7 := true], map[(7, Evm(1)) := 6])

  function HeldAtFirst(d: nat): map<AccountId, nat> { map[User(1) := 4 * d] }

  function HeldBy(d: nat, custody: nat, sender: nat): map<AccountId, nat> {
    HeldAtFirst(d)[User(1) := sender][HftCustody := custody]
  }

  function Locked(d: nat, held: map<AccountId, nat>): map<AssetId, Token> { map[7 := Token(6, d, 4 * d, held)] }

  /** One holder of 4d units, no fees. */
  function Begin(d: nat): Hft {
    Hft(ROWS, Locked(d, HeldAtFirst(d)), Bank(map[], map[], map[], 0, 0), HostState(0, map[], {}, map[], 0, map[]), [])
  }

  function All(d: nat, r: nat): SendParams { SendParams(7, Evm(1), Bytes20(9), d + r, 0, 0, Empty, 160) }

  function Out(d: nat, r: nat): Commitment {
    Post(PostRequest(HOST_CHAIN, Evm(1), 0, HFT_MODULE, RawBytes(FAR), 0,
                     Encoded(Message(Bytes32(User(1)), Bytes20(9), d + r, Empty))))
  }

  function Home(nonce: nat, to: AccountId, amount: nat): PostRequest {
    PostRequest(Evm(1), HOST_CHAIN, nonce, RawBytes(FAR), HFT_MODULE, 0,
                Encoded(Message(Bytes20(9), Bytes32(to), amount, Empty)))
  }

  function Main(d: nat): PostRequest { Home(0, User(2), d) }
  function Rest(r: nat): PostRequest { Home(1, User(1), r) }

  function AfterSend(d: nat, r: nat): Hft
    requires r <= d
  {
    Begin(d).(tokens := Locked(d, HeldBy(d, d + r, 3 * d - r)),
              host := HostState(1, map[Out(d, r) := FeeMetadata(User(1), 0)], {}, map[Out(d, r) := 0], 0, map[]),
              log := [Left(7, User(1), Evm(1), d + r, 0)])
  }

  function AfterRelease(d: nat, r: nat): Hft
    requires r <= d
  {
    var s := AfterSend(d, r);
    s.(tokens := Locked(d, HeldBy(d, 0, 3 * d - r)[User(2) := d + r]),
       host := s.host.(receipts := {Post(Main(d))}),
       log := s.log + [Returned(7, User(2), d, d, r, Delivered(Main(d)))])
  }

  lemma ScaleOfOne()
    ensures ScaleFactor(6, 6) == 1
  {
    assert Pow10(0) == 1;
  }

  lemma SameScale()
    ensures ScaleFactor(6, 6) == 1 && forall x: nat :: x <= MAX_BALANCE ==> ConvertToBalance(x, 6, 6) == Some(x)
  {
    hide ConvertToBalance, ScaleFactor, Pow10;
    ScaleOfOne();
    forall x: nat | x <= MAX_BALANCE ensures ConvertToBalance(x, 6, 6) == Some(x) { RoundTrip(x, 6, 6); }
  }

  /** The remainder is something, and too little to be held alone. */
  predicate Sized(d: nat, r: nat) { 0 < r < d && 4 * d <= MAX_BALANCE }

  lemma SendsAll(d: nat, r: nat)
    requires Sized(d, r)
    ensures Send(Begin(d), User(1), All(d, r)) == (Attempt(AfterSend(d, r), None), Some(Out(d, r)))
  {
    SameScale();
    hide ScaleFactor;
    var s, s1, k := Begin(d), AfterSend(d, r), Out(d, r);
    assert s.tokens[7].Move(User(1), HftCustody, d + r) == Some(s1.tokens[7]);
    assert s.tokens[7 := s1.tokens[7]] == s1.tokens;
    assert s.log + [Left(7, User(1), Evm(1), d + r, 0)] == s1.log;
    assert TakeOut(s, 7, User(1), Evm(1), d + r) == Some(s.(tokens := s1.tokens, log := s1.log));
    hide TakeOut;
    PayNothing(s.bank, User(1));
    hide Bank.PayFee;
    var draft := SendDraft(s, User(1), All(d, r), FAR, 6);
    assert Numbered(draft, 0) == k;
    assert Dispatch(s.host, s.bank, draft, FeeMetadata(User(1), 0)) == Some(Dispatched(s1.host, s.bank, k)) by {
      assert s.host.requests[k := FeeMetadata(User(1), 0)] == s1.host.requests;
      assert s.host.payments[k := 0] == s1.host.payments;
    }
  }

  lemma ReleasesMain(d: nat, r: nat)
    requires Sized(d, r)
    ensures Execute(AfterSend(d, r), [Inbound(Main(d), true)], true) == Attempt(AfterRelease(d, r), None)
  {
    SameScale();
    hide ScaleFactor, ConvertToBalance;
    var s, s1 := Receipted(AfterSend(d, r), Main(d)), AfterRelease(d, r);
    assert s.host == s1.host;
    assert s.tokens[7].held[HftCustody := 0][User(2) := d + r] == s1.tokens[7].held;
    assert s.tokens[7].Move(HftCustody, User(2), d) == Some(s1.tokens[7]);
    assert s.tokens[7 := s1.tokens[7]] == s1.tokens;
    assert Release(s, 7, User(2), d) == (d, r);
    assert GiveBack(s, 7, User(2), d, Delivered(Main(d))) == Some(s1);
    hide GiveBack;
    assert BareAccept(s, Main(d)) == Attempt(s1, None);
    hide BareAccept;
    DeliverySucceedsIff(AfterSend(d, r), Main(d), true, true);
  }

  lemma RefusesRest(d: nat, r: nat)
    requires Sized(d, r)
    ensures Execute(AfterRelease(d, r), [Inbound(Rest(r), true)], true)
         == Attempt(AfterRelease(d, r), Some(InvalidMessage))
  {
    SameScale();
    hide ScaleFactor, ConvertToBalance;
    var s := Receipted(AfterRelease(d, r), Rest(r));
    assert s.tokens[7].Held(HftCustody) == 0;
    assert GiveBack(s, 7, User(1), r, Delivered(Rest(r))) == None;
    hide GiveBack;
    assert BareAccept(s, Rest(r)).error == Some(TransferFailed);
    hide BareAccept;
    DeliverySucceedsIff(AfterRelease(d, r), Rest(r), true, true);
    BatchIsAllOrNothing(AfterRelease(d, r), [Inbound(Rest(r), true)], true);
  }

  function Moves(d: nat, r: nat): seq<Move> {
    [Local(SendOp(User(1), All(d, r))), Arrive(Out(d, r), LANE), SendBack(Main(d), LANE), SendBack(Rest(r), LANE),
     Local(ExecuteOp([Inbound(Main(d), true)], true))]
  }

  function Start(d: nat): World { World(Begin(d), {}, map[], {}) }

  function After(d: nat, r: nat, moves: nat): World
    requires r <= d && 1 <= moves <= 5
  {
    if moves == 1 then World(AfterSend(d, r), {}, map[], {})
    else if moves == 2 then World(AfterSend(d, r), {Out(d, r)}, map[LANE := d + r], {})
    else if moves == 3 then World(AfterSend(d, r), {Out(d, r)}, map[LANE := r], {Main(d)})
    else World(if moves == 4 then AfterSend(d, r) else AfterRelease(d, r), {Out(d, r)}, map[LANE := 0],
               {Main(d), Rest(r)})
  }

  lemma LaneAgrees(d: nat)
    ensures Distinct(ONE_LANE) && Agrees(ONE_LANE, Begin(d))
  {
  }

  lemma RowsAreOneToOne()
    ensures OneToOne(ROWS)
  {
    assert FAR[0] == 1;
  }

  lemma NothingMovedYet(d: nat)
    ensures NewWorld(ONE_LANE, Start(d))
  {
    hide Agrees, Distinct;
    LaneAgrees(d);
  }

  lemma TokenAddsUp(d: nat)
    requires 4 * d <= MAX_BALANCE
    ensures 7 in Begin(d).tokens && Begin(d).tokens[7].Valid()
  {
    var none: map<AccountId, nat> := map[];
    SumWrite(none, User(1), 4 * d);
    assert none[User(1) := 4 * d] == HeldAtFirst(d);
  }

  lemma NoCurrency(d: nat)
    ensures var s := Begin(d); s.bank.Valid() && s.bank.issuance + s.bank.burnedDust == 0 && PayersOutside(s.host)
  {
  }

  lemma BeginsWell(d: nat)
    requires 4 * d <= MAX_BALANCE
    ensures Opens(ONE_LANE, Start(d), 7)
  {
    hide NewWorld, OneToOne, Token.Valid, Bank.Valid, PayersOutside;
    NothingMovedYet(d);
    NoCurrency(d);
    RowsAreOneToOne();
    TokenAddsUp(d);
  }

  lemma LocalMoves(d: nat, r: nat)
    requires Sized(d, r)
    ensures Next(ONE_LANE, Start(d), Moves(d, r)[0]) == After(d, r, 1)
    ensures Next(ONE_LANE, After(d, r, 4), Moves(d, r)[4]) == After(d, r, 5)
  {
    hide Send, Execute, Begin, AfterSend, AfterRelease;
    SendsAll(d, r);
    ReleasesMain(d, r);
  }

  lemma Arrives(d: nat, r: nat)
    requires Sized(d, r)
    ensures Next(ONE_LANE, After(d, r, 1), Moves(d, r)[1]) == After(d, r, 2)
  {
    hide Begin;
  }

  lemma ComesBack(d: nat, r: nat)
    requires Sized(d, r)
    ensures Next(ONE_LANE, After(d, r, 2), Moves(d, r)[2]) == After(d, r, 3)
    ensures Next(ONE_LANE, After(d, r, 3), Moves(d, r)[3]) == After(d, r, 4)
  {
    hide AfterSend;
    assert After(d, r, 2).supply[LANE := r] == After(d, r, 3).supply;
    assert After(d, r, 3).supply[LANE := 0] == After(d, r, 4).supply;
  }

  lemma RunOfFive(d: nat, r: nat)
    requires Sized(d, r)
    ensures RunWorld(ONE_LANE, Start(d), Moves(d, r)) == After(d, r, 5)
  {
    hide Next, After;
    LocalMoves(d, r);
    Arrives(d, r);
    ComesBack(d, r);
    var ms := Moves(d, r);
    assert ms[..4][..3] == ms[..3] && ms[..3][..2] == ms[..2] && ms[..2][..1] == ms[..1] && ms[..1][..0] == [];
    assert RunWorld(ONE_LANE, Start(d), ms[..1]) == After(d, r, 1);
    assert RunWorld(ONE_LANE, Start(d), ms[..2]) == After(d, r, 2);
    assert RunWorld(ONE_LANE, Start(d), ms[..3]) == After(d, r, 3);
    assert RunWorld(ONE_LANE, Start(d), ms[..4]) == After(d, r, 4);
  }

  /** Custody does not always cover what it owes: d + r units are locked and d come home,
      which sweeps the other r along to the same beneficiary. The request for those r is
      genuine, new and admissible, and still refused. */
  lemma SweptRemainderStrandsClaim(d: nat, r: nat)
    requires Sized(d, r)
    ensures RunWorld(ONE_LANE, Start(d), Moves(d, r)) == After(d, r, 5)
    ensures var now, post := After(d, r, 5), Rest(r);
      && 7 in now.s.tokens && now.s.tokens[7].Held(User(2)) == d + r && Custody(now.s, 7) == 0
      && post in now.sent && Post(post) !in now.s.host.receipts && AssetAt(now.s, post.source, post.from) == Some(7)
      && Admissible(now.s, 7, post.source, post.body.message.to, post.body.message.amount)
      && Execute(now.s, [Inbound(post, true)], true) == Attempt(now.s, Some(InvalidMessage))
      && !Covered(now.s, 7, Opened(Start(d).s, 7))
    ensures Opens(ONE_LANE, Start(d), 7)
  {
    hide Opens, Execute, RunWorld, Opened, Total, Admissible;
    BeginsWell(d);
    RunOfFive(d, r);
    RefusesRest(d, r);
    RestWasSwept(d, r);
    RestIsAdmissible(d, r);
  }

  lemma RestIsAdmissible(d: nat, r: nat)
    requires Sized(d, r)
    ensures Admissible(AfterRelease(d, r), 7, Evm(1), Bytes32(User(1)), r)
  {
    hide ConvertToBalance, ScaleFactor;
    SameScale();
    assert Receivable(AfterRelease(d, r), 7, User(1), r);
  }

  lemma RestWasSwept(d: nat, r: nat)
    requires Sized(d, r)
    ensures !Covered(AfterRelease(d, r), 7, Opened(Begin(d), 7))
  {
    var s, s1 := AfterSend(d, r), AfterRelease(d, r);
    TotalAppend([], s.log[0]);
    TotalAppend(s.log, s1.log[1]);
    assert [] + [s.log[0]] == s.log;
    assert s1.log == s.log + [s1.log[1]];
  }

  /** The native currency reaps instead: of ED + r in custody a release of the deposit ED
      leaves r, which nobody gets, and the next release, of those r, is refused. */
  lemma ReapedRemainderStrandsClaim(s: Hft, r: nat, to: AccountId, next: AccountId, cause: Cause, after: Cause)
    requires 0 < r < EXISTENTIAL_DEPOSIT && s.bank.Free(HftCustody) == EXISTENTIAL_DEPOSIT + r
    requires s.bank.Reserved(HftCustody) == 0 && s.bank.Frozen(HftCustody) == 0
    requires to != HftCustody && next != HftCustody && s.bank.CanDeposit(to, EXISTENTIAL_DEPOSIT)
    ensures var released := GiveBack(s, NATIVE_ID, to, EXISTENTIAL_DEPOSIT, cause);
      && released.Some? && released.value.bank.Free(HftCustody) == 0
      && (to != Treasury ==> released.value.bank.Free(to) == s.bank.Free(to) + EXISTENTIAL_DEPOSIT)
      && GiveBack(released.value, NATIVE_ID, next, r, after).None?
  {
    TransferTakes(s.bank, HftCustody, to, EXISTENTIAL_DEPOSIT, false);
  }
}
