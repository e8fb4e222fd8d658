/** A run in which a lane is registered again with one decimal less between two transfers
    and their timeouts. */
module BridgeRescale {
  import opened Sums
  import opened Balances
  import opened Messages
  import opened Precision
  import opened IsmpHost
  import opened BridgeState
  import opened BridgeLaws
  import opened BridgeTrace
  import opened BridgeRefunds
  import opened BridgeExamples

  const CONTRACT: nat := 9

  function Wider(cfg: Config): ChainConfig { ChainConfig(CONTRACT, cfg.nativeDecimals + 1) }

  /** A chain at genesis with two funded senders and limits that let them send. */
  function TwoSenders(cfg: Config, m: nat): Storage {
    var held := map[User(1) := m + EXISTENTIAL_DEPOSIT, User(2) := 9 * m + EXISTENTIAL_DEPOSIT];
    Storage(Bank(held, map[], map[], 10 * m + 2 * EXISTENTIAL_DEPOSIT, 0), HostState(0, map[], {}, map[], 0, map[]),
            0, map[], false, {}, 0, 0, 10 * m, 10 * m, map[], map[], 0, map[], 0, 0, [])
  }

  function First(cfg: Config, m: nat): Commitment { SentAs(cfg, Wider(cfg), 0, User(1), LANE, 7, m, WIRE) }
  function Second(cfg: Config, m: nat): Commitment { SentAs(cfg, Wider(cfg), 1, User(2), LANE, 7, 9 * m, WIRE) }

  /** One sender bridges m and another 9m; the lane loses a decimal; the first times out. */
  function RescalingOps(cfg: Config, m: nat, h: Handler): seq<Op> {
    [RegisterOp(LANE, CONTRACT, cfg.nativeDecimals + 1), Spend(User(1), m), Spend(User(2), 9 * m),
     RegisterOp(LANE, CONTRACT, cfg.nativeDecimals), TimeoutOp(First(cfg, m), h)]
  }

  lemma SendersAreGenesis(cfg: Config, m: nat)
    requires 10 * m + 2 * EXISTENTIAL_DEPOSIT <= MAX_BALANCE
    ensures var s := TwoSenders(cfg, m); Genesis(s) && s.bank.Valid() && Supply(s) <= MAX_BALANCE && Plain(s)
  {
    var nothing: map<AccountId, nat> := map[];
    var one := nothing[User(1) := m + EXISTENTIAL_DEPOSIT];
    SumWrite(nothing, User(1), m + EXISTENTIAL_DEPOSIT);
    SumWrite(one, User(2), 9 * m + EXISTENTIAL_DEPOSIT);
    assert TwoSenders(cfg, m).bank.free == one[User(2) := 9 * m + EXISTENTIAL_DEPOSIT];
  }

  /** The storage when the first timeout arrives. */
  ghost predicate Rescaled(cfg: Config, s: Storage, m: nat) {
    && s.bank.Valid() && s.bank.issuance + 10 * m <= MAX_BALANCE && s.bank.Free(User(1)) == EXISTENTIAL_DEPOSIT
    && LANE in s.chains && s.chains[LANE] == ChainConfig(CONTRACT, cfg.nativeDecimals)
    && s.bridgedOut == 10 * m && At(s.byChain, LANE) == 10 * m && s.payoutRefunds == map[]
    && s.now == 0 && First(cfg, m) in s.host.requests && s.host.requests[First(cfg, m)] == FeeMetadata(User(1), 0)
    && Second(cfg, m) in s.host.requests && Second(cfg, m) != First(cfg, m)
  }

  function Registered(cfg: Config, m: nat): Storage { TwoSenders(cfg, m).(chains := map[LANE := Wider(cfg)]) }

  /** The first transfer, on the wider lane. */
  lemma FirstSpends(cfg: Config, m: nat) returns (s2: Storage)
    requires cfg.Sound() && cfg.minAmount <= m && 90 * m + 2 * EXISTENTIAL_DEPOSIT <= MAX_BALANCE
    ensures s2 == Step(cfg, Registered(cfg, m), Spend(User(1), m)) && s2.bank.Valid() && Plain(s2)
    ensures s2.bank.Free(User(1)) == EXISTENTIAL_DEPOSIT && s2.bank.Free(User(2)) == 9 * m + EXISTENTIAL_DEPOSIT
    ensures s2.bridgedOut == m && At(s2.byChain, LANE) == m && Guard(cfg, s2, LANE, 9 * m).None?
    ensures s2.now == 0 && s2.payoutRefunds == map[] && s2.chains == map[LANE := Wider(cfg)] && s2.host.nonce == 1
    ensures s2.host.requests == map[][First(cfg, m) := FeeMetadata(User(1), 0)]
  {
    SendersAreGenesis(cfg, m);
    hide Step, Bank.Valid, Genesis, OutboundDraft;
    s2 := Spends(cfg, Registered(cfg, m), User(1), m);
  }

  /** Both transfers. */
  lemma BothSpend(cfg: Config, m: nat) returns (s3: Storage)
    requires cfg.Sound() && cfg.minAmount <= m && 90 * m + 2 * EXISTENTIAL_DEPOSIT <= MAX_BALANCE
    ensures s3 == Step(cfg, Step(cfg, Registered(cfg, m), Spend(User(1), m)), Spend(User(2), 9 * m))
    ensures s3.bank.Free(User(1)) == EXISTENTIAL_DEPOSIT && s3.bridgedOut == 10 * m && At(s3.byChain, LANE) == 10 * m
    ensures s3.now == 0 && s3.payoutRefunds == map[] && s3.chains == map[LANE := Wider(cfg)]
    ensures s3.host.requests == map[First(cfg, m) := FeeMetadata(User(1), 0), Second(cfg, m) := FeeMetadata(User(2), 0)]
    ensures First(cfg, m) != Second(cfg, m)
  {
    var s2 := FirstSpends(cfg, m);
    hide Step, Bank.Valid, OutboundDraft, Guard, Registered;
    s3 := Spends(cfg, s2, User(2), 9 * m);
    NoncesDiffer(cfg, m);
    hide SentAs;
    Requests(cfg, m, s2, s3);
  }

  lemma NoncesDiffer(cfg: Config, m: nat)
    ensures First(cfg, m) != Second(cfg, m)
  {
    assert NonceOf(First(cfg, m)) == 0 && NonceOf(Second(cfg, m)) == 1;
  }

  lemma Requests(cfg: Config, m: nat, s2: Storage, s3: Storage)
    requires s2.chains == map[LANE := Wider(cfg)]
    requires s2.host.requests == map[][First(cfg, m) := FeeMetadata(User(1), 0)]
    requires s3.host.requests == s2.host.requests[Second(cfg, m) := FeeMetadata(User(2), 0)]
    ensures s3.host.requests == map[First(cfg, m) := FeeMetadata(User(1), 0), Second(cfg, m) := FeeMetadata(User(2), 0)]
  {
    NoncesDiffer(cfg, m);
  }

  lemma RunRescales(cfg: Config, m: nat, h: Handler)
    requires cfg.Sound() && cfg.minAmount <= m && 90 * m + 2 * EXISTENTIAL_DEPOSIT <= MAX_BALANCE
    ensures Rescaled(cfg, Run(cfg, TwoSenders(cfg, m), RescalingOps(cfg, m, h)[..4]), m)
  {
    hide Outbound, Run, Bank.Valid, SentAs;
    var s, ops := TwoSenders(cfg, m), RescalingOps(cfg, m, h);
    SendersAreGenesis(cfg, m);
    RunOfFour(cfg, s, ops[..4]);
    assert Step(cfg, s, ops[0]) == Registered(cfg, m) by {
      assert RegisterChain(cfg, s, LANE, CONTRACT, cfg.nativeDecimals + 1) == Ok(Registered(cfg, m));
    }
    var s3 := BothSpend(cfg, m);
    Reregistered(cfg, s3);
    hide Step;
    ConservationLaw(cfg, s, ops[..4]);
  }

  lemma Reregistered(cfg: Config, s: Storage)
    ensures Step(cfg, s, RegisterOp(LANE, CONTRACT, cfg.nativeDecimals))
         == s.(chains := s.chains[LANE := ChainConfig(CONTRACT, cfg.nativeDecimals)])
  {
    assert RegisterChain(cfg, s, LANE, CONTRACT, cfg.nativeDecimals).Ok?;
  }

  lemma RunOfFour(cfg: Config, s: Storage, ops: seq<Op>)
    requires |ops| == 4
    ensures Run(cfg, s, ops) == Step(cfg, Step(cfg, Step(cfg, Step(cfg, s, ops[0]), ops[1]), ops[2]), ops[3])
  {
    hide Step;
    assert ops[..3][..2] == ops[..2] && ops[..2][..1] == ops[..1] && ops[..1][..0] == [];
    assert Run(cfg, s, ops[..1]) == Step(cfg, s, ops[0]);
    assert Run(cfg, s, ops[..2]) == Step(cfg, Run(cfg, s, ops[..1]), ops[1]);
    assert Run(cfg, s, ops[..3]) == Step(cfg, Run(cfg, s, ops[..2]), ops[2]);
  }

  /** The first timeout mints ten times what its sender burned, all that was booked. */
  lemma FirstTimeoutOvermints(cfg: Config, s: Storage, m: nat, h: Handler)
    requires cfg.Sound() && cfg.minAmount <= m && 90 * m <= MAX_BALANCE && Rescaled(cfg, s, m)
    ensures var r := HandleTimeout(cfg, s, First(cfg, m), h);
      && r.Ok? && r.value.bank.Free(User(1)) == EXISTENTIAL_DEPOSIT + 10 * m
      && r.value.events == s.events + [Minted(s.now, LANE, User(1), 10 * m)]
      && r.value.bridgedOut == 0 && At(r.value.byChain, LANE) == 0
      && r.value.chains == s.chains && r.value.host.requests == s.host.requests - {First(cfg, m)}
  {
    hide OnTimeout, Bank.DepositCreating, Bank.Valid, Redecoded, SentAs;
    var k := First(cfg, m);
    var forgotten := s.(host := s.host.(requests := s.host.requests - {k}));
    TimeoutUnderNewDecimals(cfg, forgotten, Wider(cfg), 0, User(1), LANE, 7, m, WIRE, h);
    RedecodedIff(cfg, m, cfg.nativeDecimals + 1, cfg.nativeDecimals);
    OneDigit();
    DepositMints(s.bank, User(1), 10 * m);
  }

  lemma OneDigit()
    ensures Pow10(1) == 10
  {
  }

  /** Lowered decimals do over-mint, and it is another sender who pays: of two who bridged
      m and 9m, the first gets 10m back, and the second can get nothing any more, whatever
      its handler does. */
  lemma LoweredDecimalsStrandAnother(cfg: Config, m: nat, h: Handler)
    requires cfg.Sound() && cfg.minAmount <= m && 90 * m + 2 * EXISTENTIAL_DEPOSIT <= MAX_BALANCE
    ensures var s := TwoSenders(cfg, m);
      var r := Run(cfg, s, RescalingOps(cfg, m, h));
      && Genesis(s) && s.bank.Valid() && Supply(s) <= MAX_BALANCE
      && r.bank.Free(User(1)) == s.bank.Free(User(1)) + 9 * m
      && Minted(s.now, LANE, User(1), 10 * m) in r.events
      && Second(cfg, m) in r.host.requests
      && forall h' :: HandleTimeout(cfg, r, Second(cfg, m), h') == Err(InvariantViolation)
  {
    hide Step, Bank.Valid, SentAs, HandleTimeout, Rescaled, Genesis;
    var s, ops := TwoSenders(cfg, m), RescalingOps(cfg, m, h);
    SendersAreGenesis(cfg, m);
    RunRescales(cfg, m, h);
    var before, r := Run(cfg, s, ops[..4]), Run(cfg, s, ops);
    LastStep(cfg, before, m, h);
    assert r == Step(cfg, before, ops[4]);
    FirstTimeoutOvermints(cfg, before, m, h);
    SecondIsOther(cfg, before, m);
    assert before.events + [Minted(before.now, LANE, User(1), 10 * m)] == r.events;
    forall h' ensures HandleTimeout(cfg, r, Second(cfg, m), h') == Err(InvariantViolation) {
      NothingIsBooked(cfg, r, m, h');
    }
  }

  lemma LastStep(cfg: Config, before: Storage, m: nat, h: Handler)
    ensures HandleTimeout(cfg, before, First(cfg, m), h).Ok? ==>
      Step(cfg, before, TimeoutOp(First(cfg, m), h)) == HandleTimeout(cfg, before, First(cfg, m), h).value
  {
    hide HandleTimeout;
  }

  lemma SecondIsOther(cfg: Config, s: Storage, m: nat)
    requires Rescaled(cfg, s, m)
    ensures Second(cfg, m) in s.host.requests - {First(cfg, m)} && s.now == 0
    ensures LANE in s.chains && s.chains[LANE] == ChainConfig(CONTRACT, cfg.nativeDecimals)
  {
  }

  lemma NothingIsBooked(cfg: Config, r: Storage, m: nat, h: Handler)
    requires cfg.minAmount <= m && 0 < m && 90 * m <= MAX_BALANCE && Second(cfg, m) in r.host.requests
    requires LANE in r.chains && r.chains[LANE] == ChainConfig(CONTRACT, cfg.nativeDecimals) && r.bridgedOut == 0
    ensures HandleTimeout(cfg, r, Second(cfg, m), h) == Err(InvariantViolation)
  {
    hide OnTimeout, SentAs, Redecoded;
    var k := Second(cfg, m);
    var forgotten := r.(host := r.host.(requests := r.host.requests - {k}));
    TimeoutUnderNewDecimals(cfg, forgotten, Wider(cfg), 1, User(2), LANE, 7, 9 * m, WIRE, h);
    RedecodedIff(cfg, 9 * m, cfg.nativeDecimals + 1, cfg.nativeDecimals);
    OneDigit();
  }
}
