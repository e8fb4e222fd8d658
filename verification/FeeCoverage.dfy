/** Whether the fee account can pay what its records promise: the sum of all outstanding
    relayer fees against its balance, after each operation and over whole runs. */
module FeeCoverage {
  import opened Sums
  import opened Balances
  import opened Messages
  import opened Precision
  import opened IsmpHost
  import opened FeeEscrow

  function Fees(requests: map<Commitment, FeeMetadata>): map<Commitment, nat> {
    map k | k in requests :: requests[k].fee
  }

  /** What all outstanding records together would be refunded. */
  ghost function Outstanding(h: HostState): nat { SumOf(Fees(h.requests)) }

  ghost predicate Covered(e: Escrow) { Outstanding(e.host) <= e.bank.Free(RelayerFees) }

  lemma RecordWritten(h: HostState, h': HostState, k: Commitment, meta: FeeMetadata)
    requires h'.requests == h.requests[k := meta]
    ensures Outstanding(h') == Outstanding(h) - (if k in h.requests then h.requests[k].fee else 0) + meta.fee
  {
    assert Fees(h'.requests) == Fees(h.requests)[k := meta.fee];
    SumWrite(Fees(h.requests), k, meta.fee);
  }

  lemma RecordGone(h: HostState, h': HostState, k: Commitment)
    requires k in h.requests && h'.requests == h.requests - {k}
    ensures Outstanding(h') + h.requests[k].fee == Outstanding(h)
  {
    assert Fees(h'.requests) == Fees(h.requests) - {k};
    SumWithout(Fees(h.requests), k);
  }

  // ------------------------------------------------------------------- one operation

  /** What a top-up loses to the 128-bit sum of the record. */
  function WrappedBy(e: Escrow, op: Op): nat {
    if op.FundOp? && Fund(e.host, e.bank, op.who, op.k, op.amount).Some? then
      WrapLoses(e.host.requests[op.k].fee + op.amount);
      e.host.requests[op.k].fee + op.amount - Wrap128(e.host.requests[op.k].fee + op.amount)
    else 0
  }

  lemma {:induction false} WrapLoses(n: nat)
    ensures Wrap128(n) <= n
  {
    if n >= U128 { WrapLoses(n - U128); }
  }

  /** No top-up of a covered escrow wraps: the record is part of what is covered. */
  lemma CoveredNeverWraps(e: Escrow, op: Op)
    requires Covered(e) && op.WellFormed() && e.bank.Free(RelayerFees) <= MAX_BALANCE
    ensures WrappedBy(e, op) == 0
  {
    if op.FundOp? && Fund(e.host, e.bank, op.who, op.k, op.amount).Some? {
      SumWrite(Fees(e.host.requests), op.k, 0);
      PaymentFits(e.bank, op.who, op.amount);
    }
  }

  lemma PaymentFits(b: Bank, who: AccountId, amount: nat)
    requires b.PayFee(who, RelayerFees, amount).Some?
    requires who != RelayerFees && b.Free(RelayerFees) <= MAX_BALANCE
    ensures b.Free(RelayerFees) + amount <= MAX_BALANCE
  {
  }

  /** What an operation moves out of the fee account without a record to show for it:
      a withdrawal, and the remainder any payout leaves to be reaped. */
  function Drained(e: Escrow, op: Op): nat {
    match op
    case TimeoutOp(k) =>
      if TimeOut(e.host, e.bank, k).Some? then DustAfter(e.bank, e.host.requests[k].fee) else 0
    case WithdrawOp(to, amount) =>
      if e.bank.PayFee(RelayerFees, to, amount).Some? then amount + DustAfter(e.bank, amount) else 0
    case _ => 0
  }

  /** What an operation brings in beyond its record: the protocol fee. */
  function Earned(e: Escrow, op: Op): nat {
    if op.DispatchOp? && Dispatch(e.host, e.bank, op.draft, op.meta).Some? then ProtocolFee(e.host, op.draft) else 0
  }

  ghost predicate PayersAreOthers(h: HostState) {
    forall k :: k in h.requests ==> h.requests[k].payer != RelayerFees
  }

  /** The balance beyond the records changes by exactly what is earned, wrapped or drained. */
  lemma SurplusMoves(e: Escrow, op: Op)
    requires op.WellFormed() && PayersAreOthers(e.host)
    ensures var e' := Step(e, op);
      && PayersAreOthers(e'.host)
      && e'.bank.Free(RelayerFees) - Outstanding(e'.host) ==
           e.bank.Free(RelayerFees) - Outstanding(e.host) + Earned(e, op) + WrappedBy(e, op) - Drained(e, op)
  {
    hide Bank.PayFee, ProtocolFee, DustAfter;
    var e' := Step(e, op);
    match op {
      case DispatchOp(draft, meta) =>
        if Dispatch(e.host, e.bank, draft, meta).Some? {
          var k := Dispatch(e.host, e.bank, draft, meta).value.commitment;
          DispatchMoves(e.host, e.bank, draft, meta);
          RecordWritten(e.host, e'.host, k, meta);
        }
      case FundOp(who, k, amount) =>
        if Fund(e.host, e.bank, who, k, amount).Some? {
          PayInMovesExactly(e.bank, who, amount);
          RecordWritten(e.host, e'.host, k, e'.host.requests[k]);
        }
      case TimeoutOp(k) =>
        if TimeOut(e.host, e.bank, k).Some? {
          var meta := e.host.requests[k];
          RecordGone(e.host, e'.host, k);
          if meta.fee > 0 { PayOutMovesExactly(e.bank, meta.payer, meta.fee); } else { NoDust(e.bank); }
        }
      case WithdrawOp(to, amount) =>
        if e.bank.PayFee(RelayerFees, to, amount).Some? { PayOutMovesExactly(e.bank, to, amount); }
    }
  }

  lemma NoDust(b: Bank)
    ensures DustAfter(b, 0) == 0
  {
  }

  /** A covered escrow stays covered if and only if the operation drains no more than the
      balance has beyond the records: dispatches and top-ups always keep it covered. */
  lemma StaysCoveredIff(e: Escrow, op: Op)
    requires op.WellFormed() && PayersAreOthers(e.host) && Covered(e) && e.bank.Free(RelayerFees) <= MAX_BALANCE
    ensures Covered(Step(e, op)) <==> Outstanding(e.host) + Drained(e, op) <= e.bank.Free(RelayerFees) + Earned(e, op)
    ensures op.DispatchOp? || op.FundOp? ==> Covered(Step(e, op))
  {
    hide Step, Outstanding;
    SurplusMoves(e, op);
    CoveredNeverWraps(e, op);
  }

  /** A refund keeps every other record payable if and only if what it leaves in the fee
      account, reaped or not, still covers them. */
  lemma RefundKeepsCoverIff(e: Escrow, k: Commitment)
    requires PayersAreOthers(e.host) && Covered(e) && e.bank.Free(RelayerFees) <= MAX_BALANCE
    requires TimeOut(e.host, e.bank, k).Some?
    ensures Covered(Step(e, TimeoutOp(k))) <==>
      Outstanding(e.host) <= e.bank.Free(RelayerFees) - DustAfter(e.bank, e.host.requests[k].fee)
  {
    StaysCoveredIff(e, TimeoutOp(k));
  }

  // --------------------------------------------------------------------- whole runs

  function EarnedOver(e: Escrow, ops: seq<Op>): nat {
    if ops == [] then 0
    else EarnedOver(e, ops[..|ops| - 1]) + Earned(Run(e, ops[..|ops| - 1]), ops[|ops| - 1])
  }

  function WrappedOver(e: Escrow, ops: seq<Op>): nat {
    if ops == [] then 0
    else WrappedOver(e, ops[..|ops| - 1]) + WrappedBy(Run(e, ops[..|ops| - 1]), ops[|ops| - 1])
  }

  function DrainedOver(e: Escrow, ops: seq<Op>): nat {
    if ops == [] then 0
    else DrainedOver(e, ops[..|ops| - 1]) + Drained(Run(e, ops[..|ops| - 1]), ops[|ops| - 1])
  }

  lemma {:induction false} SurplusOverRuns(e: Escrow, ops: seq<Op>)
    requires PayersAreOthers(e.host) && forall op :: op in ops ==> op.WellFormed()
    ensures var r := Run(e, ops);
      && PayersAreOthers(r.host)
      && r.bank.Free(RelayerFees) - Outstanding(r.host) ==
           e.bank.Free(RelayerFees) - Outstanding(e.host) + EarnedOver(e, ops)
               + WrappedOver(e, ops) - DrainedOver(e, ops)
  {
    hide Step, Outstanding, Earned, Drained, WrappedBy, PayersAreOthers;
    if ops != [] {
      SurplusOverRuns(e, ops[..|ops| - 1]);
      SurplusMoves(Run(e, ops[..|ops| - 1]), ops[|ops| - 1]);
    }
  }

  /** Over every run from an empty escrow, the records are covered if and only if what was
      withdrawn and reaped does not exceed the opening balance and the protocol fees (and
      what top-ups of an uncovered escrow may have lost to the 128-bit sum). */
  lemma CoverageLaw(h: HostState, b: Bank, ops: seq<Op>)
    requires h.requests == map[] && forall op :: op in ops ==> op.WellFormed()
    ensures var start := Escrow(h, b, []);
      Covered(Run(start, ops)) <==>
        DrainedOver(start, ops) <= b.Free(RelayerFees) + EarnedOver(start, ops) + WrappedOver(start, ops)
  {
    var start := Escrow(h, b, []);
    assert Fees(h.requests) == map[];
    hide Run;
    SurplusOverRuns(start, ops);
  }

  // -------------------------------------------------------- a run that loses coverage

  const FIRST: Commitment := Get(0, 1)
  const SECOND: Commitment := Get(1, 2)

  /** Two senders with funds, and a fee account with none. */
  function TwoSenders(): Escrow {
    var held := map[User(1) := 3 * EXISTENTIAL_DEPOSIT, User(2) := 3 * EXISTENTIAL_DEPOSIT];
    Escrow(HostState(0, map[], {}, map[], 0, map[]), Bank(held, map[], map[], 6 * EXISTENTIAL_DEPOSIT, 0), [])
  }

  /** Two requests go out with relayer fees, and the first one times out. */
  function StrandingOps(): seq<Op> {
    [DispatchOp(DraftGet(1), FeeMetadata(User(1), EXISTENTIAL_DEPOSIT)),
     DispatchOp(DraftGet(2), FeeMetadata(User(2), 5)),
     TimeoutOp(FIRST)]
  }

  lemma RunUnfolds(e: Escrow, ops: seq<Op>)
    requires |ops| == 3
    ensures Run(e, ops[..2]) == Step(Step(e, ops[0]), ops[1])
    ensures Run(e, ops) == Step(Step(Step(e, ops[0]), ops[1]), ops[2])
  {
    hide Step;
    assert ops[..2][..1] == ops[..1] && ops[..1][..0] == [];
    assert Run(e, ops[..1]) == Step(e, ops[0]);
  }

  /** A request without a protocol fee, from a sender who can spare its relayer fee. */
  lemma GetEscrowed(e: Escrow, who: AccountId, tag: nat, fee: nat)
    requires who.User? && e.bank.reserved == map[] && e.bank.frozen == map[] && 0 < fee
    requires e.bank.Free(who) - fee >= EXISTENTIAL_DEPOSIT && e.bank.CanDeposit(RelayerFees, fee)
    requires Get(e.host.nonce, tag) !in e.host.requests && e.host.nonce < MAX_U64
    ensures var e', k := Step(e, DispatchOp(DraftGet(tag), FeeMetadata(who, fee))), Get(e.host.nonce, tag);
      && e'.host.requests == e.host.requests[k := FeeMetadata(who, fee)] && e'.host.nonce == e.host.nonce + 1
      && e'.bank == e.bank.(free := e.bank.free[who := e.bank.Free(who) - fee]
                                               [RelayerFees := e.bank.Free(RelayerFees) + fee])
  {
  }

  /** A run of the escrow after which a record, covered until the last refund, can no
      longer be refunded: the remainder of that refund was reaped. */
  lemma RefundCanStrandAnother()
    ensures var covered, r := Run(TwoSenders(), StrandingOps()[..2]), Run(TwoSenders(), StrandingOps());
      && Covered(covered) && TimeOut(covered.host, covered.bank, SECOND).Some?
      && !Covered(r) && SECOND in r.host.requests && TimeOut(r.host, r.bank, SECOND) == None
  {
    var ops, e := StrandingOps(), TwoSenders();
    hide Run;
    RunUnfolds(e, ops);
    var e1 := Step(e, ops[0]);
    GetEscrowed(e, User(1), 1, EXISTENTIAL_DEPOSIT);
    RecordWritten(e.host, e1.host, FIRST, FeeMetadata(User(1), EXISTENTIAL_DEPOSIT));
    var e2 := Step(e1, ops[1]);
    GetEscrowed(e1, User(2), 2, 5);
    RecordWritten(e1.host, e2.host, SECOND, FeeMetadata(User(2), 5));
    assert Fees(e.host.requests) == map[];
    hide Dispatch, Outstanding;
    Stranded(e2);
    RecordGone(e2.host, Step(e2, TimeoutOp(FIRST)).host, FIRST);
  }

  lemma Stranded(e: Escrow)
    requires FIRST in e.host.requests && e.host.requests[FIRST] == FeeMetadata(User(1), EXISTENTIAL_DEPOSIT)
    requires SECOND in e.host.requests && e.host.requests[SECOND] == FeeMetadata(User(2), 5)
    requires e.bank.reserved == map[] && e.bank.frozen == map[] && e.bank.Free(Treasury) == 0
    requires e.bank.Free(RelayerFees) == EXISTENTIAL_DEPOSIT + 5
    requires EXISTENTIAL_DEPOSIT <= e.bank.Free(User(1)) <= MAX_BALANCE - EXISTENTIAL_DEPOSIT
    requires EXISTENTIAL_DEPOSIT <= e.bank.Free(User(2)) <= MAX_BALANCE - 5
    ensures TimeOut(e.host, e.bank, SECOND).Some?
    ensures var r := Step(e, TimeoutOp(FIRST));
      && r.host.requests == e.host.requests - {FIRST} && r.bank.Free(RelayerFees) == 0
      && TimeOut(r.host, r.bank, SECOND) == None
  {
  }
}
