/** The relayer fee escrow over whole runs: which commitments can exist, what each
    record is worth, what the fee account holds, and how often a record is refunded. */
module FeeEscrow {
  import opened Sums
  import opened Balances
  import opened Messages
  import opened Precision
  import opened IsmpHost

  /** What the escrow did, oldest first. `Reaped` is the remainder a payout left below
      the existential deposit, which the currency moves away from the fee account. */
  datatype Entry =
    | Paid(k: Commitment, protocol: nat, relayer: nat)
    | Topped(k: Commitment, amount: nat)
    | Refunded(k: Commitment, amount: nat)
    | Withdrawn(to: AccountId, amount: nat)
    | Reaped(dust: nat)
  {
    function Net(): int {
      match this
      case Paid(_, protocol, relayer) => protocol + relayer
      case Topped(_, amount) => amount
      case Refunded(_, amount) => 0 - amount
      case Withdrawn(_, amount) => 0 - amount
      case Reaped(dust) => 0 - dust
    }

    /** What this entry adds to the relayer fee recorded for `key`. */
    function FeeFor(key: Commitment): nat {
      match this
      case Paid(k, _, relayer) => if k == key then relayer else 0
      case Topped(k, amount) => if k == key then amount else 0
      case _ => 0
    }

    predicate Names(key: Commitment) {
      (Paid? || Topped? || Refunded?) && k == key
    }
  }

  datatype Op =
    | DispatchOp(draft: Draft, meta: FeeMetadata)
    | FundOp(who: AccountId, k: Commitment, amount: nat)
    | TimeoutOp(k: Commitment)
    | WithdrawOp(to: AccountId, amount: nat)
  {
    /** Fees are balances, and the escrow account itself neither signs nor collects. */
    predicate WellFormed() {
      match this
      case DispatchOp(_, meta) => meta.payer != RelayerFees && meta.fee <= MAX_BALANCE
      case FundOp(who, _, _) => who != RelayerFees
      case TimeoutOp(_) => true
      case WithdrawOp(to, _) => to != RelayerFees
    }
  }

  datatype Escrow = Escrow(host: HostState, bank: Bank, log: seq<Entry>)

  /** What is left behind, and moved away, when `amount` leaves the fee account. */
  function DustAfter(b: Bank, amount: nat): nat {
    var rest := SatSub(b.Free(RelayerFees), amount);
    if amount > 0 && rest < EXISTENTIAL_DEPOSIT && b.Reserved(RelayerFees) == 0 then rest else 0
  }

  function Outgoing(b: Bank, entry: Entry, amount: nat): seq<Entry> {
    [entry, Reaped(DustAfter(b, amount))]
  }

  /** One escrow operation; an operation that fails changes nothing. */
  function Step(e: Escrow, op: Op): Escrow {
    match op
    case DispatchOp(draft, meta) =>
      (match Dispatch(e.host, e.bank, draft, meta)
       case None => e
       case Some(d) => Escrow(d.host, d.bank, e.log + [Paid(d.commitment, ProtocolFee(e.host, draft), meta.fee)]))
    case FundOp(who, k, amount) =>
      (match Fund(e.host, e.bank, who, k, amount)
       case None => e
       case Some((h, b)) => Escrow(h, b, e.log + [Topped(k, amount)]))
    case TimeoutOp(k) =>
      (match TimeOut(e.host, e.bank, k)
       case None => e
       case Some((h, b)) =>
         var fee := e.host.requests[k].fee;
         Escrow(h, b, e.log + Outgoing(e.bank, Refunded(k, fee), fee)))
    case WithdrawOp(to, amount) =>
      (match e.bank.PayFee(RelayerFees, to, amount)
       case None => e
       case Some(b) => Escrow(e.host, b, e.log + Outgoing(e.bank, Withdrawn(to, amount), amount)))
  }

  function Run(e: Escrow, ops: seq<Op>): Escrow {
    if ops == [] then e else Step(Run(e, ops[..|ops| - 1]), ops[|ops| - 1])
  }

  function NetFlow(log: seq<Entry>): int {
    if log == [] then 0 else NetFlow(log[..|log| - 1]) + log[|log| - 1].Net()
  }

  function FeesFor(log: seq<Entry>, k: Commitment): nat {
    if log == [] then 0 else FeesFor(log[..|log| - 1], k) + log[|log| - 1].FeeFor(k)
  }

  lemma Appended(log: seq<Entry>, entry: Entry)
    ensures NetFlow(log + [entry]) == NetFlow(log) + entry.Net()
    ensures forall k :: FeesFor(log + [entry], k) == FeesFor(log, k) + entry.FeeFor(k)
  {
    assert (log + [entry])[..|log|] == log;
  }

  lemma AppendedTwo(log: seq<Entry>, first: Entry, second: Entry)
    ensures NetFlow(log + [first, second]) == NetFlow(log) + first.Net() + second.Net()
    ensures forall k :: FeesFor(log + [first, second], k) == FeesFor(log, k) + first.FeeFor(k) + second.FeeFor(k)
  {
    Appended(log, first);
    Appended(log + [first], second);
    assert log + [first, second] == log + [first] + [second];
  }

  lemma {:induction false} UnnamedHasNoFees(log: seq<Entry>, k: Commitment)
    requires forall entry :: entry in log ==> !entry.Names(k)
    ensures FeesFor(log, k) == 0
  {
    if log != [] {
      assert log[|log| - 1] in log;
      UnnamedHasNoFees(log[..|log| - 1], k);
    }
  }

  // ------------------------------------------------------------------ the invariant

  predicate SameKind(a: Entry, b: Entry) {
    (a.Paid? && b.Paid?) || (a.Refunded? && b.Refunded?)
  }

  /** No commitment is dispatched twice and none is refunded twice. */
  ghost predicate OncePerCommitment(log: seq<Entry>) {
    forall i, j :: 0 <= i < j < |log| && SameKind(log[i], log[j]) ==> log[i].k != log[j].k
  }

  ghost predicate NoncesUsed(h: HostState, log: seq<Entry>) {
    && (forall k :: k in h.requests ==> NonceOf(k) < h.nonce)
    && (forall entry, k :: entry in log && entry.Names(k) ==> NonceOf(k) < h.nonce)
  }

  /** Every outstanding record is worth its initial fee plus its top-ups, and is not
      yet refunded; modulo 2^128 because the sum is stored in a balance. */
  ghost predicate RecordsWorth(h: HostState, log: seq<Entry>) {
    forall k :: k in h.requests ==>
      && h.requests[k].fee == Wrap128(FeesFor(log, k))
      && h.requests[k].payer != RelayerFees
      && (forall entry :: entry in log && entry.Refunded? ==> entry.k != k)
  }

  ghost predicate Inv(e: Escrow, opening: nat) {
    && e.bank.Free(RelayerFees) == opening + NetFlow(e.log)
    && NoncesUsed(e.host, e.log)
    && RecordsWorth(e.host, e.log)
    && OncePerCommitment(e.log)
  }

  lemma OnceAppended(log: seq<Entry>, entry: Entry)
    requires OncePerCommitment(log)
    requires forall other :: other in log && SameKind(other, entry) ==> other.k != entry.k
    ensures OncePerCommitment(log + [entry])
  {
  }

  lemma {:induction false} WrapTwice(a: nat, b: nat)
    ensures Wrap128(Wrap128(a) + b) == Wrap128(a + b)
  {
    if a >= U128 { WrapTwice(a - U128, b); }
  }

  lemma PayInMovesExactly(b: Bank, payer: AccountId, amount: nat)
    requires payer != RelayerFees && b.PayFee(payer, RelayerFees, amount).Some?
    ensures b.PayFee(payer, RelayerFees, amount).value.Free(RelayerFees) == b.Free(RelayerFees) + amount
  {
  }

  lemma PayOutMovesExactly(b: Bank, to: AccountId, amount: nat)
    requires to != RelayerFees && b.PayFee(RelayerFees, to, amount).Some?
    ensures b.PayFee(RelayerFees, to, amount).value.Free(RelayerFees)
        == b.Free(RelayerFees) - amount - DustAfter(b, amount)
  {
  }

  /** A dispatch moves both fees into the fee account and records a commitment that was
      not outstanding, under the nonce it consumed. */
  lemma DispatchMoves(h: HostState, b: Bank, draft: Draft, meta: FeeMetadata)
    requires meta.payer != RelayerFees && Dispatch(h, b, draft, meta).Some?
    ensures var d := Dispatch(h, b, draft, meta).value;
      && d.bank.Free(RelayerFees) == b.Free(RelayerFees) + ProtocolFee(h, draft) + meta.fee
      && NonceOf(d.commitment) == h.nonce && d.commitment !in h.requests
      && d.host.requests == h.requests[d.commitment := meta] && d.host.nonce == NextNonce(h.nonce)
  {
    PayInMovesExactly(b, meta.payer, ProtocolFee(h, draft));
    PayInMovesExactly(b.PayFee(meta.payer, RelayerFees, ProtocolFee(h, draft)).value, meta.payer, meta.fee);
  }

  lemma FreshRecord(h: HostState, h': HostState, log: seq<Entry>, k: Commitment, meta: FeeMetadata, protocol: nat)
    requires NoncesUsed(h, log) && RecordsWorth(h, log) && OncePerCommitment(log)
    requires NonceOf(k) == h.nonce < h'.nonce && h'.requests == h.requests[k := meta]
    requires meta.payer != RelayerFees && meta.fee <= MAX_BALANCE
    ensures var log' := log + [Paid(k, protocol, meta.fee)];
      NoncesUsed(h', log') && RecordsWorth(h', log') && OncePerCommitment(log')
  {
    var entry := Paid(k, protocol, meta.fee);
    assert forall other :: other in log ==> !other.Names(k);
    Appended(log, entry);
    UnnamedHasNoFees(log, k);
    OnceAppended(log, entry);
    forall other, key | other in log + [entry] && other.Names(key) ensures NonceOf(key) < h'.nonce {
      assert other in log || other == entry;
    }
  }

  lemma DispatchKeepsInv(e: Escrow, opening: nat, draft: Draft, meta: FeeMetadata)
    requires Inv(e, opening) && DispatchOp(draft, meta).WellFormed() && e.host.nonce < MAX_U64
    ensures Inv(Step(e, DispatchOp(draft, meta)), opening)
  {
    hide Dispatch, ProtocolFee, NoncesUsed, RecordsWorth, OncePerCommitment;
    match Dispatch(e.host, e.bank, draft, meta) {
      case None =>
      case Some(d) =>
        DispatchMoves(e.host, e.bank, draft, meta);
        Appended(e.log, Paid(d.commitment, ProtocolFee(e.host, draft), meta.fee));
        FreshRecord(e.host, d.host, e.log, d.commitment, meta, ProtocolFee(e.host, draft));
    }
  }

  lemma FundedRecordsWorth(h: HostState, h': HostState, log: seq<Entry>, k: Commitment, amount: nat)
    requires RecordsWorth(h, log) && k in h.requests
    requires h'.requests == h.requests[k := h.requests[k].(fee := Wrap128(h.requests[k].fee + amount))]
    ensures RecordsWorth(h', log + [Topped(k, amount)])
  {
    hide FeesFor, NetFlow, Wrap128;
    Appended(log, Topped(k, amount));
    WrapTwice(FeesFor(log, k), amount);
    forall key | key in h'.requests && key != k
      ensures FeesFor(log + [Topped(k, amount)], key) == FeesFor(log, key)
    {
    }
  }

  lemma FundKeepsInv(e: Escrow, opening: nat, who: AccountId, k: Commitment, amount: nat)
    requires Inv(e, opening) && who != RelayerFees
    ensures Inv(Step(e, FundOp(who, k, amount)), opening)
  {
    hide Bank.PayFee, RecordsWorth, OncePerCommitment;
    match Fund(e.host, e.bank, who, k, amount) {
      case None =>
      case Some((h, b)) =>
        Appended(e.log, Topped(k, amount));
        PayInMovesExactly(e.bank, who, amount);
        OnceAppended(e.log, Topped(k, amount));
        FundedRecordsWorth(e.host, h, e.log, k, amount);
    }
  }

  /** An entry about no commitment. */
  lemma IdleEntry(h: HostState, log: seq<Entry>, entry: Entry)
    requires NoncesUsed(h, log) && RecordsWorth(h, log) && OncePerCommitment(log)
    requires entry.Withdrawn? || entry.Reaped?
    ensures var log' := log + [entry]; NoncesUsed(h, log') && RecordsWorth(h, log') && OncePerCommitment(log')
  {
    Appended(log, entry);
    OnceAppended(log, entry);
  }

  /** The refund of an outstanding record, which is outstanding no longer. */
  lemma RefundEntry(h: HostState, log: seq<Entry>, k: Commitment, amount: nat)
    requires NoncesUsed(h, log) && RecordsWorth(h, log) && OncePerCommitment(log) && k in h.requests
    ensures var h', log' := h.(requests := h.requests - {k}), log + [Refunded(k, amount)];
      NoncesUsed(h', log') && RecordsWorth(h', log') && OncePerCommitment(log')
  {
    hide FeesFor, NetFlow, Wrap128;
    var entry := Refunded(k, amount);
    assert forall other :: other in log && other.Refunded? ==> other.k != k;
    OnceAppended(log, entry);
    hide OncePerCommitment;
    Appended(log, entry);
    RefundNamesOld(h, log, k, amount);
  }

  lemma RefundNamesOld(h: HostState, log: seq<Entry>, k: Commitment, amount: nat)
    requires NoncesUsed(h, log) && k in h.requests
    ensures NoncesUsed(h.(requests := h.requests - {k}), log + [Refunded(k, amount)])
  {
  }

  lemma TimeoutKeepsInv(e: Escrow, opening: nat, k: Commitment)
    requires Inv(e, opening)
    ensures Inv(Step(e, TimeoutOp(k)), opening)
  {
    hide Bank.PayFee, NoncesUsed, RecordsWorth, OncePerCommitment, NetFlow, FeesFor;
    match TimeOut(e.host, e.bank, k) {
      case None =>
      case Some((h, b)) =>
        var meta := e.host.requests[k];
        var first, second := Refunded(k, meta.fee), Reaped(DustAfter(e.bank, meta.fee));
        AppendedTwo(e.log, first, second);
        RecordNotOurs(e.host, e.log, k);
        if meta.fee > 0 { PayOutMovesExactly(e.bank, meta.payer, meta.fee); }
        RefundEntry(e.host, e.log, k, meta.fee);
        IdleEntry(h, e.log + [first], second);
        assert e.log + [first, second] == e.log + [first] + [second];
    }
  }

  lemma RecordNotOurs(h: HostState, log: seq<Entry>, k: Commitment)
    requires RecordsWorth(h, log) && k in h.requests
    ensures h.requests[k].payer != RelayerFees
  {
  }

  lemma WithdrawKeepsInv(e: Escrow, opening: nat, to: AccountId, amount: nat)
    requires Inv(e, opening) && to != RelayerFees
    ensures Inv(Step(e, WithdrawOp(to, amount)), opening)
  {
    hide Bank.PayFee, NoncesUsed, RecordsWorth, OncePerCommitment, NetFlow, FeesFor;
    match e.bank.PayFee(RelayerFees, to, amount) {
      case None =>
      case Some(b) =>
        var first, second := Withdrawn(to, amount), Reaped(DustAfter(e.bank, amount));
        AppendedTwo(e.log, first, second);
        PayOutMovesExactly(e.bank, to, amount);
        IdleEntry(e.host, e.log, first);
        IdleEntry(e.host, e.log + [first], second);
        assert e.log + [first, second] == e.log + [first] + [second];
    }
  }

  lemma NonceGrows(e: Escrow, op: Op)
    ensures Step(e, op).host.nonce <= e.host.nonce + 1
  {
    hide Bank.PayFee, ProtocolFee;
  }

  lemma StepKeepsInv(e: Escrow, opening: nat, op: Op)
    requires Inv(e, opening) && op.WellFormed() && e.host.nonce < MAX_U64
    ensures Inv(Step(e, op), opening) && Step(e, op).host.nonce <= e.host.nonce + 1
  {
    hide Inv, Step;
    NonceGrows(e, op);
    match op {
      case DispatchOp(draft, meta) => DispatchKeepsInv(e, opening, draft, meta);
      case FundOp(who, k, amount) => FundKeepsInv(e, opening, who, k, amount);
      case TimeoutOp(k) => TimeoutKeepsInv(e, opening, k);
      case WithdrawOp(to, amount) => WithdrawKeepsInv(e, opening, to, amount);
    }
  }

  // ------------------------------------------------------------------- main results

  /** From an empty escrow, over every run of fewer than 2^64 operations: the fee
      account holds its opening balance plus every fee and top-up minus every refund,
      withdrawal and reaped remainder; every outstanding record is worth exactly what
      was paid into it; no commitment is ever dispatched twice or refunded twice. */
  lemma {:induction false} EscrowLaw(h: HostState, b: Bank, ops: seq<Op>)
    requires h.requests == map[] && h.nonce == 0 && |ops| <= MAX_U64
    requires forall op :: op in ops ==> op.WellFormed()
    ensures Inv(Run(Escrow(h, b, []), ops), b.Free(RelayerFees))
    ensures Run(Escrow(h, b, []), ops).host.nonce <= |ops|
  {
    hide Step, Op.WellFormed;
    if ops != [] {
      var front, op := ops[..|ops| - 1], ops[|ops| - 1];
      EscrowLaw(h, b, front);
      hide Inv;
      assert op in ops;
      StepKeepsInv(Run(Escrow(h, b, []), front), b.Free(RelayerFees), op);
    }
  }

  /** In every such reachable state a dispatch fails only for want of funds: the
      duplicate-request branch cannot be taken. */
  lemma DuplicateBranchUnreachable(h: HostState, b: Bank, ops: seq<Op>, draft: Draft, meta: FeeMetadata)
    requires h.requests == map[] && h.nonce == 0 && |ops| < MAX_U64
    requires forall op :: op in ops ==> op.WellFormed()
    ensures var e := Run(Escrow(h, b, []), ops);
      Dispatch(e.host, e.bank, draft, meta).None? <==>
        var first := e.bank.PayFee(meta.payer, RelayerFees, ProtocolFee(e.host, draft));
        first.None? || first.value.PayFee(meta.payer, RelayerFees, meta.fee).None?
  {
    EscrowLaw(h, b, ops);
  }

  /** A payout takes exactly its amount from the fee account if and only if it leaves
      nothing, at least the existential deposit, or a reserve behind. */
  lemma PayoutExactIff(b: Bank, to: AccountId, amount: nat)
    requires to != RelayerFees && amount > 0 && b.PayFee(RelayerFees, to, amount).Some?
    ensures var rest := b.Free(RelayerFees) - amount;
      b.PayFee(RelayerFees, to, amount).value.Free(RelayerFees) == rest <==>
        rest == 0 || rest >= EXISTENTIAL_DEPOSIT || b.Reserved(RelayerFees) > 0
  {
    PayOutMovesExactly(b, to, amount);
  }
}
