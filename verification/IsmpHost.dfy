/** The request side of the ISMP host: per-byte protocol fees, the relayer fee escrow,
    the nonce, and the record kept for every outstanding request. Functions give what
    each operation does to the stored values; class `IsmpHost` does it step by step. */
module IsmpHost {
  import opened Sums
  import opened Balances
  import opened Messages
  import opened Precision

  const MAX_U64: nat := 0xFFFF_FFFF_FFFF_FFFF

  datatype FeeMetadata = FeeMetadata(payer: AccountId, fee: nat)

  /** What a caller asks to have dispatched; the host adds source and nonce. */
  datatype Draft =
    | DraftPost(dest: Chain, from: Endpoint, to: Endpoint, timeout: nat, body: Body, bodyLength: nat)
    | DraftGet(tag: nat)

  datatype HostState = HostState(
    nonce: nat,
    requests: map<Commitment, FeeMetadata>,
    receipts: set<Commitment>,
    payments: map<Commitment, nat>,
    defaultPerByteFee: nat,
    perByteFees: map<Chain, nat>)

  datatype Dispatched = Dispatched(host: HostState, bank: Bank, commitment: Commitment)

  /** At least 32 bytes are charged; the product wraps at 128 bits. */
  function ProtocolFee(h: HostState, draft: Draft): nat {
    match draft
    case DraftGet(_) => 0
    case DraftPost(dest, _, _, _, _, bodyLength) =>
      var perByte := if dest in h.perByteFees then h.perByteFees[dest] else h.defaultPerByteFee;
      Wrap128(perByte * Max(32, bodyLength))
  }

  function Numbered(draft: Draft, nonce: nat): Request {
    match draft
    case DraftPost(dest, from, to, timeout, body, _) =>
      Post(PostRequest(HOST_CHAIN, dest, nonce, from, to, timeout, body))
    case DraftGet(tag) => Get(nonce, tag)
  }

  function NextNonce(nonce: nat): nat {
    if nonce < MAX_U64 then nonce + 1 else 0
  }

  /** A dispatch as a whole: both fees move to the escrow account, the request takes the
      current nonce, and it is recorded with its relayer fee. */
  function Dispatch(h: HostState, b: Bank, draft: Draft, meta: FeeMetadata): Option<Dispatched> {
    var protocol := ProtocolFee(h, draft);
    var k := Numbered(draft, h.nonce);
    match b.PayFee(meta.payer, RelayerFees, protocol)
    case None => None
    case Some(b1) =>
      match b1.PayFee(meta.payer, RelayerFees, meta.fee)
      case None => None
      case Some(b2) =>
        if k in h.requests then None
        else Some(Dispatched(
          h.(nonce := NextNonce(h.nonce),
             requests := h.requests[k := meta],
             payments := h.payments[k := protocol]),
          b2, k))
  }

  /** Tops up the relayer fee of an outstanding request; the sum wraps at 128 bits. */
  function Fund(h: HostState, b: Bank, who: AccountId, k: Commitment, amount: nat): Option<(HostState, Bank)> {
    if k !in h.requests then None
    else match b.PayFee(who, RelayerFees, amount)
      case None => None
      case Some(b1) =>
        var meta := h.requests[k];
        Some((h.(requests := h.requests[k := meta.(fee := Wrap128(meta.fee + amount))]), b1))
  }

  /** The relayer fee goes back to its payer when a request times out. */
  function RefundFee(b: Bank, meta: FeeMetadata): Option<Bank> {
    if meta.fee == 0 then Some(b) else b.PayFee(RelayerFees, meta.payer, meta.fee)
  }

  /** Times out a request whose module accepted the timeout. */
  function TimeOut(h: HostState, b: Bank, k: Commitment): Option<(HostState, Bank)> {
    if k !in h.requests then None
    else match RefundFee(b, h.requests[k])
      case None => None
      case Some(b1) => Some((h.(requests := h.requests - {k}), b1))
  }

  lemma PayNothing(b: Bank, who: AccountId)
    ensures b.PayFee(who, RelayerFees, 0) == Some(b)
  {
  }

  class IsmpHost {
    var nonce: nat
    var requests: map<Commitment, FeeMetadata>
    var receipts: set<Commitment>
    var payments: map<Commitment, nat>
    var defaultPerByteFee: nat
    var perByteFees: map<Chain, nat>
    var bank: Bank

    function Host(): HostState
      reads this
    {
      HostState(nonce, requests, receipts, payments, defaultPerByteFee, perByteFees)
    }

    constructor (bank: Bank, defaultPerByteFee: nat)
      ensures Host() == HostState(0, map[], {}, map[], defaultPerByteFee, map[]) && this.bank == bank
    {
      this.nonce, this.requests, this.receipts, this.payments := 0, map[], {}, map[];
      this.defaultPerByteFee, this.perByteFees, this.bank := defaultPerByteFee, map[], bank;
    }

    method TakeNonce() returns (taken: nat)
      modifies this`nonce
      ensures taken == old(nonce) && nonce == NextNonce(taken)
    {
      taken := nonce;
      nonce := if nonce < MAX_U64 then nonce + 1 else 0;
    }

    /** Records a numbered request; a duplicate commitment is refused. */
    method RecordRequest(k: Commitment, meta: FeeMetadata) returns (ok: bool)
      modifies this`requests
      ensures ok == (k !in old(requests))
      ensures requests == if ok then old(requests)[k := meta] else old(requests)
    {
      ok := k !in requests;
      if ok { requests := requests[k := meta]; }
    }

    /** Charges the protocol fee, escrows the relayer fee, numbers and records the
        request. A failure may leave the fees charged: callers run it transactionally. */
    method DispatchRequest(draft: Draft, meta: FeeMetadata) returns (r: Option<Commitment>)
      modifies this
      ensures var d := Dispatch(old(Host()), old(bank), draft, meta);
        match r {
          case None => d == None
          case Some(k) => d == Some(Dispatched(Host(), bank, k))
        }
    {
      hide Bank.PayFee, ProtocolFee, Numbered;
      PayNothing(bank, meta.payer);
      var protocol := ProtocolFee(Host(), draft);
      if protocol != 0 {
        match bank.PayFee(meta.payer, RelayerFees, protocol) {
          case None => return None;
          case Some(b) => bank := b;
        }
      }
      PayNothing(bank, meta.payer);
      if meta.fee != 0 {
        match bank.PayFee(meta.payer, RelayerFees, meta.fee) {
          case None => return None;
          case Some(b) => bank := b;
        }
      }
      var n := TakeNonce();
      var k := Numbered(draft, n);
      var ok := RecordRequest(k, meta);
      if !ok { return None; }
      payments := payments[k := protocol];
      r := Some(k);
    }

    method FundMessage(who: AccountId, k: Commitment, amount: nat) returns (ok: bool)
      modifies this`requests, this`bank
      ensures var f := Fund(old(Host()), old(bank), who, k, amount);
        if ok then f == Some((Host(), bank)) else f == None && Host() == old(Host()) && bank == old(bank)
    {
      if k !in requests { return false; }
      var meta := requests[k];
      match bank.PayFee(who, RelayerFees, amount) {
        case None => return false;
        case Some(b) => bank := b;
      }
      requests := requests[k := meta.(fee := Wrap128(meta.fee + amount))];
      ok := true;
    }

    /** Deletes the record, lets the module answer, then refunds the relayer fee; the
        record comes back when the module refuses or the refund fails. */
    method HandleTimeout(k: Commitment, moduleAccepts: bool) returns (ok: bool)
      modifies this`requests, this`bank
      ensures ok == (moduleAccepts && TimeOut(old(Host()), old(bank), k).Some?)
      ensures if ok then TimeOut(old(Host()), old(bank), k) == Some((Host(), bank))
              else Host() == old(Host()) && bank == old(bank)
    {
      if k !in requests { return false; }
      var meta := requests[k];
      requests := requests - {k};
      if moduleAccepts {
        match RefundFee(bank, meta) {
          case Some(b) => bank := b; return true;
          case None =>
        }
      }
      requests := requests[k := meta];
      assert requests == old(requests);
      ok := false;
    }
  }
}
