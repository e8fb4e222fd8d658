/** Transfers of fungible tokens over the registry: outbound moves value into custody or
    burns it, inbound and timed-out requests move it back or mint it. An asset's mode is
    fixed at registration. */
module HftTransfers {
  import opened Sums
  import opened Balances
  import opened Messages
  import opened Precision
  import opened IsmpHost
  import opened HftRegistry

  const HFT_MODULE: Endpoint := PalletModule("pall_hft")
  const NATIVE_ID: AssetId := MAX_U64
  const NATIVE_DECIMALS: nat := 12

  /** One fungible asset. A remainder below `minBalance` cannot stay in an account. */
  datatype Token = Token(decimals: nat, minBalance: nat, supply: nat, held: map<AccountId, nat>)
  {
    function Held(who: AccountId): nat { At(held, who) }

    ghost predicate Valid() { supply == SumOf(held) && supply <= MAX_BALANCE }

    /** What leaves an account when `amount` is taken: an unviable remainder goes too. */
    function Taken(who: AccountId, amount: nat): (taken: nat)
      requires amount <= Held(who)
      ensures amount <= taken <= Held(who)
    {
      if Held(who) - amount < minBalance then Held(who) else amount
    }

    function Move(from: AccountId, to: AccountId, amount: nat): Option<Token> {
      if amount == 0 then Some(this)
      else if amount > Held(from) then None
      else
        var taken := Taken(from, amount);
        if Held(to) + taken < minBalance || Held(to) + taken > MAX_BALANCE then None
        else if from == to then Some(this)
        else Some(this.(held := held[from := Held(from) - taken][to := Held(to) + taken]))
    }

    function Burn(who: AccountId, amount: nat): Option<Token> {
      if amount == 0 then Some(this)
      else if amount > Held(who) then None
      else
        var taken := Taken(who, amount);
        Some(this.(held := held[who := Held(who) - taken], supply := SatSub(supply, taken)))
    }

    function Mint(to: AccountId, amount: nat): Option<Token> {
      if amount == 0 then Some(this)
      else if Held(to) + amount < minBalance || supply + amount > MAX_BALANCE then None
      else Some(this.(held := held[to := Held(to) + amount], supply := supply + amount))
    }
  }

  /** Why value came back: a delivered request, or an outbound one that timed out. */
  datatype Cause = Delivered(post: PostRequest) | TimedOut(k: Commitment)

  /** What a log entry can contribute to an asset's account. */
  datatype Part = Sent | SweptOut | Released | SweptBack | Given

  /** The log: what left an account for which lane, what came back and why, and what
      others put into custody. `swept` is a remainder too small to stay behind, which
      left with the rest: with a token into custody or out of existence, on the way back
      to the beneficiary, or, for the native currency, reaped. `moved` is zero when
      nothing had to move. */
  datatype Flow =
    | Left(asset: AssetId, who: AccountId, dest: Chain, amount: nat, swept: nat)
    | Returned(asset: AssetId, to: AccountId, amount: nat, moved: nat, swept: nat, cause: Cause)
    | Donated(asset: AssetId, amount: nat)
  {
    function Share(a: AssetId, part: Part): nat {
      if asset != a then 0
      else match part
        case Sent => if Left? then amount else 0
        case SweptOut => if Left? then swept else 0
        case Released => if Returned? then moved else 0
        case SweptBack => if Returned? then swept else 0
        case Given => if Donated? then amount else 0
    }
  }

  datatype Hft = Hft(
    tables: Tables, tokens: map<AssetId, Token>, bank: Bank, host: HostState, log: seq<Flow>)

  datatype HftError =
    | TokenContractNotFound | DecimalsNotFound | AssetTransferError | DispatchError
    | UnknownContract | DecodeFailed | BadAddressLength | DecimalsNotConfigured
    | InvalidAmount | TransferFailed | CallFailed | CallDataDisabled | UnsupportedTimeout
    | Duplicate | NotOutstanding | FeeRefundFailed | InvalidMessage

  datatype SendParams = SendParams(
    asset: AssetId, dest: Chain, recipient: Address, amount: nat, timeout: nat, fee: nat,
    data: Payload, bodyLength: nat)

  /** What a call leaves behind, and the error it returned if it did. */
  datatype Attempt = Attempt(state: Hft, error: Option<HftError>)

  function DecimalsOf(s: Hft, asset: AssetId): nat {
    if asset == NATIVE_ID then NATIVE_DECIMALS
    else if asset in s.tokens then s.tokens[asset].decimals else 0
  }

  predicate Locks(s: Hft, asset: AssetId) { Row(s.tables.native, asset) == Some(true) }

  // -------------------------------------------------------------------------- outbound

  /** Takes `amount` from the sender: into custody, or out of existence. */
  function TakeOut(s: Hft, asset: AssetId, who: AccountId, dest: Chain, amount: nat): Option<Hft> {
    if asset == NATIVE_ID then
      match s.bank.Transfer(who, HftCustody, amount, false)
      case None => None
      case Some(b) => Some(s.(bank := b, log := s.log + [Left(asset, who, dest, amount, 0)]))
    else if asset !in s.tokens || amount > s.tokens[asset].Held(who) then None
    else
      var token := s.tokens[asset];
      var swept := if amount == 0 then 0 else token.Taken(who, amount) - amount;
      match if Locks(s, asset) then token.Move(who, HftCustody, amount) else token.Burn(who, amount)
      case None => None
      case Some(t) => Some(s.(tokens := s.tokens[asset := t], log := s.log + [Left(asset, who, dest, amount, swept)]))
  }

  function SendDraft(s: Hft, who: AccountId, p: SendParams, contract: seq<Byte>, ercDecimals: nat): Draft {
    DraftPost(p.dest, HFT_MODULE, RawBytes(contract), p.timeout,
              Encoded(Message(Bytes32(who), p.recipient, ConvertToErc20(p.amount, ercDecimals, DecimalsOf(s, p.asset)),
                  p.data)),
              p.bodyLength)
  }

  /** A transactional call: on error the storage is what it was. */
  function Send(s: Hft, who: AccountId, p: SendParams): (Attempt, Option<Commitment>) {
    match Row(s.tables.contracts, (p.dest, p.asset))
    case None => (Attempt(s, Some(TokenContractNotFound)), None)
    case Some(contract) =>
      match Row(s.tables.precisions, (p.asset, p.dest))
      case None => (Attempt(s, Some(DecimalsNotFound)), None)
      case Some(ercDecimals) =>
        match TakeOut(s, p.asset, who, p.dest, p.amount)
        case None => (Attempt(s, Some(AssetTransferError)), None)
        case Some(s1) =>
          match Dispatch(s1.host, s1.bank, SendDraft(s, who, p, contract, ercDecimals), FeeMetadata(who, p.fee))
          case None => (Attempt(s, Some(DispatchError)), None)
          case Some(d) => (Attempt(s1.(host := d.host, bank := d.bank), None), Some(d.commitment))
  }

  // --------------------------------------------------------------------------- inbound

  /** A short address is padded in front here; it is not hashed as in the NEX bridge. */
  function HftAccount(a: Address): Option<AccountId> {
    match a
    case Bytes32(account) => Some(account)
    case Bytes20(evm) => Some(Padded(evm))
    case BadLength(_) => None
  }

  function AssetAt(s: Hft, chain: Chain, contract: Endpoint): Option<AssetId> {
    if contract.RawBytes? then Row(s.tables.assets, (chain, contract.bytes)) else None
  }

  /** What a credit moves out of custody or mints, and the remainder swept with it. */
  function Release(s: Hft, asset: AssetId, to: AccountId, amount: nat): (nat, nat) {
    if amount == 0 then (0, 0)
    else if asset == NATIVE_ID then
      if to == HftCustody then (0, 0) else (amount, s.bank.Remainder(HftCustody, amount))
    else if asset !in s.tokens || !Locks(s, asset) then (amount, 0)
    else if to == HftCustody || amount > s.tokens[asset].Held(HftCustody) then (0, 0)
    else (amount, s.tokens[asset].Taken(HftCustody, amount) - amount)
  }

  /** Gives `amount` back: out of custody, or minted. */
  function GiveBack(s: Hft, asset: AssetId, to: AccountId, amount: nat, cause: Cause): Option<Hft> {
    var (moved, swept) := Release(s, asset, to, amount);
    var log := s.log + [Returned(asset, to, amount, moved, swept, cause)];
    if asset == NATIVE_ID then
      match s.bank.Transfer(HftCustody, to, amount, false)
      case None => None
      case Some(b) => Some(s.(bank := b, log := log))
    else if asset !in s.tokens then None
    else
      var token := s.tokens[asset];
      match if Locks(s, asset) then token.Move(HftCustody, to, amount) else token.Mint(to, amount)
      case None => None
      case Some(t) => Some(s.(tokens := s.tokens[asset := t], log := log))
  }

  /** The common part of a delivery and a refund. Every check precedes the credit. */
  function Credit(s: Hft, chain: Chain, contract: Endpoint, to: Address, ercAmount: nat, cause: Cause): Attempt {
    match AssetAt(s, chain, contract)
    case None => Attempt(s, Some(UnknownContract))
    case Some(asset) =>
      match HftAccount(to)
      case None => Attempt(s, Some(BadAddressLength))
      case Some(beneficiary) =>
        match Row(s.tables.precisions, (asset, chain))
        case None => Attempt(s, Some(DecimalsNotConfigured))
        case Some(ercDecimals) =>
          match ConvertToBalance(ercAmount, ercDecimals, DecimalsOf(s, asset))
          case None => Attempt(s, Some(InvalidAmount))
          case Some(amount) =>
            match GiveBack(s, asset, beneficiary, amount, cause)
            case None => Attempt(s, Some(TransferFailed))
            case Some(s1) => Attempt(s1, None)
  }

  /** The pallet's own callback: calldata is run after the credit, and its failure does
      not take the credit back. */
  function OnAccept(s: Hft, post: PostRequest, callSucceeds: bool): Attempt {
    if AssetAt(s, post.source, post.from).None? then Attempt(s, Some(UnknownContract))
    else match post.body
      case Undecodable(_) => Attempt(s, Some(DecodeFailed))
      case Encoded(m) =>
        var credited := Credit(s, post.source, post.from, m.to, m.amount, Delivered(post));
        if credited.error.None? && !m.data.Empty? && !callSucceeds
        then Attempt(credited.state, Some(CallFailed))
        else credited
  }

  /** The runtime's adapter in front of it. */
  function GuardedAccept(s: Hft, post: PostRequest, callSucceeds: bool): Attempt {
    match post.body
    case Undecodable(_) => Attempt(s, Some(DecodeFailed))
    case Encoded(m) =>
      if !m.data.Empty? then Attempt(s, Some(CallDataDisabled)) else OnAccept(s, post, callSucceeds)
  }

  function OnTimeout(s: Hft, k: Commitment): Attempt {
    match k
    case Get(_, _) => Attempt(s, Some(UnsupportedTimeout))
    case Post(post) =>
      match post.body
      case Undecodable(_) => Attempt(s, Some(DecodeFailed))
      case Encoded(m) =>
        if HftAccount(m.from).None? then Attempt(s, Some(BadAddressLength))
        else Credit(s, post.dest, post.to, m.from, m.amount, TimedOut(k))
  }

  // -------------------------------------------------------------- the message handler

  function Receipted(s: Hft, post: PostRequest): Hft {
    s.(host := s.host.(receipts := s.host.receipts + {Post(post)}))
  }

  function Unreceipted(s: Hft, post: PostRequest): Hft {
    s.(host := s.host.(receipts := s.host.receipts - {Post(post)}))
  }

  /** One delivery inside a batch: the receipt is written first and deleted when the module
      fails, whatever else the module has done by then. */
  function Deliver(s: Hft, post: PostRequest, guarded: bool, callSucceeds: bool): Attempt {
    if Post(post) in s.host.receipts then Attempt(s, Some(Duplicate))
    else
      var a := if guarded then GuardedAccept(Receipted(s, post), post, callSucceeds)
               else OnAccept(Receipted(s, post), post, callSucceeds);
      if a.error.None? then a else Attempt(Unreceipted(a.state, post), a.error)
  }

  function Refund(s: Hft, k: Commitment): Attempt {
    if k !in s.host.requests then Attempt(s, Some(NotOutstanding))
    else
      var a := OnTimeout(s.(host := s.host.(requests := s.host.requests - {k})), k);
      if a.error.Some? then Attempt(s, a.error)
      else match RefundFee(a.state.bank, s.host.requests[k])
        case None => Attempt(s, Some(FeeRefundFailed))
        case Some(b) => Attempt(a.state.(bank := b), None)
  }

  /** What a batch is made of. `callSucceeds` decides about calldata, if it is run. */
  datatype HftMessage = Inbound(post: PostRequest, callSucceeds: bool) | Expired(k: Commitment)

  function Handle(s: Hft, m: HftMessage, guarded: bool): Attempt {
    match m
    case Inbound(post, callSucceeds) => Deliver(s, post, guarded, callSucceeds)
    case Expired(k) => Refund(s, k)
  }

  /** The handler itself rejects these; an error of the module it only reports. */
  predicate Rejected(error: Option<HftError>) {
    error == Some(Duplicate) || error == Some(NotOutstanding) || error == Some(FeeRefundFailed)
  }

  /** A batch in place: a rejection stops it, a module's error does not. */
  function Handled(s: Hft, ms: seq<HftMessage>, guarded: bool): Attempt
    decreases ms
  {
    if ms == [] then Attempt(s, None)
    else
      var a := Handle(s, ms[0], guarded);
      if Rejected(a.error) then a
      else
        var rest := Handled(a.state, ms[1..], guarded);
        Attempt(rest.state, if a.error.Some? then a.error else rest.error)
  }

  /** The only call that changes storage through messages: it is transactional, and any
      error in the batch makes all of it invalid. */
  function Execute(s: Hft, ms: seq<HftMessage>, guarded: bool): Attempt {
    var a := Handled(s, ms, guarded);
    if a.error.Some? then Attempt(s, Some(InvalidMessage)) else a
  }

  // ------------------------------------------------------------------------ the machine

  datatype HftOp =
    | SendOp(who: AccountId, params: SendParams)
    | ExecuteOp(messages: seq<HftMessage>, guarded: bool)
    | GovernOp(call: HftRegistry.Op)
    | TokenMoveOp(asset: AssetId, from: AccountId, to: AccountId, amount: nat)
    | NativeMoveOp(from: AccountId, to: AccountId, amount: nat)
  {
    /** Nobody signs for the custody account, and batches are well typed. */
    predicate WellFormed() {
      match this
      case SendOp(who, _) => who != HftCustody
      case GovernOp(call) => WellTyped(call)
      case TokenMoveOp(_, from, _, _) => from != HftCustody
      case NativeMoveOp(from, _, _) => from != HftCustody
      case ExecuteOp(_, _) => true
    }
  }

  function AssetsOf(s: Hft): Assets {
    Assets(NATIVE_ID, NATIVE_DECIMALS, map a | a in s.tokens :: s.tokens[a].decimals)
  }

  /** A transfer between holders, outside the bridge; one into custody is a donation. */
  function TokenMove(s: Hft, asset: AssetId, from: AccountId, to: AccountId, amount: nat): Hft {
    if asset == NATIVE_ID || asset !in s.tokens || amount > s.tokens[asset].Held(from) then s
    else
      var token := s.tokens[asset];
      match token.Move(from, to, amount)
      case None => s
      case Some(t) =>
        s.(tokens := s.tokens[asset := t],
           log := if to == HftCustody && amount > 0 && from != to && Locks(s, asset)
                  then s.log + [Donated(asset, token.Taken(from, amount))] else s.log)
  }

  function NativeMove(s: Hft, from: AccountId, to: AccountId, amount: nat): Hft {
    match s.bank.Transfer(from, to, amount, false)
    case None => s
    case Some(b) =>
      s.(bank := b, log := if to == HftCustody && from != to then s.log + [Donated(NATIVE_ID, amount)] else s.log)
  }

  function HftStep(s: Hft, op: HftOp): Hft {
    match op
    case SendOp(who, p) => Send(s, who, p).0.state
    case ExecuteOp(messages, guarded) => Execute(s, messages, guarded).state
    case GovernOp(call) => s.(tables := HftRegistry.Step(s.tables, AssetsOf(s), call))
    case TokenMoveOp(asset, from, to, amount) => TokenMove(s, asset, from, to, amount)
    case NativeMoveOp(from, to, amount) => NativeMove(s, from, to, amount)
  }

  function HftRun(s: Hft, ops: seq<HftOp>): Hft {
    if ops == [] then s else HftStep(HftRun(s, ops[..|ops| - 1]), ops[|ops| - 1])
  }
}
