/** The NEX burn/mint bridge as values: its storage, and for every call and callback the
    storage it leaves behind or the error it returns. A failed operation is `Err`, and
    stands for a storage layer that was rolled back. */
module BridgeState {
  import opened Sums
  import opened Balances
  import opened Messages
  import opened Precision
  import opened IsmpHost

  const BRIDGE_MODULE: Endpoint := PalletModule("nexbridg")
  const PAYLOAD_SCHEMA_VERSION: nat := 1
  const MAX_PAYOUT_META: nat := 128
  const MAX_BLOCK: nat := 0xFFFF_FFFF

  datatype Config = Config(
    nativeDecimals: nat, minAmount: nat, window: nat, refundTtl: nat, withdrawDelay: nat)
  {
    /** What the runtime configures: a minimum that can always open an account, and a
        window of at least one block. */
    predicate Sound() {
      EXISTENTIAL_DEPOSIT <= minAmount && 0 < window
    }
  }

  datatype Error =
    | BridgePaused | ChainNotRegistered | NotEvmChain | ErcDecimalsBelowLocal | ErcDecimalsTooHigh
    | AmountBelowMin | PerTxLimitExceeded | DailyLimitExceeded | InsufficientFreeBalance | Overflow
    | DispatchFailed | WithdrawNotFound | WithdrawNotDue
    | UnregisteredChain | UnknownSourceContract | DecodeError | InvalidRecipientLength | InvalidSenderLength
    | InvalidAmountConversion | InvariantViolation | InvalidPayload | UnsupportedSchemaVersion
    | UnsupportedTimeoutType | AlreadyHandled | NotOutstanding | PayoutMetaTooLong | FeeRefundFailed

  datatype Result<+T> = Ok(value: T) | Err(error: Error)

  datatype ChainConfig = ChainConfig(contract: nat, ercDecimals: nat)

  datatype PendingWithdraw = PendingWithdraw(
    owner: AccountId, dest: Chain, recipient: nat, amount: nat, executeAt: nat)

  datatype RefundContext = RefundContext(dispatchedAt: nat, meta: seq<nat>)

  /** The part of the event log the laws speak about. `Burned`, `Minted`, `PayoutTracked`
      and `ContextTaken` are notes of this model: every burn and mint of the bridge,
      every refund context stored, and every one taken out to be handed to its handler. */
  datatype Event =
    | Burned(block: nat, lane: Chain, who: AccountId, amount: nat)
    | Minted(block: nat, lane: Chain, who: AccountId, amount: nat)
    | WithdrawQueued(id: nat, entry: PendingWithdraw, block: nat)
    | WithdrawExecuted(id: nat, block: nat)
    | WithdrawCancelled(id: nat)
    | PayoutTracked(commitment: Commitment, meta: seq<nat>, block: nat)
    | ContextTaken(commitment: Commitment, meta: seq<nat>)
    | PayoutRefundNotified(commitment: Commitment, meta: seq<nat>, handled: bool)
    | CrossOrder(buyer: AccountId, placed: bool)

  /** `business` stands for the storage of every pallet behind the bridge's handlers. */
  datatype Storage = Storage(
    bank: Bank,
    host: HostState,
    bridgedOut: nat,
    byChain: map<Chain, nat>,
    paused: bool,
    pausedChains: set<Chain>,
    windowStart: nat,
    windowUsed: nat,
    perTxLimit: nat,
    dailyLimit: nat,
    chains: map<Chain, ChainConfig>,
    payoutRefunds: map<Commitment, RefundContext>,
    nextWithdrawId: nat,
    pending: map<nat, PendingWithdraw>,
    business: int,
    now: nat,
    events: seq<Event>)

  /** What the wire and the clock decide: the encoded length and the timeout stamp. */
  datatype Wire = Wire(bodyLength: nat, deadline: nat)

  /** One thing a business handler may do. */
  datatype Action =
    | Move(from: AccountId, to: AccountId, amount: nat)
    | Payout(who: AccountId, dest: Chain, recipient: nat, amount: nat, meta: seq<nat>, wire: Wire)
    | Write(value: int)

  /** A business handler's run: what it does, and whether it then reports success. Any
      handler behaves, on any given storage, as one such run. */
  datatype Handler = Handler(actions: seq<Action>, succeeds: bool)

  // ----------------------------------------------------------------------- outbound

  /** The accounting window and what is used of it, restarted once it has elapsed. */
  function CurrentWindow(cfg: Config, s: Storage): (nat, nat) {
    if SatSub(s.now, s.windowStart) >= cfg.window then (s.now, 0) else (s.windowStart, s.windowUsed)
  }

  /** The guardrails, all of them before any burn. */
  function Guard(cfg: Config, s: Storage, dest: Chain, amount: nat): Option<Error> {
    var used := CurrentWindow(cfg, s).1;
    if s.paused || dest in s.pausedChains then Some(BridgePaused)
    else if dest !in s.chains then Some(ChainNotRegistered)
    else if amount < cfg.minAmount then Some(AmountBelowMin)
    else if amount > s.perTxLimit then Some(PerTxLimitExceeded)
    else if used + amount > MAX_BALANCE then Some(Overflow)
    else if used + amount > s.dailyLimit then Some(DailyLimitExceeded)
    else None
  }

  function OutboundDraft(cfg: Config, lane: ChainConfig, who: AccountId, dest: Chain, recipient: nat, amount: nat,
                         wire: Wire): Draft {
    DraftPost(dest, BRIDGE_MODULE, H160(lane.contract), wire.deadline,
              Encoded(Message(Bytes32(who), Bytes20(recipient),
                              ConvertToErc20(amount, lane.ercDecimals, cfg.nativeDecimals), Empty)),
              wire.bodyLength)
  }

  /** The in-flight ledger and the window after a burn. */
  function Booked(cfg: Config, s: Storage, who: AccountId, dest: Chain, amount: nat): Storage {
    var w := CurrentWindow(cfg, s);
    s.(bridgedOut := s.bridgedOut + amount,
       byChain := s.byChain[dest := At(s.byChain, dest) + amount],
       windowStart := w.0,
       windowUsed := w.1 + amount,
       events := s.events + [Burned(s.now, dest, who, amount)])
  }

  function Outbound(cfg: Config, s: Storage, who: AccountId, dest: Chain, recipient: nat, amount: nat, fee: nat,
                    wire: Wire)
    : Result<(Storage, Commitment)>
  {
    match Guard(cfg, s, dest, amount)
    case Some(e) => Err(e)
    case None =>
      match s.bank.Withdraw(who, amount)
      case None => Err(InsufficientFreeBalance)
      case Some(b) =>
        if s.bridgedOut + amount > MAX_BALANCE || At(s.byChain, dest) + amount > MAX_BALANCE then Err(Overflow)
        else
          var booked := Booked(cfg, s.(bank := b), who, dest, amount);
          match Dispatch(s.host, b, OutboundDraft(cfg, s.chains[dest], who, dest, recipient, amount, wire),
              FeeMetadata(who, fee))
          case None => Err(DispatchFailed)
          case Some(d) => Ok((booked.(host := d.host, bank := d.bank), d.commitment))
  }

  /** An outbound transfer whose refund context is kept until it times out. */
  function OutboundTracked(cfg: Config, s: Storage, who: AccountId, dest: Chain, recipient: nat, amount: nat, fee: nat,
                           wire: Wire, meta: seq<nat>)
    : Result<(Storage, Commitment)>
  {
    match Outbound(cfg, s, who, dest, recipient, amount, fee, wire)
    case Err(e) => Err(e)
    case Ok((s1, k)) =>
      Ok((s1.(payoutRefunds := s1.payoutRefunds[k := RefundContext(s.now, meta)],
              events := s1.events + [PayoutTracked(k, meta, s.now)]), k))
  }

  function PayoutNative(cfg: Config, s: Storage, a: Action): Result<(Storage, Commitment)>
    requires a.Payout?
  {
    if |a.meta| > MAX_PAYOUT_META then Err(PayoutMetaTooLong)
    else if a.meta == [] then Outbound(cfg, s, a.who, a.dest, a.recipient, a.amount, 0, a.wire)
    else OutboundTracked(cfg, s, a.who, a.dest, a.recipient, a.amount, 0, a.wire, a.meta)
  }

  // ------------------------------------------------------------------------ handlers

  function Act(cfg: Config, s: Storage, a: Action): Option<Storage> {
    match a
    case Move(from, to, amount) =>
      (match s.bank.Transfer(from, to, amount, false)
       case None => None
       case Some(b) => Some(s.(bank := b)))
    case Payout(_, _, _, _, _, _) =>
      (match PayoutNative(cfg, s, a)
       case Err(_) => None
       case Ok((s1, _)) => Some(s1))
    case Write(value) => Some(s.(business := value))
  }

  function ActAll(cfg: Config, s: Storage, actions: seq<Action>): Option<Storage>
    decreases actions
  {
    if actions == [] then Some(s)
    else match Act(cfg, s, actions[0])
      case None => None
      case Some(s1) => ActAll(cfg, s1, actions[1..])
  }

  function RunHandler(cfg: Config, s: Storage, h: Handler): Option<Storage> {
    if h.succeeds then ActAll(cfg, s, h.actions) else None
  }

  // ------------------------------------------------------------------------- inbound

  function AccountFromBytes(a: Address): Result<AccountId> {
    match a
    case Bytes32(account) => Ok(account)
    case Bytes20(evm) => Ok(Derived(evm))
    case BadLength(_) => Err(InvalidRecipientLength)
  }

  function DecodeAmount(cfg: Config, ercAmount: nat, ercDecimals: nat): Result<nat> {
    match ConvertToBalance(ercAmount, ercDecimals, cfg.nativeDecimals)
    case None => Err(InvalidAmountConversion)
    case Some(amount) => if amount < cfg.minAmount then Err(AmountBelowMin) else Ok(amount)
  }

  function CreditInbound(s: Storage, beneficiary: AccountId, lane: Chain, amount: nat): Result<Storage> {
    if amount > s.bridgedOut || amount > At(s.byChain, lane) then Err(InvariantViolation)
    else Ok(s.(bridgedOut := s.bridgedOut - amount,
               byChain := s.byChain[lane := At(s.byChain, lane) - amount],
               bank := s.bank.DepositCreating(beneficiary, amount),
               events := s.events + [Minted(s.now, lane, beneficiary, amount)]))
  }

  /** A failed order is rolled back alone; the mint stays with the derived buyer. */
  function OnCrossOrder(cfg: Config, s: Storage, source: Chain, amount: nat, intent: OrderIntent,
                        h: Handler): Result<Storage> {
    var buyer := Derived(intent.buyerEvm);
    match CreditInbound(s, buyer, source, amount)
    case Err(e) => Err(e)
    case Ok(credited) =>
      match RunHandler(cfg, credited, h)
      case Some(s1) => Ok(s1.(events := s1.events + [CrossOrder(buyer, true)]))
      case None => Ok(credited.(events := credited.events + [CrossOrder(buyer, false)]))
  }

  function QueueWithdraw(cfg: Config, s: Storage, owner: AccountId, dest: Chain, recipient: nat, amount: nat): Storage {
    var entry := PendingWithdraw(owner, dest, recipient, amount, Min(s.now + cfg.withdrawDelay, MAX_BLOCK));
    s.(nextWithdrawId := if s.nextWithdrawId < MAX_U64 then s.nextWithdrawId + 1 else s.nextWithdrawId,
       pending := s.pending[s.nextWithdrawId := entry],
       events := s.events + [WithdrawQueued(s.nextWithdrawId, entry, s.now)])
  }

  function OnWithdraw(cfg: Config, s: Storage, source: Chain, req: WithdrawRequest): Result<Storage> {
    if source !in s.chains then Err(UnregisteredChain)
    else match DecodeAmount(cfg, req.amount, s.chains[source].ercDecimals)
      case Err(e) => Err(e)
      case Ok(amount) => Ok(QueueWithdraw(cfg, s, Derived(req.ownerEvm), source, req.recipient, amount))
  }

  function OnAccept(cfg: Config, s: Storage, post: PostRequest, h: Handler): Result<Storage> {
    if s.paused || post.source in s.pausedChains then Err(BridgePaused)
    else if post.source !in s.chains then Err(UnregisteredChain)
    else if post.from != H160(s.chains[post.source].contract) then Err(UnknownSourceContract)
    else match post.body
      case Undecodable(_) => Err(DecodeError)
      case Encoded(m) =>
        var amount := DecodeAmount(cfg, m.amount, s.chains[post.source].ercDecimals);
        match m.data
        case Empty =>
          if amount.Err? then Err(amount.error)
          else if AccountFromBytes(m.to).Err? then Err(InvalidRecipientLength)
          else CreditInbound(s, AccountFromBytes(m.to).value, post.source, amount.value)
        case Garbled(_) => Err(InvalidPayload)
        case Order(intent) =>
          if intent.schemaVersion != PAYLOAD_SCHEMA_VERSION then Err(UnsupportedSchemaVersion)
          else if amount.Err? then Err(amount.error)
          else OnCrossOrder(cfg, s, post.source, amount.value, intent, h)
        case Withdraw(req) =>
          if req.schemaVersion != PAYLOAD_SCHEMA_VERSION then Err(UnsupportedSchemaVersion)
          else OnWithdraw(cfg, s, post.source, req)
  }

  /** The refund of a timed-out request: re-mint to the sender, un-book the lane, and
      hand a tracked payout's context to its handler. */
  function OnTimeout(cfg: Config, s: Storage, k: Commitment, h: Handler): Result<Storage> {
    match k
    case Get(_, _) => Err(UnsupportedTimeoutType)
    case Post(post) =>
      if post.dest !in s.chains then Err(UnregisteredChain)
      else if post.to != H160(s.chains[post.dest].contract) then Err(UnknownSourceContract)
      else match post.body
        case Undecodable(_) => Err(DecodeError)
        case Encoded(m) =>
          if AccountFromBytes(m.from).Err? then Err(InvalidSenderLength)
          else match DecodeAmount(cfg, m.amount, s.chains[post.dest].ercDecimals)
            case Err(e) => Err(e)
            case Ok(amount) =>
              match CreditInbound(s, AccountFromBytes(m.from).value, post.dest, amount)
              case Err(e) => Err(e)
              case Ok(credited) => Ok(NotifyRefund(cfg, credited, k, h))
  }

  function Taken(s: Storage, k: Commitment): Storage
    requires k in s.payoutRefunds
  {
    s.(payoutRefunds := s.payoutRefunds - {k},
       events := s.events + [ContextTaken(k, s.payoutRefunds[k].meta)])
  }

  /** Takes the refund context, if any; a failing handler is rolled back alone. */
  function NotifyRefund(cfg: Config, s: Storage, k: Commitment, h: Handler): Storage {
    if k !in s.payoutRefunds then s
    else
      var meta := s.payoutRefunds[k].meta;
      var taken := Taken(s, k);
      match RunHandler(cfg, taken, h)
      case Some(s1) => s1.(events := s1.events + [PayoutRefundNotified(k, meta, true)])
      case None => taken.(events := taken.events + [PayoutRefundNotified(k, meta, false)])
  }

  // --------------------------------------------------------------- calls by the users

  function ExecuteWithdraw(cfg: Config, s: Storage, id: nat, wire: Wire): Result<Storage> {
    if id !in s.pending then Err(WithdrawNotFound)
    else if s.now < s.pending[id].executeAt then Err(WithdrawNotDue)
    else
      var p := s.pending[id];
      match Outbound(cfg, s, p.owner, p.dest, p.recipient, p.amount, 0, wire)
      case Err(e) => Err(e)
      case Ok((s1, _)) => Ok(s1.(pending := s1.pending - {id}, events := s1.events + [WithdrawExecuted(id, s.now)]))
  }

  function CancelWithdraw(s: Storage, id: nat): Result<Storage> {
    if id !in s.pending then Err(WithdrawNotFound)
    else Ok(s.(pending := s.pending - {id}, events := s.events + [WithdrawCancelled(id)]))
  }

  predicate Stale(cfg: Config, s: Storage, k: Commitment) {
    k in s.payoutRefunds && SatSub(s.now, s.payoutRefunds[k].dispatchedAt) >= cfg.refundTtl
  }

  /** `visited` are the contexts a call examines, in storage order. */
  function Prune(cfg: Config, s: Storage, visited: seq<Commitment>): Storage {
    s.(payoutRefunds := map k | k in s.payoutRefunds && !(k in visited && Stale(cfg, s, k)) :: s.payoutRefunds[k])
  }

  function RegisterChain(cfg: Config, s: Storage, chain: Chain, contract: nat, ercDecimals: nat): Result<Storage> {
    if !chain.Evm? then Err(NotEvmChain)
    else if ercDecimals < cfg.nativeDecimals then Err(ErcDecimalsBelowLocal)
    else if ercDecimals - cfg.nativeDecimals > MAX_ERC_NATIVE_DECIMAL_GAP then Err(ErcDecimalsTooHigh)
    else Ok(s.(chains := s.chains[chain := ChainConfig(contract, ercDecimals)]))
  }

  // --------------------------------------------------- delivery by the message handler

  /** An inbound request: its receipt is kept exactly when the module accepts it. */
  function HandleAccept(cfg: Config, s: Storage, post: PostRequest, h: Handler): Result<Storage> {
    if Post(post) in s.host.receipts then Err(AlreadyHandled)
    else OnAccept(cfg, s.(host := s.host.(receipts := s.host.receipts + {Post(post)})), post, h)
  }

  /** A timed-out outbound request: its record goes, the module refunds the sender, and
      the relayer fee returns to whoever escrowed it. */
  function HandleTimeout(cfg: Config, s: Storage, k: Commitment, h: Handler): Result<Storage> {
    if k !in s.host.requests then Err(NotOutstanding)
    else match OnTimeout(cfg, s.(host := s.host.(requests := s.host.requests - {k})), k, h)
      case Err(e) => Err(e)
      case Ok(s1) =>
        match RefundFee(s1.bank, s.host.requests[k])
        case None => Err(FeeRefundFailed)
        case Some(b) => Ok(s1.(bank := b))
  }

  /** Anyone may add to the relayer fee of an outstanding request. */
  function TopUp(s: Storage, who: AccountId, k: Commitment, amount: nat): Result<Storage> {
    if k !in s.host.requests then Err(NotOutstanding)
    else match Fund(s.host, s.bank, who, k, amount)
      case None => Err(InsufficientFreeBalance)
      case Some((host, bank)) => Ok(s.(host := host, bank := bank))
  }

  // ---------------------------------------------------------------------- the machine

  datatype Op =
    | BridgeOut(who: AccountId, dest: Chain, recipient: nat, amount: nat, fee: nat, wire: Wire)
    | TrackedOut(who: AccountId, dest: Chain, recipient: nat, amount: nat, fee: nat, wire: Wire, meta: seq<nat>)
    | ExecuteOp(id: nat, wire: Wire)
    | CancelOp(id: nat)
    | PruneOp(visited: seq<Commitment>)
    | PauseOp(scope: Option<Chain>, flag: bool)
    | LimitsOp(perTx: nat, daily: nat)
    | RegisterOp(chain: Chain, contract: nat, ercDecimals: nat)
    | DeregisterOp(chain: Chain)
    | AcceptOp(post: PostRequest, handler: Handler)
    | TimeoutOp(commitment: Commitment, handler: Handler)
    | TopUpOp(who: AccountId, commitment: Commitment, amount: nat)
    | BusinessOp(handler: Handler)
    | NextBlock

  function SetPaused(s: Storage, scope: Option<Chain>, flag: bool): Storage {
    match scope
    case None => s.(paused := flag)
    case Some(c) => s.(pausedChains := if flag then s.pausedChains + {c} else s.pausedChains - {c})
  }

  function NextBlockNumber(now: nat): nat { if now < MAX_BLOCK then now + 1 else now }

  function Perform(cfg: Config, s: Storage, op: Op): Result<Storage> {
    match op
    case BridgeOut(who, dest, recipient, amount, fee, wire) =>
      (match Outbound(cfg, s, who, dest, recipient, amount, fee, wire)
       case Err(e) => Err(e)
       case Ok((s1, _)) => Ok(s1))
    case TrackedOut(who, dest, recipient, amount, fee, wire, meta) =>
      (match OutboundTracked(cfg, s, who, dest, recipient, amount, fee, wire, meta)
       case Err(e) => Err(e)
       case Ok((s1, _)) => Ok(s1))
    case ExecuteOp(id, wire) => ExecuteWithdraw(cfg, s, id, wire)
    case CancelOp(id) => CancelWithdraw(s, id)
    case PruneOp(visited) => Ok(Prune(cfg, s, visited))
    case PauseOp(scope, flag) => Ok(SetPaused(s, scope, flag))
    case LimitsOp(perTx, daily) => Ok(s.(perTxLimit := perTx, dailyLimit := daily))
    case RegisterOp(chain, contract, ercDecimals) => RegisterChain(cfg, s, chain, contract, ercDecimals)
    case DeregisterOp(chain) => Ok(s.(chains := s.chains - {chain}))
    case AcceptOp(post, handler) => HandleAccept(cfg, s, post, handler)
    case TimeoutOp(k, handler) => HandleTimeout(cfg, s, k, handler)
    case TopUpOp(who, k, amount) => TopUp(s, who, k, amount)
    case BusinessOp(handler) =>
      (match RunHandler(cfg, s, handler)
       case None => Err(DispatchFailed)
       case Some(s1) => Ok(s1))
    case NextBlock => Ok(s.(now := NextBlockNumber(s.now)))
  }

  /** One step of the chain: an operation that fails leaves the storage as it was. */
  function Step(cfg: Config, s: Storage, op: Op): Storage {
    match Perform(cfg, s, op)
    case Ok(s1) => s1
    case Err(_) => s
  }

  function Run(cfg: Config, s: Storage, ops: seq<Op>): Storage {
    if ops == [] then s else Step(cfg, Run(cfg, s, ops[..|ops| - 1]), ops[|ops| - 1])
  }
}
