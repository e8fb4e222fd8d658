/** Every successful operation of the bridge, with whatever its handlers do inside it,
    is a sequence of primitive storage changes. A property kept by each primitive is
    therefore kept by every operation and every run. */
module BridgeTrace {
  import opened Sums
  import opened Balances
  import opened Messages
  import opened IsmpHost
  import opened Precision
  import opened BridgeState

  datatype Primitive =
    | SendOut(who: AccountId, dest: Chain, recipient: nat, amount: nat, fee: nat, wire: Wire)
    | SendTracked(who: AccountId, dest: Chain, recipient: nat, amount: nat, fee: nat, wire: Wire, meta: seq<nat>)
    | ExecutePending(id: nat, wire: Wire)
    | CancelPending(id: nat)
    | QueueNew(owner: AccountId, dest: Chain, recipient: nat, amount: nat)
    | ReceiptOnly(post: PostRequest)
    | AcceptCredit(post: PostRequest, beneficiary: AccountId, amount: nat)
    | RefundCredit(k: Commitment, sender: AccountId, amount: nat)
    | TakeContext(k: Commitment)
    | MoveFunds(from: AccountId, to: AccountId, amount: nat)
    | RefundRelayerFee(escrowed: FeeMetadata)
    | TopUpRecord(who: AccountId, k: Commitment, amount: nat)
    | WriteBusiness(value: int)
    | NoteOrder(buyer: AccountId, placed: bool)
    | NoteRefund(k: Commitment, meta: seq<nat>, handled: bool)
    | PruneContexts(visited: seq<Commitment>)
    | Pause(scope: Option<Chain>, flag: bool)
    | Limit(perTx: nat, daily: nat)
    | AddChain(chain: Chain, contract: nat, ercDecimals: nat)
    | RemoveChain(chain: Chain)
    | Tick

  function AsOption<T>(r: Result<T>): Option<T> {
    match r { case Ok(v) => Some(v) case Err(_) => None }
  }

  function Received(s: Storage, post: PostRequest): Storage {
    s.(host := s.host.(receipts := s.host.receipts + {Post(post)}))
  }

  function Forgotten(s: Storage, k: Commitment): Storage {
    s.(host := s.host.(requests := s.host.requests - {k}))
  }

  /** An inbound request is worth `amount` on this lane. */
  predicate Worth(cfg: Config, s: Storage, lane: Chain, body: Body, amount: nat) {
    && lane in s.chains && body.Encoded?
    && DecodeAmount(cfg, body.message.amount, s.chains[lane].ercDecimals) == Ok(amount)
  }

  function Apply(cfg: Config, s: Storage, p: Primitive): Option<Storage> {
    match p
    case SendOut(who, dest, recipient, amount, fee, wire) =>
      (match Outbound(cfg, s, who, dest, recipient, amount, fee, wire) {
        case Ok((s1, _)) => Some(s1)
        case Err(_) => None
      })
    case SendTracked(who, dest, recipient, amount, fee, wire, meta) =>
      (match OutboundTracked(cfg, s, who, dest, recipient, amount, fee, wire, meta) {
        case Ok((s1, _)) => Some(s1)
        case Err(_) => None
      })
    case ExecutePending(id, wire) => AsOption(ExecuteWithdraw(cfg, s, id, wire))
    case CancelPending(id) => AsOption(CancelWithdraw(s, id))
    case QueueNew(owner, dest, recipient, amount) =>
      if amount < cfg.minAmount then None else Some(QueueWithdraw(cfg, s, owner, dest, recipient, amount))
    case ReceiptOnly(post) => if Post(post) in s.host.receipts then None else Some(Received(s, post))
    case AcceptCredit(post, beneficiary, amount) =>
      if Post(post) in s.host.receipts || !Worth(cfg, s, post.source, post.body, amount) then None
      else AsOption(CreditInbound(Received(s, post), beneficiary, post.source, amount))
    case RefundCredit(k, sender, amount) =>
      if k !in s.host.requests || k.Get? || !Worth(cfg, s, k.post.dest, k.post.body, amount) then None
      else AsOption(CreditInbound(Forgotten(s, k), sender, k.post.dest, amount))
    case TakeContext(k) =>
      if k !in s.payoutRefunds then None else Some(Taken(s, k))
    case MoveFunds(from, to, amount) =>
      (match s.bank.Transfer(from, to, amount, false) { case Some(b) => Some(s.(bank := b)) case None => None })
    case RefundRelayerFee(escrowed) =>
      (match RefundFee(s.bank, escrowed) { case Some(b) => Some(s.(bank := b)) case None => None })
    case TopUpRecord(who, k, amount) => AsOption(TopUp(s, who, k, amount))
    case WriteBusiness(value) => Some(s.(business := value))
    case NoteOrder(buyer, placed) => Some(s.(events := s.events + [CrossOrder(buyer, placed)]))
    case NoteRefund(k, meta, handled) => Some(s.(events := s.events + [PayoutRefundNotified(k, meta, handled)]))
    case PruneContexts(visited) => Some(Prune(cfg, s, visited))
    case Pause(scope, flag) => Some(SetPaused(s, scope, flag))
    case Limit(perTx, daily) => Some(s.(perTxLimit := perTx, dailyLimit := daily))
    case AddChain(chain, contract, ercDecimals) => AsOption(RegisterChain(cfg, s, chain, contract, ercDecimals))
    case RemoveChain(chain) => Some(s.(chains := s.chains - {chain}))
    case Tick => Some(s.(now := NextBlockNumber(s.now)))
  }

  predicate QuietEvent(e: Event) {
    e.Minted? || e.CrossOrder? || e.PayoutRefundNotified? || e.ContextTaken?
  }

  /** What every primitive that neither sends nor touches the queue leaves alone. */
  lemma QuietPrimitive(cfg: Config, s: Storage, p: Primitive)
    requires !p.SendOut? && !p.SendTracked? && !p.ExecutePending? && !p.CancelPending? && !p.QueueNew?
    requires Apply(cfg, s, p).Some?
    ensures var s' := Apply(cfg, s, p).value;
      && s'.windowStart == s.windowStart && s'.windowUsed == s.windowUsed
      && s'.pending == s.pending && s'.nextWithdrawId == s.nextWithdrawId
      && s'.host.nonce == s.host.nonce
      && (!p.Limit? ==> s'.dailyLimit == s.dailyLimit)
      && (!p.Tick? ==> s'.now == s.now)
      && (s'.events == s.events || exists e :: QuietEvent(e) && s'.events == s.events + [e])
  {
    hide Outbound, OutboundTracked, ExecuteWithdraw, CancelWithdraw, QueueWithdraw, Worth, Bank.Transfer, RefundFee,
        CreditInbound, RegisterChain, QuietEvent, TopUp;
    QuietEvents();
    if p.AcceptCredit? { CreditFrame(Received(s, p.post), p.beneficiary, p.post.source, p.amount); }
    else if p.RefundCredit? { CreditFrame(Forgotten(s, p.k), p.sender, p.k.post.dest, p.amount); }
    else if p.TakeContext? { assert QuietEvent(ContextTaken(p.k, s.payoutRefunds[p.k].meta)); }
    else if p.NoteOrder? { assert QuietEvent(CrossOrder(p.buyer, p.placed)); }
    else if p.NoteRefund? { assert QuietEvent(PayoutRefundNotified(p.k, p.meta, p.handled)); }
    else if p.AddChain? { RegisterFrame(cfg, s, p.chain, p.contract, p.ercDecimals); }
    else if p.TopUpRecord? { TopUpFrame(s, p.who, p.k, p.amount); }
  }

  /** What a top-up changes: one record's fee, and who holds it. */
  lemma TopUpFrame(s: Storage, who: AccountId, k: Commitment, amount: nat)
    requires TopUp(s, who, k, amount).Ok?
    ensures var s', meta := TopUp(s, who, k, amount).value, s.host.requests[k];
      && s.bank.PayFee(who, RelayerFees, amount) == Some(s'.bank)
      && s' == s.(bank := s'.bank, host := s.host.(requests := s'.host.requests))
      && s'.host.requests == s.host.requests[k := meta.(fee := Wrap128(meta.fee + amount))]
  {
    hide Bank.PayFee;
  }

  lemma QuietEvents()
    ensures forall e: Event ::
        e.Minted? || e.CrossOrder? || e.PayoutRefundNotified? || e.ContextTaken? ==> QuietEvent(e)
  {
  }

  /** What a credit changes of the storage, and what it notes. */
  lemma CreditFrame(s: Storage, beneficiary: AccountId, lane: Chain, amount: nat)
    requires CreditInbound(s, beneficiary, lane, amount).Ok?
    ensures var s' := CreditInbound(s, beneficiary, lane, amount).value;
      && s' == s.(bridgedOut := s'.bridgedOut, byChain := s'.byChain, bank := s'.bank, events := s'.events)
      && s'.events == s.events + [Minted(s.now, lane, beneficiary, amount)]
      && QuietEvent(Minted(s.now, lane, beneficiary, amount))
  {
  }

  lemma RegisterFrame(cfg: Config, s: Storage, chain: Chain, contract: nat, ercDecimals: nat)
    requires RegisterChain(cfg, s, chain, contract, ercDecimals).Ok?
    ensures RegisterChain(cfg, s, chain, contract, ercDecimals).value
        == s.(chains := s.chains[chain := ChainConfig(contract, ercDecimals)])
  {
  }

  function ApplyAll(cfg: Config, s: Storage, ps: seq<Primitive>): Option<Storage>
    decreases ps
  {
    if ps == [] then Some(s)
    else match Apply(cfg, s, ps[0])
      case None => None
      case Some(s1) => ApplyAll(cfg, s1, ps[1..])
  }

  lemma {:induction false} ApplyConcat(cfg: Config, s: Storage, ps: seq<Primitive>, qs: seq<Primitive>)
    ensures ApplyAll(cfg, s, ps + qs) ==
            match ApplyAll(cfg, s, ps) { case None => None case Some(s1) => ApplyAll(cfg, s1, qs) }
    decreases ps
  {
    hide Apply;
    if ps == [] {
      assert ps + qs == qs;
    } else {
      assert (ps + qs)[1..] == ps[1..] + qs;
      if Apply(cfg, s, ps[0]).Some? { ApplyConcat(cfg, Apply(cfg, s, ps[0]).value, ps[1..], qs); }
    }
  }

  lemma ApplyOne(cfg: Config, s: Storage, p: Primitive)
    ensures ApplyAll(cfg, s, [p]) == Apply(cfg, s, p)
  {
    hide Apply;
    assert [p][1..] == [];
    if Apply(cfg, s, p).Some? { assert ApplyAll(cfg, Apply(cfg, s, p).value, []).Some?; }
  }

  // ------------------------------------------------------- from operations to primitives

  function OfAction(a: Action): Primitive {
    match a
    case Move(from, to, amount) => MoveFunds(from, to, amount)
    case Payout(who, dest, recipient, amount, meta, wire) =>
      if meta == [] then SendOut(who, dest, recipient, amount, 0, wire)
      else SendTracked(who, dest, recipient, amount, 0, wire, meta)
    case Write(value) => WriteBusiness(value)
  }

  function OfActions(actions: seq<Action>): seq<Primitive> {
    if actions == [] then [] else [OfAction(actions[0])] + OfActions(actions[1..])
  }

  /** What a handler contributes: everything it did, or nothing when it failed. */
  function OfHandler(cfg: Config, s: Storage, h: Handler): seq<Primitive> {
    if RunHandler(cfg, s, h).Some? then OfActions(h.actions) else []
  }

  lemma {:induction false} HandlerKinds(actions: seq<Action>)
    ensures forall p :: p in OfActions(actions) ==> p.SendOut? || p.SendTracked? || p.MoveFunds? || p.WriteBusiness?
  {
    if actions != [] { HandlerKinds(actions[1..]); }
  }

  function AcceptTrace(cfg: Config, s: Storage, post: PostRequest, h: Handler): seq<Primitive>
    requires HandleAccept(cfg, s, post, h).Ok?
  {
    var m := post.body.message;
    var decimals := s.chains[post.source].ercDecimals;
    match m.data
    case Empty =>
      [AcceptCredit(post, AccountFromBytes(m.to).value, DecodeAmount(cfg, m.amount, decimals).value)]
    case Order(intent) =>
      var buyer, amount := Derived(intent.buyerEvm), DecodeAmount(cfg, m.amount, decimals).value;
      var credited := CreditInbound(Received(s, post), buyer, post.source, amount).value;
      [AcceptCredit(post, buyer, amount)] + (OfHandler(cfg, credited, h)
          + [NoteOrder(buyer, RunHandler(cfg, credited, h).Some?)])
    case Withdraw(req) =>
      [ReceiptOnly(post), QueueNew(Derived(req.ownerEvm), post.source, req.recipient,
          DecodeAmount(cfg, req.amount, decimals).value)]
    case Garbled(_) => []
  }

  function NotifyTrace(cfg: Config, s: Storage, k: Commitment, h: Handler): seq<Primitive> {
    if k !in s.payoutRefunds then []
    else
      var taken := Taken(s, k);
      [TakeContext(k)] + (OfHandler(cfg, taken, h)
          + [NoteRefund(k, s.payoutRefunds[k].meta, RunHandler(cfg, taken, h).Some?)])
  }

  function TimeoutTrace(cfg: Config, s: Storage, k: Commitment, h: Handler): seq<Primitive>
    requires HandleTimeout(cfg, s, k, h).Ok?
  {
    var m := k.post.body.message;
    var sender := AccountFromBytes(m.from).value;
    var amount := DecodeAmount(cfg, m.amount, s.chains[k.post.dest].ercDecimals).value;
    var credited := CreditInbound(Forgotten(s, k), sender, k.post.dest, amount).value;
    [RefundCredit(k, sender, amount)] + (NotifyTrace(cfg, credited, k, h) + [RefundRelayerFee(s.host.requests[k])])
  }

  function Trace(cfg: Config, s: Storage, op: Op): seq<Primitive>
    requires Perform(cfg, s, op).Ok?
  {
    match op
    case BridgeOut(who, dest, recipient, amount, fee, wire) => [SendOut(who, dest, recipient, amount, fee, wire)]
    case TrackedOut(who, dest, recipient, amount, fee, wire, meta) =>
      [SendTracked(who, dest, recipient, amount, fee, wire, meta)]
    case ExecuteOp(id, wire) => [ExecutePending(id, wire)]
    case CancelOp(id) => [CancelPending(id)]
    case PruneOp(visited) => [PruneContexts(visited)]
    case PauseOp(scope, flag) => [Pause(scope, flag)]
    case LimitsOp(perTx, daily) => [Limit(perTx, daily)]
    case RegisterOp(chain, contract, ercDecimals) => [AddChain(chain, contract, ercDecimals)]
    case DeregisterOp(chain) => [RemoveChain(chain)]
    case AcceptOp(post, handler) => AcceptTrace(cfg, s, post, handler)
    case TimeoutOp(k, handler) => TimeoutTrace(cfg, s, k, handler)
    case TopUpOp(who, k, amount) => [TopUpRecord(who, k, amount)]
    case BusinessOp(handler) => OfHandler(cfg, s, handler)
    case NextBlock => [Tick]
  }

  lemma ActIsPrimitive(cfg: Config, s: Storage, a: Action)
    requires Act(cfg, s, a).Some?
    ensures Apply(cfg, s, OfAction(a)) == Act(cfg, s, a)
  {
    hide Outbound, Bank.Transfer;
  }

  lemma {:induction false} HandlerTraced(cfg: Config, s: Storage, actions: seq<Action>)
    requires ActAll(cfg, s, actions).Some?
    ensures ApplyAll(cfg, s, OfActions(actions)) == ActAll(cfg, s, actions)
    decreases actions
  {
    hide Act, Apply;
    if actions != [] {
      ActIsPrimitive(cfg, s, actions[0]);
      HandlerTraced(cfg, Act(cfg, s, actions[0]).value, actions[1..]);
      assert OfActions(actions)[1..] == OfActions(actions[1..]);
    }
  }

  /** A handler between two primitives: `note` follows whatever the handler left. */
  lemma HandlerThen(cfg: Config, s: Storage, h: Handler, note: Primitive)
    ensures var after := match RunHandler(cfg, s, h) { case Some(s1) => s1 case None => s };
      ApplyAll(cfg, s, OfHandler(cfg, s, h) + [note]) == Apply(cfg, after, note)
  {
    hide Apply, ActAll;
    if RunHandler(cfg, s, h).Some? { HandlerTraced(cfg, s, h.actions); }
    ApplyConcat(cfg, s, OfHandler(cfg, s, h), [note]);
    match RunHandler(cfg, s, h) {
      case Some(s1) => ApplyOne(cfg, s1, note);
      case None => ApplyOne(cfg, s, note);
    }
  }

  lemma ApplyCons(cfg: Config, s: Storage, p: Primitive, ps: seq<Primitive>)
    requires Apply(cfg, s, p).Some?
    ensures ApplyAll(cfg, s, [p] + ps) == ApplyAll(cfg, Apply(cfg, s, p).value, ps)
  {
    hide Apply;
    assert ([p] + ps)[1..] == ps;
  }

  lemma CrossOrderTraced(cfg: Config, s: Storage, post: PostRequest, intent: OrderIntent, amount: nat, h: Handler)
    requires Post(post) !in s.host.receipts && Worth(cfg, s, post.source, post.body, amount)
    requires OnCrossOrder(cfg, Received(s, post), post.source, amount, intent, h).Ok?
    ensures var buyer := Derived(intent.buyerEvm);
      var credited := CreditInbound(Received(s, post), buyer, post.source, amount).value;
      ApplyAll(cfg, s, [AcceptCredit(post, buyer, amount)]
          + (OfHandler(cfg, credited, h) + [NoteOrder(buyer, RunHandler(cfg, credited, h).Some?)]))
        == Some(OnCrossOrder(cfg, Received(s, post), post.source, amount, intent, h).value)
  {
    hide CreditInbound, RunHandler, Worth, OfHandler;
    var buyer := Derived(intent.buyerEvm);
    var credited := CreditInbound(Received(s, post), buyer, post.source, amount).value;
    var note := NoteOrder(buyer, RunHandler(cfg, credited, h).Some?);
    HandlerThen(cfg, credited, h, note);
    ApplyCons(cfg, s, AcceptCredit(post, buyer, amount), OfHandler(cfg, credited, h) + [note]);
  }

  lemma AcceptTraced(cfg: Config, s: Storage, post: PostRequest, h: Handler)
    requires HandleAccept(cfg, s, post, h).Ok?
    ensures ApplyAll(cfg, s, AcceptTrace(cfg, s, post, h)) == Some(HandleAccept(cfg, s, post, h).value)
  {
    hide CreditInbound, OnCrossOrder, QueueWithdraw, DecodeAmount, RunHandler;
    var m := post.body.message;
    var decimals := s.chains[post.source].ercDecimals;
    match m.data {
      case Empty => ApplyOne(cfg, s, AcceptTrace(cfg, s, post, h)[0]);
      case Garbled(_) =>
      case Order(intent) =>
        CrossOrderTraced(cfg, s, post, intent, DecodeAmount(cfg, m.amount, decimals).value, h);
      case Withdraw(req) =>
        var amount := DecodeAmount(cfg, req.amount, decimals).value;
        AmountReachesMinimum(cfg, req.amount, decimals);
        var queue := QueueNew(Derived(req.ownerEvm), post.source, req.recipient, amount);
        ApplyCons(cfg, s, ReceiptOnly(post), [queue]);
        ApplyOne(cfg, Received(s, post), queue);
    }
  }

  lemma AmountReachesMinimum(cfg: Config, ercAmount: nat, ercDecimals: nat)
    ensures var r := DecodeAmount(cfg, ercAmount, ercDecimals);
      r.Ok? ==> r.value >= cfg.minAmount
  {
  }

  lemma NotifyTraced(cfg: Config, s: Storage, k: Commitment, h: Handler)
    ensures ApplyAll(cfg, s, NotifyTrace(cfg, s, k, h)) == Some(NotifyRefund(cfg, s, k, h))
  {
    hide RunHandler, OfHandler;
    if k in s.payoutRefunds {
      var taken := Taken(s, k);
      var note := NoteRefund(k, s.payoutRefunds[k].meta, RunHandler(cfg, taken, h).Some?);
      HandlerThen(cfg, taken, h, note);
      ApplyCons(cfg, s, TakeContext(k), OfHandler(cfg, taken, h) + [note]);
    }
  }

  lemma TimeoutTraced(cfg: Config, s: Storage, k: Commitment, h: Handler)
    requires HandleTimeout(cfg, s, k, h).Ok?
    ensures ApplyAll(cfg, s, TimeoutTrace(cfg, s, k, h)) == Some(HandleTimeout(cfg, s, k, h).value)
  {
    hide CreditInbound, NotifyRefund, DecodeAmount, NotifyTrace, RefundFee;
    var m := k.post.body.message;
    var sender := AccountFromBytes(m.from).value;
    var amount := DecodeAmount(cfg, m.amount, s.chains[k.post.dest].ercDecimals).value;
    var credited := CreditInbound(Forgotten(s, k), sender, k.post.dest, amount).value;
    var last := RefundRelayerFee(s.host.requests[k]);
    NotifyTraced(cfg, credited, k, h);
    ApplyConcat(cfg, credited, NotifyTrace(cfg, credited, k, h), [last]);
    ApplyOne(cfg, NotifyRefund(cfg, credited, k, h), last);
    ApplyCons(cfg, s, RefundCredit(k, sender, amount), NotifyTrace(cfg, credited, k, h) + [last]);
  }

  /** The trace of a successful operation leads exactly where the operation leads. */
  lemma OperationTraced(cfg: Config, s: Storage, op: Op)
    requires Perform(cfg, s, op).Ok?
    ensures ApplyAll(cfg, s, Trace(cfg, s, op)) == Some(Perform(cfg, s, op).value)
  {
    hide Outbound, OutboundTracked, ExecuteWithdraw, HandleAccept, HandleTimeout, AcceptTrace, TimeoutTrace, Prune,
        ActAll, OfHandler;
    match op {
      case AcceptOp(post, handler) => AcceptTraced(cfg, s, post, handler);
      case TimeoutOp(k, handler) => TimeoutTraced(cfg, s, k, handler);
      case BusinessOp(handler) => BusinessTraced(cfg, s, handler);
      case _ => ApplyOne(cfg, s, Trace(cfg, s, op)[0]);
    }
  }

  lemma BusinessTraced(cfg: Config, s: Storage, h: Handler)
    requires RunHandler(cfg, s, h).Some?
    ensures ApplyAll(cfg, s, OfHandler(cfg, s, h)) == RunHandler(cfg, s, h)
  {
    hide Apply;
    HandlerTraced(cfg, s, h.actions);
  }
}
