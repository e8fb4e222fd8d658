/** Two-chain safety. The other chains of the bridge mint on delivery and burn on send;
    every request is delivered or timed out, never both; a lane keeps its decimals. Then
    each lane's booked amount always covers what is in flight out, what exists over there
    and what is in flight back, so no legitimate mint or refund is ever refused. */
module TwoChain {
  import opened Sums
  import opened Balances
  import opened Messages
  import opened Precision
  import opened IsmpHost
  import opened BridgeState
  import opened BridgeTrace
  import opened BridgeLaws
  import opened BridgeRefunds
  import opened LaneCover

  /** `supply` counts the bridged token on each other chain, `inbound` holds the requests
      sent from there and neither accepted here nor taken back. */
  datatype World = World(
    s: Storage, delivered: set<Commitment>, supply: map<Chain, nat>, inbound: set<PostRequest>)

  /** The decimals of every lane, for as long as the world runs. */
  type Lanes = map<Chain, nat>

  datatype Move =
    | Local(op: Op)
    | Deliver(k: Commitment)
    | SendBack(post: PostRequest)
    | TakeBack(post: PostRequest)

  /** How many ERC-20 units one native unit is worth on a lane. */
  function Unit(cfg: Config, lanes: Lanes, lane: Chain): nat {
    Pow10(SatSub(At(lanes, lane), cfg.nativeDecimals))
  }

  predicate Toward(k: Commitment, lane: Chain) { k.Post? && k.post.dest == lane }

  function SentAmount(k: Commitment): nat {
    if k.Post? && k.post.body.Encoded? then k.post.body.message.amount else 0
  }

  /** What the other chain burns to send a request: nothing for a withdrawal order. */
  function Backing(post: PostRequest): nat {
    if post.body.Encoded? && (post.body.message.data.Empty? || post.body.message.data.Order?)
    then post.body.message.amount else 0
  }

  function OutFlight(requests: map<Commitment, FeeMetadata>, delivered: set<Commitment>, lane: Chain): map<Commitment,
                     nat> {
    map k | k in requests && k !in delivered && Toward(k, lane) :: SentAmount(k)
  }

  function InFlight(inbound: set<PostRequest>, lane: Chain): map<PostRequest, nat> {
    map post | post in inbound && post.source == lane :: Backing(post)
  }

  /** Everything a lane owes: in flight out, existing there, in flight back. */
  ghost function Owed(w: World, lane: Chain): nat {
    SumOf(OutFlight(w.s.host.requests, w.delivered, lane)) + At(w.supply, lane) + SumOf(InFlight(w.inbound, lane))
  }

  /** How many credits a lane has seen. */
  function CreditCount(events: seq<Event>, lane: Chain): nat {
    if events == [] then 0
    else
      var e := events[|events| - 1];
      CreditCount(events[..|events| - 1], lane) + if e.Minted? && e.lane == lane then 1 else 0
  }

  /** The booked amount covers what is owed, and exceeds it by conversion dust only:
      less than one native unit for every credit. */
  ghost predicate Backed(cfg: Config, lanes: Lanes, w: World, lane: Chain) {
    Covers(At(w.s.byChain, lane), Unit(cfg, lanes, lane), Owed(w, lane), CreditCount(w.s.events, lane))
  }

  /** An outstanding request can be refunded, and refunds exactly what it carries. */
  predicate Refundable(cfg: Config, lanes: Lanes, k: Commitment) {
    && k.Post? && k.post.body.Encoded? && k.post.body.message.from.Bytes32?
    && var back := DecodeAmount(cfg, SentAmount(k), At(lanes, k.post.dest));
       back.Ok? && back.value * Unit(cfg, lanes, k.post.dest) == SentAmount(k)
  }

  ghost predicate Consistent(cfg: Config, lanes: Lanes, w: World) {
    && (forall c :: c in w.s.chains ==> w.s.chains[c].ercDecimals == At(lanes, c))
    && w.delivered <= w.s.host.requests.Keys
    && (forall k :: k in w.s.host.requests ==> Refundable(cfg, lanes, k))
    && (forall lane :: Backed(cfg, lanes, w, lane))
  }

  // ------------------------------------------------------------------------ the moves

  /** A request the counterparty's own contract sent. */
  predicate Genuine(s: Storage, post: PostRequest) {
    post.source in s.chains && post.from == H160(s.chains[post.source].contract)
  }

  /** What the environment may do: a genuine inbound request is one that was sent, a
      request is timed out only if undelivered and delivered only while outstanding, a
      lane keeps its decimals, and nobody over there spends what does not exist. */
  predicate Possible(lanes: Lanes, w: World, m: Move) {
    match m
    case Local(op) =>
      && (op.AcceptOp? && Genuine(w.s, op.post) ==> op.post in w.inbound)
      && (op.TimeoutOp? ==> op.commitment !in w.delivered)
      && (op.RegisterOp? ==> op.ercDecimals == At(lanes, op.chain))
    case Deliver(k) => k.Post? && k in w.s.host.requests && k !in w.delivered
    case SendBack(post) => post !in w.inbound && Backing(post) <= At(w.supply, post.source)
    case TakeBack(post) => post in w.inbound
  }

  function Remaining(cfg: Config, w: World, op: Op): set<PostRequest> {
    if op.AcceptOp? && Perform(cfg, w.s, op).Ok? then w.inbound - {op.post} else w.inbound
  }

  function Next(cfg: Config, lanes: Lanes, w: World, m: Move): World {
    if !Possible(lanes, w, m) then w
    else match m
      case Local(op) => w.(s := Step(cfg, w.s, op), inbound := Remaining(cfg, w, op))
      case Deliver(k) =>
        w.(delivered := w.delivered + {k},
           supply := w.supply[k.post.dest := At(w.supply, k.post.dest) + SentAmount(k)])
      case SendBack(post) =>
        w.(inbound := w.inbound + {post},
           supply := w.supply[post.source := At(w.supply, post.source) - Backing(post)])
      case TakeBack(post) =>
        w.(inbound := w.inbound - {post},
           supply := w.supply[post.source := At(w.supply, post.source) + Backing(post)])
  }

  function RunWorld(cfg: Config, lanes: Lanes, w: World, moves: seq<Move>): World {
    if moves == [] then w
    else Next(cfg, lanes, RunWorld(cfg, lanes, w, moves[..|moves| - 1]), moves[|moves| - 1])
  }

  // --------------------------------------------------------------------- small lemmas

  lemma CreditsAppend(events: seq<Event>, e: Event)
    ensures forall lane ::
        CreditCount(events + [e], lane) == CreditCount(events, lane) + if e.Minted? && e.lane == lane then 1 else 0
  {
    assert (events + [e])[..|events|] == events;
  }

  lemma OutFlightSend(requests: map<Commitment, FeeMetadata>, delivered: set<Commitment>, k: Commitment,
                      meta: FeeMetadata, lane: Chain)
    requires k !in requests && delivered <= requests.Keys
    ensures SumOf(OutFlight(requests[k := meta], delivered, lane))
         == SumOf(OutFlight(requests, delivered, lane)) + if Toward(k, lane) then SentAmount(k) else 0
  {
    var before, after := OutFlight(requests, delivered, lane), OutFlight(requests[k := meta], delivered, lane);
    if Toward(k, lane) {
      assert after == before[k := SentAmount(k)];
      SumWrite(before, k, SentAmount(k));
    } else {
      assert after == before;
    }
  }

  lemma OutFlightGone(requests: map<Commitment, FeeMetadata>, delivered: set<Commitment>, k: Commitment, lane: Chain)
    requires k in requests && k !in delivered
    ensures SumOf(OutFlight(requests, delivered, lane))
         == SumOf(OutFlight(requests - {k}, delivered, lane)) + if Toward(k, lane) then SentAmount(k) else 0
    ensures OutFlight(requests, delivered + {k}, lane) == OutFlight(requests - {k}, delivered, lane)
  {
    var before, after := OutFlight(requests, delivered, lane), OutFlight(requests - {k}, delivered, lane);
    if Toward(k, lane) {
      assert after == before - {k};
      SumWithout(before, k);
    } else {
      assert after == before;
    }
  }

  lemma InFlightGone(inbound: set<PostRequest>, post: PostRequest, lane: Chain)
    requires post in inbound
    ensures SumOf(InFlight(inbound, lane))
         == SumOf(InFlight(inbound - {post}, lane)) + if post.source == lane then Backing(post) else 0
  {
    var before, after := InFlight(inbound, lane), InFlight(inbound - {post}, lane);
    if post.source == lane {
      assert after == before - {post};
      SumWithout(before, post);
    } else {
      assert after == before;
    }
  }

  /** What a decoded amount is worth: the claim, less dust below one unit. */
  lemma DecodedWorth(cfg: Config, lanes: Lanes, lane: Chain, claim: nat, amount: nat)
    requires SatSub(At(lanes, lane), cfg.nativeDecimals) <= MAX_ERC_NATIVE_DECIMAL_GAP
    requires DecodeAmount(cfg, claim, At(lanes, lane)) == Ok(amount)
    ensures amount * Unit(cfg, lanes, lane) <= claim < amount * Unit(cfg, lanes, lane) + Unit(cfg, lanes, lane)
  {
    hide ConvertToBalance;
    ToErc20IsProduct(amount, At(lanes, lane), cfg.nativeDecimals);
    DustBelowOneUnit(claim, amount, At(lanes, lane), cfg.nativeDecimals);
  }

  // ------------------------------------------------------------- steps keep the world

  /** One lane after a request of `amount` native units was booked and recorded. */
  lemma SendBacked(cfg: Config, lanes: Lanes, w: World, s1: Storage, k: Commitment, meta: FeeMetadata, dest: Chain,
                   amount: nat, burn: Event, lane: Chain)
    requires Backed(cfg, lanes, w, lane) && w.delivered <= w.s.host.requests.Keys && k !in w.s.host.requests
    requires k.Post? && k.post.dest == dest && SentAmount(k) == amount * Unit(cfg, lanes, dest)
    requires s1.byChain == w.s.byChain[dest := At(w.s.byChain, dest) + amount]
    requires s1.host.requests == w.s.host.requests[k := meta]
    requires burn.Burned? && s1.events == w.s.events + [burn]
    ensures Backed(cfg, lanes, w.(s := s1), lane)
  {
    hide Covers, Unit;
    CreditsAppend(w.s.events, burn);
    OutFlightSend(w.s.host.requests, w.delivered, k, meta, lane);
    if lane == dest {
      CoversMore(At(w.s.byChain, lane), Unit(cfg, lanes, lane), Owed(w, lane), CreditCount(w.s.events, lane), amount);
    }
  }

  lemma SendSafe(cfg: Config, lanes: Lanes, w: World, total: nat, who: AccountId, dest: Chain, recipient: nat,
                 amount: nat, fee: nat, wire: Wire)
    requires Lawful(cfg, w.s, total) && Consistent(cfg, lanes, w)
    requires Outbound(cfg, w.s, who, dest, recipient, amount, fee, wire).Ok?
    ensures Consistent(cfg, lanes, w.(s := Outbound(cfg, w.s, who, dest, recipient, amount, fee, wire).value.0))
  {
    hide Outbound, Refundable, Numbered, OutboundDraft, Toward, SentAmount, Backed, Unit, CurrentWindow;
    OutboundEffect(cfg, w.s, who, dest, recipient, amount, fee, wire);
    OutboundLawful(cfg, w.s, total, who, dest, recipient, amount, fee, wire);
    var (s1, k) := Outbound(cfg, w.s, who, dest, recipient, amount, fee, wire).value;
    SentIsRefundable(cfg, lanes, w.s, who, dest, recipient, amount, wire);
    forall lane ensures Backed(cfg, lanes, w.(s := s1), lane) {
      SendBacked(cfg, lanes, w, s1, k, FeeMetadata(who, fee), dest, amount, Burned(w.s.now, dest, who, amount), lane);
    }
  }

  lemma SentIsRefundable(cfg: Config, lanes: Lanes, s: Storage, who: AccountId, dest: Chain, recipient: nat,
                         amount: nat, wire: Wire)
    requires DecimalsCapped(cfg, s) && dest in s.chains && s.chains[dest].ercDecimals == At(lanes, dest)
    requires cfg.minAmount <= amount <= MAX_BALANCE
    ensures var k := Numbered(OutboundDraft(cfg, s.chains[dest], who, dest, recipient, amount, wire), s.host.nonce);
      Refundable(cfg, lanes, k) && k.Post? && k.post.dest == dest && SentAmount(k) == amount * Unit(cfg, lanes, dest)
  {
    hide ConvertToBalance;
    var decimals := s.chains[dest].ercDecimals;
    RoundTrip(amount, decimals, cfg.nativeDecimals);
    ToErc20IsProduct(amount, decimals, cfg.nativeDecimals);
  }

  /** A change that touches no lane, adds or removes no record, and mints nothing. */
  lemma QuietSafe(cfg: Config, lanes: Lanes, w: World, s1: Storage)
    requires Consistent(cfg, lanes, w)
    requires s1.byChain == w.s.byChain && s1.host.requests.Keys == w.s.host.requests.Keys
    requires forall c :: c in s1.chains ==> s1.chains[c].ercDecimals == At(lanes, c)
    requires s1.events == w.s.events || exists e: Event :: !e.Minted? && s1.events == w.s.events + [e]
    ensures Consistent(cfg, lanes, w.(s := s1))
  {
    hide Refundable, Covers, Unit;
    if s1.events != w.s.events {
      var e: Event :| !e.Minted? && s1.events == w.s.events + [e];
      CreditsAppend(w.s.events, e);
    }
    forall lane ensures Backed(cfg, lanes, w.(s := s1), lane) {
      assert Backed(cfg, lanes, w, lane);
      assert OutFlight(s1.host.requests, w.delivered, lane) == OutFlight(w.s.host.requests, w.delivered, lane);
    }
  }

  lemma TrackedSafe(cfg: Config, lanes: Lanes, w: World, total: nat, who: AccountId, dest: Chain, recipient: nat,
                    amount: nat, fee: nat, wire: Wire, meta: seq<nat>)
    requires Lawful(cfg, w.s, total) && Consistent(cfg, lanes, w)
    requires OutboundTracked(cfg, w.s, who, dest, recipient, amount, fee, wire, meta).Ok?
    ensures Consistent(cfg, lanes, w.(s := OutboundTracked(cfg, w.s, who, dest, recipient, amount, fee, wire,
        meta).value.0))
  {
    hide Outbound, Refundable, Backed, Lawful;
    SendSafe(cfg, lanes, w, total, who, dest, recipient, amount, fee, wire);
    var (s1, k) := Outbound(cfg, w.s, who, dest, recipient, amount, fee, wire).value;
    QuietSafe(cfg, lanes, w.(s := s1), OutboundTracked(cfg, w.s, who, dest, recipient, amount, fee, wire,
        meta).value.0);
  }

  lemma ExecuteSafe(cfg: Config, lanes: Lanes, w: World, total: nat, id: nat, wire: Wire)
    requires Lawful(cfg, w.s, total) && Consistent(cfg, lanes, w) && ExecuteWithdraw(cfg, w.s, id, wire).Ok?
    ensures Consistent(cfg, lanes, w.(s := ExecuteWithdraw(cfg, w.s, id, wire).value))
  {
    hide Outbound, Refundable, Backed, Lawful;
    var p := w.s.pending[id];
    SendSafe(cfg, lanes, w, total, p.owner, p.dest, p.recipient, p.amount, 0, wire);
    var s1 := Outbound(cfg, w.s, p.owner, p.dest, p.recipient, p.amount, 0, wire).value.0;
    QuietSafe(cfg, lanes, w.(s := s1), ExecuteWithdraw(cfg, w.s, id, wire).value);
  }

  /** Primitives other than a delivery, a refund or a registration. */
  predicate Inner(p: Primitive) {
    !p.AcceptCredit? && !p.ReceiptOnly? && !p.RefundCredit? && !p.AddChain?
  }

  lemma LanesFrame(cfg: Config, s: Storage, p: Primitive)
    requires Inner(p) && !p.SendOut? && !p.SendTracked? && !p.ExecutePending? && Apply(cfg, s, p).Some?
    ensures var s1 := Apply(cfg, s, p).value;
      && s1.byChain == s.byChain && s1.host.requests.Keys == s.host.requests.Keys
      && (forall c :: c in s1.chains ==> c in s.chains && s1.chains[c] == s.chains[c])
      && (s1.events == s.events || exists e: Event :: !e.Minted? && s1.events == s.events + [e])
  {
    hide Bank.Transfer, RefundFee, Outbound, OutboundTracked, ExecuteWithdraw, Worth, CreditInbound, RegisterChain;
    var s1 := Apply(cfg, s, p).value;
    if p.CancelPending? { assert s1.events == s.events + [WithdrawCancelled(p.id)]; }
    else if p.QueueNew? { assert s1.events == s.events + [s1.events[|s.events|]]; }
    else if p.TakeContext? { assert s1.events == s.events + [ContextTaken(p.k, s.payoutRefunds[p.k].meta)]; }
    else if p.NoteOrder? { assert s1.events == s.events + [CrossOrder(p.buyer, p.placed)]; }
    else if p.NoteRefund? { assert s1.events == s.events + [PayoutRefundNotified(p.k, p.meta, p.handled)]; }
    else if p.TopUpRecord? { TopUpFrame(s, p.who, p.k, p.amount); }
    else { assert s1.events == s.events; }
  }

  lemma InnerSafe(cfg: Config, lanes: Lanes, w: World, total: nat, p: Primitive)
    requires Lawful(cfg, w.s, total) && Consistent(cfg, lanes, w) && Inner(p) && Apply(cfg, w.s, p).Some?
    ensures Consistent(cfg, lanes, w.(s := Apply(cfg, w.s, p).value))
  {
    hide Outbound, OutboundTracked, ExecuteWithdraw, Refundable, Backed, Lawful;
    if p.SendOut? { SendSafe(cfg, lanes, w, total, p.who, p.dest, p.recipient, p.amount, p.fee, p.wire); }
    else if p.SendTracked? {
      TrackedSafe(cfg, lanes, w, total, p.who, p.dest, p.recipient, p.amount, p.fee, p.wire, p.meta);
    }
    else if p.ExecutePending? { ExecuteSafe(cfg, lanes, w, total, p.id, p.wire); }
    else {
      LanesFrame(cfg, w.s, p);
      QuietSafe(cfg, lanes, w, Apply(cfg, w.s, p).value);
    }
  }

  lemma {:induction false} InnersSafe(cfg: Config, lanes: Lanes, w: World, total: nat, ps: seq<Primitive>)
    requires cfg.Sound() && Lawful(cfg, w.s, total) && Consistent(cfg, lanes, w)
    requires (forall p :: p in ps ==> Inner(p)) && ApplyAll(cfg, w.s, ps).Some?
    ensures Consistent(cfg, lanes, w.(s := ApplyAll(cfg, w.s, ps).value))
    decreases ps
  {
    hide Apply, Lawful, Consistent;
    if ps != [] {
      InnerSafe(cfg, lanes, w, total, ps[0]);
      PrimitiveLawful(cfg, w.s, total, ps[0]);
      InnersSafe(cfg, lanes, w.(s := Apply(cfg, w.s, ps[0]).value), total, ps[1..]);
    }
  }

  /** One lane after a credit of `amount` that consumed `claim` ERC-20 units. */
  lemma CreditBacked(cfg: Config, lanes: Lanes, w: World, w1: World, at: Chain, amount: nat, claim: nat, mint: Event,
                     lane: Chain)
    requires Backed(cfg, lanes, w, lane)
    requires SatSub(At(lanes, at), cfg.nativeDecimals) <= MAX_ERC_NATIVE_DECIMAL_GAP
    requires DecodeAmount(cfg, claim, At(lanes, at)) == Ok(amount) && amount <= At(w.s.byChain, at)
    requires w1.s.byChain == w.s.byChain[at := At(w.s.byChain, at) - amount]
    requires mint.Minted? && mint.lane == at && w1.s.events == w.s.events + [mint]
    requires Owed(w, lane) == Owed(w1, lane) + if lane == at then claim else 0
    ensures Backed(cfg, lanes, w1, lane)
  {
    hide Covers, Unit, DecodeAmount, Owed;
    CreditsAppend(w.s.events, mint);
    if lane == at {
      DecodedWorth(cfg, lanes, lane, claim, amount);
      CoversCredit(At(w.s.byChain, lane), Unit(cfg, lanes, lane), Owed(w, lane), CreditCount(w.s.events, lane), amount,
          claim);
    }
  }

  /** An accepted transfer or order leaves flight and un-books its lane. */
  lemma AcceptSafe(cfg: Config, lanes: Lanes, w: World, post: PostRequest, beneficiary: AccountId, amount: nat)
    requires DecimalsCapped(cfg, w.s) && Consistent(cfg, lanes, w) && post in w.inbound
    requires Backing(post) == SentAmount(Post(post))
    requires Apply(cfg, w.s, AcceptCredit(post, beneficiary, amount)).Some?
    ensures Consistent(cfg, lanes, w.(s := Apply(cfg, w.s, AcceptCredit(post, beneficiary, amount)).value,
        inbound := w.inbound - {post}))
  {
    hide Refundable, DecodeAmount, Backed;
    var w1 := w.(s := Apply(cfg, w.s, AcceptCredit(post, beneficiary, amount)).value, inbound := w.inbound - {post});
    forall lane ensures Backed(cfg, lanes, w1, lane) {
      InFlightGone(w.inbound, post, lane);
      CreditBacked(cfg, lanes, w, w1, post.source, amount, Backing(post),
          Minted(w.s.now, post.source, beneficiary, amount), lane);
    }
  }

  /** A timed-out request leaves flight and un-books its lane. */
  lemma RefundSafe(cfg: Config, lanes: Lanes, w: World, k: Commitment, sender: AccountId, amount: nat)
    requires DecimalsCapped(cfg, w.s) && Consistent(cfg, lanes, w) && k !in w.delivered
    requires Apply(cfg, w.s, RefundCredit(k, sender, amount)).Some?
    ensures Consistent(cfg, lanes, w.(s := Apply(cfg, w.s, RefundCredit(k, sender, amount)).value))
  {
    hide Refundable, DecodeAmount, Backed;
    var w1 := w.(s := Apply(cfg, w.s, RefundCredit(k, sender, amount)).value);
    forall lane ensures Backed(cfg, lanes, w1, lane) {
      OutFlightGone(w.s.host.requests, w.delivered, k, lane);
      CreditBacked(cfg, lanes, w, w1, k.post.dest, amount, SentAmount(k), Minted(w.s.now, k.post.dest, sender, amount),
          lane);
    }
  }

  /** A withdrawal order leaves flight; it was backed by nothing. */
  lemma ReceiptSafe(cfg: Config, lanes: Lanes, w: World, post: PostRequest)
    requires Consistent(cfg, lanes, w) && post in w.inbound && Backing(post) == 0
    ensures Consistent(cfg, lanes, w.(s := Received(w.s, post), inbound := w.inbound - {post}))
  {
    hide Refundable, Covers, Unit;
    forall lane ensures Backed(cfg, lanes, w.(s := Received(w.s, post), inbound := w.inbound - {post}), lane) {
      assert Backed(cfg, lanes, w, lane);
      InFlightGone(w.inbound, post, lane);
    }
  }

  // --------------------------------------------------------- a whole move, a whole run

  /** Past its first primitive, an operation does nothing the world must watch. */
  lemma TraceShape(cfg: Config, s: Storage, op: Op)
    requires Perform(cfg, s, op).Ok?
    ensures var ps := Trace(cfg, s, op);
      && (!op.AcceptOp? && !op.TimeoutOp? && !op.RegisterOp? ==> forall p :: p in ps ==> Inner(p))
      && (op.AcceptOp? || op.TimeoutOp? ==> ps != [] && forall p :: p in ps[1..] ==> Inner(p))
      && (!op.TopUpOp? ==> forall p :: p in ps ==> !p.TopUpRecord?)
  {
    hide HandleAccept, HandleTimeout, Outbound, OutboundTracked, ExecuteWithdraw, AcceptTrace, TimeoutTrace, OfActions,
        RunHandler;
    if op.AcceptOp? { AcceptShape(cfg, s, op.post, op.handler); }
    else if op.TimeoutOp? { TimeoutShape(cfg, s, op.commitment, op.handler); }
    else if op.BusinessOp? { HandlerKinds(op.handler.actions); }
  }

  lemma TimeoutShape(cfg: Config, s: Storage, k: Commitment, h: Handler)
    requires HandleTimeout(cfg, s, k, h).Ok?
    ensures var ps := TimeoutTrace(cfg, s, k, h);
      ps != [] && (forall p :: p in ps[1..] ==> Inner(p)) && forall p :: p in ps ==> !p.TopUpRecord?
  {
    hide HandleTimeout, CreditInbound, DecodeAmount, RunHandler, OfActions, AccountFromBytes;
    HandlerKinds(h.actions);
  }

  lemma AcceptShape(cfg: Config, s: Storage, post: PostRequest, h: Handler)
    requires HandleAccept(cfg, s, post, h).Ok?
    ensures var ps := AcceptTrace(cfg, s, post, h);
      && ps != [] && (forall p :: p in ps[1..] ==> Inner(p)) && (forall p :: p in ps ==> !p.TopUpRecord?)
      && Genuine(s, post) && post.body.Encoded?
      && (if post.body.message.data.Withdraw? then ps[0] == ReceiptOnly(post)
          else ps[0].AcceptCredit? && ps[0].post == post && Backing(post) == SentAmount(Post(post)))
  {
    hide CreditInbound, DecodeAmount, RunHandler, OnCrossOrder, QueueWithdraw, OfActions;
    HandlerKinds(h.actions);
  }

  lemma AcceptMoveSafe(cfg: Config, lanes: Lanes, w: World, total: nat, post: PostRequest, h: Handler)
    requires cfg.Sound() && Lawful(cfg, w.s, total) && Consistent(cfg, lanes, w)
    requires post in w.inbound && HandleAccept(cfg, w.s, post, h).Ok?
    ensures Consistent(cfg, lanes, w.(s := HandleAccept(cfg, w.s, post, h).value, inbound := w.inbound - {post}))
  {
    hide HandleAccept, AcceptTrace, Apply, Lawful, Consistent;
    AcceptShape(cfg, w.s, post, h);
    AcceptTraced(cfg, w.s, post, h);
    var ps := AcceptTrace(cfg, w.s, post, h);
    var w1 := w.(s := Apply(cfg, w.s, ps[0]).value, inbound := w.inbound - {post});
    PrimitiveLawful(cfg, w.s, total, ps[0]);
    LawfulCaps(cfg, w.s, total);
    if ps[0].AcceptCredit? {
      AcceptSafe(cfg, lanes, w, post, ps[0].beneficiary, ps[0].amount);
    } else {
      ReceiptApplies(cfg, w.s, post);
      ReceiptSafe(cfg, lanes, w, post);
    }
    InnersSafe(cfg, lanes, w1, total, ps[1..]);
  }

  lemma ReceiptApplies(cfg: Config, s: Storage, post: PostRequest)
    requires Apply(cfg, s, ReceiptOnly(post)).Some?
    ensures Apply(cfg, s, ReceiptOnly(post)).value == Received(s, post)
  {
  }

  lemma LawfulCaps(cfg: Config, s: Storage, total: nat)
    requires Lawful(cfg, s, total)
    ensures DecimalsCapped(cfg, s) && forall lane :: At(s.byChain, lane) <= s.bridgedOut <= MAX_BALANCE
  {
    forall lane ensures At(s.byChain, lane) <= s.bridgedOut { SumWrite(s.byChain, lane, 0); }
  }

  lemma TimeoutMoveSafe(cfg: Config, lanes: Lanes, w: World, total: nat, k: Commitment, h: Handler)
    requires cfg.Sound() && Lawful(cfg, w.s, total) && Consistent(cfg, lanes, w)
    requires k !in w.delivered && HandleTimeout(cfg, w.s, k, h).Ok?
    ensures Consistent(cfg, lanes, w.(s := HandleTimeout(cfg, w.s, k, h).value))
  {
    hide HandleTimeout, NotifyTrace, CreditInbound, AccountFromBytes, DecodeAmount, Apply, Lawful, Consistent;
    TimeoutTraced(cfg, w.s, k, h);
    TraceShape(cfg, w.s, TimeoutOp(k, h));
    var ps := TimeoutTrace(cfg, w.s, k, h);
    PrimitiveLawful(cfg, w.s, total, ps[0]);
    LawfulCaps(cfg, w.s, total);
    RefundSafe(cfg, lanes, w, k, ps[0].sender, ps[0].amount);
    InnersSafe(cfg, lanes, w.(s := Apply(cfg, w.s, ps[0]).value), total, ps[1..]);
  }

  lemma RegisterSafe(cfg: Config, lanes: Lanes, w: World, chain: Chain, contract: nat, ercDecimals: nat)
    requires Consistent(cfg, lanes, w) && ercDecimals == At(lanes, chain)
    requires RegisterChain(cfg, w.s, chain, contract, ercDecimals).Ok?
    ensures Consistent(cfg, lanes, w.(s := RegisterChain(cfg, w.s, chain, contract, ercDecimals).value))
  {
    hide Refundable, Backed;
    QuietSafe(cfg, lanes, w, RegisterChain(cfg, w.s, chain, contract, ercDecimals).value);
  }

  lemma LocalSafe(cfg: Config, lanes: Lanes, w: World, total: nat, op: Op)
    requires cfg.Sound() && Lawful(cfg, w.s, total) && Consistent(cfg, lanes, w) && Possible(lanes, w, Local(op))
    ensures Consistent(cfg, lanes, w.(s := Step(cfg, w.s, op), inbound := Remaining(cfg, w, op)))
  {
    hide HandleAccept, HandleTimeout, RegisterChain, Trace, Lawful, Consistent;
    if Perform(cfg, w.s, op).Ok? {
      if op.AcceptOp? {
        AcceptShape(cfg, w.s, op.post, op.handler);
        AcceptMoveSafe(cfg, lanes, w, total, op.post, op.handler);
      } else if op.TimeoutOp? {
        TimeoutMoveSafe(cfg, lanes, w, total, op.commitment, op.handler);
      } else if op.RegisterOp? {
        RegisterSafe(cfg, lanes, w, op.chain, op.contract, op.ercDecimals);
      } else {
        OperationTraced(cfg, w.s, op);
        TraceShape(cfg, w.s, op);
        InnersSafe(cfg, lanes, w, total, Trace(cfg, w.s, op));
      }
    }
  }

  /** Delivery turns what was in flight into tokens over there; sending back and taking
      back do the reverse between tokens and what is in flight home. */
  lemma CounterpartySafe(cfg: Config, lanes: Lanes, w: World, m: Move)
    requires Consistent(cfg, lanes, w) && Possible(lanes, w, m) && !m.Local?
    ensures Consistent(cfg, lanes, Next(cfg, lanes, w, m))
  {
    hide Refundable, Covers, Unit;
    var w1 := Next(cfg, lanes, w, m);
    forall lane ensures Backed(cfg, lanes, w1, lane) {
      assert Backed(cfg, lanes, w, lane);
      match m {
        case Deliver(k) => OutFlightGone(w.s.host.requests, w.delivered, k, lane);
        case SendBack(post) =>
          InFlightGone(w1.inbound, post, lane);
          assert w1.inbound - {post} == w.inbound;
        case TakeBack(post) => InFlightGone(w.inbound, post, lane);
      }
    }
  }

  /** A bridge at genesis and a counterparty where nothing of it exists yet. */
  predicate NewWorld(w: World) {
    Genesis(w.s) && w.delivered == {} && w.supply == map[] && w.inbound == {}
  }

  lemma NewWorldConsistent(cfg: Config, lanes: Lanes, w: World)
    requires NewWorld(w)
    ensures Consistent(cfg, lanes, w)
  {
    forall lane ensures Backed(cfg, lanes, w, lane) {
      assert OutFlight(w.s.host.requests, w.delivered, lane) == map[];
      assert InFlight(w.inbound, lane) == map[];
    }
  }
}
