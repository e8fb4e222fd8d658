/** Two-chain safety of the token bridge. The token contracts of the other chains mint on
    delivery and burn on send; every request is delivered or timed out, never both; a lane
    keeps its contract and decimals while it exists. Then what every lane still has out
    covers what is in flight, what exists over there and what is on its way back. */
module HftTwoChain {
  import opened Sums
  import opened Balances
  import opened Messages
  import opened Precision
  import opened IsmpHost
  import opened HftRegistry
  import opened HftTransfers
  import opened HftLaws
  import opened HftDelivery
  import opened HftRefunds
  import opened LaneCover

  type LaneId = (Chain, AssetId)

  /** What a lane is for as long as the world runs: the contract over there, its decimals
      and those of the asset here. Two assets never share a contract. */
  datatype Track = Track(contract: seq<Byte>, decimals: nat, local: nat)

  type Lanes = map<LaneId, Track>

  predicate Distinct(lanes: Lanes) {
    forall l, m :: l in lanes && m in lanes && l.0 == m.0 && lanes[l].contract == lanes[m].contract ==> l == m
  }

  /** `supply` counts each token on each other chain; `sent` holds the requests sent from
      there and not taken back, accepted here or not. */
  datatype World = World(s: Hft, delivered: set<Commitment>, supply: map<LaneId, nat>, sent: set<PostRequest>)

  datatype Move =
    | Local(op: HftOp)
    | Arrive(k: Commitment, lane: LaneId)
    | SendBack(post: PostRequest, lane: LaneId)
    | TakeBack(post: PostRequest, lane: LaneId)

  /** How many units over there one unit here is sent as, wrapped or not. */
  function Unit(lanes: Lanes, lane: LaneId): nat
    requires lane in lanes
  {
    ScaleFactor(lanes[lane].decimals, lanes[lane].local)
  }

  predicate Toward(lanes: Lanes, k: Commitment, lane: LaneId) {
    lane in lanes && k.Post? && k.post.dest == lane.0 && k.post.to == RawBytes(lanes[lane].contract)
  }

  predicate Back(lanes: Lanes, post: PostRequest, lane: LaneId) {
    lane in lanes && post.source == lane.0 && post.from == RawBytes(lanes[lane].contract)
  }

  function Carried(body: Body): nat {
    if body.Encoded? then body.message.amount else 0
  }

  function SentAmount(k: Commitment): nat {
    if k.Post? then Carried(k.post.body) else 0
  }

  function OutFlight(lanes: Lanes, requests: map<Commitment, FeeMetadata>, delivered: set<Commitment>,
                     lane: LaneId): map<Commitment, nat> {
    map k | k in requests && k !in delivered && Toward(lanes, k, lane) :: SentAmount(k)
  }

  function InFlight(lanes: Lanes, sent: set<PostRequest>, receipts: set<Commitment>,
                    lane: LaneId): map<PostRequest, nat> {
    map post | post in sent && Post(post) !in receipts && Back(lanes, post, lane) :: Carried(post.body)
  }

  /** Everything a lane owes: in flight out, existing there, in flight back. */
  ghost function Owed(lanes: Lanes, w: World, lane: LaneId): nat {
    SumOf(OutFlight(lanes, w.s.host.requests, w.delivered, lane)) + At(w.supply, lane)
    + SumOf(InFlight(lanes, w.sent, w.s.host.receipts, lane))
  }

  function OtherEnd(cause: Cause): Chain {
    match cause
    case Delivered(post) => post.source
    case TimedOut(k) => if k.Post? then k.post.dest else HOST_CHAIN
  }

  /** What each lane of an asset has out: sent over it, less what it gave back. */
  function Books(log: seq<Flow>, asset: AssetId): map<Chain, nat> {
    if log == [] then map[]
    else
      var f, before := log[|log| - 1], Books(log[..|log| - 1], asset);
      if f.asset != asset then before
      else match f
        case Left(_, _, dest, amount, _) => before[dest := At(before, dest) + amount]
        case Returned(_, _, amount, _, _, cause) =>
          before[OtherEnd(cause) := SatSub(At(before, OtherEnd(cause)), amount)]
        case Donated(_, _) => before
  }

  predicate IsCredit(f: Flow, lane: LaneId) {
    f.Returned? && f.asset == lane.1 && OtherEnd(f.cause) == lane.0
  }

  function CreditCount(log: seq<Flow>, lane: LaneId): nat {
    if log == [] then 0 else CreditCount(log[..|log| - 1], lane) + if IsCredit(log[|log| - 1], lane) then 1 else 0
  }

  /** What the lane has out covers what it owes, and exceeds it by conversion dust only. */
  ghost predicate Backed(lanes: Lanes, w: World, lane: LaneId)
    requires lane in lanes
  {
    Covers(At(Books(w.s.log, lane.1), lane.0), Unit(lanes, lane), Owed(lanes, w, lane), CreditCount(w.s.log, lane))
  }

  /** Every row of the registry belongs to a lane and says what the lane is. */
  ghost predicate Agrees(lanes: Lanes, s: Hft) {
    && (forall c, a :: (c, a) in s.tables.contracts ==>
          (c, a) in lanes && lanes[(c, a)].contract == s.tables.contracts[(c, a)])
    && (forall a, c :: (a, c) in s.tables.precisions ==>
          (c, a) in lanes && lanes[(c, a)].decimals == s.tables.precisions[(a, c)])
    && (forall c, b :: (c, b) in s.tables.assets ==>
          (c, s.tables.assets[(c, b)]) in lanes && lanes[(c, s.tables.assets[(c, b)])].contract == b)
    && forall l :: l in lanes ==> lanes[l].local == DecimalsOf(s, l.1)
  }

  /** The request was sent over the lane, for this amount here. */
  predicate SentOver(lanes: Lanes, k: Commitment, lane: LaneId, amount: nat) {
    && Toward(lanes, k, lane) && k.post.body.Encoded? && k.post.body.message.from.Bytes32?
    && amount <= MAX_BALANCE && SentAmount(k) == amount * Unit(lanes, lane)
  }

  /** The lanes of an asset together never have out more than was sent and not released. */
  ghost predicate WithinSent(log: seq<Flow>, a: AssetId) {
    SumOf(Books(log, a)) + Total(log, a, Released) <= Total(log, a, Sent)
  }

  ghost predicate Consistent(lanes: Lanes, w: World) {
    && Agrees(lanes, w.s)
    && w.delivered <= w.s.host.requests.Keys
    && (forall k :: k in w.s.host.requests ==> exists lane, amount :: SentOver(lanes, k, lane, amount))
    && (forall post :: Post(post) in w.s.host.receipts ==> post in w.sent)
    && (forall lane :: lane in lanes ==> Backed(lanes, w, lane))
    && forall a :: WithinSent(w.s.log, a)
  }

  // ------------------------------------------------------------------------ the moves

  /** A request a registered contract sent. */
  predicate Genuine(t: Tables, post: PostRequest) {
    post.from.RawBytes? && (post.source, post.from.bytes) in t.assets
  }

  /** A message the environment may submit: genuine requests were sent, and what was
      delivered does not time out. */
  predicate Provable(t: Tables, w: World, m: HftMessage) {
    match m
    case Inbound(post, _) => Genuine(t, post) ==> post in w.sent
    case Expired(k) => k !in w.delivered
  }

  ghost predicate Possible(lanes: Lanes, w: World, m: Move) {
    match m
    case Local(op) =>
      && op.WellFormed() && (op.SendOp? ==> op.params.amount <= MAX_BALANCE)
      && (op.ExecuteOp? ==> forall i :: i in op.messages ==> Provable(w.s.tables, w, i))
      && (op.GovernOp? ==> Agrees(lanes, HftStep(w.s, op)))
    case Arrive(k, lane) => Toward(lanes, k, lane) && k in w.s.host.requests && k !in w.delivered
    case SendBack(post, lane) => Back(lanes, post, lane) && post !in w.sent && Carried(post.body) <= At(w.supply, lane)
    case TakeBack(post, lane) => Back(lanes, post, lane) && post in w.sent && Post(post) !in w.s.host.receipts
  }

  ghost function Next(lanes: Lanes, w: World, m: Move): World {
    if !Possible(lanes, w, m) then w
    else match m
      case Local(op) => w.(s := HftStep(w.s, op))
      case Arrive(k, lane) =>
        w.(delivered := w.delivered + {k}, supply := w.supply[lane := At(w.supply, lane) + SentAmount(k)])
      case SendBack(post, lane) =>
        w.(sent := w.sent + {post}, supply := w.supply[lane := At(w.supply, lane) - Carried(post.body)])
      case TakeBack(post, lane) =>
        w.(sent := w.sent - {post}, supply := w.supply[lane := At(w.supply, lane) + Carried(post.body)])
  }

  ghost function RunWorld(lanes: Lanes, w: World, moves: seq<Move>): World {
    if moves == [] then w else Next(lanes, RunWorld(lanes, w, moves[..|moves| - 1]), moves[|moves| - 1])
  }

  // --------------------------------------------------------------------- small lemmas

  lemma LogAppend(log: seq<Flow>, f: Flow)
    ensures forall lane :: CreditCount(log + [f], lane) == CreditCount(log, lane) + if IsCredit(f, lane) then 1 else 0
    ensures forall a :: f.asset != a || f.Donated? ==> Books(log + [f], a) == Books(log, a)
    ensures f.Left? ==>
      var before := Books(log, f.asset);
      Books(log + [f], f.asset) == before[f.dest := At(before, f.dest) + f.amount]
    ensures f.Returned? ==>
      var before, c := Books(log, f.asset), OtherEnd(f.cause);
      Books(log + [f], f.asset) == before[c := SatSub(At(before, c), f.amount)]
  {
    assert (log + [f])[..|log|] == log;
  }

  lemma OneLane(lanes: Lanes, k: Commitment, l: LaneId, m: LaneId)
    requires Distinct(lanes) && Toward(lanes, k, l) && Toward(lanes, k, m)
    ensures l == m
  {
  }

  lemma OneLaneBack(lanes: Lanes, post: PostRequest, l: LaneId, m: LaneId)
    requires Distinct(lanes) && Back(lanes, post, l) && Back(lanes, post, m)
    ensures l == m
  {
  }

  lemma OutFlightSend(lanes: Lanes, requests: map<Commitment, FeeMetadata>, delivered: set<Commitment>, k: Commitment,
                      meta: FeeMetadata, lane: LaneId)
    requires k !in requests && delivered <= requests.Keys
    ensures SumOf(OutFlight(lanes, requests[k := meta], delivered, lane))
         == SumOf(OutFlight(lanes, requests, delivered, lane)) + if Toward(lanes, k, lane) then SentAmount(k) else 0
  {
    hide Toward;
    var before := OutFlight(lanes, requests, delivered, lane);
    var after := OutFlight(lanes, requests[k := meta], delivered, lane);
    if Toward(lanes, k, lane) {
      assert after == before[k := SentAmount(k)];
      SumWrite(before, k, SentAmount(k));
    } else {
      assert after == before;
    }
  }

  lemma OutFlightGone(lanes: Lanes, requests: map<Commitment, FeeMetadata>, delivered: set<Commitment>, k: Commitment,
                      lane: LaneId)
    requires k in requests && k !in delivered
    ensures SumOf(OutFlight(lanes, requests, delivered, lane))
         == SumOf(OutFlight(lanes, requests - {k}, delivered, lane))
            + if Toward(lanes, k, lane) then SentAmount(k) else 0
    ensures OutFlight(lanes, requests, delivered + {k}, lane) == OutFlight(lanes, requests - {k}, delivered, lane)
  {
    hide Toward;
    var before := OutFlight(lanes, requests, delivered, lane);
    var after := OutFlight(lanes, requests - {k}, delivered, lane);
    if Toward(lanes, k, lane) {
      assert after == before - {k};
      SumWithout(before, k);
    } else {
      assert after == before;
    }
  }

  /** A request leaves flight when it is accepted, and when it is taken back. */
  lemma InFlightGone(lanes: Lanes, sent: set<PostRequest>, receipts: set<Commitment>, post: PostRequest, lane: LaneId)
    requires post in sent && Post(post) !in receipts
    ensures SumOf(InFlight(lanes, sent, receipts, lane))
         == SumOf(InFlight(lanes, sent - {post}, receipts, lane))
            + if Back(lanes, post, lane) then Carried(post.body) else 0
    ensures InFlight(lanes, sent, receipts + {Post(post)}, lane) == InFlight(lanes, sent - {post}, receipts, lane)
  {
    hide Back;
    var before, after := InFlight(lanes, sent, receipts, lane), InFlight(lanes, sent - {post}, receipts, lane);
    assert InFlight(lanes, sent, receipts + {Post(post)}, lane) == after;
    if Back(lanes, post, lane) {
      assert after == before - {post};
      SumWithout(before, post);
    } else {
      assert after == before;
    }
  }

  /** What a decoded amount is worth over there: the claim, less dust below one unit. */
  lemma DecodedWorth(x: nat, ercDecimals: nat, localDecimals: nat, amount: nat)
    requires ConvertToBalance(x, ercDecimals, localDecimals) == Some(amount)
    ensures var f := ScaleFactor(ercDecimals, localDecimals);
      f > 0 && amount <= MAX_BALANCE && amount * f <= x < amount * f + f
  {
    hide ScaleFactor;
    var f := ScaleFactor(ercDecimals, localDecimals);
    ParsePrint(Quotient(x, f));
    hide Parse, Print;
    QuotientBracket(x, f);
    Distribute(amount, f);
  }

  // --------------------------------------------------------- one lane, one log entry

  /** One lane after a credit of `amount` that consumed `claim` over there. */
  lemma CreditBacked(lanes: Lanes, w: World, w1: World, at: LaneId, claim: nat, f: Flow, lane: LaneId)
    requires lane in lanes && at in lanes && Backed(lanes, w, lane)
    requires f.Returned? && f.asset == at.1 && OtherEnd(f.cause) == at.0 && w1.s.log == w.s.log + [f]
    requires ConvertToBalance(claim, lanes[at].decimals, lanes[at].local) == Some(f.amount)
    requires Owed(lanes, w, lane) == Owed(lanes, w1, lane) + if lane == at then claim else 0
    ensures Backed(lanes, w1, lane)
    ensures lane == at ==> f.amount <= At(Books(w.s.log, at.1), at.0)
  {
    hide Covers, ConvertToBalance, Owed, ScaleFactor;
    LogAppend(w.s.log, f);
    if lane == at {
      DecodedWorth(claim, lanes[at].decimals, lanes[at].local, f.amount);
      var booked := At(Books(w.s.log, at.1), at.0);
      CoveredClaim(booked, Unit(lanes, at), Owed(lanes, w, at), CreditCount(w.s.log, at), f.amount, claim);
      CoversCredit(booked, Unit(lanes, at), Owed(lanes, w, at), CreditCount(w.s.log, at), f.amount, claim);
    }
  }

  lemma CoveredClaim(booked: nat, unit: nat, owed: nat, credits: nat, amount: nat, claim: nat)
    requires Covers(booked, unit, owed, credits) && claim <= owed && unit > 0 && amount * unit <= claim
    ensures amount <= booked
  {
    NoMoreUnits(amount, booked, unit);
  }

  lemma WithinSentAppend(log: seq<Flow>, f: Flow, a: AssetId)
    requires WithinSent(log, a)
    requires f.Returned? && f.asset == a ==> f.moved <= f.amount <= At(Books(log, a), OtherEnd(f.cause))
    ensures WithinSent(log + [f], a)
  {
    TotalAppend(log, f);
    LogAppend(log, f);
    hide Books, Total;
    if f.asset == a && f.Left? {
      SumWrite(Books(log, a), f.dest, At(Books(log, a), f.dest) + f.amount);
    } else if f.asset == a && f.Returned? {
      SumWrite(Books(log, a), OtherEnd(f.cause), At(Books(log, a), OtherEnd(f.cause)) - f.amount);
    }
  }

  // ---------------------------------------------------------------- steps keep the world

  ghost predicate SameRows(s: Hft, s1: Hft) {
    s1.tables == s.tables && forall a :: DecimalsOf(s1, a) == DecimalsOf(s, a)
  }

  lemma AgreesStill(lanes: Lanes, s: Hft, s1: Hft)
    requires Agrees(lanes, s) && SameRows(s, s1)
    ensures Agrees(lanes, s1)
  {
    hide DecimalsOf;
  }

  /** What a credit that goes through leaves: one entry, of the decoded amount. */
  lemma CreditEntry(lanes: Lanes, s: Hft, chain: Chain, contract: Endpoint, to: Address, claim: nat, cause: Cause)
    requires Agrees(lanes, s) && Credit(s, chain, contract, to, claim, cause).error.None?
    ensures var s1 := Credit(s, chain, contract, to, claim, cause).state;
      && AssetAt(s, chain, contract).Some? && HftAccount(to).Some?
      && var lane, who := (chain, AssetAt(s, chain, contract).value), HftAccount(to).value;
         && lane in lanes && contract == RawBytes(lanes[lane].contract)
         && ConvertToBalance(claim, lanes[lane].decimals, lanes[lane].local).Some?
         && var amount := ConvertToBalance(claim, lanes[lane].decimals, lanes[lane].local).value;
            && var (moved, swept) := Release(s, lane.1, who, amount);
               && s1.log == s.log + [Returned(lane.1, who, amount, moved, swept, cause)] && moved <= amount
               && s1.host == s.host && SameRows(s, s1)
  {
    hide ConvertToBalance, DecimalsOf;
    var asset := AssetAt(s, chain, contract).value;
    assert (chain, contract.bytes) in s.tables.assets;
    assert DecimalsOf(s, asset) == lanes[(chain, asset)].local;
    var amount := ConvertToBalance(claim, lanes[(chain, asset)].decimals, lanes[(chain, asset)].local);
    var who := HftAccount(to).value;
    assert GiveBack(s, asset, who, amount.value, cause) == Some(Credit(s, chain, contract, to, claim, cause).state);
    hide Credit;
    GiveBackShape(s, asset, who, amount.value, cause);
    GiveBackRows(s, asset, who, amount.value, cause);
    ReleaseAtMost(s, asset, who, amount.value);
  }

  lemma GiveBackRows(s: Hft, asset: AssetId, to: AccountId, amount: nat, cause: Cause)
    requires GiveBack(s, asset, to, amount, cause).Some?
    ensures SameRows(s, GiveBack(s, asset, to, amount, cause).value)
  {
    hide Release, Bank.Transfer;
  }

  lemma ReleaseAtMost(s: Hft, asset: AssetId, to: AccountId, amount: nat)
    ensures Release(s, asset, to, amount).0 <= amount
  {
  }

  /** The log and the lanes after an entry that credits `at`. */
  lemma CreditSafe(lanes: Lanes, w: World, w1: World, at: LaneId, claim: nat, f: Flow)
    requires Consistent(lanes, w) && at in lanes
    requires f.Returned? && f.asset == at.1 && OtherEnd(f.cause) == at.0 && w1.s.log == w.s.log + [f]
    requires ConvertToBalance(claim, lanes[at].decimals, lanes[at].local) == Some(f.amount) && f.moved <= f.amount
    requires forall lane :: lane in lanes ==>
      Owed(lanes, w, lane) == Owed(lanes, w1, lane) + if lane == at then claim else 0
    ensures forall lane :: lane in lanes ==> Backed(lanes, w1, lane)
    ensures forall a :: WithinSent(w1.s.log, a)
  {
    hide Backed, Owed, ConvertToBalance, WithinSent, Books;
    forall lane | lane in lanes ensures Backed(lanes, w1, lane) {
      CreditBacked(lanes, w, w1, at, claim, f, lane);
    }
    CreditBacked(lanes, w, w1, at, claim, f, at);
    forall a ensures WithinSent(w1.s.log, a) { WithinSentAppend(w.s.log, f, a); }
  }

  lemma DeliverSafe(lanes: Lanes, w: World, post: PostRequest, guarded: bool, callSucceeds: bool)
    requires Distinct(lanes) && Consistent(lanes, w) && Provable(w.s.tables, w, Inbound(post, callSucceeds))
    requires Deliver(w.s, post, guarded, callSucceeds).error.None?
    ensures var s1 := Deliver(w.s, post, guarded, callSucceeds).state;
      Consistent(lanes, w.(s := s1)) && SameRows(w.s, s1)
  {
    hide Deliver, Credit, SentOver, Backed, WithinSent, ConvertToBalance, Release, DecimalsOf, Agrees;
    DeliverShape(w.s, post, guarded, callSucceeds);
    var s0, m := Receipted(w.s, post), post.body.message;
    assert SameRows(w.s, s0) by { ReceiptRows(w.s, post); }
    AgreesStill(lanes, w.s, s0);
    CreditEntry(lanes, s0, post.source, post.from, m.to, m.amount, Delivered(post));
    var s1 := Deliver(w.s, post, guarded, callSucceeds).state;
    AgreesStill(lanes, s0, s1);
    var w1, at, f := w.(s := s1), (post.source, AssetAt(s0, post.source, post.from).value), s1.log[|w.s.log|];
    assert Back(lanes, post, at);
    forall lane | lane in lanes
      ensures Owed(lanes, w, lane) == Owed(lanes, w1, lane) + if lane == at then m.amount else 0
    {
      InFlightGone(lanes, w.sent, w.s.host.receipts, post, lane);
      if Back(lanes, post, lane) { OneLaneBack(lanes, post, lane, at); }
    }
    CreditSafe(lanes, w, w1, at, m.amount, f);
  }

  lemma ReceiptRows(s: Hft, post: PostRequest)
    ensures SameRows(s, Receipted(s, post))
  {
  }

  lemma RefundSafe(lanes: Lanes, w: World, k: Commitment)
    requires Distinct(lanes) && Consistent(lanes, w) && k !in w.delivered && Refund(w.s, k).error.None?
    ensures Consistent(lanes, w.(s := Refund(w.s, k).state)) && SameRows(w.s, Refund(w.s, k).state)
  {
    hide Credit, RefundFee, SentOver, Backed, WithinSent, ConvertToBalance, Release, Agrees, Books, Total;
    var s0 := w.s.(host := w.s.host.(requests := w.s.host.requests - {k}));
    var m, s1 := k.post.body.message, Refund(w.s, k).state;
    var credited := Credit(s0, k.post.dest, k.post.to, m.from, m.amount, TimedOut(k)).state;
    AgreesStill(lanes, w.s, s0);
    CreditEntry(lanes, s0, k.post.dest, k.post.to, m.from, m.amount, TimedOut(k));
    AgreesStill(lanes, s0, s1);
    var w1, at, f := w.(s := s1), (k.post.dest, AssetAt(s0, k.post.dest, k.post.to).value), s1.log[|w.s.log|];
    assert Toward(lanes, k, at);
    forall lane | lane in lanes
      ensures Owed(lanes, w, lane) == Owed(lanes, w1, lane) + if lane == at then m.amount else 0
    {
      OutFlightGone(lanes, w.s.host.requests, w.delivered, k, lane);
      if Toward(lanes, k, lane) { OneLane(lanes, k, lane, at); }
    }
    CreditSafe(lanes, w, w1, at, m.amount, f);
  }

  /** A batch that is committed, message by message. */
  lemma {:induction false} SettledSafe(lanes: Lanes, w: World, ms: seq<HftMessage>, guarded: bool)
    requires Distinct(lanes) && Consistent(lanes, w) && Settled(w.s, ms, guarded).Some?
    requires forall i :: i in ms ==> Provable(w.s.tables, w, i)
    ensures Consistent(lanes, w.(s := Settled(w.s, ms, guarded).value))
    decreases ms
  {
    hide Consistent, Deliver, Refund, DecimalsOf, Provable;
    if ms != [] {
      assert Provable(w.s.tables, w, ms[0]);
      match ms[0] {
        case Inbound(post, callSucceeds) => DeliverSafe(lanes, w, post, guarded, callSucceeds);
        case Expired(k) =>
          UndeliveredOnly(w, k);
          RefundSafe(lanes, w, k);
      }
      var w1 := w.(s := Handle(w.s, ms[0], guarded).state);
      forall i | i in ms[1..] ensures Provable(w1.s.tables, w1, i) { ProvableStill(w, w1, i); }
      SettledSafe(lanes, w1, ms[1..], guarded);
    }
  }

  lemma UndeliveredOnly(w: World, k: Commitment)
    requires Provable(w.s.tables, w, Expired(k))
    ensures k !in w.delivered
  {
  }

  lemma ProvableStill(w: World, w1: World, m: HftMessage)
    requires Provable(w.s.tables, w, m) && w1.s.tables == w.s.tables
    requires w1.sent == w.sent && w1.delivered == w.delivered
    ensures Provable(w1.s.tables, w1, m)
  {
  }

  /** What a send leaves: one entry, and one record of a request over the lane. */
  lemma SendEntry(lanes: Lanes, s: Hft, who: AccountId, p: SendParams)
    requires Agrees(lanes, s) && p.amount <= MAX_BALANCE && Send(s, who, p).0.error.None?
    ensures var (a, k) := Send(s, who, p);
      var lane := (p.dest, p.asset);
      && k.Some? && SentOver(lanes, k.value, lane, p.amount) && k.value !in s.host.requests
      && a.state.host.requests == s.host.requests[k.value := FeeMetadata(who, p.fee)]
      && a.state.host.receipts == s.host.receipts && SameRows(s, a.state)
      && exists swept :: a.state.log == s.log + [Left(p.asset, who, p.dest, p.amount, swept)]
  {
    hide Bank.PayFee, ProtocolFee, ScaleFactor, TakeOut, DecimalsOf;
    var lane := (p.dest, p.asset);
    assert lanes[lane].local == DecimalsOf(s, p.asset);
    TakeOutEntry(s, p.asset, who, p.dest, p.amount);
    SameDecimals(TakeOut(s, p.asset, who, p.dest, p.amount).value, Send(s, who, p).0.state);
  }

  lemma SameDecimals(s: Hft, s1: Hft)
    requires s1.tokens == s.tokens
    ensures forall a :: DecimalsOf(s1, a) == DecimalsOf(s, a)
  {
  }

  lemma TakeOutEntry(s: Hft, asset: AssetId, who: AccountId, dest: Chain, amount: nat)
    requires TakeOut(s, asset, who, dest, amount).Some?
    ensures var s1 := TakeOut(s, asset, who, dest, amount).value;
      && SameRows(s, s1) && s1.host == s.host
      && exists swept :: s1.log == s.log + [Left(asset, who, dest, amount, swept)]
  {
    hide Bank.Transfer;
  }

  lemma SendBacked(lanes: Lanes, w: World, w1: World, k: Commitment, meta: FeeMetadata, at: LaneId, f: Flow,
                   lane: LaneId)
    requires Distinct(lanes) && lane in lanes && Backed(lanes, w, lane)
    requires w.delivered <= w.s.host.requests.Keys && k !in w.s.host.requests
    requires f.Left? && at == (f.dest, f.asset) && SentOver(lanes, k, at, f.amount) && w1.s.log == w.s.log + [f]
    requires w1 == w.(s := w1.s) && w1.s.host.receipts == w.s.host.receipts
    requires w1.s.host.requests == w.s.host.requests[k := meta]
    ensures Backed(lanes, w1, lane)
  {
    hide Covers, ScaleFactor, Toward;
    LogAppend(w.s.log, f);
    hide Books;
    OutFlightSend(lanes, w.s.host.requests, w.delivered, k, meta, lane);
    if lane == at {
      CoversMore(At(Books(w.s.log, at.1), at.0), Unit(lanes, at), Owed(lanes, w, at), CreditCount(w.s.log, at),
                 f.amount);
    } else if Toward(lanes, k, lane) {
      OneLane(lanes, k, lane, at);
    }
  }

  lemma SendSafe(lanes: Lanes, w: World, who: AccountId, p: SendParams)
    requires Distinct(lanes) && Consistent(lanes, w) && p.amount <= MAX_BALANCE && Send(w.s, who, p).0.error.None?
    ensures Consistent(lanes, w.(s := Send(w.s, who, p).0.state))
  {
    hide Send, SentOver, Backed, WithinSent, Agrees, DecimalsOf;
    var (a, k) := Send(w.s, who, p);
    SendEntry(lanes, w.s, who, p);
    AgreesStill(lanes, w.s, a.state);
    var w1, at, f := w.(s := a.state), (p.dest, p.asset), a.state.log[|w.s.log|];
    assert w1.s.log == w.s.log + [f];
    forall lane | lane in lanes ensures Backed(lanes, w1, lane) {
      SendBacked(lanes, w, w1, k.value, FeeMetadata(who, p.fee), at, f, lane);
    }
    forall b ensures WithinSent(w1.s.log, b) { WithinSentAppend(w.s.log, f, b); }
    forall j | j in w1.s.host.requests ensures exists lane, amount :: SentOver(lanes, j, lane, amount) {
      if j == k.value { assert SentOver(lanes, j, at, p.amount); }
    }
  }

  /** A change that leaves records, receipts and lanes alone. */
  lemma QuietSafe(lanes: Lanes, w: World, s1: Hft)
    requires Consistent(lanes, w) && Agrees(lanes, s1) && s1.host == w.s.host
    requires s1.log == w.s.log || exists f: Flow :: f.Donated? && s1.log == w.s.log + [f]
    ensures Consistent(lanes, w.(s := s1))
  {
    hide SentOver, Covers, WithinSent, Agrees;
    if s1.log != w.s.log {
      var f: Flow :| f.Donated? && s1.log == w.s.log + [f];
      LogAppend(w.s.log, f);
      forall a ensures WithinSent(s1.log, a) { WithinSentAppend(w.s.log, f, a); }
    }
    forall lane | lane in lanes ensures Backed(lanes, w.(s := s1), lane) { assert Backed(lanes, w, lane); }
  }

  lemma TokenMoveEntry(s: Hft, asset: AssetId, from: AccountId, to: AccountId, amount: nat)
    ensures var s1 := TokenMove(s, asset, from, to, amount);
      && SameRows(s, s1) && s1.host == s.host
      && (s1.log == s.log || exists f: Flow :: f.Donated? && s1.log == s.log + [f])
  {
  }

  lemma NativeMoveEntry(s: Hft, from: AccountId, to: AccountId, amount: nat)
    ensures var s1 := NativeMove(s, from, to, amount);
      && SameRows(s, s1) && s1.host == s.host
      && (s1.log == s.log || exists f: Flow :: f.Donated? && s1.log == s.log + [f])
  {
    hide Bank.Transfer;
  }

  lemma LocalSafe(lanes: Lanes, w: World, op: HftOp)
    requires Distinct(lanes) && Consistent(lanes, w) && Possible(lanes, w, Local(op))
    ensures Consistent(lanes, w.(s := HftStep(w.s, op)))
  {
    hide Consistent, Send, Execute, TokenMove, NativeMove, HftRegistry.Step, DecimalsOf, Provable;
    AgreesNow(lanes, w);
    match op {
      case SendOp(who, p) =>
        SendRefused(w.s, who, p);
        if Send(w.s, who, p).0.error.None? { SendSafe(lanes, w, who, p); }
      case ExecuteOp(ms, guarded) =>
        BatchIsAllOrNothing(w.s, ms, guarded);
        if Settled(w.s, ms, guarded).Some? { SettledSafe(lanes, w, ms, guarded); }
      case GovernOp(call) => QuietSafe(lanes, w, HftStep(w.s, op));
      case TokenMoveOp(asset, from, to, amount) =>
        TokenMoveEntry(w.s, asset, from, to, amount);
        AgreesStill(lanes, w.s, HftStep(w.s, op));
        QuietSafe(lanes, w, HftStep(w.s, op));
      case NativeMoveOp(from, to, amount) =>
        NativeMoveEntry(w.s, from, to, amount);
        AgreesStill(lanes, w.s, HftStep(w.s, op));
        QuietSafe(lanes, w, HftStep(w.s, op));
    }
  }

  lemma AgreesNow(lanes: Lanes, w: World)
    requires Consistent(lanes, w)
    ensures Agrees(lanes, w.s)
  {
  }

  lemma SendRefused(s: Hft, who: AccountId, p: SendParams)
    ensures Send(s, who, p).0.error.Some? ==> Send(s, who, p).0.state == s
  {
    hide TakeOut, Dispatch, SendDraft;
  }

  /** Delivery turns what was in flight into tokens over there; sending back and taking
      back do the reverse between tokens and what is in flight home. */
  lemma OwedStays(lanes: Lanes, w: World, m: Move, lane: LaneId)
    requires Distinct(lanes) && lane in lanes && Possible(lanes, w, m) && !m.Local?
    requires forall post :: Post(post) in w.s.host.receipts ==> post in w.sent
    ensures Owed(lanes, Next(lanes, w, m), lane) == Owed(lanes, w, lane)
  {
    hide Toward, Back, OutFlight, InFlight;
    var w1 := Next(lanes, w, m);
    match m {
      case Arrive(k, at) =>
        OutFlightGone(lanes, w.s.host.requests, w.delivered, k, lane);
        if Toward(lanes, k, lane) { OneLane(lanes, k, lane, at); }
      case SendBack(post, at) =>
        InFlightGone(lanes, w1.sent, w.s.host.receipts, post, lane);
        assert w1.sent - {post} == w.sent;
        if Back(lanes, post, lane) { OneLaneBack(lanes, post, lane, at); }
      case TakeBack(post, at) =>
        InFlightGone(lanes, w.sent, w.s.host.receipts, post, lane);
        if Back(lanes, post, lane) { OneLaneBack(lanes, post, lane, at); }
    }
  }

  lemma CounterpartySafe(lanes: Lanes, w: World, m: Move)
    requires Distinct(lanes) && Consistent(lanes, w) && Possible(lanes, w, m) && !m.Local?
    ensures Consistent(lanes, Next(lanes, w, m))
  {
    hide SentOver, Covers, WithinSent, Agrees, Toward, Back, Unit, Owed;
    forall lane | lane in lanes ensures Backed(lanes, Next(lanes, w, m), lane) {
      assert Backed(lanes, w, lane);
      OwedStays(lanes, w, m, lane);
    }
  }

  lemma MoveSafe(lanes: Lanes, w: World, m: Move)
    requires Distinct(lanes) && Consistent(lanes, w)
    ensures Consistent(lanes, Next(lanes, w, m))
  {
    hide Consistent, Possible;
    if Possible(lanes, w, m) {
      match m {
        case Local(op) => LocalSafe(lanes, w, op);
        case _ => CounterpartySafe(lanes, w, m);
      }
    }
  }

  // ------------------------------------------------------------------------ main results

  /** A pallet that has moved nothing yet, and nothing of it elsewhere. */
  ghost predicate NewWorld(lanes: Lanes, w: World) {
    && Distinct(lanes) && Agrees(lanes, w.s) && w.s.log == [] && w.s.host.requests == map[] && w.s.host.receipts == {}
    && w.delivered == {} && w.supply == map[] && w.sent == {}
  }

  lemma NewWorldConsistent(lanes: Lanes, w: World)
    requires NewWorld(lanes, w)
    ensures Consistent(lanes, w)
  {
    hide Agrees;
    forall lane | lane in lanes ensures Backed(lanes, w, lane) {
      assert OutFlight(lanes, w.s.host.requests, w.delivered, lane) == map[];
      assert InFlight(lanes, w.sent, w.s.host.receipts, lane) == map[];
    }
  }

  /** Over every run of both sides, whatever the decimal gaps: what each lane has out
      covers what is in flight out, the supply over there and what is in flight back, up to
      less than one unit for every credit; and all lanes of an asset together have out no
      more than was sent and not released. */
  lemma {:induction false} HftTwoChainSafety(lanes: Lanes, w: World, moves: seq<Move>)
    requires NewWorld(lanes, w)
    ensures Consistent(lanes, RunWorld(lanes, w, moves))
  {
    hide Consistent, Next;
    if moves == [] {
      NewWorldConsistent(lanes, w);
    } else {
      hide NewWorld;
      HftTwoChainSafety(lanes, w, moves[..|moves| - 1]);
      DistinctWorld(lanes, w);
      MoveSafe(lanes, RunWorld(lanes, w, moves[..|moves| - 1]), moves[|moves| - 1]);
    }
  }

  lemma DistinctWorld(lanes: Lanes, w: World)
    requires NewWorld(lanes, w)
    ensures Distinct(lanes)
  {
  }
}
