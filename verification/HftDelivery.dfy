/** Delivery over the token bridge: what a batch of messages leaves behind, and how often a
    request is credited. */
module HftDelivery {
  import opened Sums
  import opened Balances
  import opened Messages
  import opened Precision
  import opened IsmpHost
  import opened HftRegistry
  import opened HftTransfers
  import opened HftLaws

  // ------------------------------------------------------------------------ one callback

  /** What the callback amounts to before any calldata is run. */
  function BareAccept(s: Hft, post: PostRequest): Attempt
    requires post.body.Encoded?
  {
    Credit(s, post.source, post.from, post.body.message.to, post.body.message.amount, Delivered(post))
  }

  /** The pallet's own callback, refused, changes nothing if and only if there was no
      calldata to fail, or it could not fail, or the credit itself was impossible. The
      credit comes first and does not come back. */
  lemma CallbackKeepsCreditIff(s: Hft, post: PostRequest, callSucceeds: bool)
    requires OnAccept(s, post, callSucceeds).error.Some?
    ensures OnAccept(s, post, callSucceeds).state == s <==>
      || post.body.Undecodable? || post.body.message.data.Empty? || callSucceeds
      || BareAccept(s, post).error.Some?
  {
    hide Credit, GiveBack;
    if post.body.Encoded? {
      var m := post.body.message;
      CreditShape(s, post.source, post.from, m.to, m.amount, Delivered(post));
      if BareAccept(s, post).error.None? { CreditLogs(s, post); }
    }
  }

  /** A credit is noted once, for its request. */
  lemma CreditLogs(s: Hft, post: PostRequest)
    requires post.body.Encoded? && BareAccept(s, post).error.None?
    ensures var s' := BareAccept(s, post).state;
      && s'.host == s.host && |s'.log| == |s.log| + 1 && s'.log[..|s.log|] == s.log
      && s'.log[|s.log|].Returned? && s'.log[|s.log|].cause == Delivered(post)
  {
    hide Credit, Release;
    var m := post.body.message;
    CreditShape(s, post.source, post.from, m.to, m.amount, Delivered(post));
    var asset, to := AssetAt(s, post.source, post.from).value, HftAccount(m.to).value;
    var amount :| GiveBack(s, asset, to, amount, Delivered(post)) == Some(BareAccept(s, post).state);
    GiveBackShape(s, asset, to, amount, Delivered(post));
  }

  lemma GiveBackShape(s: Hft, asset: AssetId, to: AccountId, amount: nat, cause: Cause)
    requires GiveBack(s, asset, to, amount, cause).Some?
    ensures var (moved, swept) := Release(s, asset, to, amount);
      var s' := GiveBack(s, asset, to, amount, cause).value;
      && s'.host == s.host && s'.tables == s.tables
      && s'.log == s.log + [Returned(asset, to, amount, moved, swept, cause)]
  {
    hide Release, Bank.Transfer, Token.Move, Token.Mint;
  }

  /** The runtime's adapter refuses without a trace, whatever it is given. */
  lemma GuardedCallbackIsAtomic(s: Hft, post: PostRequest, callSucceeds: bool)
    ensures GuardedAccept(s, post, callSucceeds).error.Some? ==> GuardedAccept(s, post, callSucceeds).state == s
    ensures GuardedAccept(s, post, callSucceeds).error.None? <==>
      post.body.Encoded? && post.body.message.data.Empty? && BareAccept(s, post).error.None?
  {
    hide Credit;
    if post.body.Encoded? {
      var m := post.body.message;
      CreditShape(s, post.source, post.from, m.to, m.amount, Delivered(post));
    }
  }

  // --------------------------------------------------------------------- the whole batch

  /** Every message in turn, each on what the one before left; nothing if any fails. */
  function Settled(s: Hft, ms: seq<HftMessage>, guarded: bool): Option<Hft>
    decreases ms
  {
    if ms == [] then Some(s)
    else
      var a := Handle(s, ms[0], guarded);
      if a.error.Some? then None else Settled(a.state, ms[1..], guarded)
  }

  lemma {:induction false} HandledSettles(s: Hft, ms: seq<HftMessage>, guarded: bool)
    ensures var a := Handled(s, ms, guarded);
      Settled(s, ms, guarded) == if a.error.None? then Some(a.state) else None
    decreases ms
  {
    hide Handle;
    if ms != [] { HandledSettles(Handle(s, ms[0], guarded).state, ms[1..], guarded); }
  }

  /** What a batch leaves on chain: every message's effect in order if each succeeds, and
      otherwise exactly what was there before, receipts included. That goes for a failing
      callback with a credit already made as well, with or without the adapter: the
      handler runs on past it, and the transaction takes all of it back. */
  lemma BatchIsAllOrNothing(s: Hft, ms: seq<HftMessage>, guarded: bool)
    ensures Execute(s, ms, guarded) ==
      match Settled(s, ms, guarded) { case Some(s') => Attempt(s', None) case None => Attempt(s, Some(InvalidMessage)) }
  {
    hide Handle;
    HandledSettles(s, ms, guarded);
  }

  /** A single delivery succeeds on chain if and only if the request is new, the credit is
      possible, and its calldata is empty or, without the adapter, runs. */
  lemma DeliverySucceedsIff(s: Hft, post: PostRequest, guarded: bool, callSucceeds: bool)
    ensures var a := Execute(s, [Inbound(post, callSucceeds)], guarded);
      && (a.error.None? <==>
            && Post(post) !in s.host.receipts && post.body.Encoded?
            && (post.body.message.data.Empty? || (!guarded && callSucceeds))
            && BareAccept(Receipted(s, post), post).error.None?)
      && a.state == if a.error.None? then BareAccept(Receipted(s, post), post).state else s
  {
    hide Credit, ConvertToBalance;
    var ms := [Inbound(post, callSucceeds)];
    assert ms[1..] == [];
    BatchIsAllOrNothing(s, ms, guarded);
    DeliverShape(s, post, guarded, callSucceeds);
  }

  lemma DeliverShape(s: Hft, post: PostRequest, guarded: bool, callSucceeds: bool)
    ensures var a := Deliver(s, post, guarded, callSucceeds);
      && (a.error.None? <==>
            && Post(post) !in s.host.receipts && post.body.Encoded?
            && (post.body.message.data.Empty? || (!guarded && callSucceeds))
            && BareAccept(Receipted(s, post), post).error.None?)
      && (a.error.None? ==> a.state == BareAccept(Receipted(s, post), post).state)
  {
    hide GiveBack, ConvertToBalance;
  }

  // ------------------------------------------------------------ one credit per request

  function DeliveredTimes(log: seq<Flow>, post: PostRequest): nat {
    if log == [] then 0
    else
      var f := log[|log| - 1];
      DeliveredTimes(log[..|log| - 1], post) + if f.Returned? && f.cause == Delivered(post) then 1 else 0
  }

  lemma DeliveredAppend(log: seq<Flow>, f: Flow)
    ensures forall post ::
      DeliveredTimes(log + [f], post) == DeliveredTimes(log, post)
          + if f.Returned? && f.cause == Delivered(post) then 1 else 0
  {
    assert (log + [f])[..|log|] == log;
  }

  /** A request has been credited once if it has a receipt, and never otherwise. */
  ghost predicate CreditedOnce(s: Hft) {
    forall post :: DeliveredTimes(s.log, post) == if Post(post) in s.host.receipts then 1 else 0
  }

  lemma DeliverCreditsOnce(s: Hft, post: PostRequest, guarded: bool, callSucceeds: bool)
    requires CreditedOnce(s) && Deliver(s, post, guarded, callSucceeds).error.None?
    ensures CreditedOnce(Deliver(s, post, guarded, callSucceeds).state)
  {
    hide Deliver, Credit, BareAccept;
    DeliverShape(s, post, guarded, callSucceeds);
    var s' := Deliver(s, post, guarded, callSucceeds).state;
    CreditLogs(Receipted(s, post), post);
    assert s'.log == s.log + [s'.log[|s.log|]];
    DeliveredAppend(s.log, s'.log[|s.log|]);
  }

  lemma RefundCreditsNone(s: Hft, k: Commitment)
    requires CreditedOnce(s)
    ensures CreditedOnce(Refund(s, k).state)
  {
    hide Credit, GiveBack, RefundFee, Release;
    if k in s.host.requests && k.Post? && k.post.body.Encoded? && HftAccount(k.post.body.message.from).Some? {
      var s0 := s.(host := s.host.(requests := s.host.requests - {k}));
      var m := k.post.body.message;
      CreditShape(s0, k.post.dest, k.post.to, m.from, m.amount, TimedOut(k));
      var a := Credit(s0, k.post.dest, k.post.to, m.from, m.amount, TimedOut(k));
      if a.error.None? {
        var asset := AssetAt(s0, k.post.dest, k.post.to).value;
        var amount :| GiveBack(s0, asset, HftAccount(m.from).value, amount, TimedOut(k)) == Some(a.state);
        GiveBackShape(s0, asset, HftAccount(m.from).value, amount, TimedOut(k));
        DeliveredAppend(s.log, a.state.log[|s.log|]);
      }
    }
  }

  lemma {:induction false} SettledCreditsOnce(s: Hft, ms: seq<HftMessage>, guarded: bool)
    requires CreditedOnce(s) && Settled(s, ms, guarded).Some?
    ensures CreditedOnce(Settled(s, ms, guarded).value)
    decreases ms
  {
    hide CreditedOnce, Deliver, Refund;
    if ms != [] {
      match ms[0] {
        case Inbound(post, callSucceeds) => DeliverCreditsOnce(s, post, guarded, callSucceeds);
        case Expired(k) => RefundCreditsNone(s, k);
      }
      SettledCreditsOnce(Handle(s, ms[0], guarded).state, ms[1..], guarded);
    }
  }

  lemma SendCreditsNone(s: Hft, who: AccountId, p: SendParams)
    requires CreditedOnce(s)
    ensures CreditedOnce(Send(s, who, p).0.state)
  {
    hide Bank.Transfer, Bank.PayFee, Token.Move, Token.Burn, SendDraft, ProtocolFee, Numbered;
    var s' := Send(s, who, p).0.state;
    if s'.log != s.log { DeliveredAppend(s.log, s'.log[|s.log|]); }
  }

  lemma SameCredits(s: Hft, s': Hft)
    requires CreditedOnce(s) && s'.host == s.host
    requires s'.log == s.log || exists f: Flow :: !f.Returned? && s'.log == s.log + [f]
    ensures CreditedOnce(s')
  {
    if s'.log != s.log {
      var f: Flow :| !f.Returned? && s'.log == s.log + [f];
      DeliveredAppend(s.log, f);
    }
  }

  lemma StepCreditsOnce(s: Hft, op: HftOp)
    requires CreditedOnce(s)
    ensures CreditedOnce(HftStep(s, op))
  {
    hide Send, Execute, Token.Move, Bank.Transfer, HftRegistry.Step, CreditedOnce;
    match op {
      case SendOp(who, p) => SendCreditsNone(s, who, p);
      case ExecuteOp(messages, guarded) =>
        BatchIsAllOrNothing(s, messages, guarded);
        if Settled(s, messages, guarded).Some? { SettledCreditsOnce(s, messages, guarded); }
      case _ => SameCredits(s, HftStep(s, op));
    }
  }

  /** Over every run of batches, with or without the adapter, each inbound request is
      credited exactly once if it has been accepted and never otherwise, however often it
      is delivered and whatever its calldata does. */
  lemma {:induction false} EachRequestCreditsOnce(s: Hft, ops: seq<HftOp>)
    requires s.log == [] && s.host.receipts == {}
    ensures CreditedOnce(HftRun(s, ops))
  {
    hide HftStep;
    if ops != [] {
      EachRequestCreditsOnce(s, ops[..|ops| - 1]);
      StepCreditsOnce(HftRun(s, ops[..|ops| - 1]), ops[|ops| - 1]);
    }
  }
}
