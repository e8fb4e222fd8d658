/** The rolling daily limit of outbound transfers, over every run with fixed limits. */
module BridgeDaily {
  import opened Sums
  import opened Balances
  import opened Messages
  import opened IsmpHost
  import opened BridgeState
  import opened BridgeTrace
  import opened BridgeLaws
  import opened BridgeExamples

  /** What was burned in blocks `lo` (included) to `hi` (excluded). */
  function BurnedIn(events: seq<Event>, lo: int, hi: int): nat {
    if events == [] then 0
    else
      var e := events[|events| - 1];
      BurnedIn(events[..|events| - 1], lo, hi) + if e.Burned? && lo <= e.block < hi then e.amount else 0
  }

  lemma BurnedInAppend(events: seq<Event>, e: Event, lo: int, hi: int)
    ensures BurnedIn(events + [e], lo, hi) == BurnedIn(events, lo, hi)
        + if e.Burned? && lo <= e.block < hi then e.amount else 0
  {
    assert (events + [e])[..|events|] == events;
  }

  lemma {:induction false} BurnedInSplit(events: seq<Event>, lo: int, mid: int, hi: int)
    requires lo <= mid <= hi
    ensures BurnedIn(events, lo, hi) == BurnedIn(events, lo, mid) + BurnedIn(events, mid, hi)
  {
    if events != [] { BurnedInSplit(events[..|events| - 1], lo, mid, hi); }
  }

  ghost predicate BurnedBefore(events: seq<Event>, hi: int) {
    forall e :: e in events && e.Burned? ==> e.block < hi
  }

  lemma {:induction false} BurnedInNothing(events: seq<Event>, lo: int, hi: int)
    requires BurnedBefore(events, lo)
    ensures BurnedIn(events, lo, hi) == 0
  {
    if events != [] {
      assert events[|events| - 1] in events;
      assert BurnedBefore(events[..|events| - 1], lo);
      BurnedInNothing(events[..|events| - 1], lo, hi);
    }
  }

  lemma BurnedInWithin(events: seq<Event>, lo: int, hi: int, lo': int, hi': int)
    requires lo' <= lo <= hi <= hi'
    ensures BurnedIn(events, lo, hi) <= BurnedIn(events, lo', hi')
  {
    BurnedInSplit(events, lo', lo, hi');
    BurnedInSplit(events, lo, hi, hi');
  }

  /** What was burned in `window` consecutive blocks from `t` on. */
  function BurnedOver(events: seq<Event>, t: int, window: nat): nat {
    BurnedIn(events, t, t + window)
  }

  /** What every reachable storage satisfies under a fixed daily limit and window length:
      the current accounting window holds at most the limit, so does the last window's
      worth of blocks before it, and so no stretch of `window` blocks exceeds twice it. */
  ghost predicate Windowed(events: seq<Event>, now: nat, start: nat, used: nat, window: nat, daily: nat) {
    && start <= now && used <= daily
    && BurnedBefore(events, now + 1) && BurnedBefore(events, start + window)
    && BurnedIn(events, start, now + 1) <= used
    && (forall t: int :: start - window < t <= start ==> BurnedIn(events, t, start) <= daily)
    && (forall t: int :: BurnedOver(events, t, window) <= 2 * daily)
  }

  lemma RollWindow(events: seq<Event>, now: nat, start: nat, used: nat, window: nat, daily: nat)
    requires Windowed(events, now, start, used, window, daily) && now - start >= window > 0
    ensures Windowed(events, now, now, 0, window, daily)
  {
    BurnedInNothing(events, now, now + 1);
    forall t: int | now - window < t <= now ensures BurnedIn(events, t, now) <= daily {
      BurnedInWithin(events, t, now, start, now + 1);
    }
  }

  lemma BurnInWindow(events: seq<Event>, now: nat, start: nat, used: nat, window: nat, daily: nat, lane: Chain,
                     who: AccountId, amount: nat)
    requires Windowed(events, now, start, used, window, daily)
    requires now - start < window && used + amount <= daily
    ensures Windowed(events + [Burned(now, lane, who, amount)], now, start, used + amount, window, daily)
  {
    var e := Burned(now, lane, who, amount);
    BurnedInAppend(events, e, start, now + 1);
    forall t: int | start - window < t <= start ensures BurnedIn(events + [e], t, start) <= daily {
      BurnedInAppend(events, e, t, start);
    }
    forall t: int ensures BurnedOver(events + [e], t, window) <= 2 * daily {
      assert BurnedOver(events, t, window) <= 2 * daily;
      BurnedInAppend(events, e, t, t + window);
      if t <= now < t + window {
        if start <= t {
          BurnedInSplit(events, start, t, now + 1);
          BurnedInSplit(events, t, now + 1, t + window);
          BurnedInNothing(events, now + 1, t + window);
        } else {
          BurnedInSplit(events, t, start, t + window);
          BurnedInSplit(events, start, now + 1, t + window);
          BurnedInNothing(events, now + 1, t + window);
        }
      }
    }
  }

  lemma NextBlockWindowed(events: seq<Event>, now: nat, start: nat, used: nat, window: nat, daily: nat)
    requires Windowed(events, now, start, used, window, daily)
    ensures Windowed(events, now + 1, start, used, window, daily)
  {
    BurnedInSplit(events, start, now + 1, now + 2);
    BurnedInNothing(events, now + 1, now + 2);
  }

  lemma NoteWindowed(events: seq<Event>, e: Event, now: nat, start: nat, used: nat, window: nat, daily: nat)
    requires Windowed(events, now, start, used, window, daily) && !e.Burned?
    ensures Windowed(events + [e], now, start, used, window, daily)
  {
    forall lo: int, hi: int ensures BurnedIn(events + [e], lo, hi) == BurnedIn(events, lo, hi) {
      BurnedInAppend(events, e, lo, hi);
    }
    forall t: int ensures BurnedOver(events + [e], t, window) <= 2 * daily {
      assert BurnedOver(events, t, window) <= 2 * daily;
    }
  }

  ghost predicate Within(cfg: Config, s: Storage, daily: nat) {
    s.dailyLimit == daily && Windowed(s.events, s.now, s.windowStart, s.windowUsed, cfg.window, daily)
  }

  lemma OutboundWithin(cfg: Config, s: Storage, daily: nat, who: AccountId, dest: Chain, recipient: nat, amount: nat,
                       fee: nat, wire: Wire)
    requires cfg.Sound() && s.bank.Valid() && Within(cfg, s, daily)
    requires Outbound(cfg, s, who, dest, recipient, amount, fee, wire).Ok?
    ensures Within(cfg, Outbound(cfg, s, who, dest, recipient, amount, fee, wire).value.0, daily)
  {
    hide Outbound, Windowed, OutboundDraft;
    OutboundEffect(cfg, s, who, dest, recipient, amount, fee, wire);
    WindowStarted(s.events, s.now, s.windowStart, s.windowUsed, cfg.window, daily);
    if s.now - s.windowStart >= cfg.window {
      RollWindow(s.events, s.now, s.windowStart, s.windowUsed, cfg.window, daily);
      BurnInWindow(s.events, s.now, s.now, 0, cfg.window, daily, dest, who, amount);
    } else {
      BurnInWindow(s.events, s.now, s.windowStart, s.windowUsed, cfg.window, daily, dest, who, amount);
    }
  }

  lemma WindowStarted(events: seq<Event>, now: nat, start: nat, used: nat, window: nat, daily: nat)
    requires Windowed(events, now, start, used, window, daily)
    ensures start <= now && used <= daily
  {
  }

  /** A change that leaves the clock and the limits alone and burns nothing. */
  lemma QuietWithin(cfg: Config, s: Storage, s': Storage, daily: nat)
    requires Within(cfg, s, daily)
    requires s'.dailyLimit == s.dailyLimit && s'.now == s.now
    requires s'.windowStart == s.windowStart && s'.windowUsed == s.windowUsed
    requires s'.events == s.events || exists e: Event :: !e.Burned? && s'.events == s.events + [e]
    ensures Within(cfg, s', daily)
  {
    if s'.events != s.events {
      var e: Event :| !e.Burned? && s'.events == s.events + [e];
      NoteWindowed(s.events, e, s.now, s.windowStart, s.windowUsed, cfg.window, daily);
    }
  }

  lemma TrackedWithin(cfg: Config, s: Storage, daily: nat, who: AccountId, dest: Chain, recipient: nat, amount: nat,
                      fee: nat, wire: Wire, meta: seq<nat>)
    requires cfg.Sound() && s.bank.Valid() && Within(cfg, s, daily)
    requires OutboundTracked(cfg, s, who, dest, recipient, amount, fee, wire, meta).Ok?
    ensures Within(cfg, OutboundTracked(cfg, s, who, dest, recipient, amount, fee, wire, meta).value.0, daily)
  {
    hide Outbound, Within;
    OutboundWithin(cfg, s, daily, who, dest, recipient, amount, fee, wire);
    QuietWithin(cfg, Outbound(cfg, s, who, dest, recipient, amount, fee, wire).value.0,
                OutboundTracked(cfg, s, who, dest, recipient, amount, fee, wire, meta).value.0, daily);
  }

  lemma ExecuteWithin(cfg: Config, s: Storage, daily: nat, id: nat, wire: Wire)
    requires cfg.Sound() && s.bank.Valid() && Within(cfg, s, daily) && ExecuteWithdraw(cfg, s, id, wire).Ok?
    ensures Within(cfg, ExecuteWithdraw(cfg, s, id, wire).value, daily)
  {
    hide Outbound, Within;
    var q := s.pending[id];
    OutboundWithin(cfg, s, daily, q.owner, q.dest, q.recipient, q.amount, 0, wire);
    QuietWithin(cfg, Outbound(cfg, s, q.owner, q.dest, q.recipient, q.amount, 0, wire).value.0,
                ExecuteWithdraw(cfg, s, id, wire).value, daily);
  }

  lemma CancelWithin(cfg: Config, s: Storage, daily: nat, id: nat)
    requires Within(cfg, s, daily) && CancelWithdraw(s, id).Ok?
    ensures Within(cfg, CancelWithdraw(s, id).value, daily)
  {
    hide Within;
    QuietWithin(cfg, s, CancelWithdraw(s, id).value, daily);
  }

  lemma QueueWithin(cfg: Config, s: Storage, daily: nat, owner: AccountId, dest: Chain, recipient: nat, amount: nat)
    requires Within(cfg, s, daily)
    ensures Within(cfg, QueueWithdraw(cfg, s, owner, dest, recipient, amount), daily)
  {
    hide Within;
    QuietWithin(cfg, s, QueueWithdraw(cfg, s, owner, dest, recipient, amount), daily);
  }

  lemma PrimitiveWithin(cfg: Config, s: Storage, daily: nat, p: Primitive)
    requires cfg.Sound() && s.bank.Valid() && Within(cfg, s, daily) && !p.Limit? && Apply(cfg, s, p).Some?
    ensures Within(cfg, Apply(cfg, s, p).value, daily)
  {
    hide Outbound, OutboundTracked, ExecuteWithdraw, Within, CancelWithdraw, QueueWithdraw;
    var s' := Apply(cfg, s, p).value;
    if p.SendOut? { OutboundWithin(cfg, s, daily, p.who, p.dest, p.recipient, p.amount, p.fee, p.wire); }
    else if p.SendTracked? {
      TrackedWithin(cfg, s, daily, p.who, p.dest, p.recipient, p.amount, p.fee, p.wire, p.meta);
    }
    else if p.ExecutePending? { ExecuteWithin(cfg, s, daily, p.id, p.wire); }
    else if p.Tick? { TickWithin(cfg, s, daily); }
    else if p.CancelPending? { CancelWithin(cfg, s, daily, p.id); }
    else if p.QueueNew? { QueueWithin(cfg, s, daily, p.owner, p.dest, p.recipient, p.amount); }
    else {
      hide Apply;
      QuietPrimitive(cfg, s, p);
      QuietWithin(cfg, s, s', daily);
    }
  }

  lemma TickWithin(cfg: Config, s: Storage, daily: nat)
    requires Within(cfg, s, daily)
    ensures Within(cfg, Apply(cfg, s, Tick).value, daily)
  {
    if s.now < MAX_BLOCK {
      NextBlockWindowed(s.events, s.now, s.windowStart, s.windowUsed, cfg.window, daily);
    }
  }

  lemma {:induction false} PrimitivesWithin(cfg: Config, s: Storage, supply: nat, daily: nat, ps: seq<Primitive>)
    requires cfg.Sound() && Lawful(cfg, s, supply) && Within(cfg, s, daily) && ApplyAll(cfg, s, ps).Some?
    requires forall p :: p in ps ==> !p.Limit?
    ensures Within(cfg, ApplyAll(cfg, s, ps).value, daily)
    decreases ps
  {
    hide Apply, Lawful, Within;
    if ps != [] {
      ValidBank(cfg, s, supply);
      PrimitiveLawful(cfg, s, supply, ps[0]);
      PrimitiveWithin(cfg, s, daily, ps[0]);
      PrimitivesWithin(cfg, Apply(cfg, s, ps[0]).value, supply, daily, ps[1..]);
    }
  }

  lemma TraceKeepsLimits(cfg: Config, s: Storage, op: Op)
    requires Perform(cfg, s, op).Ok? && !op.LimitsOp?
    ensures forall p :: p in Trace(cfg, s, op) ==> !p.Limit?
  {
    hide HandleAccept, HandleTimeout, Outbound, OutboundTracked, ExecuteWithdraw, RunHandler, CreditInbound,
        DecodeAmount;
    match op {
      case AcceptOp(_, handler) => HandlerKinds(handler.actions);
      case TimeoutOp(_, handler) => HandlerKinds(handler.actions);
      case BusinessOp(handler) => HandlerKinds(handler.actions);
      case _ =>
    }
  }

  lemma StepWithin(cfg: Config, s: Storage, supply: nat, daily: nat, op: Op)
    requires cfg.Sound() && Lawful(cfg, s, supply) && Within(cfg, s, daily) && !op.LimitsOp?
    ensures Within(cfg, Step(cfg, s, op), daily)
  {
    hide Perform, Trace, Lawful, Within;
    if Perform(cfg, s, op).Ok? {
      OperationTraced(cfg, s, op);
      TraceKeepsLimits(cfg, s, op);
      PrimitivesWithin(cfg, s, supply, daily, Trace(cfg, s, op));
    }
  }

  lemma {:induction false} RunWithin(cfg: Config, s: Storage, ops: seq<Op>)
    requires cfg.Sound() && Genesis(s) && s.bank.Valid() && Supply(s) <= MAX_BALANCE
    requires forall op :: op in ops ==> !op.LimitsOp?
    ensures Within(cfg, Run(cfg, s, ops), s.dailyLimit)
  {
    hide Step, Lawful;
    if ops == [] {
      assert forall t: int :: BurnedOver(s.events, t, cfg.window) == 0;
    } else {
      var front := ops[..|ops| - 1];
      RunWithin(cfg, s, front);
      ConservationLaw(cfg, s, front);
      StepWithin(cfg, Run(cfg, s, front), Supply(s), s.dailyLimit, ops[|ops| - 1]);
    }
  }

  /** The daily limit over every run under fixed limits: what is burned inside the
      current accounting window is at most the limit, and what is burned in any
      `window` consecutive blocks is at most twice the limit. */
  lemma DailyLimitLaw(cfg: Config, s: Storage, ops: seq<Op>, t: int)
    requires cfg.Sound() && Genesis(s) && s.bank.Valid() && Supply(s) <= MAX_BALANCE
    requires forall op :: op in ops ==> !op.LimitsOp?
    ensures var r := Run(cfg, s, ops);
      && BurnedIn(r.events, r.windowStart, r.now + 1) <= s.dailyLimit
      && BurnedIn(r.events, t, t + cfg.window) <= 2 * s.dailyLimit
  {
    RunWithin(cfg, s, ops);
    assert BurnedOver(Run(cfg, s, ops).events, t, cfg.window) <= 2 * s.dailyLimit;
  }

  // --------------------------------------------------- the limit read as a rolling limit

  /** Every stretch of `window` blocks carries at most the limit. */
  ghost predicate Rolling(events: seq<Event>, window: nat, daily: nat) {
    forall t: int :: BurnedOver(events, t, window) <= daily
  }

  /** A transfer keeps the limit in every stretch of `window` blocks if and only if it was
      kept before and the last `window` blocks still have room for it. The bridge's own
      guard asks about its accounting window only. */
  lemma RollingLimitIff(cfg: Config, s: Storage, who: AccountId, dest: Chain, recipient: nat, amount: nat, fee: nat,
                        wire: Wire, daily: nat)
    requires cfg.Sound() && s.bank.Valid() && BurnedBefore(s.events, s.now + 1)
    requires Outbound(cfg, s, who, dest, recipient, amount, fee, wire).Ok?
    ensures Rolling(Outbound(cfg, s, who, dest, recipient, amount, fee, wire).value.0.events, cfg.window, daily) <==>
      Rolling(s.events, cfg.window, daily) && BurnedIn(s.events, s.now + 1 - cfg.window, s.now + 1) + amount <= daily
  {
    hide Outbound, OutboundDraft;
    OutboundEffect(cfg, s, who, dest, recipient, amount, fee, wire);
    var e := Burned(s.now, dest, who, amount);
    var after, last := s.events + [e], s.now + 1 - cfg.window;
    forall t: int ensures BurnedOver(after, t, cfg.window)
                       == BurnedOver(s.events, t, cfg.window) + if t <= s.now < t + cfg.window then amount else 0 {
      BurnedInAppend(s.events, e, t, t + cfg.window);
    }
    assert BurnedOver(s.events, last, cfg.window) == BurnedIn(s.events, last, s.now + 1);
    forall t: int | t <= s.now < t + cfg.window
      ensures BurnedOver(s.events, t, cfg.window) <= BurnedOver(s.events, last, cfg.window)
    {
      BurnedInSplit(s.events, t, s.now + 1, t + cfg.window);
      BurnedInNothing(s.events, s.now + 1, t + cfg.window);
      BurnedInWithin(s.events, t, s.now + 1, last, s.now + 1);
    }
    if Rolling(after, cfg.window, daily) {
      assert BurnedOver(after, last, cfg.window) <= daily;
      forall t: int ensures BurnedOver(s.events, t, cfg.window) <= daily {
        assert BurnedOver(after, t, cfg.window) <= daily;
      }
    }
  }

  lemma PrimitiveDated(cfg: Config, s: Storage, p: Primitive)
    requires s.bank.Valid() && BurnedBefore(s.events, s.now + 1) && Apply(cfg, s, p).Some?
    ensures var s' := Apply(cfg, s, p).value; BurnedBefore(s'.events, s'.now + 1)
  {
    hide Outbound, QueueWithdraw, CancelWithdraw, Apply;
    if p.SendOut? { OutboundDated(cfg, s, p); }
    else if p.SendTracked? { OutboundDated(cfg, s, p); }
    else if p.ExecutePending? { OutboundDated(cfg, s, p); }
    else if p.CancelPending? || p.QueueNew? { QueueDated(cfg, s, p); }
    else if p.Tick? { QueueDated(cfg, s, p); }
    else { QuietPrimitive(cfg, s, p); }
  }

  lemma OutboundDated(cfg: Config, s: Storage, p: Primitive)
    requires s.bank.Valid() && BurnedBefore(s.events, s.now + 1) && Apply(cfg, s, p).Some?
    requires p.SendOut? || p.SendTracked? || p.ExecutePending?
    ensures var s' := Apply(cfg, s, p).value; BurnedBefore(s'.events, s'.now + 1)
  {
    hide Outbound, OutboundDraft, CurrentWindow;
    if p.ExecutePending? {
      var q := s.pending[p.id];
      OutboundEffect(cfg, s, q.owner, q.dest, q.recipient, q.amount, 0, p.wire);
    } else {
      OutboundEffect(cfg, s, p.who, p.dest, p.recipient, p.amount, p.fee, p.wire);
    }
  }

  lemma QueueDated(cfg: Config, s: Storage, p: Primitive)
    requires BurnedBefore(s.events, s.now + 1) && Apply(cfg, s, p).Some?
    requires p.CancelPending? || p.QueueNew? || p.Tick?
    ensures var s' := Apply(cfg, s, p).value; BurnedBefore(s'.events, s'.now + 1)
  {
  }

  lemma {:induction false} PrimitivesDated(cfg: Config, s: Storage, supply: nat, ps: seq<Primitive>)
    requires cfg.Sound() && Lawful(cfg, s, supply) && BurnedBefore(s.events, s.now + 1) && ApplyAll(cfg, s, ps).Some?
    ensures var s' := ApplyAll(cfg, s, ps).value; BurnedBefore(s'.events, s'.now + 1)
    decreases ps
  {
    hide Apply, Lawful, BurnedBefore;
    if ps != [] {
      ValidBank(cfg, s, supply);
      PrimitiveLawful(cfg, s, supply, ps[0]);
      PrimitiveDated(cfg, s, ps[0]);
      PrimitivesDated(cfg, Apply(cfg, s, ps[0]).value, supply, ps[1..]);
    }
  }

  /** Over every run, changes of the limits included, no burn lies in the future. */
  lemma {:induction false} RunDated(cfg: Config, s: Storage, ops: seq<Op>)
    requires cfg.Sound() && Genesis(s) && s.bank.Valid() && Supply(s) <= MAX_BALANCE
    ensures var r := Run(cfg, s, ops); BurnedBefore(r.events, r.now + 1)
  {
    hide Perform, Trace, Lawful;
    if ops != [] {
      var front, op := ops[..|ops| - 1], ops[|ops| - 1];
      RunDated(cfg, s, front);
      ConservationLaw(cfg, s, front);
      var r := Run(cfg, s, front);
      if Perform(cfg, r, op).Ok? {
        OperationTraced(cfg, r, op);
        PrimitivesDated(cfg, r, Supply(s), Trace(cfg, r, op));
      }
    }
  }

  /** In every reachable storage, whatever the limits were: the next transfer keeps the
      rolling limit if and only if the last `window` blocks have room for it. */
  lemma RollingLimitOverRuns(cfg: Config, s: Storage, ops: seq<Op>, who: AccountId, dest: Chain, recipient: nat,
                             amount: nat, fee: nat, wire: Wire, daily: nat)
    requires cfg.Sound() && Genesis(s) && s.bank.Valid() && Supply(s) <= MAX_BALANCE
    requires Outbound(cfg, Run(cfg, s, ops), who, dest, recipient, amount, fee, wire).Ok?
    ensures var r := Run(cfg, s, ops);
      Rolling(Outbound(cfg, r, who, dest, recipient, amount, fee, wire).value.0.events, cfg.window, daily) <==>
        Rolling(r.events, cfg.window, daily) && BurnedIn(r.events, r.now + 1 - cfg.window, r.now + 1) + amount <= daily
  {
    hide Run, Outbound, Lawful, Rolling, BurnedBefore;
    ConservationLaw(cfg, s, ops);
    ValidBank(cfg, Run(cfg, s, ops), Supply(s));
    RunDated(cfg, s, ops);
    RollingLimitIff(cfg, Run(cfg, s, ops), who, dest, recipient, amount, fee, wire, daily);
  }

  // ------------------------------------------------------- a run that carries it twice

  /** A genesis storage in the last block of the first accounting window. */
  function LastBlockOfWindow(cfg: Config, daily: nat): Storage
    requires cfg.window > 0
  {
    var bank := Bank(map[User(1) := 2 * daily + EXISTENTIAL_DEPOSIT], map[], map[], 2 * daily + EXISTENTIAL_DEPOSIT, 0);
    Storage(bank, HostState(0, map[], {}, map[], 0, map[]), 0, map[], false, {}, 0, 0, daily, daily,
            map[], map[], 0, map[], 0, cfg.window - 1, [])
  }

  function SpendTheLimit(daily: nat): Op { Spend(User(1), daily) }

  /** One full limit, the next block, and another full limit. */
  function TwiceOps(cfg: Config, daily: nat): seq<Op> {
    [RegisterOp(LANE, 9, cfg.nativeDecimals), SpendTheLimit(daily), NextBlock, SpendTheLimit(daily)]
  }

  /** Twice the limit does leave inside one window's length of blocks, under every sound
      configuration whose window is longer than a block: two transfers in consecutive
      blocks, the limits never touched. */
  lemma TwiceTheLimitIsAdmitted(cfg: Config, daily: nat)
    requires cfg.Sound() && 1 < cfg.window <= MAX_BLOCK
    requires cfg.minAmount <= daily && 2 * daily + EXISTENTIAL_DEPOSIT <= MAX_BALANCE
    ensures var s := LastBlockOfWindow(cfg, daily);
      var r := Run(cfg, s, TwiceOps(cfg, daily));
      && Genesis(s) && s.bank.Valid() && Supply(s) <= MAX_BALANCE && r.dailyLimit == daily
      && BurnedIn(r.events, cfg.window - 1, cfg.window + 1) == 2 * daily > daily
  {
    hide Run, Genesis, Bank.Valid, BurnedIn;
    LastBlockIsGenesis(cfg, daily);
    TwiceEvents(cfg, daily);
    var first, second := Burned(cfg.window - 1, LANE, User(1), daily), Burned(cfg.window, LANE, User(1), daily);
    BurnedInNothing([], cfg.window - 1, cfg.window + 1);
    BurnedInAppend([], first, cfg.window - 1, cfg.window + 1);
    BurnedInAppend([] + [first], second, cfg.window - 1, cfg.window + 1);
  }

  lemma LastBlockIsGenesis(cfg: Config, daily: nat)
    requires cfg.window > 0 && 2 * daily + EXISTENTIAL_DEPOSIT <= MAX_BALANCE
    ensures var s := LastBlockOfWindow(cfg, daily); Genesis(s) && s.bank.Valid() && Supply(s) <= MAX_BALANCE
  {
    var nothing: map<AccountId, nat> := map[];
    assert LastBlockOfWindow(cfg, daily).bank.free == nothing[User(1) := 2 * daily + EXISTENTIAL_DEPOSIT];
    SumWrite(nothing, User(1), 2 * daily + EXISTENTIAL_DEPOSIT);
  }

  lemma TwiceEvents(cfg: Config, daily: nat)
    requires cfg.Sound() && 1 < cfg.window <= MAX_BLOCK
    requires cfg.minAmount <= daily && 2 * daily + EXISTENTIAL_DEPOSIT <= MAX_BALANCE
    ensures var r := Run(cfg, LastBlockOfWindow(cfg, daily), TwiceOps(cfg, daily));
      && r.dailyLimit == daily
      && r.events == [] + [Burned(cfg.window - 1, LANE, User(1), daily)] + [Burned(cfg.window, LANE, User(1), daily)]
  {
    var s, ops := LastBlockOfWindow(cfg, daily), TwiceOps(cfg, daily);
    LastBlockIsGenesis(cfg, daily);
    hide Outbound, Run, Bank.Valid;
    RunUnfolds(cfg, s, ops);
    var s1 := s.(chains := map[LANE := ChainConfig(9, cfg.nativeDecimals)]);
    assert Step(cfg, s, ops[0]) == s1 by { assert RegisterChain(cfg, s, LANE, 9, cfg.nativeDecimals) == Ok(s1); }
    var s2 := Spends(cfg, s1, User(1), daily);
    var s3 := s2.(now := cfg.window);
    assert Step(cfg, s2, NextBlock) == s3;
    hide Step;
    var s4 := Spends(cfg, s3, User(1), daily);
  }

  lemma RunUnfolds(cfg: Config, s: Storage, ops: seq<Op>)
    requires |ops| == 4
    ensures Run(cfg, s, ops) == Step(cfg, Step(cfg, Step(cfg, Step(cfg, s, ops[0]), ops[1]), ops[2]), ops[3])
  {
    hide Step;
    assert ops[..3][..2] == ops[..2] && ops[..2][..1] == ops[..1] && ops[..1][..0] == [];
    assert Run(cfg, s, ops[..1]) == Step(cfg, s, ops[0]);
    assert Run(cfg, s, ops[..2]) == Step(cfg, Run(cfg, s, ops[..1]), ops[1]);
    assert Run(cfg, s, ops[..3]) == Step(cfg, Run(cfg, s, ops[..2]), ops[2]);
  }
}
