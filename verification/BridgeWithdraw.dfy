/** The time-locked withdrawal queue over every run. */
module BridgeWithdraw {
  import opened Sums
  import opened Balances
  import opened Messages
  import opened IsmpHost
  import opened BridgeState
  import opened BridgeTrace
  import opened BridgeLaws

  function QueuedTimes(events: seq<Event>, id: nat): nat {
    if events == [] then 0
    else
      var e := events[|events| - 1];
      QueuedTimes(events[..|events| - 1], id) + if e.WithdrawQueued? && e.id == id then 1 else 0
  }

  /** How often a queued withdrawal was executed or cancelled. */
  function EndedTimes(events: seq<Event>, id: nat): nat {
    if events == [] then 0
    else
      var e := events[|events| - 1];
      EndedTimes(events[..|events| - 1], id)
          + if (e.WithdrawExecuted? || e.WithdrawCancelled?) && e.id == id then 1 else 0
  }

  lemma TimesAppend(events: seq<Event>, e: Event)
    ensures forall id ::
        QueuedTimes(events + [e], id) == QueuedTimes(events, id) + if e.WithdrawQueued? && e.id == id then 1 else 0
    ensures forall id :: EndedTimes(events + [e], id) == EndedTimes(events, id)
              + if (e.WithdrawExecuted? || e.WithdrawCancelled?) && e.id == id then 1 else 0
  {
    assert (events + [e])[..|events|] == events;
  }

  /** Event `j` queued this entry under this id. */
  predicate QueuedAt(events: seq<Event>, j: nat, id: nat, entry: PendingWithdraw) {
    j < |events| && events[j].WithdrawQueued? && events[j].id == id && events[j].entry == entry
  }

  /** Event `i` executed an entry queued earlier, no sooner than its due block, right
      after burning exactly the queued amount from the queued owner to its lane. */
  ghost predicate ExecutedAsQueued(events: seq<Event>, i: nat) {
    && 0 < i < |events| && events[i].WithdrawExecuted?
    && (exists j: nat, entry ::
          && j < i - 1 && QueuedAt(events, j, events[i].id, entry)
          && entry.executeAt <= events[i].block
          && events[i - 1] == Burned(events[i].block, entry.dest, entry.owner, entry.amount))
  }

  ghost predicate DueAfterDelay(cfg: Config, e: Event) {
    e.WithdrawQueued? ==>
      && e.entry.executeAt == Min(e.block + cfg.withdrawDelay, MAX_BLOCK)
      && e.entry.amount >= cfg.minAmount
  }

  /** Ids are fresh, each is queued at most once, and each queued one is either still
      pending or has ended, once. */
  ghost predicate Counted(events: seq<Event>, next: nat, pending: map<nat, PendingWithdraw>) {
    && (forall id :: id >= next ==> QueuedTimes(events, id) == 0 && id !in pending)
    && (forall id :: QueuedTimes(events, id) <= 1)
    && (forall id :: EndedTimes(events, id) + (if id in pending then 1 else 0) == QueuedTimes(events, id))
  }

  ghost predicate PendingQueued(events: seq<Event>, pending: map<nat, PendingWithdraw>) {
    forall id :: id in pending ==> exists j: nat :: QueuedAt(events, j, id, pending[id])
  }

  ghost predicate AllExecutedAsQueued(events: seq<Event>) {
    forall i: nat :: i < |events| && events[i].WithdrawExecuted? ==> ExecutedAsQueued(events, i)
  }

  ghost predicate Orderly(cfg: Config, events: seq<Event>, next: nat, pending: map<nat, PendingWithdraw>) {
    && Counted(events, next, pending)
    && PendingQueued(events, pending)
    && (forall e :: e in events ==> DueAfterDelay(cfg, e))
    && AllExecutedAsQueued(events)
  }

  /** Holds of every reachable storage; once the id counter saturates it says nothing. */
  ghost predicate Queue(cfg: Config, s: Storage) {
    s.nextWithdrawId < MAX_U64 ==> Orderly(cfg, s.events, s.nextWithdrawId, s.pending)
  }

  lemma ExecutedStays(events: seq<Event>, e: Event, i: nat)
    requires i < |events| && ExecutedAsQueued(events, i)
    ensures ExecutedAsQueued(events + [e], i)
  {
    var j: nat, entry :| j < i - 1 && QueuedAt(events, j, events[i].id, entry)
      && entry.executeAt <= events[i].block
      && events[i - 1] == Burned(events[i].block, entry.dest, entry.owner, entry.amount);
    assert QueuedAt(events + [e], j, (events + [e])[i].id, entry);
  }

  lemma PendingStayQueued(events: seq<Event>, pending: map<nat, PendingWithdraw>, e: Event)
    requires PendingQueued(events, pending)
    ensures PendingQueued(events + [e], pending)
  {
    forall id | id in pending ensures exists j: nat :: QueuedAt(events + [e], j, id, pending[id]) {
      var j: nat :| QueuedAt(events, j, id, pending[id]);
      assert QueuedAt(events + [e], j, id, pending[id]);
    }
  }

  lemma FewerStayQueued(events: seq<Event>, pending: map<nat, PendingWithdraw>, gone: nat)
    requires PendingQueued(events, pending)
    ensures PendingQueued(events, pending - {gone})
  {
    forall id | id in pending - {gone} ensures exists j: nat :: QueuedAt(events, j, id, (pending - {gone})[id]) {
      var j: nat :| QueuedAt(events, j, id, pending[id]);
      assert QueuedAt(events, j, id, (pending - {gone})[id]);
    }
  }

  lemma ExecutedAllStay(events: seq<Event>, e: Event)
    requires AllExecutedAsQueued(events)
    requires e.WithdrawExecuted? ==> ExecutedAsQueued(events + [e], |events|)
    ensures AllExecutedAsQueued(events + [e])
  {
    forall i: nat | i < |events| && events[i].WithdrawExecuted? ensures ExecutedAsQueued(events + [e], i) {
      ExecutedStays(events, e, i);
    }
  }

  lemma EndCounted(events: seq<Event>, next: nat, pending: map<nat, PendingWithdraw>, id: nat, e: Event)
    requires Counted(events, next, pending) && id in pending
    requires (e.WithdrawExecuted? || e.WithdrawCancelled?) && e.id == id
    ensures Counted(events + [e], next, pending - {id})
  {
    TimesAppend(events, e);
    assert forall other :: other in pending - {id} <==> other in pending && other != id;
  }

  /** Any event that is not about the queue. */
  lemma NoteOrderly(cfg: Config, events: seq<Event>, next: nat, pending: map<nat, PendingWithdraw>, e: Event)
    requires Orderly(cfg, events, next, pending)
    requires !e.WithdrawQueued? && !e.WithdrawExecuted? && !e.WithdrawCancelled?
    ensures Orderly(cfg, events + [e], next, pending)
  {
    hide PendingQueued, AllExecutedAsQueued;
    TimesAppend(events, e);
    PendingStayQueued(events, pending, e);
    ExecutedAllStay(events, e);
  }

  lemma QueueOrderly(cfg: Config, events: seq<Event>, next: nat, pending: map<nat, PendingWithdraw>,
                     entry: PendingWithdraw, block: nat)
    requires Orderly(cfg, events, next, pending)
    requires DueAfterDelay(cfg, WithdrawQueued(next, entry, block))
    ensures Orderly(cfg, events + [WithdrawQueued(next, entry, block)], next + 1, pending[next := entry])
  {
    hide AllExecutedAsQueued;
    var e := WithdrawQueued(next, entry, block);
    TimesAppend(events, e);
    PendingStayQueued(events, pending, e);
    ExecutedAllStay(events, e);
    assert QueuedAt(events + [e], |events|, next, entry);
  }

  lemma CancelOrderly(cfg: Config, events: seq<Event>, next: nat, pending: map<nat, PendingWithdraw>, id: nat)
    requires Orderly(cfg, events, next, pending) && id in pending
    ensures Orderly(cfg, events + [WithdrawCancelled(id)], next, pending - {id})
  {
    hide PendingQueued, AllExecutedAsQueued, Counted;
    var e := WithdrawCancelled(id);
    EndCounted(events, next, pending, id, e);
    PendingStayQueued(events, pending, e);
    FewerStayQueued(events + [e], pending, id);
    ExecutedAllStay(events, e);
  }

  lemma ExecuteOrderly(cfg: Config, events: seq<Event>, next: nat, pending: map<nat, PendingWithdraw>, id: nat,
                       now: nat)
    requires Orderly(cfg, events, next, pending) && id in pending && pending[id].executeAt <= now
    ensures var p := pending[id];
      Orderly(cfg, events + [Burned(now, p.dest, p.owner, p.amount)] + [WithdrawExecuted(id, now)], next,
          pending - {id})
  {
    var p := pending[id];
    var burn, e := Burned(now, p.dest, p.owner, p.amount), WithdrawExecuted(id, now);
    NoteOrderly(cfg, events, next, pending, burn);
    var j: nat :| QueuedAt(events, j, id, p);
    hide PendingQueued, AllExecutedAsQueued, Counted;
    var burned := events + [burn];
    EndCounted(burned, next, pending, id, e);
    PendingStayQueued(burned, pending, e);
    FewerStayQueued(burned + [e], pending, id);
    assert QueuedAt(burned + [e], j, id, p);
    assert (burned + [e])[|events|] == burn && (burned + [e])[|events| + 1] == e;
    assert ExecutedAsQueued(burned + [e], |events| + 1);
    ExecutedAllStay(burned, e);
  }

  lemma OutboundQueue(cfg: Config, s: Storage, who: AccountId, dest: Chain, recipient: nat, amount: nat, fee: nat,
                      wire: Wire)
    requires s.bank.Valid() && Queue(cfg, s) && Outbound(cfg, s, who, dest, recipient, amount, fee, wire).Ok?
    ensures Queue(cfg, Outbound(cfg, s, who, dest, recipient, amount, fee, wire).value.0)
  {
    hide Outbound, OutboundDraft, Orderly;
    OutboundEffect(cfg, s, who, dest, recipient, amount, fee, wire);
    if s.nextWithdrawId < MAX_U64 {
      NoteOrderly(cfg, s.events, s.nextWithdrawId, s.pending, Burned(s.now, dest, who, amount));
    }
  }

  lemma ExecuteQueue(cfg: Config, s: Storage, id: nat, wire: Wire)
    requires s.bank.Valid() && Queue(cfg, s) && ExecuteWithdraw(cfg, s, id, wire).Ok?
    ensures Queue(cfg, ExecuteWithdraw(cfg, s, id, wire).value)
  {
    hide Outbound, OutboundDraft, Orderly;
    var p := s.pending[id];
    OutboundEffect(cfg, s, p.owner, p.dest, p.recipient, p.amount, 0, wire);
    if s.nextWithdrawId < MAX_U64 {
      ExecuteOrderly(cfg, s.events, s.nextWithdrawId, s.pending, id, s.now);
    }
  }

  /** A change that leaves the queue alone. */
  lemma QuietQueue(cfg: Config, s: Storage, s': Storage)
    requires Queue(cfg, s) && s'.nextWithdrawId == s.nextWithdrawId && s'.pending == s.pending
    requires s'.events == s.events
      || exists e: Event ::
          !e.WithdrawQueued? && !e.WithdrawExecuted? && !e.WithdrawCancelled? && s'.events == s.events + [e]
    ensures Queue(cfg, s')
  {
    hide Orderly;
    if s'.events != s.events && s.nextWithdrawId < MAX_U64 {
      var e: Event :| !e.WithdrawQueued? && !e.WithdrawExecuted? && !e.WithdrawCancelled?
          && s'.events == s.events + [e];
      NoteOrderly(cfg, s.events, s.nextWithdrawId, s.pending, e);
    }
  }

  lemma TrackedQueue(cfg: Config, s: Storage, who: AccountId, dest: Chain, recipient: nat, amount: nat, fee: nat,
                     wire: Wire, meta: seq<nat>)
    requires s.bank.Valid() && Queue(cfg, s)
        && OutboundTracked(cfg, s, who, dest, recipient, amount, fee, wire, meta).Ok?
    ensures Queue(cfg, OutboundTracked(cfg, s, who, dest, recipient, amount, fee, wire, meta).value.0)
  {
    hide Outbound, Queue;
    OutboundQueue(cfg, s, who, dest, recipient, amount, fee, wire);
    QuietQueue(cfg, Outbound(cfg, s, who, dest, recipient, amount, fee, wire).value.0,
               OutboundTracked(cfg, s, who, dest, recipient, amount, fee, wire, meta).value.0);
  }

  lemma QueueEntryQueue(cfg: Config, s: Storage, owner: AccountId, dest: Chain, recipient: nat, amount: nat)
    requires Queue(cfg, s) && amount >= cfg.minAmount
    ensures Queue(cfg, QueueWithdraw(cfg, s, owner, dest, recipient, amount))
  {
    hide Orderly;
    if s.nextWithdrawId < MAX_U64 {
      var entry := PendingWithdraw(owner, dest, recipient, amount, Min(s.now + cfg.withdrawDelay, MAX_BLOCK));
      QueueOrderly(cfg, s.events, s.nextWithdrawId, s.pending, entry, s.now);
    }
  }

  lemma CancelQueue(cfg: Config, s: Storage, id: nat)
    requires Queue(cfg, s) && CancelWithdraw(s, id).Ok?
    ensures Queue(cfg, CancelWithdraw(s, id).value)
  {
    hide Orderly;
    if s.nextWithdrawId < MAX_U64 { CancelOrderly(cfg, s.events, s.nextWithdrawId, s.pending, id); }
  }

  lemma PrimitiveQueue(cfg: Config, s: Storage, p: Primitive)
    requires s.bank.Valid() && Queue(cfg, s) && Apply(cfg, s, p).Some?
    ensures Queue(cfg, Apply(cfg, s, p).value)
  {
    hide Outbound, OutboundTracked, Queue, QueueWithdraw, CancelWithdraw, ExecuteWithdraw;
    var s' := Apply(cfg, s, p).value;
    if p.SendOut? { OutboundQueue(cfg, s, p.who, p.dest, p.recipient, p.amount, p.fee, p.wire); }
    else if p.SendTracked? { TrackedQueue(cfg, s, p.who, p.dest, p.recipient, p.amount, p.fee, p.wire, p.meta); }
    else if p.ExecutePending? { ExecuteQueue(cfg, s, p.id, p.wire); }
    else if p.CancelPending? { CancelQueue(cfg, s, p.id); }
    else if p.QueueNew? { QueueEntryQueue(cfg, s, p.owner, p.dest, p.recipient, p.amount); }
    else {
      hide Apply;
      QuietPrimitive(cfg, s, p);
      QuietQueue(cfg, s, s');
    }
  }

  lemma {:induction false} PrimitivesQueue(cfg: Config, s: Storage, supply: nat, ps: seq<Primitive>)
    requires cfg.Sound() && Lawful(cfg, s, supply) && Queue(cfg, s) && ApplyAll(cfg, s, ps).Some?
    ensures Queue(cfg, ApplyAll(cfg, s, ps).value)
    decreases ps
  {
    hide Apply, Lawful, Queue;
    if ps != [] {
      ValidBank(cfg, s, supply);
      PrimitiveLawful(cfg, s, supply, ps[0]);
      PrimitiveQueue(cfg, s, ps[0]);
      PrimitivesQueue(cfg, Apply(cfg, s, ps[0]).value, supply, ps[1..]);
    }
  }

  lemma StepQueue(cfg: Config, s: Storage, supply: nat, op: Op)
    requires cfg.Sound() && Lawful(cfg, s, supply) && Queue(cfg, s)
    ensures Queue(cfg, Step(cfg, s, op))
  {
    hide Perform, Trace, Lawful, Queue;
    if Perform(cfg, s, op).Ok? {
      OperationTraced(cfg, s, op);
      PrimitivesQueue(cfg, s, supply, Trace(cfg, s, op));
    }
  }

  // ---------------------------------------------------------------------- main results

  /** Over every run, below id saturation: the next id is fresh, every id is queued at
      most once and ended at most once (executed or cancelled, never both), it is pending
      exactly from queueing to its end, and every execution burned the queued amount from
      the queued owner, to the queued lane, no earlier than the queueing block plus the
      delay (or the last block number there is). */
  lemma {:induction false} WithdrawalLaw(cfg: Config, s: Storage, ops: seq<Op>)
    requires cfg.Sound() && Genesis(s) && s.bank.Valid() && Supply(s) <= MAX_BALANCE
    ensures Queue(cfg, Run(cfg, s, ops))
  {
    hide Step, Lawful;
    if ops != [] {
      var front := ops[..|ops| - 1];
      WithdrawalLaw(cfg, s, front);
      ConservationLaw(cfg, s, front);
      StepQueue(cfg, Run(cfg, s, front), Supply(s), ops[|ops| - 1]);
    }
  }

  /** Queueing keeps every pending entry if and only if the next id is free, or its entry
      is the very one being queued; below saturation the law above makes it free. */
  lemma QueueKeepsEntriesIff(cfg: Config, s: Storage, owner: AccountId, dest: Chain, recipient: nat, amount: nat)
    ensures var s1 := QueueWithdraw(cfg, s, owner, dest, recipient, amount);
      (forall id :: id in s.pending ==> id in s1.pending && s1.pending[id] == s.pending[id]) <==>
        s.nextWithdrawId !in s.pending
        || s.pending[s.nextWithdrawId] == PendingWithdraw(owner, dest, recipient, amount,
            Min(s.now + cfg.withdrawDelay, MAX_BLOCK))
  {
  }

  /** At saturation the counter stops and the second entry queued replaces the first. */
  lemma SaturatedIdOverwrites(cfg: Config, s: Storage, first: AccountId, second: AccountId, dest: Chain,
                              recipient: nat, amount: nat)
    requires s.nextWithdrawId == MAX_U64 && first != second
    ensures var one := QueueWithdraw(cfg, s, first, dest, recipient, amount);
      var two := QueueWithdraw(cfg, one, second, dest, recipient, amount);
      one.pending[MAX_U64].owner == first && two.pending[MAX_U64].owner == second
          && two.pending.Keys == one.pending.Keys
  {
  }
}
