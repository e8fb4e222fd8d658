/** The drain of the legacy state commitments, a bounded batch per block out of leftover
    weight: two storage maps cleared by the host, and child-trie keys walked one by one. */
module TrieDrain {
  import opened Sums
  import opened Balances
  import opened Messages
  import opened IsmpHost
  import opened LexKeys

  /** The bytes of "state". */
  const STATE_COMMITMENTS_KEY: Key := [115, 116, 97, 116, 101]

  const SAFETY_BUFFER: nat := 10
  const STATE_BATCH: nat := 500
  const CHILD_TRIE_BATCH: nat := 200
  const CHILD_TRIE_DRAIN: nat := CHILD_TRIE_BATCH - SAFETY_BUFFER
  const MAX_CURSOR: nat := 1024

  datatype Weight = Weight(time: nat, proof: nat)
  {
    predicate AllLeq(other: Weight) { time <= other.time && proof <= other.proof }
    function SatAdd(other: Weight): Weight { Weight(Min(time + other.time, MAX_U64), Min(proof + other.proof,
                    MAX_U64)) }
    function SatMinus(other: Weight): Weight { Weight(SatSub(time, other.time), SatSub(proof, other.proof)) }
  }

  /** What a batch of each size costs. */
  datatype Costs = Costs(commitments: nat -> Weight, times: nat -> Weight, trie: nat -> Weight)

  ghost predicate Monotone(cost: nat -> Weight) {
    forall a: nat, b: nat :: a <= b ==> cost(a).AllLeq(cost(b))
  }

  ghost predicate AllMonotone(costs: Costs) {
    Monotone(costs.commitments) && Monotone(costs.times) && Monotone(costs.trie)
  }

  datatype DrainState = Active(cursor: Option<Key>) | Done

  /** What clearing part of a storage map reports. */
  datatype ClearResult = ClearResult(cursor: Option<Key>, unique: nat)

  /** A cursor that does not fit is dropped, which restarts from the beginning. */
  function Bounded(cursor: Key): DrainState {
    if |cursor| <= MAX_CURSOR then Active(Some(cursor)) else Active(None)
  }

  function AfterClear(result: ClearResult): DrainState {
    match result.cursor case Some(c) => Bounded(c) case None => Done
  }

  predicate Funded(state: DrainState, cost: nat -> Weight, batch: nat, budget: Weight) {
    state.Active? && cost(batch).AllLeq(budget)
  }

  /** What a step of a map drain uses of its budget. */
  function ClearUse(state: DrainState, cost: nat -> Weight, budget: Weight, result: ClearResult): Weight {
    if Funded(state, cost, STATE_BATCH, budget) then cost(result.unique) else Weight(0, 0)
  }

  // -------------------------------------------------------------------- the trie drain

  /** Where the walk resumes, everything under the prefix is still ahead. */
  ghost predicate Resumes(trie: set<Key>, state: DrainState) {
    match state
    case Done => Under(trie, STATE_COMMITMENTS_KEY) == {}
    case Active(None) => true
    case Active(Some(c)) => StartsWith(c, STATE_COMMITMENTS_KEY) && AllAhead(trie, c)
  }

  ghost predicate AllAhead(trie: set<Key>, last: Key) {
    forall k :: k in Under(trie, STATE_COMMITMENTS_KEY) ==> Less(last, k)
  }

  /** One funded batch: the first 190 keys under the prefix go, or all that are left; the
      drain is done exactly when there were fewer; no other key is touched. */
  ghost predicate DrainStep(trie: set<Key>, state: DrainState, trie': set<Key>, state': DrainState) {
    if state.Done? then trie' == trie && state' == state
    else
      var under, gone := Under(trie, STATE_COMMITMENTS_KEY), trie - trie';
      && trie' <= trie && gone <= under && |gone| == Min(CHILD_TRIE_DRAIN, |under|)
      && (state'.Done? <==> |under| < CHILD_TRIE_DRAIN)
      && (forall x, y :: x in gone && y in under - gone ==> Less(x, y))
      && Resumes(trie', state')
  }

  /** What the rest of the chain may do between batches: no new keys under the prefix. */
  ghost predicate Undisturbed(trie: set<Key>, trie': set<Key>) {
    Under(trie', STATE_COMMITMENTS_KEY) <= Under(trie, STATE_COMMITMENTS_KEY)
  }

  lemma DisturbanceKeepsResuming(trie: set<Key>, trie': set<Key>, state: DrainState)
    requires Resumes(trie, state) && Undisturbed(trie, trie')
    ensures Resumes(trie', state)
  {
  }

  /** Keys under the prefix after some of them were removed. */
  lemma UnderShrinks(trie: set<Key>, gone: set<Key>)
    requires gone <= Under(trie, STATE_COMMITMENTS_KEY)
    ensures Under(trie - gone, STATE_COMMITMENTS_KEY) == Under(trie, STATE_COMMITMENTS_KEY) - gone
    ensures |Under(trie - gone, STATE_COMMITMENTS_KEY)| == |Under(trie, STATE_COMMITMENTS_KEY)| - |gone|
  {
    assert Under(trie - gone, STATE_COMMITMENTS_KEY) == Under(trie, STATE_COMMITMENTS_KEY) - gone;
  }

  datatype Moment = Moment(trie: set<Key>, state: DrainState)

  /** A history of blocks: `funded[i]` says whether the step from moment i was a batch. */
  ghost predicate History(moments: seq<Moment>, funded: seq<bool>) {
    && |moments| == |funded| + 1
    && forall i :: 0 <= i < |funded| ==>
         if funded[i] then DrainStep(moments[i].trie, moments[i].state, moments[i + 1].trie, moments[i + 1].state)
         else Undisturbed(moments[i].trie, moments[i + 1].trie) && moments[i + 1].state == moments[i].state
  }

  function Batches(funded: seq<bool>): nat {
    if funded == [] then 0 else Batches(funded[..|funded| - 1]) + if funded[|funded| - 1] then 1 else 0
  }

  /** Progress: every funded batch removes a full 190 keys until the drain is done. */
  lemma {:induction false} EveryBatchCounts(moments: seq<Moment>, funded: seq<bool>)
    requires History(moments, funded) && Resumes(moments[0].trie, moments[0].state)
    ensures var first, last := moments[0], moments[|funded|];
      && Resumes(last.trie, last.state)
      && Under(last.trie, STATE_COMMITMENTS_KEY) <= Under(first.trie, STATE_COMMITMENTS_KEY)
      && (last.state.Done? ||
            |Under(last.trie, STATE_COMMITMENTS_KEY)|
                + CHILD_TRIE_DRAIN * Batches(funded) <= |Under(first.trie, STATE_COMMITMENTS_KEY)|)
    decreases |funded|
  {
    if funded != [] {
      var n := |funded| - 1;
      EveryBatchCounts(moments[..n + 1], funded[..n]);
      var a, b := moments[n], moments[n + 1];
      if funded[n] {
        BatchProgress(a.trie, a.state, b.trie, b.state);
      } else {
        DisturbanceKeepsResuming(a.trie, b.trie, a.state);
        FewerKeys(Under(b.trie, STATE_COMMITMENTS_KEY), Under(a.trie, STATE_COMMITMENTS_KEY));
      }
    }
  }

  lemma FewerKeys(a: set<Key>, b: set<Key>)
    requires a <= b
    ensures |a| <= |b|
  {
    assert b == a + (b - a);
  }

  lemma BatchProgress(trie: set<Key>, state: DrainState, trie': set<Key>, state': DrainState)
    requires DrainStep(trie, state, trie', state') && Resumes(trie, state)
    ensures Resumes(trie', state') && Under(trie', STATE_COMMITMENTS_KEY) <= Under(trie, STATE_COMMITMENTS_KEY)
    ensures state.Done? ==> state'.Done?
    ensures !state'.Done? ==>
      |Under(trie', STATE_COMMITMENTS_KEY)| + CHILD_TRIE_DRAIN == |Under(trie, STATE_COMMITMENTS_KEY)|
  {
    if state.Active? {
      UnderShrinks(trie, trie - trie');
      assert trie - (trie - trie') == trie';
    }
  }

  /** The drain ends: once more batches were funded than the keys under the prefix fill,
      whatever happened in between, it is done and not one such key is left. */
  lemma DrainEnds(moments: seq<Moment>, funded: seq<bool>)
    requires History(moments, funded) && Resumes(moments[0].trie, moments[0].state)
    requires CHILD_TRIE_DRAIN * Batches(funded) > |Under(moments[0].trie, STATE_COMMITMENTS_KEY)|
    ensures moments[|funded|].state.Done? && Under(moments[|funded|].trie, STATE_COMMITMENTS_KEY) == {}
  {
    EveryBatchCounts(moments, funded);
  }

  /** Part of a batch: `gone` was removed in order, and the walk stands at `last`. */
  ghost predicate Walked(before: set<Key>, gone: set<Key>, trie: set<Key>, last: Key) {
    var under := Under(before, STATE_COMMITMENTS_KEY);
    && gone <= under && trie == before - gone
    && StartsWith(last, STATE_COMMITMENTS_KEY) && AllAhead(trie, last)
    && (forall x, y :: x in gone && y in under - gone ==> Less(x, y))
  }

  lemma WalkStarts(trie: set<Key>, state: DrainState)
    requires state.Active? && Resumes(trie, state)
    ensures Walked(trie, {}, trie, match state.cursor case Some(c) => c case None => STATE_COMMITMENTS_KEY)
  {
    if state.cursor.None? {
      forall k | k in Under(trie, STATE_COMMITMENTS_KEY) ensures Less(STATE_COMMITMENTS_KEY, k) {
        PrefixComesFirst(k, STATE_COMMITMENTS_KEY);
      }
    }
  }

  lemma WalkGoesOn(before: set<Key>, gone: set<Key>, trie: set<Key>, last: Key)
    requires Walked(before, gone, trie, last)
    ensures var next := NextKey(trie, last);
      if next.Some? && StartsWith(next.value, STATE_COMMITMENTS_KEY)
      then next.value !in gone && Walked(before, gone + {next.value}, trie - {next.value}, next.value)
      else Under(trie, STATE_COMMITMENTS_KEY) == {}
  {
    UnderShrinks(before, gone);
    NextStaysUnder(trie, STATE_COMMITMENTS_KEY, last);
    var next := NextKey(trie, last);
    hide Less;
    if next.Some? && StartsWith(next.value, STATE_COMMITMENTS_KEY) {
      UnderShrinks(before, gone + {next.value});
      assert before - (gone + {next.value}) == trie - {next.value};
    } else {
      assert forall k :: k in Under(trie, STATE_COMMITMENTS_KEY) ==> k in After(trie, last);
    }
  }

  lemma WalkedIsDrained(before: set<Key>, gone: set<Key>, trie: set<Key>, last: Key, exhausted: bool)
    requires Walked(before, gone, trie, last) && |gone| <= CHILD_TRIE_DRAIN
    requires if exhausted then |gone| < CHILD_TRIE_DRAIN
        && Under(trie, STATE_COMMITMENTS_KEY) == {} else |gone| == CHILD_TRIE_DRAIN
    ensures forall cursor :: DrainStep(before, Active(cursor), trie, if exhausted then Done else Bounded(last))
    ensures before - trie == gone
  {
    UnderShrinks(before, gone);
    assert before - trie == gone;
  }

  class LegacyDrains {
    var trie: set<Key>
    var commitmentsDrain: DrainState
    var timesDrain: DrainState
    var trieDrain: DrainState

    constructor (trie: set<Key>)
      ensures this.trie == trie && Resumes(trie, trieDrain)
      ensures commitmentsDrain == timesDrain == trieDrain == Active(None)
    {
      this.trie := trie;
      commitmentsDrain, timesDrain, trieDrain := Active(None), Active(None), Active(None);
    }

    /** Walks at most 190 keys from the cursor, removing each. */
    method DrainChildTrie() returns (removed: nat)
      requires trieDrain.Active? && Resumes(trie, trieDrain)
      modifies this`trie, this`trieDrain
      ensures DrainStep(old(trie), Active(old(trieDrain).cursor), trie, trieDrain)
      ensures removed == |old(trie) - trie| <= CHILD_TRIE_DRAIN
    {
      var last := match trieDrain.cursor case Some(c) => c case None => STATE_COMMITMENTS_KEY;
      var exhausted := false;
      removed := 0;
      ghost var gone: set<Key> := {};
      WalkStarts(trie, trieDrain);
      hide Walked, StartsWith, Under, Less;
      while removed < CHILD_TRIE_DRAIN && !exhausted
        invariant removed == |gone| <= CHILD_TRIE_DRAIN
        invariant Walked(old(trie), gone, trie, last)
        invariant exhausted ==> removed < CHILD_TRIE_DRAIN && Under(trie, STATE_COMMITMENTS_KEY) == {}
        decreases CHILD_TRIE_DRAIN - removed, !exhausted
      {
        WalkGoesOn(old(trie), gone, trie, last);
        var next := NextKey(trie, last);
        if next.Some? && StartsWith(next.value, STATE_COMMITMENTS_KEY) {
          trie := trie - {next.value};
          gone := gone + {next.value};
          last := next.value;
          removed := removed + 1;
        } else {
          exhausted := true;
        }
      }
      trieDrain := if exhausted then Done else Bounded(last);
      WalkedIsDrained(old(trie), gone, trie, last, exhausted);
    }

    /** All three drains, each only if what is left of the weight covers a full batch. */
    method OnIdle(remaining: Weight, costs: Costs, commitments: ClearResult,
                  times: ClearResult) returns (consumed: Weight)
      requires Resumes(trie, trieDrain) && remaining.AllLeq(Weight(MAX_U64, MAX_U64))
      requires AllMonotone(costs) && commitments.unique <= STATE_BATCH && times.unique <= STATE_BATCH
      modifies this
      ensures consumed.AllLeq(remaining)
      ensures var firstUse := ClearUse(old(commitmentsDrain), costs.commitments, remaining, commitments);
        var afterFirst := remaining.SatMinus(firstUse);
        var secondUse := ClearUse(old(timesDrain), costs.times, afterFirst, times);
        var left := afterFirst.SatMinus(secondUse);
        && commitmentsDrain == (if Funded(old(commitmentsDrain), costs.commitments, STATE_BATCH,
            remaining) then AfterClear(commitments) else old(commitmentsDrain))
        && timesDrain == (if Funded(old(timesDrain), costs.times, STATE_BATCH,
            afterFirst) then AfterClear(times) else old(timesDrain))
        && (if Funded(old(trieDrain), costs.trie, CHILD_TRIE_BATCH, left)
            then DrainStep(old(trie), old(trieDrain), trie, trieDrain)
            else trie == old(trie) && trieDrain == old(trieDrain))
      ensures Resumes(trie, trieDrain)
    {
      consumed := Weight(0, 0);
      var budget := remaining;
      if Funded(commitmentsDrain, costs.commitments, STATE_BATCH, budget) {
        commitmentsDrain := AfterClear(commitments);
        var used := costs.commitments(commitments.unique);
        assert used.AllLeq(costs.commitments(STATE_BATCH));
        consumed := consumed.SatAdd(used);
        budget := budget.SatMinus(used);
      }
      if Funded(timesDrain, costs.times, STATE_BATCH, budget) {
        timesDrain := AfterClear(times);
        var used := costs.times(times.unique);
        assert used.AllLeq(costs.times(STATE_BATCH));
        consumed := consumed.SatAdd(used);
        budget := budget.SatMinus(used);
      }
      if Funded(trieDrain, costs.trie, CHILD_TRIE_BATCH, budget) {
        var removed := DrainChildTrie();
        var used := costs.trie(removed);
        assert used.AllLeq(costs.trie(CHILD_TRIE_BATCH));
        consumed := consumed.SatAdd(used);
      }
    }
  }
}
