/** The bounded store of state commitments: per state machine at most 1024 heights, the
    oldest evicted first, and vetoes that also move the latest height back. */
module CommitmentStore {
  import opened Sums
  import opened Balances

  const MAX_COMMITMENTS: nat := 1024

  type MachineId = nat

  datatype Store = Store(
    known: map<MachineId, set<nat>>,
    commitments: map<(MachineId, nat), nat>,
    times: map<(MachineId, nat), nat>,
    latest: map<MachineId, nat>,
    previous: map<MachineId, nat>)

  const EMPTY_STORE: Store := Store(map[], map[], map[], map[], map[])

  function Known(s: Store, id: MachineId): set<nat> {
    if id in s.known then s.known[id] else {}
  }

  lemma {:induction false} SomeHeightIsOldest(heights: set<nat>)
    requires heights != {}
    ensures exists h :: h in heights && forall x :: x in heights ==> h <= x
    decreases |heights|
  {
    var a :| a in heights;
    if heights != {a} {
      var rest := heights - {a};
      assert heights == {a} + rest;
      SomeHeightIsOldest(rest);
      var b :| b in rest && forall x :: x in rest ==> b <= x;
      var least := Min(a, b);
      assert forall x :: x in heights ==> x == a || x in rest;
      assert least in heights && forall x :: x in heights ==> least <= x;
    }
  }

  /** The first element of the sorted set. */
  function Oldest(heights: set<nat>): (h: nat)
    requires heights != {}
    ensures h in heights && forall x :: x in heights ==> h <= x
  {
    SomeHeightIsOldest(heights);
    var h :| h in heights && forall x :: x in heights ==> h <= x;
    h
  }

  /** Insertion into a bounded set: refused only for a new element of a full set. */
  function TryInsert(heights: set<nat>, height: nat): Option<set<nat>> {
    if height in heights || |heights| < MAX_COMMITMENTS then Some(heights + {height}) else None
  }

  function Evicted(s: Store, id: MachineId, height: nat): Store {
    s.(known := s.known[id := Known(s, id) - {height}],
       commitments := s.commitments - {(id, height)},
       times := s.times - {(id, height)})
  }

  /** The result of the set insertion is ignored, as in the source. */
  function InsertCommitment(s: Store, id: MachineId, height: nat, commitment: nat): Store {
    var room := if |Known(s, id)| >= MAX_COMMITMENTS then Evicted(s, id, Oldest(Known(s, id))) else s;
    var heights := match TryInsert(Known(room, id), height) case Some(grown) => grown case None => Known(room, id);
    room.(known := room.known[id := heights], commitments := room.commitments[(id, height) := commitment])
  }

  function InsertTime(s: Store, id: MachineId, height: nat, time: nat): Store {
    s.(times := s.times[(id, height) := time])
  }

  function StoreLatest(s: Store, id: MachineId, height: nat): Store {
    s.(previous := s.previous[id := At(s.latest, id)], latest := s.latest[id := height])
  }

  /** A veto: what it leaves behind, and whether it succeeded. */
  function Veto(s: Store, id: MachineId, height: nat): (Store, bool) {
    var gone := Evicted(s, id, height);
    if !(id in s.latest && s.latest[id] == height) then (gone, true)
    else if id !in s.previous then (gone, false)
    else (gone.(latest := s.latest[id := s.previous[id]]), true)
  }

  datatype Op =
    | Commit(id: MachineId, height: nat, commitment: nat)
    | Timestamp(id: MachineId, height: nat, time: nat)
    | Advance(id: MachineId, height: nat)
    | Retract(id: MachineId, height: nat)

  function Step(s: Store, op: Op): Store {
    match op
    case Commit(id, height, commitment) => InsertCommitment(s, id, height, commitment)
    case Timestamp(id, height, time) => InsertTime(s, id, height, time)
    case Advance(id, height) => StoreLatest(s, id, height)
    case Retract(id, height) => Veto(s, id, height).0
  }

  function Run(s: Store, ops: seq<Op>): Store {
    if ops == [] then s else Step(Run(s, ops[..|ops| - 1]), ops[|ops| - 1])
  }

  // ---------------------------------------------------------------------- the invariant

  ghost predicate Indexed(s: Store) {
    forall id: MachineId, height: nat :: (id, height) in s.commitments <==> height in Known(s, id)
  }

  ghost predicate Capped(s: Store) {
    forall id :: |Known(s, id)| <= MAX_COMMITMENTS
  }

  ghost predicate Chained(s: Store) {
    forall id :: id in s.latest ==> id in s.previous
  }

  /** The index is exact, it is bounded, and a latest height has a predecessor on file. */
  ghost predicate Bounded(s: Store) {
    Indexed(s) && Capped(s) && Chained(s)
  }

  lemma OneFewer(heights: set<nat>, h: nat)
    ensures |heights - {h}| == if h in heights then |heights| - 1 else |heights|
  {
    if h !in heights { assert heights - {h} == heights; }
  }

  lemma EvictionShrinks(s: Store, id: MachineId, height: nat)
    requires Bounded(s)
    ensures var s' := Evicted(s, id, height);
      && Bounded(s') && s'.latest == s.latest && s'.previous == s.previous
      && (height in Known(s, id) ==> |Known(s', id)| == |Known(s, id)| - 1)
      && (forall other :: Known(s', other) == if other == id then Known(s, id) - {height} else Known(s, other))
  {
    var s' := Evicted(s, id, height);
    EvictedIndex(s, id, height);
    hide Evicted, Indexed, Known;
    OneFewer(Known(s, id), height);
    forall other ensures |Known(s', other)| <= MAX_COMMITMENTS {
      assert |Known(s, other)| <= MAX_COMMITMENTS;
    }
  }

  lemma EvictedIndex(s: Store, id: MachineId, height: nat)
    requires Indexed(s)
    ensures var s' := Evicted(s, id, height);
      && Indexed(s') && s'.latest == s.latest && s'.previous == s.previous
      && (forall other :: Known(s', other) == if other == id then Known(s, id) - {height} else Known(s, other))
  {
  }

  lemma OneMore(heights: set<nat>, h: nat)
    requires |heights| < MAX_COMMITMENTS
    ensures TryInsert(heights, h) == Some(heights + {h}) && |heights + {h}| <= MAX_COMMITMENTS
  {
    if h in heights { assert heights + {h} == heights; }
  }

  /** What an insertion does to the index: one height in, the oldest out of a full set;
      and the insertion whose result is ignored has always succeeded. */
  lemma InsertionNeverRefused(s: Store, id: MachineId, height: nat, commitment: nat)
    requires Bounded(s)
    ensures var heights, s' := Known(s, id), InsertCommitment(s, id, height, commitment);
      var kept := if |heights| >= MAX_COMMITMENTS then heights - {Oldest(heights)} else heights;
      && TryInsert(kept, height).Some?
      && Known(s', id) == kept + {height}
      && (forall other :: other != id ==> Known(s', other) == Known(s, other))
      && Bounded(s')
  {
    hide TryInsert, Evicted;
    var heights := Known(s, id);
    var room := if |heights| >= MAX_COMMITMENTS then Evicted(s, id, Oldest(heights)) else s;
    assert |heights| <= MAX_COMMITMENTS;
    if |heights| >= MAX_COMMITMENTS { EvictionShrinks(s, id, Oldest(heights)); }
    OneMore(Known(room, id), height);
    GrowthKeepsBounded(room, id, height, commitment);
  }

  lemma GrowthKeepsBounded(room: Store, id: MachineId, height: nat, commitment: nat)
    requires Bounded(room) && |Known(room, id) + {height}| <= MAX_COMMITMENTS
    ensures var s' := room.(known := room.known[id := Known(room, id) + {height}],
        commitments := room.commitments[(id, height) := commitment]);
      Bounded(s') && forall other ::
          Known(s', other) == if other == id then Known(room, id) + {height} else Known(room, other)
  {
    var s' := room.(known := room.known[id := Known(room, id) + {height}],
        commitments := room.commitments[(id, height) := commitment]);
    assert Indexed(s');
    assert forall other :: Known(s', other) == if other == id then Known(room, id) + {height} else Known(room, other);
    hide Known, Indexed;
    forall other ensures |Known(s', other)| <= MAX_COMMITMENTS {
      assert |Known(room, other)| <= MAX_COMMITMENTS;
    }
  }

  lemma StepKeepsBounded(s: Store, op: Op)
    requires Bounded(s)
    ensures Bounded(Step(s, op))
  {
    hide InsertCommitment, Evicted;
    match op {
      case Commit(id, height, commitment) => InsertionNeverRefused(s, id, height, commitment);
      case Retract(id, height) =>
        EvictionShrinks(s, id, height);
        SameIndex(Evicted(s, id, height), Step(s, op));
      case _ => SameIndex(s, Step(s, op));
    }
  }

  lemma SameIndex(s: Store, s': Store)
    requires Bounded(s) && s'.known == s.known && s'.commitments == s.commitments
    requires forall id :: id in s'.latest ==> id in s'.previous
    ensures Bounded(s')
  {
    assert forall id :: Known(s', id) == Known(s, id);
  }

  /** Over every run of insertions, timestamps, advances and vetoes: the stored commitments
      are exactly the indexed heights, at most 1024 for each state machine. */
  lemma {:induction false} StoreLaw(ops: seq<Op>)
    ensures Bounded(Run(EMPTY_STORE, ops))
  {
    hide Step;
    if ops != [] {
      StoreLaw(ops[..|ops| - 1]);
      StepKeepsBounded(Run(EMPTY_STORE, ops[..|ops| - 1]), ops[|ops| - 1]);
    }
  }

  /** So a veto never meets the missing-predecessor error. */
  lemma VetoNeverFails(ops: seq<Op>, id: MachineId, height: nat)
    ensures Veto(Run(EMPTY_STORE, ops), id, height).1
  {
    StoreLaw(ops);
  }

  // ------------------------------------------------------------------------- timestamps

  /** Every timestamp belongs to a stored height. */
  ghost predicate TimesIndexed(s: Store) {
    forall id: MachineId, height: nat :: (id, height) in s.times ==> height in Known(s, id)
  }

  /** Insertions and vetoes drop timestamps with their heights; storing a timestamp keeps
      the store tidy if and only if its height is stored. */
  lemma TimesStayIndexed(s: Store, op: Op)
    requires Bounded(s) && TimesIndexed(s)
    ensures TimesIndexed(Step(s, op)) <==> (op.Timestamp? ==> op.height in Known(s, op.id))
  {
    match op {
      case Commit(id, height, commitment) => InsertionNeverRefused(s, id, height, commitment);
      case Timestamp(id, height, time) =>
        assert (id, height) in Step(s, op).times;
        assert forall i :: Known(Step(s, op), i) == Known(s, i);
      case _ =>
    }
  }

  // ------------------------------------------------------------------ the newest heights

  predicate Increasing(heights: seq<nat>) {
    forall i, j :: 0 <= i < j < |heights| ==> heights[i] < heights[j]
  }

  /** The heights inserted for one machine, in order. */
  function HeightsOf(ops: seq<Op>, id: MachineId): seq<nat> {
    if ops == [] then []
    else
      var last := ops[|ops| - 1];
      HeightsOf(ops[..|ops| - 1], id) + if last.Commit? && last.id == id then [last.height] else []
  }

  /** The last 1024 of a sequence, or all of it. */
  function Newest(heights: seq<nat>): seq<nat> {
    if |heights| <= MAX_COMMITMENTS then heights else heights[|heights| - MAX_COMMITMENTS..]
  }

  function SetOf(heights: seq<nat>): set<nat> { set h | h in heights }

  lemma {:induction false} IncreasingIsFull(heights: seq<nat>)
    requires Increasing(heights)
    ensures |SetOf(heights)| == |heights|
  {
    if heights == [] {
      assert SetOf(heights) == {};
    } else {
      var front, last := heights[..|heights| - 1], heights[|heights| - 1];
      IncreasingIsFull(front);
      assert heights == front + [last];
      assert SetOf(heights) == SetOf(front) + {last};
    }
  }

  lemma OldestOfIncreasing(heights: seq<nat>)
    requires Increasing(heights) && heights != []
    ensures SetOf(heights) != {} && Oldest(SetOf(heights)) == heights[0]
    ensures SetOf(heights) - {heights[0]} == SetOf(heights[1..])
  {
    assert heights[0] in SetOf(heights);
    assert heights == [heights[0]] + heights[1..];
    assert heights[0] !in heights[1..];
  }

  /** Whatever else the host stores in between, timestamps, latest heights and everything
      of other machines: as long as a machine's heights only grow and none is vetoed, after
      n insertions the store holds exactly the newest min(n, 1024) of them. */
  lemma {:induction false} IncreasingKeepsNewest(ops: seq<Op>, id: MachineId)
    requires forall op :: op in ops && op.Retract? ==> op.id != id
    requires Increasing(HeightsOf(ops, id))
    ensures Known(Run(EMPTY_STORE, ops), id) == SetOf(Newest(HeightsOf(ops, id)))
    ensures |Known(Run(EMPTY_STORE, ops), id)| == Min(|HeightsOf(ops, id)|, MAX_COMMITMENTS)
  {
    hide Step;
    IncreasingIsFull(Newest(HeightsOf(ops, id)));
    if ops != [] {
      var front, op, heights := ops[..|ops| - 1], ops[|ops| - 1], HeightsOf(ops, id);
      if op.Commit? && op.id == id {
        assert heights[..|heights| - 1] == HeightsOf(front, id);
      } else {
        assert heights == HeightsOf(front, id);
      }
      IncreasingKeepsNewest(front, id);
      StoreLaw(front);
      if op.Commit? && op.id == id {
        InsertLast(Run(EMPTY_STORE, front), id, heights, |heights| - 1, op.commitment);
      } else {
        OthersKeepKnown(Run(EMPTY_STORE, front), op, id);
      }
    }
  }

  lemma OthersKeepKnown(s: Store, op: Op, id: MachineId)
    requires Bounded(s) && ((op.Commit? || op.Retract?) ==> op.id != id)
    ensures Known(Step(s, op), id) == Known(s, id)
  {
    hide Bounded;
    match op {
      case Commit(other, height, commitment) => InsertionNeverRefused(s, other, height, commitment);
      case Retract(other, height) => EvictionShrinks(s, other, height);
      case _ =>
    }
  }

  lemma InsertLast(s: Store, id: MachineId, heights: seq<nat>, n: nat, commitment: nat)
    requires Bounded(s) && Increasing(heights) && n + 1 == |heights|
    requires Known(s, id) == SetOf(Newest(heights[..n]))
    ensures Known(Step(s, Commit(id, heights[n], commitment)), id) == SetOf(Newest(heights))
  {
    hide InsertCommitment, Bounded, TryInsert, SetOf;
    var window := Newest(heights[..n]);
    IncreasingIsFull(window);
    InsertionNeverRefused(s, id, heights[n], commitment);
    var kept := if n >= MAX_COMMITMENTS then window[1..] else window;
    if n >= MAX_COMMITMENTS { OldestOfIncreasing(window); }
    assert Newest(heights) == kept + [heights[n]];
    SetOfAppend(kept, heights[n]);
  }

  lemma SetOfAppend(heights: seq<nat>, h: nat)
    ensures SetOf(heights + [h]) == SetOf(heights) + {h}
  {
  }

  /** Whatever the order of insertions, only a full store evicts, and what it evicts is
      older than everything it keeps of what it had. */
  lemma OnlyTheOldestIsEvicted(s: Store, id: MachineId, height: nat, commitment: nat, lost: nat)
    requires Bounded(s) && lost in Known(s, id) && lost !in Known(InsertCommitment(s, id, height, commitment), id)
    ensures |Known(s, id)| == MAX_COMMITMENTS
    ensures forall h :: h in Known(s, id) ==> lost <= h
    ensures forall h :: h in Known(s, id) && h != lost ==> h in Known(InsertCommitment(s, id, height, commitment), id)
  {
    InsertionNeverRefused(s, id, height, commitment);
  }

  // ----------------------------------------------------------------------------- vetoes

  /** The latest height is zero or has its commitment. */
  predicate LatestIsLive(s: Store, id: MachineId) {
    At(s.latest, id) == 0 || At(s.latest, id) in Known(s, id)
  }

  /** Vetoing the latest height falls back to the previous one, whose commitment must then
      still be there: a second veto in a row leaves the latest height without one. */
  lemma VetoKeepsLatestLiveIff(s: Store, id: MachineId, height: nat)
    requires Bounded(s) && LatestIsLive(s, id)
    ensures LatestIsLive(Veto(s, id, height).0, id) <==>
      if id in s.latest && s.latest[id] == height
      then At(s.previous, id) == 0 || (At(s.previous, id) != height && At(s.previous, id) in Known(s, id))
      else true
  {
    EvictionShrinks(s, id, height);
  }

  /** Two vetoes in a row, of the latest height and of the one before: no run of the store
      avoids it. */
  lemma SecondVetoStrandsTheLatest(s: Store, id: MachineId)
    requires id in s.latest && id in s.previous && 0 < s.previous[id] != s.latest[id]
    ensures var once := Veto(s, id, s.latest[id]).0;
      once.latest[id] == s.previous[id] && !LatestIsLive(Veto(once, id, s.previous[id]).0, id)
  {
  }

  /** The host's storage maps, written one at a time. */
  class Host {
    var known: map<MachineId, set<nat>>
    var commitments: map<(MachineId, nat), nat>
    var times: map<(MachineId, nat), nat>
    var latest: map<MachineId, nat>
    var previous: map<MachineId, nat>

    function Now(): Store
      reads this
    {
      Store(known, commitments, times, latest, previous)
    }

    constructor ()
      ensures Now() == EMPTY_STORE
    {
      known, commitments, times, latest, previous := map[], map[], map[], map[], map[];
    }

    method StoreCommitment(id: MachineId, height: nat, commitment: nat)
      modifies this
      ensures Now() == InsertCommitment(old(Now()), id, height, commitment)
    {
      hide TryInsert, Oldest;
      var heights := Known(Now(), id);
      if |heights| >= MAX_COMMITMENTS {
        var oldest := Oldest(heights);
        heights := heights - {oldest};
        commitments := commitments - {(id, oldest)};
        times := times - {(id, oldest)};
      }
      var grown := TryInsert(heights, height);
      if grown.Some? { heights := grown.value; }
      known := known[id := heights];
      commitments := commitments[(id, height) := commitment];
    }

    method StoreUpdateTime(id: MachineId, height: nat, time: nat)
      modifies this`times
      ensures Now() == InsertTime(old(Now()), id, height, time)
    {
      times := times[(id, height) := time];
    }

    method StoreLatestHeight(id: MachineId, height: nat)
      modifies this`latest, this`previous
      ensures Now() == StoreLatest(old(Now()), id, height)
    {
      var before := if id in latest then latest[id] else 0;
      previous := previous[id := before];
      latest := latest[id := height];
    }

    method DeleteCommitment(id: MachineId, height: nat) returns (ok: bool)
      modifies this
      ensures (Now(), ok) == Veto(old(Now()), id, height)
    {
      commitments := commitments - {(id, height)};
      times := times - {(id, height)};
      known := known[id := Known(Now(), id) - {height}];
      if id in latest && latest[id] == height {
        if id !in previous { return false; }
        latest := latest[id := previous[id]];
      }
      ok := true;
    }
  }
}
