/** What the token registry keeps: every batch rewires exactly the lanes it names, and over
    every run the registry stays one-to-one. */
module HftRegistryLaws {
  import opened Balances
  import opened Messages
  import opened HftRegistry

  lemma {:induction false} AddPlanNames(entries: seq<Entry>)
    requires NoChainTwice(entries)
    ensures forall chain :: chain in AddPlan(entries) <==> exists i :: 0 <= i < |entries| && entries[i].chain == chain
    ensures forall i :: 0 <= i < |entries| ==> AddPlan(entries)[entries[i].chain] == Some(entries[i].lane)
  {
    if entries != [] {
      var rest := entries[1..];
      assert forall i :: 1 <= i < |entries| ==> entries[i] == rest[i - 1];
      AddPlanNames(rest);
      forall chain ensures chain in AddPlan(entries) <==> exists i :: 0 <= i < |entries| && entries[i].chain == chain {
        if chain in AddPlan(rest) {
          var j :| 0 <= j < |rest| && rest[j].chain == chain;
          assert entries[j + 1].chain == chain;
        }
      }
    }
  }

  lemma RemoveRewires(t: Tables, asset: AssetId, chain: Chain)
    requires Removed(t, asset, chain).Some?
    ensures Rewired(t, Removed(t, asset, chain).value, asset, map[chain := None])
  {
  }

  lemma WriteRewires(t: Tables, asset: AssetId, e: Entry)
    requires !Stale(t, asset, e)
    ensures Rewired(t, Written(t, asset, e), asset, map[e.chain := Some(e.lane)])
  {
  }

  lemma WriteAddsOne(t: Tables, asset: AssetId, e: Entry)
    ensures forall f: Entry :: f.chain != e.chain ==> (Stale(Written(t, asset, e), asset, f) <==> Stale(t, asset, f))
  {
  }

  lemma ReplaceRewires(t: Tables, asset: AssetId, e: Entry)
    requires Removed(t, asset, e.chain).Some?
    ensures Rewired(t, Written(Removed(t, asset, e.chain).value, asset, e), asset, map[e.chain := Some(e.lane)])
  {
  }

  lemma RewiredTwice(t: Tables, t1: Tables, t2: Tables, asset: AssetId, p: Plan, q: Plan)
    requires Rewired(t, t1, asset, p) && Rewired(t1, t2, asset, q) && p.Keys !! q.Keys
    ensures Rewired(t, t2, asset, p + q)
  {
    hide Row;
  }

  lemma RewiredNothing(t: Tables, asset: AssetId)
    ensures Rewired(t, t, asset, map[])
  {
  }

  /** Removing one lane does not disturb how another chain's rows match. */
  lemma MatchSurvives(t: Tables, t': Tables, asset: AssetId, plan: Plan, chain: Chain)
    requires Rewired(t, t', asset, plan) && chain !in plan
    ensures ForwardMatched(t', asset, chain) <==> ForwardMatched(t, asset, chain)
  {
    assert Row(t'.contracts, (chain, asset)) == Row(t.contracts, (chain, asset));
    if (chain, asset) in t.contracts {
      var contract := t.contracts[(chain, asset)];
      assert Row(t'.assets, (chain, contract)) == Row(t.assets, (chain, contract));
    }
  }

  /** A batch of additions to lanes that match succeeds, and rewires exactly them. */
  lemma {:induction false} ReplacedAllRewires(t: Tables, asset: AssetId, entries: seq<Entry>)
    requires NoChainTwice(entries)
    requires forall i :: 0 <= i < |entries| ==> ForwardMatched(t, asset, entries[i].chain)
    ensures ReplacedAll(t, asset, entries).Some?
    ensures Rewired(t, ReplacedAll(t, asset, entries).value, asset, AddPlan(entries))
    decreases |entries|
  {
    hide Rewired, Written, Removed, ForwardMatched;
    if entries == [] {
      RewiredNothing(t, asset);
    } else {
      var e, rest := entries[0], entries[1..];
      assert forall i :: 0 <= i < |rest| ==> rest[i] == entries[i + 1];
      MatchedRemoves(t, asset, e.chain);
      ReplaceRewires(t, asset, e);
      var t1 := Written(Removed(t, asset, e.chain).value, asset, e);
      forall i | 0 <= i < |rest| ensures ForwardMatched(t1, asset, rest[i].chain) {
        MatchSurvives(t, t1, asset, map[e.chain := Some(e.lane)], rest[i].chain);
      }
      ReplacedAllRewires(t1, asset, rest);
      AddPlanNames(rest);
      RewiredTwice(t, t1, ReplacedAll(t1, asset, rest).value, asset, map[e.chain := Some(e.lane)], AddPlan(rest));
      assert map[e.chain := Some(e.lane)] + AddPlan(rest) == AddPlan(entries);
    }
  }

  lemma MatchedRemoves(t: Tables, asset: AssetId, chain: Chain)
    ensures Removed(t, asset, chain).Some? <==> ForwardMatched(t, asset, chain)
  {
  }

  lemma {:induction false} RemovedAllRewires(t: Tables, asset: AssetId, chains: seq<Chain>)
    requires forall i, j :: 0 <= i < j < |chains| ==> chains[i] != chains[j]
    requires forall i :: 0 <= i < |chains| ==> ForwardMatched(t, asset, chains[i])
    ensures RemovedAll(t, asset, chains).Some?
    ensures Rewired(t, RemovedAll(t, asset, chains).value, asset, RemovePlan(chains))
    decreases |chains|
  {
    hide Rewired, Written, Removed, ForwardMatched;
    if chains == [] {
      RewiredNothing(t, asset);
      assert RemovePlan(chains) == map[];
    } else {
      var chain, rest := chains[0], chains[1..];
      assert forall i :: 0 <= i < |rest| ==> rest[i] == chains[i + 1];
      MatchedRemoves(t, asset, chain);
      RemoveRewires(t, asset, chain);
      var t1, one: Plan := Removed(t, asset, chain).value, map[chain := None];
      forall i | 0 <= i < |rest| ensures ForwardMatched(t1, asset, rest[i]) {
        MatchSurvives(t, t1, asset, one, rest[i]);
      }
      RemovedAllRewires(t1, asset, rest);
      RewiredTwice(t, t1, RemovedAll(t1, asset, rest).value, asset, one, RemovePlan(rest));
      assert one + RemovePlan(rest) == RemovePlan(chains);
    }
  }

  /** A registration writes without removing, which rewires as long as no chain it names
      holds a row of the asset under another contract. */
  lemma {:induction false} WrittenAllRewires(t: Tables, asset: AssetId, entries: seq<Entry>)
    requires NoChainTwice(entries)
    requires forall i :: 0 <= i < |entries| ==> !Stale(t, asset, entries[i])
    ensures Rewired(t, WrittenAll(t, asset, entries), asset, AddPlan(entries))
    decreases |entries|
  {
    hide Rewired, Written;
    if entries == [] {
      RewiredNothing(t, asset);
    } else {
      var e, rest := entries[0], entries[1..];
      assert forall i :: 0 <= i < |rest| ==> rest[i] == entries[i + 1];
      WriteRewires(t, asset, e);
      var t1 := Written(t, asset, e);
      WriteAddsOne(t, asset, e);
      WrittenAllRewires(t1, asset, rest);
      AddPlanNames(rest);
      RewiredTwice(t, t1, WrittenAll(t1, asset, rest), asset, map[e.chain := Some(e.lane)], AddPlan(rest));
      assert map[e.chain := Some(e.lane)] + AddPlan(rest) == AddPlan(entries);
    }
  }

  // --------------------------------------------------------------- what validation means

  lemma {:induction false} AddFaultNone(t: Tables, asset: AssetId, entries: seq<Entry>, local: nat, updating: bool)
    ensures AddFault(t, asset, entries, local, updating).None? <==>
            forall i :: 0 <= i < |entries| ==> EntryFault(t, asset, entries[i], local, updating).None?
    decreases |entries|
  {
    hide EntryFault;
    if entries != [] {
      AddFaultNone(t, asset, entries[1..], local, updating);
      assert forall i :: 1 <= i < |entries| ==> entries[i] == entries[1..][i - 1];
      assert forall i :: 0 <= i < |entries[1..]| ==> entries[1..][i] == entries[i + 1];
    }
  }

  lemma {:induction false} RemoveFaultNone(t: Tables, asset: AssetId, chains: seq<Chain>)
    ensures RemoveFault(t, asset, chains).None? <==>
            forall i :: 0 <= i < |chains| ==> chains[i].Evm? && ForwardMatched(t, asset, chains[i])
    decreases |chains|
  {
    hide ForwardMatched;
    if chains != [] {
      RemoveFaultNone(t, asset, chains[1..]);
      assert forall i :: 1 <= i < |chains| ==> chains[i] == chains[1..][i - 1];
      assert forall i :: 0 <= i < |chains[1..]| ==> chains[1..][i] == chains[i + 1];
    }
  }

  lemma AddsFit(t: Tables, asset: AssetId, entries: seq<Entry>, local: nat, updating: bool)
    requires NoChainTwice(entries) && AddFault(t, asset, entries, local, updating).None?
    ensures Fits(t, asset, AddPlan(entries))
  {
    AddFaultNone(t, asset, entries, local, updating);
    AddPlanNames(entries);
    forall chain | chain in AddPlan(entries) ensures LaneFits(t, asset, chain, AddPlan(entries)[chain]) {
      var i :| 0 <= i < |entries| && entries[i].chain == chain;
      assert EntryFault(t, asset, entries[i], local, updating).None?;
    }
  }

  // ------------------------------------------------------------------------ main results

  lemma ForwardStaysChecked(t: Tables, t': Tables, asset: AssetId, plan: Plan, chain: Chain, a: AssetId)
    requires Checked(t) && Fits(t, asset, plan) && Rewired(t, t', asset, plan)
    requires (chain, a) in t'.contracts
    ensures CheckedForward(t', chain, a)
  {
    var contract := t'.contracts[(chain, a)];
    assert Row(t'.contracts, (chain, a)) == Some(contract);
    assert Row(t'.precisions, (a, chain)).Some? <==> (a, chain) in t'.precisions;
    if a == asset && chain in plan {
      assert LaneFits(t, asset, chain, plan[chain]);
    } else {
      assert Row(t.contracts, (chain, a)) == Some(contract);
      assert CheckedForward(t, chain, a);
      assert Row(t.precisions, (a, chain)).Some?;
      if chain in plan {
        assert LaneFits(t, asset, chain, plan[chain]);
        assert PlannedContract(plan, chain) != Some(contract);
        assert Row(t.contracts, (chain, asset)) != Some(contract) by {
          if (chain, asset) in t.contracts { assert CheckedForward(t, chain, asset); }
        }
      }
    }
  }

  lemma ReverseStaysChecked(t: Tables, t': Tables, asset: AssetId, plan: Plan, chain: Chain, contract: seq<Byte>)
    requires Checked(t) && Fits(t, asset, plan) && Rewired(t, t', asset, plan)
    requires (chain, contract) in t'.assets
    ensures Row(t'.contracts, (chain, t'.assets[(chain, contract)])) == Some(contract)
  {
    var a := t'.assets[(chain, contract)];
    assert Row(t'.assets, (chain, contract)) == Some(a);
    if !(chain in plan && PlannedContract(plan, chain) == Some(contract)) {
      assert Row(t.assets, (chain, contract)) == Some(a);
      assert Row(t.contracts, (chain, a)) == Some(contract);
    }
  }

  /** Any validated plan, whichever batch carries it out, keeps the state check passing. */
  lemma RewiringKeepsCheck(t: Tables, t': Tables, asset: AssetId, plan: Plan)
    requires Checked(t) && Fits(t, asset, plan) && Rewired(t, t', asset, plan)
    ensures Checked(t')
  {
    forall chain, a | (chain, a) in t'.contracts ensures CheckedForward(t', chain, a) {
      ForwardStaysChecked(t, t', asset, plan, chain, a);
    }
    forall chain, contract | (chain, contract) in t'.assets
      ensures Row(t'.contracts, (chain, t'.assets[(chain, contract)])) == Some(contract)
    {
      ReverseStaysChecked(t, t', asset, plan, chain, contract);
    }
    forall a, chain | (a, chain) in t'.precisions ensures (chain, a) in t'.contracts {
      assert Row(t'.precisions, (a, chain)).Some?;
      assert Row(t'.contracts, (chain, a)).Some? <==> (chain, a) in t'.contracts;
      if !(a == asset && chain in plan) {
        assert Row(t.precisions, (a, chain)).Some?;
        assert (chain, a) in t.contracts;
      }
    }
  }

  lemma RewiringKeepsOneToOne(t: Tables, t': Tables, asset: AssetId, plan: Plan)
    requires OneToOne(t) && asset in t.native && Fits(t, asset, plan) && Rewired(t, t', asset, plan)
    ensures OneToOne(t')
  {
    RewiringKeepsCheck(t, t', asset, plan);
    forall chain, a | (chain, a) in t'.contracts ensures a in t'.native {
      assert Row(t'.contracts, (chain, a)).Some?;
      if a != asset { assert Row(t.contracts, (chain, a)).Some?; }
    }
  }

  /** Once validation has passed, no removal can fail any more, in whatever state the
      tables are: the inconsistency error can only come from validation. */
  lemma ValidatedUpdateSucceeds(t: Tables, assets: Assets, u: Update)
    requires NoChainTwice(u.add) && u.asset in t.native && !Overlapping(u) && LocalDecimals(assets, u.asset).Some?
    requires AddFault(t, u.asset, u.add, LocalDecimals(assets, u.asset).value, true).None?
    requires RemoveFault(t, u.asset, u.remove).None?
    ensures ApplyUpdate(t, assets, u).Done?
    ensures Rewired(t, ApplyUpdate(t, assets, u).value, u.asset, AddPlan(u.add) + RemovePlan(u.remove))
  {
    hide Rewired, ForwardMatched, LaneFault, Removed, Written;
    AddFaultNone(t, u.asset, u.add, LocalDecimals(assets, u.asset).value, true);
    forall i | 0 <= i < |u.add| ensures ForwardMatched(t, u.asset, u.add[i].chain) {
      assert EntryFault(t, u.asset, u.add[i], LocalDecimals(assets, u.asset).value, true).None?;
    }
    RemoveFaultNone(t, u.asset, u.remove);
    ReplacedAllRewires(t, u.asset, u.add);
    AddPlanNames(u.add);
    var t1 := ReplacedAll(t, u.asset, u.add).value;
    forall i | 0 <= i < |u.remove| ensures ForwardMatched(t1, u.asset, u.remove[i]) {
      MatchSurvives(t, t1, u.asset, AddPlan(u.add), u.remove[i]);
    }
    RemovedAllRewires(t1, u.asset, u.remove);
    RewiredTwice(t, t1, RemovedAll(t1, u.asset, u.remove).value, u.asset, AddPlan(u.add), RemovePlan(u.remove));
  }

  lemma UpdateKeepsOneToOne(t: Tables, assets: Assets, u: Update)
    requires OneToOne(t) && NoChainTwice(u.add) && ApplyUpdate(t, assets, u).Done?
    ensures OneToOne(ApplyUpdate(t, assets, u).value)
    ensures Rewired(t, ApplyUpdate(t, assets, u).value, u.asset, AddPlan(u.add) + RemovePlan(u.remove))
  {
    hide Rewired, OneToOne, ReplacedAll, RemovedAll;
    ValidatedUpdateSucceeds(t, assets, u);
    AddsFit(t, u.asset, u.add, LocalDecimals(assets, u.asset).value, true);
    RemoveFaultNone(t, u.asset, u.remove);
    RewiringKeepsOneToOne(t, ApplyUpdate(t, assets, u).value, u.asset, AddPlan(u.add) + RemovePlan(u.remove));
  }

  lemma FreshHasNoRows(t: Tables, asset: AssetId)
    requires OneToOne(t) && asset !in t.native
    ensures forall chain :: (chain, asset) !in t.contracts && (asset, chain) !in t.precisions
    ensures forall chain, contract :: Row(t.assets, (chain, contract)) != Some(asset)
  {
  }

  lemma RegisterKeepsOneToOne(t: Tables, assets: Assets, r: Registration)
    requires OneToOne(t) && NoChainTwice(r.chains) && Register(t, assets, r).Done?
    ensures OneToOne(Register(t, assets, r).value)
    ensures Rewired(t.(native := t.native[r.asset := r.native]), Register(t, assets, r).value, r.asset,
        AddPlan(r.chains))
  {
    hide Rewired, WrittenAll;
    var t0 := t.(native := t.native[r.asset := r.native]);
    FreshHasNoRows(t, r.asset);
    assert OneToOne(t0) by { assert forall chain, a :: (chain, a) in t.contracts ==> CheckedForward(t0, chain, a); }
    WrittenAllRewires(t0, r.asset, r.chains);
    AddsFit(t, r.asset, r.chains, LocalDecimals(assets, r.asset).value, false);
    assert Fits(t0, r.asset, AddPlan(r.chains));
    RewiringKeepsOneToOne(t0, WrittenAll(t0, r.asset, r.chains), r.asset, AddPlan(r.chains));
  }

  lemma StepKeepsOneToOne(t: Tables, assets: Assets, op: Op)
    requires OneToOne(t) && WellTyped(op)
    ensures OneToOne(Step(t, assets, op))
    ensures forall asset :: asset in t.native ==> Row(Step(t, assets, op).native, asset) == Some(t.native[asset])
  {
    hide OneToOne, Register, ApplyUpdate;
    match op {
      case RegisterOp(r) =>
        if Register(t, assets, r).Done? {
          RegisterKeepsOneToOne(t, assets, r);
          RegisterIsNew(t, assets, r);
        }
      case UpdateOp(u) =>
        if ApplyUpdate(t, assets, u).Done? { UpdateKeepsOneToOne(t, assets, u); }
    }
  }

  lemma RegisterIsNew(t: Tables, assets: Assets, r: Registration)
    requires Register(t, assets, r).Done?
    ensures r.asset !in t.native && r.chains != []
  {
  }

  /** Over every run of registrations and updates the registry is one-to-one. */
  lemma {:induction false} RegistryLaw(calls: seq<(Assets, Op)>)
    requires forall i :: 0 <= i < |calls| ==> WellTyped(calls[i].1)
    ensures OneToOne(Run(EMPTY, calls))
  {
    hide OneToOne, Step;
    if calls == [] {
      EmptyOneToOne();
    } else {
      RegistryLaw(calls[..|calls| - 1]);
      StepKeepsOneToOne(Run(EMPTY, calls[..|calls| - 1]), calls[|calls| - 1].0, calls[|calls| - 1].1);
    }
  }

  lemma EmptyOneToOne()
    ensures OneToOne(EMPTY)
  {
  }

  /** Whatever follows, the custody mode an asset was registered with never changes. */
  lemma {:induction false} ModeNeverChanges(calls: seq<(Assets, Op)>, n: nat, asset: AssetId)
    requires n <= |calls| && asset in Run(EMPTY, calls[..n]).native
    requires forall i :: 0 <= i < |calls| ==> WellTyped(calls[i].1)
    ensures Row(Run(EMPTY, calls).native, asset) == Row(Run(EMPTY, calls[..n]).native, asset)
    decreases |calls| - n
  {
    hide OneToOne, Step;
    if n < |calls| {
      assert calls[..n + 1][..n] == calls[..n];
      RegistryLaw(calls[..n]);
      StepKeepsOneToOne(Run(EMPTY, calls[..n]), calls[n].0, calls[n].1);
      ModeNeverChanges(calls, n + 1, asset);
    } else {
      assert calls[..n] == calls;
    }
  }

  /** In a one-to-one registry two assets never share a contract on a chain. */
  lemma ContractsAreUnique(t: Tables, chain: Chain, a: AssetId, b: AssetId)
    requires OneToOne(t) && (chain, a) in t.contracts && (chain, b) in t.contracts
    ensures t.contracts[(chain, a)] == t.contracts[(chain, b)] <==> a == b
  {
    assert CheckedForward(t, chain, a) && CheckedForward(t, chain, b);
  }

  // ------------------------------------- the state check alone is not kept: exactly when

  lemma {:induction false} WritingKeepsPointers(t: Tables, asset: AssetId, entries: seq<Entry>, chain: Chain,
                                                contract: seq<Byte>)
    requires Row(t.assets, (chain, contract)) == Some(asset)
    ensures Row(WrittenAll(t, asset, entries).assets, (chain, contract)) == Some(asset)
    decreases |entries|
  {
    if entries != [] { WritingKeepsPointers(Written(t, asset, entries[0]), asset, entries[1..], chain, contract); }
  }

  lemma {:induction false} WritingLands(t: Tables, asset: AssetId, entries: seq<Entry>, chain: Chain)
    requires NoChainTwice(entries)
    ensures Row(WrittenAll(t, asset, entries).contracts, (chain, asset)) ==
            if chain in AddPlan(entries)
            then PlannedContract(AddPlan(entries), chain)
            else Row(t.contracts, (chain, asset))
    decreases |entries|
  {
    if entries != [] {
      var rest := entries[1..];
      assert forall i :: 0 <= i < |rest| ==> rest[i] == entries[i + 1];
      AddPlanNames(rest);
      WritingLands(Written(t, asset, entries[0]), asset, rest, chain);
    }
  }

  /** Registering over tables that merely pass the state check keeps them passing if and
      only if no named chain holds a stale row of the asset. In a one-to-one registry a
      new asset has no rows at all. */
  lemma RegisterKeepsCheckIff(t: Tables, assets: Assets, r: Registration)
    requires Checked(t) && NoChainTwice(r.chains) && Register(t, assets, r).Done?
    ensures Checked(Register(t, assets, r).value) <==>
            forall i :: 0 <= i < |r.chains| ==> !Stale(t, r.asset, r.chains[i])
  {
    hide WrittenAll, LaneFault, Checked, Rewired;
    var t0 := t.(native := t.native[r.asset := r.native]);
    var t' := Register(t, assets, r).value;
    AddPlanNames(r.chains);
    if i :| 0 <= i < |r.chains| && Stale(t, r.asset, r.chains[i]) {
      var chain := r.chains[i].chain;
      var old_contract := t.contracts[(chain, r.asset)];
      CheckedPointsBack(t, chain, r.asset);
      WritingKeepsPointers(t0, r.asset, r.chains, chain, old_contract);
      WritingLands(t0, r.asset, r.chains, chain);
      if Checked(t') { CheckedPointsForward(t', chain, old_contract); }
    } else {
      CheckIgnoresModes(t, t0);
      AddsFit(t, r.asset, r.chains, LocalDecimals(assets, r.asset).value, false);
      assert forall i :: 0 <= i < |r.chains| ==> !Stale(t0, r.asset, r.chains[i]);
      WrittenAllRewires(t0, r.asset, r.chains);
      RewiringKeepsCheck(t0, t', r.asset, AddPlan(r.chains));
    }
  }

  lemma CheckedPointsBack(t: Tables, chain: Chain, asset: AssetId)
    requires Checked(t) && (chain, asset) in t.contracts
    ensures CheckedForward(t, chain, asset)
  {
  }

  lemma CheckedPointsForward(t: Tables, chain: Chain, contract: seq<Byte>)
    requires Checked(t) && (chain, contract) in t.assets
    ensures Row(t.contracts, (chain, t.assets[(chain, contract)])) == Some(contract)
  {
  }

  lemma CheckIgnoresModes(t: Tables, t0: Tables)
    requires Checked(t) && t0 == t.(native := t0.native)
    ensures Checked(t0)
  {
    assert forall chain, a :: (chain, a) in t.contracts ==> CheckedForward(t, chain, a) && CheckedForward(t0, chain, a);
  }

  /** Removing all the lanes of a fresh registration restores every row but its mode. */
  lemma RegisterThenRemoveAll(t: Tables, assets: Assets, r: Registration)
    requires OneToOne(t) && NoChainTwice(r.chains) && Register(t, assets, r).Done?
    ensures var t1 := Register(t, assets, r).value;
      var back := ApplyUpdate(t1, assets, Update(r.asset, [], Chains(r.chains)));
      back == Done(t.(native := t.native[r.asset := r.native]))
  {
    hide LaneFault, ReplacedAll, RemovedAll, WrittenAll, OneToOne, Rewired, LaneFits;
    var t0 := t.(native := t.native[r.asset := r.native]);
    var t1 := Register(t, assets, r).value;
    var u := Update(r.asset, [], Chains(r.chains));
    RegisterKeepsOneToOne(t, assets, r);
    AddsFit(t, r.asset, r.chains, LocalDecimals(assets, r.asset).value, false);
    FitsElsewhere(t, t0, r.asset, AddPlan(r.chains));
    RemovalsPass(t1, assets, r, u);
    RegisteredIsNative(t, assets, r);
    ValidatedUpdateSucceeds(t1, assets, u);
    assert AddPlan([]) + RemovePlan(u.remove) == RemovePlan(u.remove);
    ChainsNamed(r.chains);
    AddPlanNames(r.chains);
    FreshHasNoRows(t, r.asset);
    RewiredBack(t0, t1, ApplyUpdate(t1, assets, u).value, r.asset, AddPlan(r.chains), RemovePlan(u.remove));
  }

  lemma RegisteredIsNative(t: Tables, assets: Assets, r: Registration)
    requires OneToOne(t) && NoChainTwice(r.chains) && Register(t, assets, r).Done?
    ensures Register(t, assets, r).value.native == t.native[r.asset := r.native]
  {
    RegisterKeepsOneToOne(t, assets, r);
  }

  lemma FitsElsewhere(t: Tables, t0: Tables, asset: AssetId, plan: Plan)
    requires Fits(t, asset, plan) && t0.assets == t.assets
    ensures Fits(t0, asset, plan) && forall chain :: chain in plan ==> chain.Evm?
  {
    assert forall chain :: chain in plan ==> LaneFits(t, asset, chain, plan[chain]);
  }

  lemma ChainsNamed(entries: seq<Entry>)
    requires NoChainTwice(entries)
    ensures RemovePlan(Chains(entries)).Keys == AddPlan(entries).Keys
  {
    AddPlanNames(entries);
    forall chain ensures chain in Chains(entries) <==> chain in AddPlan(entries) {
      if chain in AddPlan(entries) {
        var i :| 0 <= i < |entries| && entries[i].chain == chain;
        assert Chains(entries)[i] == chain;
      }
    }
  }

  lemma RemovalsPass(t1: Tables, assets: Assets, r: Registration, u: Update)
    requires OneToOne(t1) && NoChainTwice(r.chains) && u == Update(r.asset, [], Chains(r.chains))
    requires forall chain :: chain in AddPlan(r.chains) ==> chain.Evm?
    ensures RemoveFault(t1, r.asset, u.remove).None? && !Overlapping(u)
  {
    AddPlanNames(r.chains);
    forall i | 0 <= i < |u.remove| ensures u.remove[i].Evm? && ForwardMatched(t1, r.asset, u.remove[i]) {
      if (u.remove[i], r.asset) in t1.contracts { assert CheckedForward(t1, u.remove[i], r.asset); }
    }
    RemoveFaultNone(t1, r.asset, u.remove);
  }

  lemma RewiredBack(t0: Tables, t1: Tables, t2: Tables, asset: AssetId, p: Plan, q: Plan)
    requires Rewired(t0, t1, asset, p) && Rewired(t1, t2, asset, q) && p.Keys == q.Keys
    requires forall chain :: chain in q ==> q[chain].None? && p[chain].Some?
    requires forall chain :: (chain, asset) !in t0.contracts && (asset, chain) !in t0.precisions
    requires forall chain, contract :: Row(t0.assets, (chain, contract)) != Some(asset)
    requires Fits(t0, asset, p)
    ensures t2 == t0
  {
    assert forall chain :: chain in p ==> LaneFits(t0, asset, chain, p[chain]);
    forall key: (Chain, AssetId) ensures Row(t2.contracts, key) == Row(t0.contracts, key) {
      assert key == (key.0, key.1);
    }
    forall key: (AssetId, Chain) ensures Row(t2.precisions, key) == Row(t0.precisions, key) {
      assert key == (key.0, key.1);
    }
    forall key: (Chain, seq<Byte>) ensures Row(t2.assets, key) == Row(t0.assets, key) {
      assert key == (key.0, key.1);
    }
    SameRows(t0.contracts, t2.contracts);
    SameRows(t0.precisions, t2.precisions);
    SameRows(t0.assets, t2.assets);
  }

  lemma SameRows<K, V>(m: map<K, V>, n: map<K, V>)
    requires forall k :: Row(n, k) == Row(m, k)
    ensures m == n
  {
    assert forall k :: k in m <==> Row(m, k).Some?;
    assert forall k :: k in n <==> Row(n, k).Some?;
    assert forall k | k in m :: Row(m, k) == Some(m[k]) && Row(n, k) == Some(n[k]);
  }

  /** A registry that passes the state check and no longer does after a registration: the
      asset had a row left over although it was not registered. */
  lemma StateCheckIsNotKept()
    ensures var one: H160 := [1, 0, 0, 0, 0, 0, 0, 0, 0, 0, 0, 0, 0, 0, 0, 0, 0, 0, 0, 0];
      var two: H160 := [2, 0, 0, 0, 0, 0, 0, 0, 0, 0, 0, 0, 0, 0, 0, 0, 0, 0, 0, 0];
      var t := Tables(map[(Evm(1), 7) := one], map[(Evm(1), one) := 7], map[], map[(7, Evm(1)) := 6]);
      var outcome := Register(t, Assets(0, 12, map[7 := 6]), Registration(7, false, [Entry(Evm(1), Lane(two, 6))]));
      Checked(t) && outcome.Done? && !Checked(outcome.value)
  {
    var one: H160 := [1, 0, 0, 0, 0, 0, 0, 0, 0, 0, 0, 0, 0, 0, 0, 0, 0, 0, 0, 0];
    var two: H160 := [2, 0, 0, 0, 0, 0, 0, 0, 0, 0, 0, 0, 0, 0, 0, 0, 0, 0, 0, 0];
    var t := Tables(map[(Evm(1), 7) := one], map[(Evm(1), one) := 7], map[], map[(7, Evm(1)) := 6]);
    var r := Registration(7, false, [Entry(Evm(1), Lane(two, 6))]);
    assert one[0] == 1 && two[0] == 2 && ZERO_ADDRESS[0] == 0;
    var e := Entry(Evm(1), Lane(two, 6));
    assert EntryFault(t, 7, e, 6, false).None? by { assert Row(t.assets, (Evm(1), two)) == None; }
    AddFaultNone(t, 7, r.chains, 6, false);
    assert LocalDecimals(Assets(0, 12, map[7 := 6]), 7) == Some(6);
    RegisterKeepsCheckIff(t, Assets(0, 12, map[7 := 6]), r);
    assert Stale(t, 7, r.chains[0]);
  }

  /** In a one-to-one registry the adapter's cross-checks of the reverse row and of the
      contract's length never decide: only the mode and the precision do. */
  lemma CanonicalIffRegistered(t: Tables, asset: AssetId)
    requires OneToOne(t)
    ensures Canonical(t, asset).Some? <==>
            && SourceOf(asset).Some? && (SourceOf(asset).value, asset) in t.contracts
            && t.native[asset] == false && t.precisions[(asset, SourceOf(asset).value)] == 6
    ensures Canonical(t, asset).Some? ==>
            Canonical(t, asset).value == (SourceOf(asset).value, t.contracts[(SourceOf(asset).value, asset)], 6)
  {
    if SourceOf(asset).Some? && (SourceOf(asset).value, asset) in t.contracts {
      assert CheckedForward(t, SourceOf(asset).value, asset);
    }
  }
}
