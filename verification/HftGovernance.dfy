/** The registry as the pallet keeps it: four storage maps, validated in one pass over a
    batch and changed in a second. */
module HftGovernance {
  import opened Balances
  import opened Messages
  import opened HftRegistry

  /** A batch names no chain twice exactly when its set is as large as its sequence. */
  lemma {:induction false} SetIsFullIffDistinct(chains: seq<Chain>)
    ensures |set c | c in chains| <= |chains|
    ensures |set c | c in chains| == |chains| <==> forall i, j :: 0 <= i < j < |chains| ==> chains[i] != chains[j]
  {
    if chains == [] {
      assert (set c | c in chains) == {};
    } else {
      var front, last := chains[..|chains| - 1], chains[|chains| - 1];
      SetIsFullIffDistinct(front);
      assert chains == front + [last];
      assert (set c | c in chains) == (set c | c in front) + {last};
      if last in front {
        var i :| 0 <= i < |front| && front[i] == last;
        assert chains[i] == chains[|chains| - 1];
        assert (set c | c in chains) == (set c | c in front);
      } else {
        assert forall i :: 0 <= i < |front| ==> front[i] == chains[i];
      }
    }
  }

  class Registry {
    var contracts: map<(Chain, AssetId), seq<Byte>>
    var assets: map<(Chain, seq<Byte>), AssetId>
    var native: map<AssetId, bool>
    var precisions: map<(AssetId, Chain), nat>

    function Now(): Tables
      reads this
    {
      Tables(contracts, assets, native, precisions)
    }

    constructor ()
      ensures Now() == EMPTY
    {
      contracts, assets, native, precisions := map[], map[], map[], map[];
    }

    method Restore(t: Tables)
      modifies this
      ensures Now() == t
    {
      contracts, assets, native, precisions := t.contracts, t.assets, t.native, t.precisions;
    }

    method ValidateEntries(asset: AssetId, entries: seq<Entry>, local: nat,
                           updating: bool) returns (fault: Option<RegistryError>)
      ensures fault == AddFault(Now(), asset, entries, local, updating)
    {
      for i := 0 to |entries|
        invariant AddFault(Now(), asset, entries, local, updating)
            == AddFault(Now(), asset, entries[i..], local, updating)
      {
        fault := EntryFault(Now(), asset, entries[i], local, updating);
        assert entries[i..][1..] == entries[i + 1..];
        if fault.Some? { return; }
      }
      fault := None;
    }

    method ValidateRemovals(asset: AssetId, chains: seq<Chain>) returns (fault: Option<RegistryError>)
      ensures fault == RemoveFault(Now(), asset, chains)
    {
      for i := 0 to |chains|
        invariant RemoveFault(Now(), asset, chains) == RemoveFault(Now(), asset, chains[i..])
      {
        assert chains[i..][1..] == chains[i + 1..];
        if !chains[i].Evm? { return Some(NonEvmPeerChain); }
        fault := ForwardFault(Now(), asset, chains[i]);
        if fault.Some? { return; }
      }
      fault := None;
    }

    method WriteLane(asset: AssetId, e: Entry)
      modifies this
      ensures Now() == Written(old(Now()), asset, e)
    {
      contracts := contracts[(e.chain, asset) := e.lane.contract];
      assets := assets[(e.chain, e.lane.contract) := asset];
      precisions := precisions[(asset, e.chain) := e.lane.decimals];
    }

    method RemoveLane(asset: AssetId, chain: Chain) returns (ok: bool)
      modifies this
      ensures match Removed(old(Now()), asset, chain)
              case Some(t) => ok && Now() == t
              case None => !ok && Now() == old(Now())
    {
      if (chain, asset) in contracts {
        var contract := contracts[(chain, asset)];
        if Row(assets, (chain, contract)) != Some(asset) { return false; }
        assets := assets - {(chain, contract)};
      }
      contracts := contracts - {(chain, asset)};
      precisions := precisions - {(asset, chain)};
      ok := true;
    }

    method RegisterToken(env: Assets, r: Registration) returns (fault: Option<RegistryError>)
      modifies this
      ensures match Register(old(Now()), env, r)
              case Done(t) => fault == None && Now() == t
              case Failed(e) => fault == Some(e) && Now() == old(Now())
    {
      hide LaneFault, Written;
      if r.chains == [] { return Some(EmptyRegistration); }
      if r.asset in native { return Some(TokenAlreadyRegistered); }
      var decimals := LocalDecimals(env, r.asset);
      if decimals.None? { return Some(AssetDoesNotExist); }
      fault := ValidateEntries(r.asset, r.chains, decimals.value, false);
      if fault.Some? { return; }
      native := native[r.asset := r.native];
      ghost var start := Now();
      for i := 0 to |r.chains|
        invariant WrittenAll(start, r.asset, r.chains) == WrittenAll(Now(), r.asset, r.chains[i..])
      {
        assert r.chains[i..][1..] == r.chains[i + 1..];
        WriteLane(r.asset, r.chains[i]);
      }
    }

    /** Replaces the named lanes one by one; `false` leaves a half-done batch behind. */
    method ReplaceLanes(asset: AssetId, entries: seq<Entry>) returns (ok: bool)
      modifies this
      ensures match ReplacedAll(old(Now()), asset, entries)
              case Some(t) => ok && Now() == t
              case None => !ok
    {
      hide Written, Removed;
      for i := 0 to |entries|
        invariant ReplacedAll(old(Now()), asset, entries) == ReplacedAll(Now(), asset, entries[i..])
      {
        assert entries[i..][1..] == entries[i + 1..];
        ok := RemoveLane(asset, entries[i].chain);
        if !ok { return; }
        WriteLane(asset, entries[i]);
      }
      ok := true;
    }

    method RemoveLanes(asset: AssetId, chains: seq<Chain>) returns (ok: bool)
      modifies this
      ensures match RemovedAll(old(Now()), asset, chains)
              case Some(t) => ok && Now() == t
              case None => !ok
    {
      hide Removed;
      for i := 0 to |chains|
        invariant RemovedAll(old(Now()), asset, chains) == RemovedAll(Now(), asset, chains[i..])
      {
        assert chains[i..][1..] == chains[i + 1..];
        ok := RemoveLane(asset, chains[i]);
        if !ok { return; }
      }
      ok := true;
    }

    method UpdateToken(env: Assets, u: Update) returns (fault: Option<RegistryError>)
      modifies this
      ensures match ApplyUpdate(old(Now()), env, u)
              case Done(t) => fault == None && Now() == t
              case Failed(e) => fault == Some(e) && Now() == old(Now())
    {
      hide LaneFault, Written, Removed, AddFault, RemoveFault, ReplacedAll, RemovedAll;
      if u.asset !in native { return Some(UnregisteredAsset); }
      var removeSet := set c | c in u.remove;
      SetIsFullIffDistinct(u.remove);
      if |removeSet| != |u.remove| { return Some(DuplicateChainUpdate); }
      if exists e :: e in u.add && e.chain in removeSet { return Some(DuplicateChainUpdate); }
      var decimals := LocalDecimals(env, u.asset);
      if decimals.None? { return Some(AssetDoesNotExist); }
      fault := ValidateEntries(u.asset, u.add, decimals.value, true);
      if fault.Some? { return; }
      fault := ValidateRemovals(u.asset, u.remove);
      if fault.Some? { return; }
      var snapshot := Now();
      var ok := ReplaceLanes(u.asset, u.add);
      if ok { ok := RemoveLanes(u.asset, u.remove); }
      if !ok {
        Restore(snapshot);
        return Some(RegistryInconsistent);
      }
    }

    /** The state check: three passes over the rows, stopping at the first bad one. */
    method CheckRegistryInvariants() returns (ok: bool)
      ensures ok <==> Checked(Now())
    {
      var rows := contracts.Keys;
      while rows != {}
        invariant rows <= contracts.Keys
        invariant forall key :: key in contracts.Keys - rows ==> CheckedForward(Now(), key.0, key.1)
      {
        var key :| key in rows;
        if !CheckedForward(Now(), key.0, key.1) { return false; }
        rows := rows - {key};
      }
      var back := assets.Keys;
      while back != {}
        invariant back <= assets.Keys
        invariant forall key :: key in assets.Keys - back ==> Row(contracts, (key.0, assets[key])) == Some(key.1)
      {
        var key :| key in back;
        if Row(contracts, (key.0, assets[key])) != Some(key.1) {
          assert (key.0, key.1) in assets;
          return false;
        }
        back := back - {key};
      }
      var scales := precisions.Keys;
      while scales != {}
        invariant scales <= precisions.Keys
        invariant forall key :: key in precisions.Keys - scales ==> (key.1, key.0) in contracts
      {
        var key :| key in scales;
        if (key.1, key.0) !in contracts {
          assert (key.0, key.1) in precisions;
          return false;
        }
        scales := scales - {key};
      }
      ok := true;
    }
  }
}
