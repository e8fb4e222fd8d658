/** The token registry of the fungible-token bridge: forward, reverse and precision rows
    per chain and asset, and the custody mode of each asset. Class `Registry` changes the
    rows one at a time; the functions give the tables each batch leaves behind. */
module HftRegistry {
  import opened Balances
  import opened Messages

  type AssetId = nat

  /** A contract address: twenty bytes. Stored rows hold any number of bytes. */
  type H160 = h: seq<Byte> | |h| == 20 witness [0, 0, 0, 0, 0, 0, 0, 0, 0, 0, 0, 0, 0, 0, 0, 0, 0, 0, 0, 0]

  const ZERO_ADDRESS: H160 := [0, 0, 0, 0, 0, 0, 0, 0, 0, 0, 0, 0, 0, 0, 0, 0, 0, 0, 0, 0]

  datatype Lane = Lane(contract: H160, decimals: nat)

  datatype Entry = Entry(chain: Chain, lane: Lane)

  datatype RegistryError =
    | EmptyRegistration | TokenAlreadyRegistered | UnregisteredAsset | DuplicateChainUpdate
    | AssetDoesNotExist | NonEvmPeerChain | ZeroContractAddress | ErcDecimalsBelowLocal
    | ContractAlreadyInUse | RegistryInconsistent

  datatype Outcome<+T> = Done(value: T) | Failed(error: RegistryError)

  datatype Tables = Tables(
    contracts: map<(Chain, AssetId), seq<Byte>>,
    assets: map<(Chain, seq<Byte>), AssetId>,
    native: map<AssetId, bool>,
    precisions: map<(AssetId, Chain), nat>)

  /** The assets that exist on this chain, with their decimals. */
  datatype Assets = Assets(nativeId: AssetId, nativeDecimals: nat, decimals: map<AssetId, nat>)

  /** `chains` is an ordered map in the source: no chain occurs twice. */
  datatype Registration = Registration(asset: AssetId, native: bool, chains: seq<Entry>)

  datatype Update = Update(asset: AssetId, add: seq<Entry>, remove: seq<Chain>)

  predicate NoChainTwice(entries: seq<Entry>) {
    forall i, j :: 0 <= i < j < |entries| ==> entries[i].chain != entries[j].chain
  }

  function Row<K, V>(m: map<K, V>, k: K): Option<V> {
    if k in m then Some(m[k]) else None
  }

  // ------------------------------------------------------------------------ the batches

  function LocalDecimals(assets: Assets, asset: AssetId): Option<nat> {
    if asset == assets.nativeId then Some(assets.nativeDecimals) else Row(assets.decimals, asset)
  }

  function LaneFault(t: Tables, asset: AssetId, e: Entry, local: nat): Option<RegistryError> {
    if !e.chain.Evm? then Some(NonEvmPeerChain)
    else if e.lane.contract == ZERO_ADDRESS then Some(ZeroContractAddress)
    else if e.lane.decimals < local then Some(ErcDecimalsBelowLocal)
    else if Row(t.assets, (e.chain, e.lane.contract)) !in {None, Some(asset)} then Some(ContractAlreadyInUse)
    else None
  }

  /** A forward row must be matched by its reverse row. */
  predicate ForwardMatched(t: Tables, asset: AssetId, chain: Chain) {
    (chain, asset) in t.contracts ==> Row(t.assets, (chain, t.contracts[(chain, asset)])) == Some(asset)
  }

  function ForwardFault(t: Tables, asset: AssetId, chain: Chain): Option<RegistryError> {
    if ForwardMatched(t, asset, chain) then None else Some(RegistryInconsistent)
  }

  function EntryFault(t: Tables, asset: AssetId, e: Entry, local: nat, updating: bool): Option<RegistryError> {
    if updating && ForwardFault(t, asset, e.chain).Some? then ForwardFault(t, asset, e.chain)
    else LaneFault(t, asset, e, local)
  }

  function AddFault(t: Tables, asset: AssetId, entries: seq<Entry>, local: nat, updating: bool): Option<RegistryError> {
    if entries == [] then None
    else if EntryFault(t, asset, entries[0], local, updating).Some?
    then EntryFault(t, asset, entries[0], local, updating)
    else AddFault(t, asset, entries[1..], local, updating)
  }

  function RemoveFault(t: Tables, asset: AssetId, chains: seq<Chain>): Option<RegistryError> {
    if chains == [] then None
    else if !chains[0].Evm? then Some(NonEvmPeerChain)
    else if ForwardFault(t, asset, chains[0]).Some? then ForwardFault(t, asset, chains[0])
    else RemoveFault(t, asset, chains[1..])
  }

  function Written(t: Tables, asset: AssetId, e: Entry): Tables {
    t.(contracts := t.contracts[(e.chain, asset) := e.lane.contract],
       assets := t.assets[(e.chain, e.lane.contract) := asset],
       precisions := t.precisions[(asset, e.chain) := e.lane.decimals])
  }

  /** Removing a lane fails when its reverse row points elsewhere. */
  function Removed(t: Tables, asset: AssetId, chain: Chain): Option<Tables> {
    if !ForwardMatched(t, asset, chain) then None
    else Some(t.(contracts := t.contracts - {(chain, asset)},
                 assets := if (chain, asset) in t.contracts
                           then t.assets - {(chain, t.contracts[(chain, asset)])}
                           else t.assets,
                 precisions := t.precisions - {(asset, chain)}))
  }

  function WrittenAll(t: Tables, asset: AssetId, entries: seq<Entry>): Tables
    decreases entries
  {
    if entries == [] then t else WrittenAll(Written(t, asset, entries[0]), asset, entries[1..])
  }

  function ReplacedAll(t: Tables, asset: AssetId, entries: seq<Entry>): Option<Tables>
    decreases entries
  {
    if entries == [] then Some(t)
    else match Removed(t, asset, entries[0].chain)
      case None => None
      case Some(t1) => ReplacedAll(Written(t1, asset, entries[0]), asset, entries[1..])
  }

  function RemovedAll(t: Tables, asset: AssetId, chains: seq<Chain>): Option<Tables>
    decreases chains
  {
    if chains == [] then Some(t)
    else match Removed(t, asset, chains[0])
      case None => None
      case Some(t1) => RemovedAll(t1, asset, chains[1..])
  }

  function Register(t: Tables, assets: Assets, r: Registration): Outcome<Tables> {
    if r.chains == [] then Failed(EmptyRegistration)
    else if r.asset in t.native then Failed(TokenAlreadyRegistered)
    else match LocalDecimals(assets, r.asset)
      case None => Failed(AssetDoesNotExist)
      case Some(local) =>
        match AddFault(t, r.asset, r.chains, local, false)
        case Some(e) => Failed(e)
        case None => Done(WrittenAll(t.(native := t.native[r.asset := r.native]), r.asset, r.chains))
  }

  predicate Overlapping(u: Update) {
    || (exists i, j :: 0 <= i < j < |u.remove| && u.remove[i] == u.remove[j])
    || (exists i :: 0 <= i < |u.add| && u.add[i].chain in u.remove)
  }

  function ApplyUpdate(t: Tables, assets: Assets, u: Update): Outcome<Tables> {
    if u.asset !in t.native then Failed(UnregisteredAsset)
    else if Overlapping(u) then Failed(DuplicateChainUpdate)
    else match LocalDecimals(assets, u.asset)
      case None => Failed(AssetDoesNotExist)
      case Some(local) =>
        match AddFault(t, u.asset, u.add, local, true)
        case Some(e) => Failed(e)
        case None =>
          match RemoveFault(t, u.asset, u.remove)
          case Some(e) => Failed(e)
          case None =>
            match ReplacedAll(t, u.asset, u.add)
            case None => Failed(RegistryInconsistent)
            case Some(t1) =>
              match RemovedAll(t1, u.asset, u.remove)
              case None => Failed(RegistryInconsistent)
              case Some(t2) => Done(t2)
  }

  // --------------------------------------------------------------------- the invariants

  /** What the pallet's own state check verifies. */
  predicate CheckedForward(t: Tables, chain: Chain, asset: AssetId)
    requires (chain, asset) in t.contracts
  {
    var contract := t.contracts[(chain, asset)];
    && chain.Evm? && |contract| == 20 && contract != ZERO_ADDRESS
    && Row(t.assets, (chain, contract)) == Some(asset)
    && (asset, chain) in t.precisions
  }

  ghost predicate Checked(t: Tables) {
    && (forall chain, asset :: (chain, asset) in t.contracts ==> CheckedForward(t, chain, asset))
    && (forall chain, contract ::
        (chain, contract) in t.assets ==> Row(t.contracts, (chain, t.assets[(chain, contract)])) == Some(contract))
    && (forall asset, chain :: (asset, chain) in t.precisions ==> (chain, asset) in t.contracts)
  }

  /** The invariant that registrations and updates keep: the state check, and every
      forward row belongs to a registered asset. */
  ghost predicate OneToOne(t: Tables) {
    Checked(t) && forall chain, asset :: (chain, asset) in t.contracts ==> asset in t.native
  }

  // ------------------------------------------------- a batch as one change of the tables

  /** What a batch intends for each chain it names: a new lane, or none. */
  type Plan = map<Chain, Option<Lane>>

  function PlannedContract(plan: Plan, chain: Chain): Option<seq<Byte>>
    requires chain in plan
  {
    match plan[chain] case None => None case Some(lane) => Some(lane.contract)
  }

  function PlannedDecimals(plan: Plan, chain: Chain): Option<nat>
    requires chain in plan
  {
    match plan[chain] case None => None case Some(lane) => Some(lane.decimals)
  }

  /** Every row after a batch, in terms of every row before it: the named chains of the
      asset carry the plan, their old reverse rows are gone, and nothing else moved. */
  ghost predicate Rewired(t: Tables, t': Tables, asset: AssetId, plan: Plan) {
    && t'.native == t.native
    && (forall chain, a :: Row(t'.contracts, (chain, a)) ==
          if a == asset && chain in plan then PlannedContract(plan, chain) else Row(t.contracts, (chain, a)))
    && (forall a, chain :: Row(t'.precisions, (a, chain)) ==
          if a == asset && chain in plan then PlannedDecimals(plan, chain) else Row(t.precisions, (a, chain)))
    && (forall chain, contract :: Row(t'.assets, (chain, contract)) ==
          if chain in plan && PlannedContract(plan, chain) == Some(contract) then Some(asset)
          else if chain in plan && Row(t.contracts, (chain, asset)) == Some(contract) then None
          else Row(t.assets, (chain, contract)))
  }

  function AddPlan(entries: seq<Entry>): Plan {
    if entries == [] then map[] else AddPlan(entries[1..])[entries[0].chain := Some(entries[0].lane)]
  }

  function RemovePlan(chains: seq<Chain>): Plan {
    map chain | chain in chains :: None
  }

  /** What a validated plan may contain. */
  predicate LaneFits(t: Tables, asset: AssetId, chain: Chain, lane: Option<Lane>) {
    chain.Evm? && (lane.Some? ==>
      lane.value.contract != ZERO_ADDRESS && Row(t.assets, (chain, lane.value.contract)) in {None, Some(asset)})
  }

  predicate Fits(t: Tables, asset: AssetId, plan: Plan) {
    forall chain :: chain in plan ==> LaneFits(t, asset, chain, plan[chain])
  }

  /** The entry names a chain where the asset still has a row under another contract. */
  predicate Stale(t: Tables, asset: AssetId, e: Entry) {
    (e.chain, asset) in t.contracts && t.contracts[(e.chain, asset)] != e.lane.contract
  }

  function Chains(entries: seq<Entry>): seq<Chain> {
    seq(|entries|, i requires 0 <= i < |entries| => entries[i].chain)
  }

  // ------------------------------------------------------------------------ the machine

  datatype Op = RegisterOp(registration: Registration) | UpdateOp(update: Update)

  /** A transactional call: it either completes or leaves the tables alone. */
  function Step(t: Tables, assets: Assets, op: Op): Tables {
    var outcome := match op
      case RegisterOp(r) => Register(t, assets, r)
      case UpdateOp(u) => ApplyUpdate(t, assets, u);
    match outcome case Done(t') => t' case Failed(_) => t
  }

  predicate WellTyped(op: Op) {
    match op
    case RegisterOp(r) => NoChainTwice(r.chains)
    case UpdateOp(u) => NoChainTwice(u.add)
  }

  /** Each operation meets the assets that exist at its time. */
  function Run(t: Tables, calls: seq<(Assets, Op)>): Tables {
    if calls == [] then t
    else
      var last := calls[|calls| - 1];
      Step(Run(t, calls[..|calls| - 1]), last.0, last.1)
  }

  const EMPTY: Tables := Tables(map[], map[], map[], map[])

  // --------------------------------------------------------------- the receipt adapter

  const USDC_POLYGON: AssetId := 900_001
  const USDC_ETHEREUM: AssetId := 900_002

  function SourceOf(asset: AssetId): Option<Chain> {
    if asset == USDC_POLYGON then Some(Evm(80_002))
    else if asset == USDC_ETHEREUM then Some(Evm(1))
    else None
  }

  /** The canonical descriptor of a collateral receipt, read from all four tables. */
  function Canonical(t: Tables, asset: AssetId): Option<(Chain, seq<Byte>, nat)> {
    match SourceOf(asset)
    case None => None
    case Some(source) =>
      match Row(t.contracts, (source, asset))
      case None => None
      case Some(contract) =>
        if |contract| != 20 || Row(t.native, asset) == Some(true) || Row(t.assets, (source, contract)) != Some(asset)
        then None
        else match Row(t.precisions, (asset, source))
          case None => None
          case Some(decimals) => if decimals != 6 then None else Some((source, contract, decimals))
  }
}
