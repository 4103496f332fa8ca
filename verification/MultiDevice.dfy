/**
 * Devices, the store and the chain together: each device runs the manifest protocol of its
 * own tab on the shared store, publishes its pointer, caches the registry it fetched and
 * restores its pointer from the cached head (apps/web/src/components/registry).
 *
 * A publication captures the local CID, later learns whether the registry exists and later
 * still submits, so both pictures may be stale. `owned` are the wallets whose owner only
 * uses this application; everybody else may send the program anything.
 */
module MultiDevice {
  import opened Wrappers
  import opened Terms
  import opened AsciiText
  import opened KeyDerivation
  import opened Manifest
  import opened ManifestCrypto
  import opened Protocol
  import opened ProtocolSafety
  import opened ProtocolLinear
  import opened ProtocolMutex
  import opened ProtocolOutcomes
  import opened ProtocolSuccess
  import R = Registry
  import RR = RegistryRuns
  import opened RegistryHead

  const VaultId := "local-default"

  datatype Device = Device(tab: Tab, cached: map<string, seq<R.RegistryEntry>>)

  datatype Publication = Publication(wallet: string, cid: Cid, found: Option<bool>)

  datatype World = World(store: Store, devices: seq<Device>, chain: R.Accounts, publications: seq<Publication>)

  datatype Event =
    | OnDevice(d: nat, action: Action)
    | Refresh(d: nat, wallet: string)
    | Restore(d: nat, wallet: string)
    | BeginPublish(d: nat, wallet: string)
    | FetchRegistry(k: nat)
    | Submit(k: nat, now: int)
    | OthersTransact(tx: R.Transaction)

  function TabOf(w: World, d: nat): State
    requires d < |w.devices|
  {
    State(w.store, w.devices[d].tab)
  }

  function RegistryOf(wallet: string): R.Address {
    R.GetRegistryAddress(wallet, VaultId)
  }

  /** The latest on-chain CID as the device knows it. */
  function CachedHead(d: Device, wallet: string, lt: Collation): Option<Cid> {
    if wallet !in d.cached then None
    else match SelectHead(d.cached[wallet], lt)
      case None => None
      case Some(e) => Some(e.manifestCid)
  }

  function PublishTransaction(p: Publication, now: int): R.Transaction {
    R.Transaction(R.PublishInstructions(p.found == Some(true), p.wallet, VaultId, p.cid), now)
  }

  function SetTab(w: World, d: nat, s: State): World
    requires d < |w.devices|
  {
    w.(store := s.store, devices := w.devices[d := w.devices[d].(tab := s.tab)])
  }

  function WorldStep(w: World, e: Event, lt: Collation): World {
    match e
    case OnDevice(d, a) => if d < |w.devices| then SetTab(w, d, Step(TabOf(w, d), a)) else w
    case Refresh(d, wallet) =>
      if d < |w.devices| then
        var known := w.devices[d].cached;
        var now := if RegistryOf(wallet) in w.chain
            then known[wallet := w.chain[RegistryOf(wallet)].entries] else known - {wallet};
        w.(devices := w.devices[d := w.devices[d].(cached := now)])
      else w
    case Restore(d, wallet) =>
      if d < |w.devices| && CachedHead(w.devices[d], wallet, lt).Some?
      then SetTab(w, d, Step(TabOf(w, d), SetPointer(wallet, CachedHead(w.devices[d], wallet, lt).value)))
      else w
    case BeginPublish(d, wallet) =>
      if d < |w.devices| && wallet in w.devices[d].tab.pointer
      then w.(publications := w.publications + [Publication(wallet, w.devices[d].tab.pointer[wallet], None)])
      else w
    case FetchRegistry(k) =>
      if k < |w.publications|
      then
        var p := w.publications[k];
        w.(publications := w.publications[k := p.(found := Some(RegistryOf(p.wallet) in w.chain))])
      else w
    case Submit(k, now) =>
      if k < |w.publications| && w.publications[k].found.Some?
      then w.(chain := R.Process(w.chain, PublishTransaction(w.publications[k], now)))
      else w
    case OthersTransact(tx) => w.(chain := R.Process(w.chain, tx))
  }

  function WorldRun(w: World, events: seq<Event>, lt: Collation): World {
    if events == [] then w else WorldStep(WorldRun(w, events[..|events| - 1], lt), events[|events| - 1], lt)
  }

  predicate HonestEvent(w: World, e: Event, owned: set<string>) {
    match e
    case OnDevice(d, a) => d < |w.devices| ==> Honest(TabOf(w, d), a) && !a.SetPointer?
    case Refresh(_, wallet) => wallet in owned
    case Restore(_, wallet) => wallet in owned && Trim(wallet) == wallet
    case OthersTransact(tx) => forall i | 0 <= i < |tx.instructions| :: tx.instructions[i].signer !in owned
    case _ => true
  }

  predicate HonestWorldRun(w: World, events: seq<Event>, owned: set<string>, lt: Collation) {
    events != [] ==>
      HonestWorldRun(w, events[..|events| - 1], owned, lt)
          && HonestEvent(WorldRun(w, events[..|events| - 1], lt), events[|events| - 1], owned)
  }

  /* ---- where CIDs come from ---- */

  /** Pairs of a CID and the wallet it is kept for. */
  type Pairs = iset<(Cid, string)>

  ghost predicate EntriesIn(allowed: Pairs, entries: seq<R.RegistryEntry>, wallet: string) {
    forall i | 0 <= i < |entries| :: (entries[i].manifestCid, wallet) in allowed
  }

  ghost predicate ChainIn(allowed: Pairs, chain: R.Accounts, owned: set<string>) {
    RR.AllTrue(chain) && forall a | a in chain && chain[a].wallet in owned ::
        EntriesIn(allowed, chain[a].entries, chain[a].wallet)
  }

  ghost predicate CacheIn(allowed: Pairs, cached: map<string, seq<R.RegistryEntry>>) {
    forall wallet | wallet in cached :: EntriesIn(allowed, cached[wallet], wallet) && ValidCids(cached[wallet])
  }

  ghost predicate PublicationsIn(allowed: Pairs, publications: seq<Publication>) {
    forall k | 0 <= k < |publications| :: (publications[k].cid, publications[k].wallet) in allowed
  }

  /** Every CID on the owners' registries, in a cache or on its way to the chain. */
  ghost predicate CidsIn(allowed: Pairs, w: World, owned: set<string>) {
    && (forall d | 0 <= d < |w.devices| :: CacheIn(allowed, w.devices[d].cached))
    && PublicationsIn(allowed, w.publications)
    && ChainIn(allowed, w.chain, owned)
  }

  ghost predicate PointersIn(allowed: Pairs, w: World) {
    forall d, wallet | 0 <= d < |w.devices| && wallet in w.devices[d].tab.pointer ::
        (w.devices[d].tab.pointer[wallet], wallet) in allowed
  }

  /** What the owner's instructions may append. */
  ghost predicate InstructionIn(allowed: Pairs, ix: R.Instruction, owned: set<string>) {
    ix.Append? && ix.signer in owned ==> (ix.manifestCid, ix.signer) in allowed
  }

  ghost predicate InstructionsIn(allowed: Pairs, ixs: seq<R.Instruction>, owned: set<string>) {
    forall i | 0 <= i < |ixs| :: InstructionIn(allowed, ixs[i], owned)
  }

  lemma AllowMore(allowed: Pairs, more: Pairs, w: World, owned: set<string>)
    requires CidsIn(allowed, w, owned) && allowed <= more
    ensures CidsIn(more, w, owned)
  {
    hide RR.AllTrue, ValidCids;
    forall d | 0 <= d < |w.devices| ensures CacheIn(more, w.devices[d].cached) {
      assert CacheIn(allowed, w.devices[d].cached);
    }
    forall a | a in w.chain && w.chain[a].wallet in owned
        ensures EntriesIn(more, w.chain[a].entries, w.chain[a].wallet) {
      assert EntriesIn(allowed, w.chain[a].entries, w.chain[a].wallet);
    }
  }

  lemma ExecuteIn(allowed: Pairs, chain: R.Accounts, ix: R.Instruction, now: int, owned: set<string>)
    requires ChainIn(allowed, chain, owned) && InstructionIn(allowed, ix, owned) && R.Execute(chain, ix, now).Ok?
    ensures ChainIn(allowed, R.Execute(chain, ix, now).value, owned)
  {
    hide RR.AllTrue, R.CidError, R.AcceptsVaultId, R.Published;
    RR.ExecuteKeeps(chain, ix, now);
    var after := R.Execute(chain, ix, now).value;
    forall a | a in after && after[a].wallet in owned ensures EntriesIn(allowed, after[a].entries, after[a].wallet) {
      if a in chain {
        assert after[a].wallet == chain[a].wallet;
        assert EntriesIn(allowed, chain[a].entries, chain[a].wallet);
      }
    }
  }

  lemma {:induction false} ExecuteAllIn(allowed: Pairs, chain: R.Accounts, ixs: seq<R.Instruction>, now: int,
      owned: set<string>)
    requires ChainIn(allowed, chain, owned) && R.ExecuteAll(chain, ixs, now).Ok? && InstructionsIn(allowed, ixs, owned)
    ensures ChainIn(allowed, R.ExecuteAll(chain, ixs, now).value, owned)
    decreases |ixs|
  {
    hide ChainIn, InstructionIn, R.Execute;
    if ixs != [] {
      ExecuteIn(allowed, chain, ixs[0], now, owned);
      ExecuteAllIn(allowed, R.Execute(chain, ixs[0], now).value, ixs[1..], now, owned);
    }
  }

  lemma ProcessIn(allowed: Pairs, chain: R.Accounts, tx: R.Transaction, owned: set<string>)
    requires ChainIn(allowed, chain, owned) && InstructionsIn(allowed, tx.instructions, owned)
    ensures ChainIn(allowed, R.Process(chain, tx), owned)
  {
    hide ChainIn, InstructionsIn, R.ExecuteAll;
    if R.ExecuteAll(chain, tx.instructions, tx.now).Ok? {
      ExecuteAllIn(allowed, chain, tx.instructions, tx.now, owned);
    }
  }

  lemma PublicationInstructions(allowed: Pairs, p: Publication, now: int, owned: set<string>)
    requires (p.cid, p.wallet) in allowed
    ensures InstructionsIn(allowed, PublishTransaction(p, now).instructions, owned)
  {
    hide R.GetRegistryAddress, R.ClientVaultId;
  }

  lemma StrangersInstructions(allowed: Pairs, tx: R.Transaction, owned: set<string>)
    requires forall i | 0 <= i < |tx.instructions| :: tx.instructions[i].signer !in owned
    ensures InstructionsIn(allowed, tx.instructions, owned)
  {
  }

  lemma OnChainIn(allowed: Pairs, chain: R.Accounts, wallet: string, owned: set<string>)
    requires ChainIn(allowed, chain, owned) && wallet in owned && RegistryOf(wallet) in chain
    ensures EntriesIn(allowed, chain[RegistryOf(wallet)].entries, wallet)
    ensures ValidCids(chain[RegistryOf(wallet)].entries)
  {
    hide EntriesIn, ValidCids, RR.DistinctCids, Trim, ToLower;
    assert RR.AccountTrue(RegistryOf(wallet), chain[RegistryOf(wallet)]);
    AccountCids(RegistryOf(wallet), chain[RegistryOf(wallet)]);
  }

  lemma RefreshIn(allowed: Pairs, w: World, e: Event, owned: set<string>, lt: Collation)
    requires CidsIn(allowed, w, owned) && HonestEvent(w, e, owned) && e.Refresh?
    ensures CidsIn(allowed, WorldStep(w, e, lt), owned)
  {
    hide EntriesIn, ValidCids, RegistryOf, ChainIn, PublicationsIn;
    if e.d < |w.devices| {
      if RegistryOf(e.wallet) in w.chain {
        OnChainIn(allowed, w.chain, e.wallet, owned);
      }
      var t := WorldStep(w, e, lt);
      forall d | 0 <= d < |t.devices| ensures CacheIn(allowed, t.devices[d].cached) {
        assert CacheIn(allowed, w.devices[d].cached);
      }
    }
  }

  /** Events of a tab leave caches, publications and the chain alone. */
  lemma TabEventIn(allowed: Pairs, w: World, e: Event, owned: set<string>, lt: Collation)
    requires CidsIn(allowed, w, owned) && (e.OnDevice? || e.Restore?)
    ensures CidsIn(allowed, WorldStep(w, e, lt), owned)
  {
    hide CacheIn, ChainIn, PublicationsIn, Step, CachedHead;
    var t := WorldStep(w, e, lt);
    forall d | 0 <= d < |t.devices| ensures CacheIn(allowed, t.devices[d].cached) {
      assert CacheIn(allowed, w.devices[d].cached);
    }
  }

  lemma PublicationEventIn(allowed: Pairs, w: World, e: Event, owned: set<string>, lt: Collation)
    requires CidsIn(allowed, w, owned) && PointersIn(allowed, w) && (e.BeginPublish? || e.FetchRegistry?)
    ensures CidsIn(allowed, WorldStep(w, e, lt), owned)
  {
    hide CacheIn, ChainIn, RegistryOf;
  }

  lemma ChainEventIn(allowed: Pairs, w: World, e: Event, owned: set<string>, lt: Collation)
    requires CidsIn(allowed, w, owned) && HonestEvent(w, e, owned) && (e.Submit? || e.OthersTransact?)
    ensures CidsIn(allowed, WorldStep(w, e, lt), owned)
  {
    hide CacheIn, ChainIn, InstructionsIn, PublishTransaction, R.Process;
    if e.Submit? && e.k < |w.publications| {
      PublicationInstructions(allowed, w.publications[e.k], e.now, owned);
      ProcessIn(allowed, w.chain, PublishTransaction(w.publications[e.k], e.now), owned);
    } else if e.OthersTransact? {
      StrangersInstructions(allowed, e.tx, owned);
      ProcessIn(allowed, w.chain, e.tx, owned);
    }
  }

  /** No step invents a CID: what is cached, published or on the chain was a pointer before. */
  lemma StepInventsNothing(allowed: Pairs, w: World, e: Event, owned: set<string>, lt: Collation)
    requires CidsIn(allowed, w, owned) && PointersIn(allowed, w) && HonestEvent(w, e, owned)
    ensures CidsIn(allowed, WorldStep(w, e, lt), owned)
  {
    hide CidsIn, PointersIn, HonestEvent, WorldStep;
    if e.Refresh? {
      RefreshIn(allowed, w, e, owned, lt);
    } else if e.OnDevice? || e.Restore? {
      TabEventIn(allowed, w, e, owned, lt);
    } else if e.BeginPublish? || e.FetchRegistry? {
      PublicationEventIn(allowed, w, e, owned, lt);
    } else {
      ChainEventIn(allowed, w, e, owned, lt);
    }
  }

  lemma ValidIsTrimmed(cid: string)
    requires R.ValidCid(cid)
    ensures cid != [] && Trim(cid) == cid
  {
    hide Trim;
    assert IsTrimmed(cid);
    TrimOfTrimmed(cid);
  }

  lemma HeadIn(allowed: Pairs, d: Device, wallet: string, lt: Collation)
    requires CacheIn(allowed, d.cached) && CachedHead(d, wallet, lt).Some? && OrdersCids(lt)
    ensures (CachedHead(d, wallet, lt).value, wallet) in allowed
    ensures CachedHead(d, wallet, lt).value != []
    ensures Trim(CachedHead(d, wallet, lt).value) == CachedHead(d, wallet, lt).value
  {
    hide Sorted, ValidCids, OrdersCids;
    HeadIsMaximal(d.cached[wallet], lt);
    assert EntriesIn(allowed, d.cached[wallet], wallet);
    ValidMember(d.cached[wallet], SelectHead(d.cached[wallet], lt).value);
    ValidIsTrimmed(CachedHead(d, wallet, lt).value);
  }

  /* ---- the safety invariant ---- */

  ghost function GoodPairs(store: Store): Pairs {
    iset cid, wallet | Good(store, cid, wallet) :: (cid, wallet)
  }

  ghost predicate GoodWorld(w: World, owned: set<string>) {
    && (forall d | 0 <= d < |w.devices| :: Safe(TabOf(w, d)))
    && CidsIn(GoodPairs(w.store), w, owned)
  }

  lemma DeviceSafe(w: World, d: nat, owned: set<string>)
    requires GoodWorld(w, owned) && d < |w.devices|
    ensures Safe(TabOf(w, d)) && CacheIn(GoodPairs(w.store), w.devices[d].cached)
  {
    hide Safe, CacheIn, GoodPairs;
  }

  lemma SafeGrows(s: State, store: Store)
    requires Safe(s) && Grows(s.store, store)
    ensures Safe(State(store, s.tab))
  {
    hide CallTrue, LoadFor;
    forall i | 0 <= i < |s.tab.calls| ensures CallTrue(store, s.tab.calls[i]) {
      CallTrueGrows(s.store, store, s.tab.calls[i]);
    }
  }

  lemma PairsGrow(before: Store, after: Store)
    requires Grows(before, after)
    ensures GoodPairs(before) <= GoodPairs(after)
  {
    hide LoadFor;
  }

  /** One device moved: the others only see a larger store. */
  lemma TabSafe(w: World, d: nat, s: State, owned: set<string>)
    requires GoodWorld(w, owned) && d < |w.devices| && Safe(s) && Grows(w.store, s.store)
    requires CidsIn(GoodPairs(w.store), SetTab(w, d, s), owned)
    ensures GoodWorld(SetTab(w, d, s), owned)
  {
    hide Safe, CidsIn, GoodPairs, Good, Grows;
    var t := SetTab(w, d, s);
    PairsGrow(w.store, s.store);
    AllowMore(GoodPairs(w.store), GoodPairs(s.store), t, owned);
    forall k | 0 <= k < |t.devices| ensures Safe(TabOf(t, k)) {
      SafeGrows(TabOf(w, k), s.store);
    }
  }

  lemma SafePointers(w: World, owned: set<string>)
    requires GoodWorld(w, owned)
    ensures PointersIn(GoodPairs(w.store), w)
  {
    hide CallTrue, Good, CidsIn;
    forall d, wallet | 0 <= d < |w.devices| && wallet in w.devices[d].tab.pointer
      ensures (w.devices[d].tab.pointer[wallet], wallet) in GoodPairs(w.store)
    {
      assert Safe(TabOf(w, d));
    }
  }

  lemma StepGood(w: World, e: Event, owned: set<string>, lt: Collation)
    requires GoodWorld(w, owned) && HonestEvent(w, e, owned) && OrdersCids(lt)
    ensures GoodWorld(WorldStep(w, e, lt), owned) && Grows(w.store, WorldStep(w, e, lt).store)
  {
    hide Safe, Good, GoodPairs, Honest, Step, CidsIn, OrdersCids, R.Process, CachedHead;
    SafePointers(w, owned);
    StepInventsNothing(GoodPairs(w.store), w, e, owned, lt);
    if e.OnDevice? && e.d < |w.devices| {
      StepSafe(TabOf(w, e.d), e.action);
      TabSafe(w, e.d, Step(TabOf(w, e.d), e.action), owned);
    } else if e.Restore? {
      RestoreGood(w, e.d, e.wallet, owned, lt);
    } else {
      OthersSafe(w, e, owned, lt);
    }
  }

  lemma OthersSafe(w: World, e: Event, owned: set<string>, lt: Collation)
    requires GoodWorld(w, owned) && (e.OnDevice? ==> e.d >= |w.devices|) && !e.Restore?
    requires CidsIn(GoodPairs(w.store), WorldStep(w, e, lt), owned)
    ensures GoodWorld(WorldStep(w, e, lt), owned) && WorldStep(w, e, lt).store == w.store
  {
    hide Safe, GoodPairs, CidsIn, R.Process, RegistryOf, PublishTransaction;
    var t := WorldStep(w, e, lt);
    forall d | 0 <= d < |t.devices| ensures Safe(TabOf(t, d)) {
      assert Safe(TabOf(w, d));
      assert TabOf(t, d) == TabOf(w, d);
    }
  }

  lemma RestoreGood(w: World, d: nat, wallet: string, owned: set<string>, lt: Collation)
    requires GoodWorld(w, owned) && OrdersCids(lt) && Trim(wallet) == wallet
    requires CidsIn(GoodPairs(w.store), WorldStep(w, Event.Restore(d, wallet), lt), owned)
    ensures GoodWorld(WorldStep(w, Event.Restore(d, wallet), lt), owned)
    ensures WorldStep(w, Event.Restore(d, wallet), lt).store == w.store
  {
    hide GoodWorld, Safe, Good, GoodPairs, CidsIn, CacheIn, OrdersCids, CachedHead, Trim, Step, Honest, Grows;
    if d < |w.devices| && CachedHead(w.devices[d], wallet, lt).Some? {
      var cid := CachedHead(w.devices[d], wallet, lt).value;
      DeviceSafe(w, d, owned);
      HeadIn(GoodPairs(w.store), w.devices[d], wallet, lt);
      HonestRestore(TabOf(w, d), wallet, cid);
      StepSafe(TabOf(w, d), SetPointer(wallet, cid));
      PointerLeavesStore(TabOf(w, d), wallet, cid);
      TabSafe(w, d, Step(TabOf(w, d), SetPointer(wallet, cid)), owned);
    }
  }

  lemma HonestRestore(s: State, wallet: string, cid: Cid)
    requires (cid, wallet) in GoodPairs(s.store) && Trim(cid) == cid && Trim(wallet) == wallet
    ensures Honest(s, SetPointer(wallet, cid))
  {
    hide Trim, Good;
  }

  lemma PointerLeavesStore(s: State, wallet: string, cid: Cid)
    ensures Step(s, SetPointer(wallet, cid)).store == s.store
  {
    hide Trim, HasSpace;
  }

  /**
   * Multi-device safety. In every run of append, load, publish, refresh and restore steps by
   * any number of devices, among arbitrary transactions of strangers: every local pointer,
   * every CID on the owners' registries, every cached CID and every CID on its way to the
   * chain names a stored manifest that loads with its wallet's vault-root signature.
   */
  lemma {:induction false} EveryCidLoads(w: World, events: seq<Event>, owned: set<string>, lt: Collation)
    requires GoodWorld(w, owned) && HonestWorldRun(w, events, owned, lt) && OrdersCids(lt)
    ensures GoodWorld(WorldRun(w, events, lt), owned) && Grows(w.store, WorldRun(w, events, lt).store)
  {
    hide GoodWorld, HonestEvent, WorldStep, OrdersCids;
    if events != [] {
      var before := events[..|events| - 1];
      EveryCidLoads(w, before, owned, lt);
      StepGood(WorldRun(w, before, lt), events[|events| - 1], owned, lt);
    }
  }

  /** On every device, a call that was handed a non-null head never creates a manifest. */
  lemma HeadMeansNoCreation(w: World, events: seq<Event>, owned: set<string>, lt: Collation, d: nat, i: nat)
    requires GoodWorld(w, owned) && HonestWorldRun(w, events, owned, lt) && OrdersCids(lt)
    requires d < |WorldRun(w, events, lt).devices| && i < |WorldRun(w, events, lt).devices[d].tab.calls|
    requires HeadPresent(WorldRun(w, events, lt).devices[d].tab.calls[i].head)
    ensures var c := WorldRun(w, events, lt).devices[d].tab.calls[i];
            !c.initialised && !InInit(c.pc) && !(c.pc.Done? && c.pc.outcome.Created?)
  {
    hide WorldRun, HonestWorldRun, OrdersCids, PcTrue, Good, CidsIn;
    EveryCidLoads(w, events, owned, lt);
    var s := TabOf(WorldRun(w, events, lt), d);
    assert Safe(s);
    assert CallTrue(s.store, s.tab.calls[i]);
  }

  /* ---- restore, then load ---- */

  lemma {:induction false} WorldRunSplit(w: World, a: seq<Event>, b: seq<Event>, owned: set<string>, lt: Collation)
    ensures WorldRun(w, a + b, lt) == WorldRun(WorldRun(w, a, lt), b, lt)
    ensures HonestWorldRun(w, a + b, owned, lt) <==>
        HonestWorldRun(w, a, owned, lt) && HonestWorldRun(WorldRun(w, a, lt), b, owned, lt)
  {
    hide WorldStep, HonestEvent;
    if b == [] {
      assert a + b == a;
    } else {
      assert (a + b)[..|a + b| - 1] == a + b[..|b| - 1];
      WorldRunSplit(w, a, b[..|b| - 1], owned, lt);
    }
  }

  lemma StepKeepsLoad(w: World, e: Event, lt: Collation, d: nat, i: nat)
    requires d < |w.devices| && Safe(TabOf(w, d)) && i < |w.devices[d].tab.calls|
    requires w.devices[d].tab.calls[i].kind.Load?
    ensures var t := WorldStep(w, e, lt);
            d < |t.devices| && i < |t.devices[d].tab.calls|
                && SameRead(w.devices[d].tab.calls[i], t.devices[d].tab.calls[i])
  {
    hide Safe, Step, SelectHead, R.Process, SameRead;
    SameReadSelf(w.devices[d].tab.calls[i]);
    if e.OnDevice? && e.d == d {
      StepKeepsRead(TabOf(w, d), e.action, i);
    } else if e.Restore? && e.d == d && CachedHead(w.devices[d], e.wallet, lt).Some? {
      StepKeepsRead(TabOf(w, d), SetPointer(e.wallet, CachedHead(w.devices[d], e.wallet, lt).value), i);
    }
  }

  lemma SameReadSelf(c: Call)
    ensures SameRead(c, c)
  {
  }

  lemma {:induction false} RunKeepsLoad(w: World, events: seq<Event>, owned: set<string>, lt: Collation, d: nat, i: nat)
    requires GoodWorld(w, owned) && HonestWorldRun(w, events, owned, lt) && OrdersCids(lt)
    requires d < |w.devices| && i < |w.devices[d].tab.calls| && w.devices[d].tab.calls[i].kind.Load?
    ensures var t := WorldRun(w, events, lt);
            d < |t.devices| && i < |t.devices[d].tab.calls|
                && SameRead(w.devices[d].tab.calls[i], t.devices[d].tab.calls[i])
  {
    hide Safe, HonestEvent, WorldStep, OrdersCids, CidsIn, Good;
    if events != [] {
      var before := events[..|events| - 1];
      RunKeepsLoad(w, before, owned, lt, d, i);
      EveryCidLoads(w, before, owned, lt);
      assert Safe(TabOf(WorldRun(w, before, lt), d));
      StepKeepsLoad(WorldRun(w, before, lt), events[|events| - 1], lt, d, i);
    }
  }

  /** A load on a device returns what its pointer named, whatever all devices do meanwhile. */
  lemma DeviceLoad(w: World, d: nat, a: Action, post: seq<Event>, owned: set<string>, lt: Collation)
    requires GoodWorld(w, owned) && OrdersCids(lt) && HonestWorldRun(w, [OnDevice(d, a)] + post, owned, lt)
    requires d < |w.devices| && a.InvokeLoad? && Trim(a.wallet) != [] && a.unlock
    ensures var i, t := |w.devices[d].tab.calls|, WorldRun(w, [OnDevice(d, a)] + post, lt);
            && d < |t.devices| && i < |t.devices[d].tab.calls|
            && (var c := t.devices[d].tab.calls[i];
                c.pc.Done? && c.pc.outcome.Got? ==>
                  && Some(c.pc.outcome.cid) == PointerOf(w.devices[d].tab, Trim(a.wallet))
                  && Some(c.pc.outcome.manifest) == Behind(TabOf(w, d), Trim(a.wallet)))
  {
    hide WorldRun, HonestWorldRun, Step, Safe, Trim, OrdersCids, CidsIn, Good, SameRead, Behind, Honest;
    WorldRunSplit(w, [OnDevice(d, a)], post, owned, lt);
    OneEvent(w, OnDevice(d, a), owned, lt);
    var s, w1, t := TabOf(w, d), WorldStep(w, OnDevice(d, a), lt), WorldRun(w, [OnDevice(d, a)] + post, lt);
    assert Safe(s);
    LoadReadsPointer(s, a);
    StepGood(w, OnDevice(d, a), owned, lt);
    RunKeepsLoad(w1, post, owned, lt, d, |s.tab.calls|);
    EveryCidLoads(w1, post, owned, lt);
    assert Safe(TabOf(t, d));
    GotSnapshot(s, TabOf(t, d), |s.tab.calls|, w1.devices[d].tab.calls[|s.tab.calls|], Trim(a.wallet));
  }

  lemma OneEvent(w: World, e: Event, owned: set<string>, lt: Collation)
    ensures WorldRun(w, [e], lt) == WorldStep(w, e, lt)
    ensures HonestWorldRun(w, [e], owned, lt) ==> HonestEvent(w, e, owned)
  {
    hide WorldStep, HonestEvent;
    assert [e][..0] == [];
  }

  /** The events of a restore on device `e`, whatever comes next, and then a load there. */
  function RestoreAndLoad(e: nat, a: Action, mid: seq<Event>, post: seq<Event>): seq<Event>
    requires a.InvokeLoad?
  {
    ([Event.Restore(e, Trim(a.wallet))] + mid) + ([OnDevice(e, a)] + post)
  }

  /** What the load reports, if it succeeds, is the manifest `m` under the CID `head`. */
  predicate Reports(t: World, e: nat, i: nat, head: Option<Cid>, m: Option<ManifestV1>) {
    && e < |t.devices| && i < |t.devices[e].tab.calls|
    && (var c := t.devices[e].tab.calls[i];
        c.pc.Done? && c.pc.outcome.Got? ==> Some(c.pc.outcome.cid) == head && Some(c.pc.outcome.manifest) == m)
  }

  /** A restore sets the pointer to the cached head. */
  lemma RestoreSetsPointer(w: World, e: nat, wallet: string, owned: set<string>, lt: Collation)
    requires GoodWorld(w, owned) && OrdersCids(lt) && UsableName(wallet)
    requires e < |w.devices| && CachedHead(w.devices[e], wallet, lt).Some?
    ensures var t := WorldStep(w, Event.Restore(e, wallet), lt);
            e < |t.devices| && PointerOf(t.devices[e].tab, wallet) == CachedHead(w.devices[e], wallet, lt)
  {
    hide GoodWorld, CachedHead, Trim, OrdersCids, CacheIn, UsableName, Safe, Step;
    DeviceSafe(w, e, owned);
    HeadIn(GoodPairs(w.store), w.devices[e], wallet, lt);
    PointerSet(TabOf(w, e), wallet, CachedHead(w.devices[e], wallet, lt).value);
  }

  lemma PointerSet(s: State, wallet: string, cid: Cid)
    requires UsableName(wallet) && cid != [] && Trim(cid) == cid
    ensures PointerOf(Step(s, SetPointer(wallet, cid)).tab, wallet) == Some(cid)
  {
    hide Trim, HasSpace;
    UsableIsTrimmed(wallet);
  }

  /**
   * Restore then load. Let device `e` restore a head whose CID some device `d` had as its
   * pointer at an earlier time, and let anything happen that leaves that pointer of `e`
   * alone. A load started then on `e` can only return the manifest that was behind the
   * pointer of `d` at that earlier time: the one that was published.
   */
  lemma RestoreThenLoad(w: World, before: World, d: nat, e: nat, mid: seq<Event>, a: Action, post: seq<Event>,
      owned: set<string>, lt: Collation)
    requires GoodWorld(before, owned) && GoodWorld(w, owned) && Grows(before.store, w.store) && OrdersCids(lt)
    requires d < |before.devices| && e < |w.devices| && a.InvokeLoad? && Trim(a.wallet) != [] && a.unlock
    requires CachedHead(w.devices[e], Trim(a.wallet), lt).Some?
    requires PointerOf(before.devices[d].tab, Trim(a.wallet)) == CachedHead(w.devices[e], Trim(a.wallet), lt)
    requires HonestWorldRun(w, RestoreAndLoad(e, a, mid, post), owned, lt)
    requires var v := WorldRun(w, [Event.Restore(e, Trim(a.wallet))] + mid, lt);
             e < |v.devices| && PointerOf(v.devices[e].tab, Trim(a.wallet)) ==
                 CachedHead(w.devices[e], Trim(a.wallet), lt)
    ensures Reports(WorldRun(w, RestoreAndLoad(e, a, mid, post), lt), e,
                    |WorldRun(w, [Event.Restore(e, Trim(a.wallet))] + mid, lt).devices[e].tab.calls|,
                    CachedHead(w.devices[e], Trim(a.wallet), lt), Behind(TabOf(before, d), Trim(a.wallet)))
  {
    hide WorldRun, HonestWorldRun, Trim, OrdersCids, GoodWorld, CachedHead, Good, Grows;
    var first, second := [Event.Restore(e, Trim(a.wallet))] + mid, [OnDevice(e, a)] + post;
    WorldRunSplit(w, first, second, owned, lt);
    EveryCidLoads(w, first, owned, lt);
    var v := WorldRun(w, first, lt);
    DeviceLoad(v, e, a, post, owned, lt);
    GrowsOn(before.store, w.store, v.store);
    PointedManifest(before, d, v.store, owned, Trim(a.wallet));
    GrowsOn(v.store, v.store, v.store);
    PointedManifest(v, e, v.store, owned, Trim(a.wallet));
  }

  /** Nothing that call `i` of device `e` awaits throws. */
  predicate DeviceNotRejected(events: seq<Event>, e: nat, i: nat) {
    forall n | 0 <= n < |events| :: events[n].OnDevice? && events[n].d == e && events[n].action.Reject? ==>
        events[n].action.i != i
  }

  predicate Answers(event: Event, e: nat, i: nat) {
    event.OnDevice? && event.d == e && event.action.Advance? && event.action.i == i
  }

  /** How often call `i` of device `e` gets an answer. */
  function DeviceTurns(events: seq<Event>, e: nat, i: nat): nat {
    if events == [] then 0
    else DeviceTurns(events[..|events| - 1], e, i) + (if Answers(events[|events| - 1], e, i) then 1 else 0)
  }

  lemma WorldStepLoading(w: World, event: Event, lt: Collation, e: nat, i: nat)
    requires e < |w.devices| && Safe(TabOf(w, e)) && i < |w.devices[e].tab.calls| && Loading(w.devices[e].tab.calls[i])
    requires DeviceNotRejected([event], e, i)
    ensures var t := WorldStep(w, event, lt);
            && e < |t.devices| && i < |t.devices[e].tab.calls| && Loading(t.devices[e].tab.calls[i])
            && (Answers(event, e, i) && !w.devices[e].tab.calls[i].pc.Done? ==>
                  Rank(t.devices[e].tab.calls[i].pc) < Rank(w.devices[e].tab.calls[i].pc))
            && (!Answers(event, e, i) || w.devices[e].tab.calls[i].pc.Done? ==>
                  t.devices[e].tab.calls[i] == w.devices[e].tab.calls[i])
  {
    hide Safe, Step, CachedHead, R.Process, Loading, Rank, RegistryOf;
    if event.OnDevice? && event.d == e {
      assert [event][0] == event;
      StepLoading(TabOf(w, e), event.action, i);
    } else if event.Restore? && event.d == e && CachedHead(w.devices[e], event.wallet, lt).Some? {
      StepLoading(TabOf(w, e), SetPointer(event.wallet, CachedHead(w.devices[e], event.wallet, lt).value), i);
    }
  }

  lemma {:induction false} AnsweredDeviceLoad(w: World, events: seq<Event>, owned: set<string>, lt: Collation, e: nat,
      i: nat)
    requires GoodWorld(w, owned) && HonestWorldRun(w, events, owned, lt) && OrdersCids(lt)
    requires e < |w.devices| && i < |w.devices[e].tab.calls| && Loading(w.devices[e].tab.calls[i])
    requires DeviceNotRejected(events, e, i)
    ensures var t := WorldRun(w, events, lt);
            && e < |t.devices| && i < |t.devices[e].tab.calls| && Loading(t.devices[e].tab.calls[i])
            && (t.devices[e].tab.calls[i].pc.Done?
                || Rank(t.devices[e].tab.calls[i].pc) + DeviceTurns(events, e, i) <= Rank(w.devices[e].tab.calls[i].pc))
  {
    hide GoodWorld, HonestEvent, WorldStep, OrdersCids, Loading, Rank, Answers;
    if events != [] {
      var before := events[..|events| - 1];
      AnsweredDeviceLoad(w, before, owned, lt, e, i);
      EveryCidLoads(w, before, owned, lt);
      DeviceSafe(WorldRun(w, before, lt), e, owned);
      WorldStepLoading(WorldRun(w, before, lt), events[|events| - 1], lt, e, i);
    }
  }

  /** A load on a device that has a pointer, answered ten times after it was made, is done with a manifest. */
  lemma DeviceLoadFinishes(w: World, e: nat, a: Action, post: seq<Event>, owned: set<string>, lt: Collation)
    requires GoodWorld(w, owned) && OrdersCids(lt) && HonestWorldRun(w, [OnDevice(e, a)] + post, owned, lt)
    requires e < |w.devices| && a.InvokeLoad? && UsableName(Trim(a.wallet)) && a.unlock
    requires Trim(a.wallet) in w.devices[e].tab.pointer
    requires DeviceNotRejected(post, e, |w.devices[e].tab.calls|)
    requires DeviceTurns(post, e, |w.devices[e].tab.calls|) >= 10
    ensures var i, t := |w.devices[e].tab.calls|, WorldRun(w, [OnDevice(e, a)] + post, lt);
            e < |t.devices| && i < |t.devices[e].tab.calls| && t.devices[e].tab.calls[i].pc.Done?
                && t.devices[e].tab.calls[i].pc.outcome.Got?
  {
    hide WorldRun, HonestWorldRun, GoodWorld, Step, Trim, OrdersCids, DeviceTurns, DeviceNotRejected, Loading, Rank,
         HasSpace, HonestEvent;
    WorldRunSplit(w, [OnDevice(e, a)], post, owned, lt);
    OneEvent(w, OnDevice(e, a), owned, lt);
    var i, v := |w.devices[e].tab.calls|, WorldStep(w, OnDevice(e, a), lt);
    StepGood(w, OnDevice(e, a), owned, lt);
    LoadBegins(TabOf(w, e), a);
    LoadAdds(TabOf(w, e), a);
    AnsweredDeviceLoad(v, post, owned, lt, e, i);
    LoadingEnds(WorldRun(v, post, lt).devices[e].tab.calls[i]);
  }

  lemma LoadAdds(s: State, a: Action)
    requires a.InvokeLoad? && Trim(a.wallet) != [] && a.unlock
    ensures |Step(s, a).tab.calls| == |s.tab.calls| + 1
  {
    hide Trim, StartBody;
  }

  /**
   * Restore, then load, and the load finishes: under the conditions of RestoreThenLoad, for a
   * wallet name without blanks, ten answers to the load make it return exactly the manifest
   * that was published under the restored head.
   */
  lemma AnsweredRestoreLoads(w: World, before: World, d: nat, e: nat, mid: seq<Event>, a: Action, post: seq<Event>,
      owned: set<string>, lt: Collation)
    requires GoodWorld(before, owned) && GoodWorld(w, owned) && Grows(before.store, w.store) && OrdersCids(lt)
    requires d < |before.devices| && e < |w.devices| && a.InvokeLoad? && UsableName(Trim(a.wallet)) && a.unlock
    requires CachedHead(w.devices[e], Trim(a.wallet), lt).Some?
    requires PointerOf(before.devices[d].tab, Trim(a.wallet)) == CachedHead(w.devices[e], Trim(a.wallet), lt)
    requires HonestWorldRun(w, RestoreAndLoad(e, a, mid, post), owned, lt)
    requires var v := WorldRun(w, [Event.Restore(e, Trim(a.wallet))] + mid, lt);
             && e < |v.devices| && PointerOf(v.devices[e].tab, Trim(a.wallet)) ==
                 CachedHead(w.devices[e], Trim(a.wallet), lt)
             && DeviceNotRejected(post, e, |v.devices[e].tab.calls|)
             && DeviceTurns(post, e, |v.devices[e].tab.calls|) >= 10
    ensures var i, t := |WorldRun(w, [Event.Restore(e, Trim(a.wallet))] + mid, lt).devices[e].tab.calls|,
        WorldRun(w, RestoreAndLoad(e, a, mid, post), lt);
            && e < |t.devices| && i < |t.devices[e].tab.calls| && t.devices[e].tab.calls[i].pc.Done?
            && t.devices[e].tab.calls[i].pc.outcome.Got?
            && Some(t.devices[e].tab.calls[i].pc.outcome.cid) == CachedHead(w.devices[e], Trim(a.wallet), lt)
            && Some(t.devices[e].tab.calls[i].pc.outcome.manifest) == Behind(TabOf(before, d), Trim(a.wallet))
  {
    hide WorldRun, HonestWorldRun, Trim, OrdersCids, GoodWorld, CachedHead, Grows, HasSpace, Behind, DeviceTurns,
         DeviceNotRejected;
    RestoreThenLoad(w, before, d, e, mid, a, post, owned, lt);
    var first, second := [Event.Restore(e, Trim(a.wallet))] + mid, [OnDevice(e, a)] + post;
    WorldRunSplit(w, first, second, owned, lt);
    EveryCidLoads(w, first, owned, lt);
    DeviceLoadFinishes(WorldRun(w, first, lt), e, a, post, owned, lt);
  }

  lemma GrowsOn(a: Store, b: Store, c: Store)
    ensures Grows(a, b) && Grows(b, c) ==> Grows(a, c)
    ensures Grows(a, a)
  {
  }

  /** The manifest behind a good pointer is the same in every later store. */
  lemma PointedManifest(w: World, d: nat, store: Store, owned: set<string>, wallet: string)
    requires GoodWorld(w, owned) && Grows(w.store, store) && d < |w.devices| && wallet in w.devices[d].tab.pointer
    ensures Good(store, w.devices[d].tab.pointer[wallet], wallet)
    ensures Behind(TabOf(w, d), wallet) == Some(ManifestAt(store, w.devices[d].tab.pointer[wallet], wallet))
  {
    hide LoadFor, CallTrue, CidsIn;
    assert Safe(TabOf(w, d));
  }

  /* ---- every on-chain CID was somebody's pointer ---- */

  /** At some time in the run some device had `cid` as the pointer of `wallet`. */
  ghost predicate WasPointer(start: World, events: seq<Event>, lt: Collation, cid: Cid, wallet: string) {
    exists n, d | 0 <= n <= |events| && 0 <= d < |WorldRun(start, events[..n], lt).devices| ::
      PointerOf(WorldRun(start, events[..n], lt).devices[d].tab, wallet) == Some(cid)
  }

  ghost function PastPointers(start: World, events: seq<Event>, lt: Collation): Pairs {
    iset cid, wallet | WasPointer(start, events, lt, cid, wallet) :: (cid, wallet)
  }

  lemma PastGrows(start: World, events: seq<Event>, e: Event, lt: Collation)
    ensures PastPointers(start, events, lt) <= PastPointers(start, events + [e], lt)
    ensures PointersIn(PastPointers(start, events, lt), WorldRun(start, events, lt))
  {
    hide WorldRun;
    forall n | 0 <= n <= |events| ensures (events + [e])[..n] == events[..n] {
    }
    forall cid, wallet | WasPointer(start, events, lt, cid, wallet)
        ensures WasPointer(start, events + [e], lt, cid, wallet) {
      var n, d :| 0 <= n <= |events| && 0 <= d < |WorldRun(start, events[..n], lt).devices|
        && PointerOf(WorldRun(start, events[..n], lt).devices[d].tab, wallet) == Some(cid);
      assert (events + [e])[..n] == events[..n];
    }
    var w := WorldRun(start, events, lt);
    assert events[..|events|] == events;
    forall d, wallet | 0 <= d < |w.devices| && wallet in w.devices[d].tab.pointer
      ensures WasPointer(start, events, lt, w.devices[d].tab.pointer[wallet], wallet)
    {
      assert PointerOf(WorldRun(start, events[..|events|], lt).devices[d].tab, wallet) ==
          Some(w.devices[d].tab.pointer[wallet]);
    }
  }

  /** Nothing on an owner's registry, in a cache or in a publication but earlier pointers of that wallet. */
  lemma {:induction false} CidsWerePointers(start: World, events: seq<Event>, owned: set<string>, lt: Collation)
    requires CidsIn(iset{}, start, owned) && HonestWorldRun(start, events, owned, lt)
    ensures CidsIn(PastPointers(start, events, lt), WorldRun(start, events, lt), owned)
  {
    hide CidsIn, WorldStep, HonestEvent, PastPointers, PointersIn;
    if events == [] {
      AllowMore(iset{}, PastPointers(start, events, lt), start, owned);
    } else {
      var before, e := events[..|events| - 1], events[|events| - 1];
      assert events == before + [e];
      CidsWerePointers(start, before, owned, lt);
      PastGrows(start, before, e, lt);
      StepInventsNothing(PastPointers(start, before, lt), WorldRun(start, before, lt), e, owned, lt);
      AllowMore(PastPointers(start, before, lt), PastPointers(start, events, lt), WorldRun(start, events, lt), owned);
    }
  }

  /**
   * Cross-device restore. From a start where nothing is published or cached, after any run,
   * let device `e` restore its cached head, let anything happen that leaves its pointer
   * alone, and let it load. Then that head was the pointer of some device `d` at some time
   * `n` of the run, and if the load returns a manifest it is exactly the one `d` had then.
   */
  lemma RestoredIsPublished(start: World, events: seq<Event>, e: nat, mid: seq<Event>, a: Action, post: seq<Event>,
      owned: set<string>, lt: Collation)
    returns (n: nat, d: nat)
    requires GoodWorld(start, owned) && CidsIn(iset{}, start, owned) && OrdersCids(lt)
    requires a.InvokeLoad? && Trim(a.wallet) != [] && a.unlock
    requires HonestWorldRun(start, events + RestoreAndLoad(e, a, mid, post), owned, lt)
    requires e < |WorldRun(start, events, lt).devices|
    requires CachedHead(WorldRun(start, events, lt).devices[e], Trim(a.wallet), lt).Some?
    requires var v := WorldRun(WorldRun(start, events, lt), [Event.Restore(e, Trim(a.wallet))] + mid, lt);
             e < |v.devices| && PointerOf(v.devices[e].tab, Trim(a.wallet)) ==
                 CachedHead(WorldRun(start, events, lt).devices[e], Trim(a.wallet), lt)
    ensures n <= |events| && d < |WorldRun(start, events[..n], lt).devices|
    ensures var w, was := WorldRun(start, events, lt), WorldRun(start, events[..n], lt);
            var head := CachedHead(w.devices[e], Trim(a.wallet), lt);
            && PointerOf(was.devices[d].tab, Trim(a.wallet)) == head
            && Reports(WorldRun(w, RestoreAndLoad(e, a, mid, post), lt), e,
                       |WorldRun(w, [Event.Restore(e, Trim(a.wallet))] + mid, lt).devices[e].tab.calls|,
                       head, Behind(TabOf(was, d), Trim(a.wallet)))
  {
    hide WorldRun, HonestWorldRun, Trim, OrdersCids, GoodWorld, CidsIn, CachedHead, Behind, RestoreAndLoad, Reports;
    var wallet := Trim(a.wallet);
    WorldRunSplit(start, events, RestoreAndLoad(e, a, mid, post), owned, lt);
    CidsWerePointers(start, events, owned, lt);
    n, d := HeadWasPointer(start, events, owned, lt, e, wallet);
    assert events == events[..n] + events[n..];
    WorldRunSplit(start, events[..n], events[n..], owned, lt);
    EveryCidLoads(start, events[..n], owned, lt);
    EveryCidLoads(WorldRun(start, events[..n], lt), events[n..], owned, lt);
    RestoreThenLoad(WorldRun(start, events, lt), WorldRun(start, events[..n], lt), d, e, mid, a, post, owned, lt);
  }

  lemma HeadWasPointer(start: World, events: seq<Event>, owned: set<string>, lt: Collation, e: nat, wallet: string)
    returns (n: nat, d: nat)
    requires CidsIn(PastPointers(start, events, lt), WorldRun(start, events, lt), owned) && OrdersCids(lt)
    requires e < |WorldRun(start, events, lt).devices|
    requires CachedHead(WorldRun(start, events, lt).devices[e], wallet, lt).Some?
    ensures n <= |events| && d < |WorldRun(start, events[..n], lt).devices|
    ensures PointerOf(WorldRun(start, events[..n], lt).devices[d].tab, wallet) ==
        CachedHead(WorldRun(start, events, lt).devices[e], wallet, lt)
  {
    hide WorldRun, OrdersCids, CachedHead, CacheIn;
    var w := WorldRun(start, events, lt);
    assert CacheIn(PastPointers(start, events, lt), w.devices[e].cached);
    HeadIn(PastPointers(start, events, lt), w.devices[e], wallet, lt);
    var cid := CachedHead(w.devices[e], wallet, lt).value;
    assert WasPointer(start, events, lt, cid, wallet);
    n, d :| 0 <= n <= |events| && 0 <= d < |WorldRun(start, events[..n], lt).devices|
      && PointerOf(WorldRun(start, events[..n], lt).devices[d].tab, wallet) == Some(cid);
  }

  /** New devices, an empty store and an empty chain are a start for all of the above. */
  lemma NewWorldIsGood(devices: seq<Device>, owned: set<string>)
    requires forall d | 0 <= d < |devices| :: devices[d] == Device(Tab(map[], map[], []), map[])
    ensures GoodWorld(World(map[], devices, map[], []), owned)
    ensures CidsIn(iset{}, World(map[], devices, map[], []), owned)
  {
    hide Good;
  }
}
