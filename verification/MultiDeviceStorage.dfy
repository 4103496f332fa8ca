/** The devices of MultiDevice, each with its own key-value store of pointers. */
module MultiDeviceStorage {
  import opened Wrappers
  import opened AsciiText
  import opened KeyDerivation
  import opened PointerStore
  import opened Protocol
  import opened ProtocolSafety
  import opened ProtocolStorage
  import opened MultiDevice
  import R = Registry
  import opened RegistryHead

  datatype RealDevice = RealDevice(
    items: Items, tail: map<string, nat>, calls: seq<Call>, cached: map<string, seq<R.RegistryEntry>>)

  datatype RealWorld = RealWorld(store: Store, devices: seq<RealDevice>, chain: R.Accounts,
                                 publications: seq<Publication>)

  function RealLocal(w: RealWorld, d: nat): Real
    requires d < |w.devices|
  {
    Real(w.store, w.devices[d].items, w.devices[d].tail, w.devices[d].calls)
  }

  function SetReal(w: RealWorld, d: nat, r: Real): RealWorld
    requires d < |w.devices|
  {
    w.(store := r.store, devices := w.devices[d := RealDevice(r.items, r.tail, r.calls, w.devices[d].cached)])
  }

  /** What the device stands for. */
  function AbsDevice(d: RealDevice, cluster: string): Device {
    Device(Tab(PointerMap(d.items, cluster), d.tail, d.calls), d.cached)
  }

  function AbsDevices(devices: seq<RealDevice>, cluster: string): (abs: seq<Device>)
    ensures |abs| == |devices| && forall d | 0 <= d < |devices| :: abs[d] == AbsDevice(devices[d], cluster)
  {
    if devices == [] then []
    else AbsDevices(devices[..|devices| - 1], cluster) + [AbsDevice(devices[|devices| - 1], cluster)]
  }

  function AbsWorld(w: RealWorld, cluster: string): World {
    World(w.store, AbsDevices(w.devices, cluster), w.chain, w.publications)
  }

  /** The part of an event that concerns neither a tab nor a pointer is that of MultiDevice. */
  function RealWorldStep(w: RealWorld, e: Event, lt: Collation, cluster: string): RealWorld {
    match e
    case OnDevice(d, a) => if d < |w.devices| then SetReal(w, d, RealStep(RealLocal(w, d), a, cluster)) else w
    case Refresh(d, wallet) =>
      if d < |w.devices| then
        var known := w.devices[d].cached;
        var now := if RegistryOf(wallet) in w.chain
            then known[wallet := w.chain[RegistryOf(wallet)].entries] else known - {wallet};
        w.(devices := w.devices[d := w.devices[d].(cached := now)])
      else w
    case Restore(d, wallet) =>
      if d < |w.devices| && CachedHead(AbsDevice(w.devices[d], cluster), wallet, lt).Some? then
        var a := SetPointer(wallet, CachedHead(AbsDevice(w.devices[d], cluster), wallet, lt).value);
        SetReal(w, d, RealStep(RealLocal(w, d), a, cluster))
      else w
    case BeginPublish(d, wallet) =>
      if d < |w.devices| then
        var cid := Pointer(w.devices[d].items, cluster, wallet);
        var items := Migrated(w.devices[d].items, cluster, wallet);
        var read := w.(devices := w.devices[d := w.devices[d].(items := items)]);
        if cid.Some? then read.(publications := w.publications + [Publication(wallet, cid.value, None)]) else read
      else w
    case FetchRegistry(k) =>
      if k < |w.publications|
      then
        var p := w.publications[k];
        w.(publications := w.publications[k := p.(found := Some(RegistryOf(p.wallet) in w.chain))])
      else w
    case Submit(k, now) =>
      if k < |w.publications| && w.publications[k].found.Some?
      then w.(chain := R.Process(w.chain, PublishTransaction(w.publications[k], now)))
      else w
    case OthersTransact(tx) => w.(chain := R.Process(w.chain, tx))
  }

  function RealWorldRun(w: RealWorld, events: seq<Event>, lt: Collation, cluster: string): RealWorld {
    if events == [] then w
    else RealWorldStep(RealWorldRun(w, events[..|events| - 1], lt, cluster), events[|events| - 1], lt, cluster)
  }

  predicate EventNamed(e: Event) {
    match e
    case OnDevice(_, a) => ActionNamed(a)
    case Restore(_, wallet) => ColonFree(Trim(wallet))
    case BeginPublish(_, wallet) => ColonFree(wallet)
    case _ => true
  }

  predicate EventsNamed(events: seq<Event>) {
    forall n | 0 <= n < |events| :: EventNamed(events[n])
  }

  predicate RealHonestWorldRun(w: RealWorld, events: seq<Event>, owned: set<string>, lt: Collation, cluster: string) {
    events != [] ==>
      && RealHonestWorldRun(w, events[..|events| - 1], owned, lt, cluster)
      && HonestEvent(AbsWorld(RealWorldRun(w, events[..|events| - 1], lt, cluster), cluster),
                     events[|events| - 1], owned)
  }

  /* ---- both worlds take the same steps ---- */

  ghost predicate DeviceJoined(store: Store, d: Device, r: RealDevice, cluster: string) {
    && Joined(State(store, d.tab), Real(store, r.items, r.tail, r.calls), cluster)
    && CallsNamed(r.calls) && d.cached == r.cached
  }

  ghost predicate WorldJoined(w: World, r: RealWorld, cluster: string) {
    && w.store == r.store && w.chain == r.chain && w.publications == r.publications && |w.devices| == |r.devices|
    && forall d | 0 <= d < |w.devices| :: DeviceJoined(w.store, w.devices[d], r.devices[d], cluster)
  }

  lemma OtherStore(store: Store, after: Store, d: Device, r: RealDevice, cluster: string)
    requires DeviceJoined(store, d, r, cluster)
    ensures DeviceJoined(after, d, r, cluster)
  {
    hide Pointer, ColonFree, CallsNamed;
  }

  /** One device moved, in both worlds. */
  lemma SetJoinedDevice(w: World, r: RealWorld, d: nat, s: State, t: Real, cluster: string)
    requires WorldJoined(w, r, cluster) && d < |w.devices| && Joined(s, t, cluster) && CallsNamed(t.calls)
    ensures WorldJoined(SetTab(w, d, s), SetReal(r, d, t), cluster)
  {
    hide DeviceJoined, Pointer, ColonFree, CallsNamed;
    var v, q := SetTab(w, d, s), SetReal(r, d, t);
    forall k | 0 <= k < |v.devices| ensures DeviceJoined(v.store, v.devices[k], q.devices[k], cluster) {
      assert DeviceJoined(w.store, w.devices[k], r.devices[k], cluster);
      if k == d {
        MovedDevice(w.devices[d], r.devices[d], w.store, s, t, cluster);
      } else {
        OtherStore(w.store, v.store, w.devices[k], r.devices[k], cluster);
      }
    }
  }

  lemma MovedDevice(d: Device, r: RealDevice, store: Store, s: State, t: Real, cluster: string)
    requires DeviceJoined(store, d, r, cluster) && Joined(s, t, cluster) && CallsNamed(t.calls)
    ensures DeviceJoined(s.store, d.(tab := s.tab), RealDevice(t.items, t.tail, t.calls, r.cached), cluster)
  {
    hide Pointer, ColonFree, CallsNamed;
  }

  lemma TabStepJoined(w: World, r: RealWorld, d: nat, a: Action, cluster: string)
    requires ColonFree(cluster) && WorldJoined(w, r, cluster) && d < |w.devices| && ActionNamed(a)
    ensures WorldJoined(SetTab(w, d, Step(TabOf(w, d), a)),
                        SetReal(r, d, RealStep(RealLocal(r, d), a, cluster)), cluster)
  {
    hide Step, RealStep, Joined, ColonFree, CallsNamed, ActionNamed, SetTab, SetReal;
    assert DeviceJoined(w.store, w.devices[d], r.devices[d], cluster);
    StepJoined(TabOf(w, d), RealLocal(r, d), a, cluster);
    SetJoinedDevice(w, r, d, Step(TabOf(w, d), a), RealStep(RealLocal(r, d), a, cluster), cluster);
  }

  lemma SameHead(d: Device, r: RealDevice, wallet: string, lt: Collation, cluster: string)
    requires d.cached == r.cached
    ensures CachedHead(d, wallet, lt) == CachedHead(AbsDevice(r, cluster), wallet, lt)
  {
    hide SelectHead, PointerMap;
  }

  lemma PublishJoined(w: World, r: RealWorld, e: Event, lt: Collation, cluster: string)
    requires ColonFree(cluster) && WorldJoined(w, r, cluster) && e.BeginPublish? && EventNamed(e)
    ensures WorldJoined(WorldStep(w, e, lt), RealWorldStep(r, e, lt, cluster), cluster)
  {
    hide Pointer, Migrated, ColonFree, CallsNamed, DeviceJoined;
    if e.d < |w.devices| {
      assert DeviceJoined(w.store, w.devices[e.d], r.devices[e.d], cluster);
      DeviceRead(w.store, w.devices[e.d], r.devices[e.d], e.wallet, cluster);
    }
  }

  lemma DeviceRead(store: Store, d: Device, r: RealDevice, wallet: string, cluster: string)
    requires ColonFree(cluster) && ColonFree(wallet) && DeviceJoined(store, d, r, cluster)
    ensures DeviceJoined(store, d, r.(items := Migrated(r.items, cluster, wallet)), cluster)
    ensures PointerOf(d.tab, wallet) == Pointer(r.items, cluster, wallet)
  {
    hide Pointer, Migrated, ColonFree, CallsNamed;
    ReadSame(r.items, cluster, wallet);
  }

  lemma CacheJoined(w: World, r: RealWorld, e: Event, lt: Collation, cluster: string)
    requires WorldJoined(w, r, cluster) && e.Refresh?
    ensures WorldJoined(WorldStep(w, e, lt), RealWorldStep(r, e, lt, cluster), cluster)
  {
    hide Joined, CallsNamed, RegistryOf;
    if e.d < |w.devices| {
      assert DeviceJoined(w.store, w.devices[e.d], r.devices[e.d], cluster);
    }
  }

  lemma WorldStepJoined(w: World, r: RealWorld, e: Event, lt: Collation, cluster: string)
    requires ColonFree(cluster) && WorldJoined(w, r, cluster) && EventNamed(e)
    ensures WorldJoined(WorldStep(w, e, lt), RealWorldStep(r, e, lt, cluster), cluster)
  {
    hide DeviceJoined, SetTab, SetReal, CachedHead, AbsDevice, RealStep, Step, ColonFree, RegistryOf, R.Process,
         PublishTransaction;
    if e.OnDevice? && e.d < |w.devices| {
      TabStepJoined(w, r, e.d, e.action, cluster);
    } else if e.Restore? && e.d < |w.devices| {
      CachedJoined(w, r, e.d, cluster);
      SameHead(w.devices[e.d], r.devices[e.d], e.wallet, lt, cluster);
      if CachedHead(w.devices[e.d], e.wallet, lt).Some? {
        TabStepJoined(w, r, e.d, SetPointer(e.wallet, CachedHead(w.devices[e.d], e.wallet, lt).value), cluster);
      }
    } else if e.BeginPublish? {
      PublishJoined(w, r, e, lt, cluster);
    } else if e.Refresh? {
      CacheJoined(w, r, e, lt, cluster);
    }
  }

  lemma CachedJoined(w: World, r: RealWorld, d: nat, cluster: string)
    requires WorldJoined(w, r, cluster) && d < |w.devices|
    ensures w.devices[d].cached == r.devices[d].cached
  {
    hide Joined;
    assert DeviceJoined(w.store, w.devices[d], r.devices[d], cluster);
  }

  lemma AbsWorldJoined(r: RealWorld, cluster: string)
    requires forall d | 0 <= d < |r.devices| :: CallsNamed(r.devices[d].calls)
    ensures WorldJoined(AbsWorld(r, cluster), r, cluster)
  {
    hide CallsNamed, Joined, PointerMap;
    forall d | 0 <= d < |r.devices|
        ensures DeviceJoined(r.store, AbsDevice(r.devices[d], cluster), r.devices[d], cluster) {
      AbsJoined(RealLocal(r, d), cluster);
    }
  }

  lemma HonestEventAgrees(w: World, r: RealWorld, e: Event, owned: set<string>, cluster: string)
    requires WorldJoined(w, r, cluster)
    ensures HonestEvent(w, e, owned) <==> HonestEvent(AbsWorld(r, cluster), e, owned)
  {
    hide DeviceJoined, Good, RootSignature, Trim, AbsDevice;
  }

  lemma {:induction false} WorldRunJoined(r: RealWorld, events: seq<Event>, owned: set<string>, lt: Collation,
      cluster: string)
    requires ColonFree(cluster) && EventsNamed(events) && forall d | 0 <= d < |r.devices| ::
        CallsNamed(r.devices[d].calls)
    ensures WorldJoined(WorldRun(AbsWorld(r, cluster), events, lt), RealWorldRun(r, events, lt, cluster), cluster)
    ensures RealHonestWorldRun(r, events, owned, lt, cluster) <==>
        HonestWorldRun(AbsWorld(r, cluster), events, owned, lt)
  {
    hide WorldStep, RealWorldStep, HonestEvent, WorldJoined, AbsWorld, EventNamed, ColonFree, CallsNamed;
    if events == [] {
      AbsWorldJoined(r, cluster);
    } else {
      var before, e := events[..|events| - 1], events[|events| - 1];
      WorldRunJoined(r, before, owned, lt, cluster);
      HonestEventAgrees(WorldRun(AbsWorld(r, cluster), before, lt), RealWorldRun(r, before, lt, cluster), e,
                        owned, cluster);
      WorldStepJoined(WorldRun(AbsWorld(r, cluster), before, lt), RealWorldRun(r, before, lt, cluster), e, lt, cluster);
    }
  }

  /* ---- multi-device safety on the key-value stores ---- */

  lemma JoinedWorldLoads(w: World, r: RealWorld, owned: set<string>, cluster: string, d: nat)
    requires WorldJoined(w, r, cluster) && GoodWorld(w, owned) && d < |r.devices|
    ensures PointersLoad(RealLocal(r, d), cluster)
  {
    hide Joined, Safe, CidsIn, CallsNamed, PointersLoad;
    assert DeviceJoined(w.store, w.devices[d], r.devices[d], cluster);
    DeviceSafe(w, d, owned);
    JoinedLoads(TabOf(w, d), RealLocal(r, d), cluster);
  }

  /**
   * In every honest run of any devices with colon-free wallet names: what getManifestCid
   * answers on any device for any colon-free wallet names a stored manifest which that wallet
   * can load, and so does every CID of the owners that is published or being published.
   */
  lemma EveryStoredCidLoads(r: RealWorld, events: seq<Event>, owned: set<string>, lt: Collation, cluster: string)
    requires ColonFree(cluster) && EventsNamed(events) && forall d | 0 <= d < |r.devices| ::
        CallsNamed(r.devices[d].calls)
    requires GoodWorld(AbsWorld(r, cluster), owned) && RealHonestWorldRun(r, events, owned, lt, cluster)
    requires OrdersCids(lt)
    ensures var t := RealWorldRun(r, events, lt, cluster);
            && (forall d | 0 <= d < |t.devices| :: PointersLoad(RealLocal(t, d), cluster))
            && PublicationsIn(GoodPairs(t.store), t.publications) && ChainIn(GoodPairs(t.store), t.chain, owned)
  {
    hide WorldRun, RealWorldRun, HonestWorldRun, RealHonestWorldRun, OrdersCids, AbsWorld, EventsNamed, ColonFree,
         PointersLoad, PublicationsIn, ChainIn;
    hide Safe, CacheIn, DeviceJoined, CallsNamed, GoodPairs;
    WorldRunJoined(r, events, owned, lt, cluster);
    EveryCidLoads(AbsWorld(r, cluster), events, owned, lt);
    var w, t := WorldRun(AbsWorld(r, cluster), events, lt), RealWorldRun(r, events, lt, cluster);
    forall d | 0 <= d < |t.devices| ensures PointersLoad(RealLocal(t, d), cluster) {
      JoinedWorldLoads(w, t, owned, cluster, d);
    }
  }
}
