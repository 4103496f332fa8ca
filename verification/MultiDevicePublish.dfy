/** A publication reaches the chain, and every device that looks afterwards finds it. */
module MultiDevicePublish {
  import opened Wrappers
  import opened AsciiText
  import opened Manifest
  import opened Protocol
  import opened ProtocolSafety
  import opened ProtocolLinear
  import opened MultiDevice
  import R = Registry
  import RR = RegistryRuns
  import opened RegistryHead

  /* ---- the application's vault id ---- */

  /** The address of a wallet's registry, spelled out. */
  lemma RegistryAddress(wallet: string)
    ensures RegistryOf(wallet) == R.Pda(wallet, R.Sha256Of("local-default"))
    ensures R.ClientVaultId("local-default") == "local-default"
    ensures R.AcceptsVaultId("local-default")
  {
    var id := "local-default";
    assert R.IsVaultId(id);
    RR.CanonicalSpelling(id);
  }

  /** From an empty chain a publication succeeds exactly for a valid CID. */
  lemma FirstPublication(wallet: string, cid: string, now: int)
    ensures R.ExecuteAll(map[], R.PublishInstructions(false, wallet, "local-default", cid), now).Ok? <==>
        R.ValidCid(cid)
  {
    hide R.ExecuteAll, R.ValidCid, R.PublishInstructions, R.AcceptsVaultId, R.ClientVaultId, R.GetRegistryAddress;
    RR.NothingTrue();
    RegistryAddress(wallet);
    RR.PublishExactly(map[], false, wallet, "local-default", cid, now);
  }

  /* ---- what other events leave alone ---- */

  /** The registry at `a` is the same in both chains, or in neither. */
  predicate SameAt(before: R.Accounts, after: R.Accounts, a: R.Address) {
    (a in before <==> a in after) && (a in before ==> after[a] == before[a])
  }

  /** The event submits no publication of `wallet`. */
  predicate Bystander(w: World, e: Event, wallet: string) {
    e.Submit? && e.k < |w.publications| ==> w.publications[e.k].wallet != wallet
  }

  predicate Bystanders(w: World, events: seq<Event>, wallet: string, lt: Collation) {
    events != [] ==>
      && Bystanders(w, events[..|events| - 1], wallet, lt)
      && Bystander(WorldRun(w, events[..|events| - 1], lt), events[|events| - 1], wallet)
  }

  /** Publication `k` is under way with this CID. */
  predicate Underway(w: World, k: nat, wallet: string, cid: Cid) {
    k < |w.publications| && w.publications[k].wallet == wallet && w.publications[k].cid == cid
  }

  lemma StepUnderway(w: World, e: Event, lt: Collation, k: nat, wallet: string, cid: Cid)
    requires Underway(w, k, wallet, cid)
    ensures Underway(WorldStep(w, e, lt), k, wallet, cid)
  {
    hide Step, CachedHead, R.Process, RegistryOf, PublishTransaction;
  }

  lemma {:induction false} RunUnderway(w: World, events: seq<Event>, lt: Collation, k: nat, wallet: string, cid: Cid)
    requires Underway(w, k, wallet, cid)
    ensures Underway(WorldRun(w, events, lt), k, wallet, cid)
  {
    hide WorldStep, Underway;
    if events != [] {
      RunUnderway(w, events[..|events| - 1], lt, k, wallet, cid);
      StepUnderway(WorldRun(w, events[..|events| - 1], lt), events[|events| - 1], lt, k, wallet, cid);
    }
  }

  lemma AtAddress(chain: R.Accounts, wallet: string)
    requires RR.AllTrue(chain)
    ensures RegistryOf(wallet) in chain ==> chain[RegistryOf(wallet)].wallet == wallet
  {
    hide RR.DistinctCids, R.ClientVaultId;
    if RegistryOf(wallet) in chain {
      assert RR.AccountTrue(RegistryOf(wallet), chain[RegistryOf(wallet)]);
    }
  }

  lemma OthersKeepRegistry(chain: R.Accounts, tx: R.Transaction, wallet: string)
    requires RR.AllTrue(chain) && RR.SignedByOthers(tx.instructions, wallet)
    ensures SameAt(chain, R.Process(chain, tx), RegistryOf(wallet))
  {
    hide RR.AllTrue, R.Process, RegistryOf;
    RR.OnlyTheOwnerPublishes(chain, tx, wallet);
    RR.ProcessKeeps(chain, tx);
    AtAddress(chain, wallet);
    AtAddress(R.Process(chain, tx), wallet);
  }

  lemma SignedByPublisher(p: Publication, now: int, wallet: string)
    requires p.wallet != wallet
    ensures RR.SignedByOthers(PublishTransaction(p, now).instructions, wallet)
  {
    hide R.ClientVaultId, R.GetRegistryAddress;
  }

  lemma SubmitChain(w: World, k: nat, now: int, lt: Collation)
    ensures var t := WorldStep(w, Submit(k, now), lt);
            t.chain == w.chain || (k < |w.publications|
                                     && t.chain == R.Process(w.chain, PublishTransaction(w.publications[k], now)))
  {
    hide R.Process, PublishTransaction;
  }

  lemma OtherChain(w: World, e: Event, lt: Collation)
    requires !e.Submit?
    ensures WorldStep(w, e, lt).chain == if e.OthersTransact? then R.Process(w.chain, e.tx) else w.chain
  {
    hide R.Process, Step, CachedHead, RegistryOf;
  }

  lemma SameChain(chain: R.Accounts, a: R.Address)
    ensures SameAt(chain, chain, a)
  {
  }

  lemma StrangersSign(w: World, tx: R.Transaction, owned: set<string>, wallet: string)
    requires HonestEvent(w, OthersTransact(tx), owned) && wallet in owned
    ensures RR.SignedByOthers(tx.instructions, wallet)
  {
  }

  lemma BystanderKeeps(w: World, e: Event, owned: set<string>, lt: Collation, wallet: string)
    requires RR.AllTrue(w.chain) && HonestEvent(w, e, owned) && Bystander(w, e, wallet) && wallet in owned
    ensures SameAt(w.chain, WorldStep(w, e, lt).chain, RegistryOf(wallet))
  {
    hide RR.AllTrue, R.Process, RegistryOf, WorldStep, PublishTransaction, SameAt, HonestEvent, RR.SignedByOthers;
    SameChain(w.chain, RegistryOf(wallet));
    if e.Submit? {
      SubmitChain(w, e.k, e.now, lt);
      if e.k < |w.publications| {
        SignedByPublisher(w.publications[e.k], e.now, wallet);
        OthersKeepRegistry(w.chain, PublishTransaction(w.publications[e.k], e.now), wallet);
      }
    } else {
      OtherChain(w, e, lt);
      if e.OthersTransact? {
        StrangersSign(w, e.tx, owned, wallet);
        OthersKeepRegistry(w.chain, e.tx, wallet);
      }
    }
  }

  /** The publication has a true picture of whether its registry exists. */
  predicate TruePicture(w: World, k: nat, wallet: string) {
    k < |w.publications| && w.publications[k].found == Some(RegistryOf(wallet) in w.chain)
  }

  lemma StepTruePicture(w: World, e: Event, lt: Collation, k: nat, wallet: string, cid: Cid)
    requires Underway(w, k, wallet, cid) && TruePicture(w, k, wallet)
    requires SameAt(w.chain, WorldStep(w, e, lt).chain, RegistryOf(wallet))
    ensures TruePicture(WorldStep(w, e, lt), k, wallet)
  {
    hide Step, CachedHead, R.Process, RegistryOf, PublishTransaction;
  }

  lemma {:induction false} BystandersKeep(w: World, events: seq<Event>, owned: set<string>, lt: Collation, k: nat,
      wallet: string, cid: Cid)
    requires GoodWorld(w, owned) && HonestWorldRun(w, events, owned, lt) && OrdersCids(lt) && wallet in owned
    requires Bystanders(w, events, wallet, lt) && Underway(w, k, wallet, cid) && TruePicture(w, k, wallet)
    ensures var t := WorldRun(w, events, lt);
            Underway(t, k, wallet, cid) && TruePicture(t, k, wallet) && SameAt(w.chain, t.chain, RegistryOf(wallet))
  {
    hide GoodWorld, HonestEvent, WorldStep, OrdersCids, Underway, TruePicture, Bystander, RegistryOf;
    if events != [] {
      var before, e := events[..|events| - 1], events[|events| - 1];
      var v := WorldRun(w, before, lt);
      BystandersKeep(w, before, owned, lt, k, wallet, cid);
      EveryCidLoads(w, before, owned, lt);
      ChainTrue(v, owned);
      BystanderKeeps(v, e, owned, lt, wallet);
      StepUnderway(v, e, lt, k, wallet, cid);
      StepTruePicture(v, e, lt, k, wallet, cid);
    }
  }

  lemma ChainTrue(w: World, owned: set<string>)
    requires GoodWorld(w, owned)
    ensures RR.AllTrue(w.chain)
  {
    hide Safe, CacheIn, GoodPairs, RR.AllTrue;
  }

  /* ---- the submission ---- */

  /** The registry takes a CID: it is valid, new to it, and there is room. */
  predicate Takes(chain: R.Accounts, wallet: string, cid: Cid) {
    var a := R.Pda(wallet, R.Sha256Of("local-default"));
    && R.ValidCid(cid)
    && (a in chain ==> |chain[a].entries| < 32 && forall i | 0 <= i < |chain[a].entries| ::
          chain[a].entries[i].manifestCid != cid)
  }

  /** The chain with one more entry of the wallet, in a new account if it had none, and nothing else changed. */
  ghost predicate OneMore(before: R.Accounts, after: R.Accounts, wallet: string, cid: Cid, now: int) {
    var a := R.Pda(wallet, R.Sha256Of("local-default"));
    && a in after
    && after[a].entries == (if a in before then before[a].entries else [])
        + [R.RegistryEntry(cid, R.Sha256Of(cid), now, wallet, 1)]
    && after[a].wallet == wallet && after[a].vaultId == "local-default" && after[a].updatedAt == now
    && after[a].createdAt == (if a in before then before[a].createdAt else now)
    && after[a].registryVersion == 1 && after[a].manifestSchemaVersion == 1
    && forall b | b != a :: (b in before <==> b in after) && (b in before ==> after[b] == before[b])
  }

  lemma AccountFields(chain: R.Accounts, wallet: string)
    requires RR.AllTrue(chain) && RegistryOf(wallet) in chain
    ensures var a := chain[RegistryOf(wallet)];
            a.wallet == wallet && a.vaultId == "local-default" && a.registryVersion == 1 && a.manifestSchemaVersion == 1
  {
    hide RR.DistinctCids, R.ClientVaultId;
    RegistryAddress(wallet);
    assert RR.AccountTrue(RegistryOf(wallet), chain[RegistryOf(wallet)]);
  }

  lemma SubmissionArrives(w: World, k: nat, wallet: string, cid: Cid, now: int, owned: set<string>, lt: Collation)
    requires GoodWorld(w, owned) && Underway(w, k, wallet, cid) && TruePicture(w, k, wallet)
    ensures var t := WorldStep(w, Submit(k, now), lt);
            if Takes(w.chain, wallet, cid) then OneMore(w.chain, t.chain, wallet, cid, now) else t.chain == w.chain
  {
    hide GoodWorld, R.ExecuteAll, R.ValidCid, R.AcceptsVaultId, R.ClientVaultId, R.PublishInstructions, RR.AllTrue;
    ChainTrue(w, owned);
    RegistryAddress(wallet);
    RR.PublishExactly(w.chain, RegistryOf(wallet) in w.chain, wallet, "local-default", cid, now);
    if RegistryOf(wallet) in w.chain {
      AccountFields(w.chain, wallet);
    }
  }

  function Publishing(d: nat, wallet: string, k: nat, early: seq<Event>, late: seq<Event>): seq<Event> {
    ([BeginPublish(d, wallet)] + early + [FetchRegistry(k)]) + late
  }

  lemma BeginAndFetch(w: World, d: nat, wallet: string, early: seq<Event>, lt: Collation)
    requires d < |w.devices| && wallet in w.devices[d].tab.pointer
    ensures var t := WorldRun(w, [BeginPublish(d, wallet)] + early + [FetchRegistry(|w.publications|)], lt);
            && Underway(t, |w.publications|, wallet, w.devices[d].tab.pointer[wallet])
            && TruePicture(t, |w.publications|, wallet)
  {
    hide RegistryOf, WorldRun;
    var k, cid := |w.publications|, w.devices[d].tab.pointer[wallet];
    var begin := [BeginPublish(d, wallet)];
    OneEvent(w, BeginPublish(d, wallet), {}, lt);
    WorldRunSplit(w, begin, early, {}, lt);
    RunUnderway(WorldRun(w, begin, lt), early, lt, k, wallet, cid);
    WorldRunSplit(w, begin + early, [FetchRegistry(k)], {}, lt);
    OneEvent(WorldRun(w, begin + early, lt), FetchRegistry(k), {}, lt);
  }

  /**
   * A publication arrives. Let a device begin to publish the pointer of an owned wallet, let
   * anything happen, let it fetch the registry, let anything but a submission for the same
   * wallet happen, and let it submit. Then the chain has exactly one more entry, with the CID
   * the pointer had at the beginning and the time of the submission, in a new account at the
   * wallet's address if there was none, precisely if that registry takes the CID; otherwise
   * the chain is as it was.
   */
  lemma PublicationArrives(w: World, d: nat, wallet: string, early: seq<Event>, late: seq<Event>, now: int,
      owned: set<string>, lt: Collation)
    requires GoodWorld(w, owned) && OrdersCids(lt) && wallet in owned
    requires d < |w.devices| && wallet in w.devices[d].tab.pointer
    requires HonestWorldRun(w, Publishing(d, wallet, |w.publications|, early, late)
                              + [Submit(|w.publications|, now)], owned, lt)
    requires Bystanders(WorldRun(w, [BeginPublish(d, wallet)] + early + [FetchRegistry(|w.publications|)], lt),
                        late, wallet, lt)
    ensures var k, cid := |w.publications|, w.devices[d].tab.pointer[wallet];
            var before := WorldRun(w, Publishing(d, wallet, k, early, late), lt);
            var after := WorldRun(w, Publishing(d, wallet, k, early, late) + [Submit(k, now)], lt);
            if Takes(before.chain, wallet, cid) then OneMore(before.chain, after.chain, wallet, cid, now)
            else after.chain == before.chain
  {
    hide WorldRun, HonestWorldRun, GoodWorld, OrdersCids, Bystanders, WorldStep, Underway, TruePicture, Takes, OneMore,
         RegistryOf;
    var k, cid := |w.publications|, w.devices[d].tab.pointer[wallet];
    var first := [BeginPublish(d, wallet)] + early + [FetchRegistry(k)];
    WorldRunSplit(w, first + late, [Submit(k, now)], owned, lt);
    WorldRunSplit(w, first, late, owned, lt);
    BeginAndFetch(w, d, wallet, early, lt);
    EveryCidLoads(w, first, owned, lt);
    BystandersKeep(WorldRun(w, first, lt), late, owned, lt, k, wallet, cid);
    EveryCidLoads(w, first + late, owned, lt);
    SubmissionArrives(WorldRun(w, first + late, lt), k, wallet, cid, now, owned, lt);
    OneEvent(WorldRun(w, first + late, lt), Submit(k, now), owned, lt);
  }

  /** The entries the registry had are older than the publication. */
  predicate Older(chain: R.Accounts, wallet: string, now: int) {
    RegistryOf(wallet) in chain ==>
      forall i | 0 <= i < |chain[RegistryOf(wallet)].entries| :: chain[RegistryOf(wallet)].entries[i].publishedAt < now
  }

  /**
   * Under a later clock the CID just published is the head for every device that looks: once
   * any device refreshes, what it takes for the latest on-chain CID is the published one.
   */
  lemma PublishedBecomesHead(before: World, w: World, wallet: string, cid: Cid, now: int, d: nat, owned: set<string>,
      lt: Collation)
    requires GoodWorld(w, owned) && OrdersCids(lt) && d < |w.devices|
    requires OneMore(before.chain, w.chain, wallet, cid, now)
    requires Older(before.chain, wallet, now)
    ensures var t := WorldStep(w, Refresh(d, wallet), lt);
            d < |t.devices| && CachedHead(t.devices[d], wallet, lt) == Some(cid)
  {
    hide Safe, CacheIn, GoodPairs, SelectHead, OrdersCids, RR.DistinctCids, R.ValidCid, R.ClientVaultId;
    RegistryAddress(wallet);
    ChainTrue(w, owned);
    var a := RegistryOf(wallet);
    var entries := if a in before.chain then before.chain[a].entries else [];
    assert RR.AccountTrue(a, w.chain[a]);
    AccountCids(a, w.chain[a]);
    LaterPublicationIsHead(entries, R.RegistryEntry(cid, R.Sha256Of(cid), now, wallet, 1), lt);
  }

  /** A device that refreshes while there is no registry forgets the head it knew. */
  lemma NothingPublishedNoHead(w: World, wallet: string, d: nat, lt: Collation)
    requires d < |w.devices| && RegistryOf(wallet) !in w.chain
    ensures CachedHead(WorldStep(w, Refresh(d, wallet), lt).devices[d], wallet, lt) == None
  {
    hide SelectHead, RegistryOf;
  }

  /** A device that looks and then restores has the published CID as its pointer. */
  lemma LookAndRestore(before: World, w: World, wallet: string, cid: Cid, now: int, e: nat, owned: set<string>,
      lt: Collation)
    requires GoodWorld(w, owned) && OrdersCids(lt) && e < |w.devices| && UsableName(wallet) && wallet in owned
    requires OneMore(before.chain, w.chain, wallet, cid, now) && Older(before.chain, wallet, now)
    ensures var t := WorldStep(WorldStep(w, Refresh(e, wallet), lt), Event.Restore(e, wallet), lt);
            GoodWorld(t, owned) && Grows(w.store, t.store) && e < |t.devices|
              && wallet in t.devices[e].tab.pointer && t.devices[e].tab.pointer[wallet] == cid
  {
    hide GoodWorld, OrdersCids, WorldStep, CachedHead, Grows, OneMore, Trim, HasSpace;
    PublishedBecomesHead(before, w, wallet, cid, now, e, owned, lt);
    StepGood(w, Refresh(e, wallet), owned, lt);
    var v := WorldStep(w, Refresh(e, wallet), lt);
    UsableIsTrimmed(wallet);
    RestoreSetsPointer(v, e, wallet, owned, lt);
    StepGood(v, Event.Restore(e, wallet), owned, lt);
    GrowsOn(w.store, v.store, WorldStep(v, Event.Restore(e, wallet), lt).store);
  }

  /**
   * From one device to every other. Let device `d` publish the pointer of an owned wallet as
   * above, under a clock later than the registry's entries, and let the registry take the CID.
   * Then any device `e` that refreshes and restores points to it, and behind that pointer is
   * exactly the manifest that `d` had when it began.
   */
  lemma PublishedReachesEveryDevice(w: World, d: nat, wallet: string, early: seq<Event>, late: seq<Event>, now: int,
      e: nat, owned: set<string>, lt: Collation)
    requires GoodWorld(w, owned) && OrdersCids(lt) && wallet in owned && UsableName(wallet)
    requires d < |w.devices| && wallet in w.devices[d].tab.pointer
    requires HonestWorldRun(w, Publishing(d, wallet, |w.publications|, early, late)
                              + [Submit(|w.publications|, now)], owned, lt)
    requires Bystanders(WorldRun(w, [BeginPublish(d, wallet)] + early + [FetchRegistry(|w.publications|)], lt),
                        late, wallet, lt)
    requires var before := WorldRun(w, Publishing(d, wallet, |w.publications|, early, late), lt);
             Takes(before.chain, wallet, w.devices[d].tab.pointer[wallet]) && Older(before.chain, wallet, now)
    requires e < |WorldRun(w, Publishing(d, wallet, |w.publications|, early, late) + [Submit(|w.publications|, now)],
                           lt).devices|
    ensures var published := Publishing(d, wallet, |w.publications|, early, late) + [Submit(|w.publications|, now)];
            var t := WorldRun(w, published + [Refresh(e, wallet), Event.Restore(e, wallet)], lt);
            && e < |t.devices| && PointerOf(t.devices[e].tab, wallet) == PointerOf(w.devices[d].tab, wallet)
            && Behind(TabOf(w, d), wallet).Some? && Behind(TabOf(t, e), wallet) == Behind(TabOf(w, d), wallet)
  {
    hide WorldRun, HonestWorldRun, GoodWorld, OrdersCids, Bystanders, WorldStep, Takes, OneMore, Older, RegistryOf,
         Grows, Good, ManifestAt, UsableName, Behind, Publishing;
    var cid := w.devices[d].tab.pointer[wallet];
    var before := Publishing(d, wallet, |w.publications|, early, late);
    var published := before + [Submit(|w.publications|, now)];
    PublicationArrives(w, d, wallet, early, late, now, owned, lt);
    EveryCidLoads(w, published, owned, lt);
    var v := WorldRun(w, published, lt);
    LookAndRestore(WorldRun(w, before, lt), v, wallet, cid, now, e, owned, lt);
    TwoEvents(w, published, Refresh(e, wallet), Event.Restore(e, wallet), lt);
    var t := WorldRun(w, published + [Refresh(e, wallet), Event.Restore(e, wallet)], lt);
    GrowsOn(w.store, v.store, t.store);
    PointedManifest(w, d, t.store, owned, wallet);
    GrowsOn(t.store, t.store, t.store);
    PointedManifest(t, e, t.store, owned, wallet);
  }

  lemma TwoEvents(w: World, events: seq<Event>, a: Event, b: Event, lt: Collation)
    ensures WorldRun(w, events + [a, b], lt) == WorldStep(WorldStep(WorldRun(w, events, lt), a, lt), b, lt)
  {
    hide WorldStep;
    var all := events + [a, b];
    assert all[..|all| - 1] == events + [a] && (events + [a])[..|events|] == events;
  }
}
