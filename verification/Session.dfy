/**
 * The session of one tab (apps/web/src/lib/session/SessionManager.ts): a wallet, the
 * in-memory materials of an unlocked vault, and a Verified record with a time to live that
 * is mirrored in local storage.
 *
 * Each unlock finishes before the next wallet event. Signatures, random bytes, clock values
 * and whether a write to local storage succeeded come in with the event.
 */
module Session {
  import opened Wrappers
  import opened Terms
  import opened KeyDerivation

  const VERIFIED_TTL_MS := 24 * 60 * 60 * 1000

  datatype Verified = Verified(
    walletPubKey: Option<string>, verifiedAt: int, expiresAt: int, walletProvider: Option<string>,
    nonce: Option<string>, issuedAt: Option<string>)

  /** The text under the storage key: not JSON, JSON without a numeric expiresAt, or a record. */
  datatype Stored = Empty | Malformed | WrongShape | Record(verified: Verified)

  datatype VaultRoot = VaultRoot(wallet: string, vaultId: string)

  datatype Memory = Memory(
    wallet: Option<string>, provider: Option<string>, unlocked: bool, verified: Option<Verified>,
    lastUnlock: Option<Unlock>, lastUnlockSignature: Option<Bytes>,
    lastVaultRoot: Option<VaultRoot>, lastVaultRootSignature: Option<Bytes>)

  datatype TabState = TabState(memory: Memory, stored: Stored)

  datatype UnlockEnv = UnlockEnv(
    origin: string, now: int, nonce: Bytes, built: bool, unlockSignature: Option<Bytes>, salt: Bytes,
    rootBuilt: bool, rootSignature: Option<Bytes>, verifiedAt: int, saved: bool)

  datatype Event =
    | Connect(pubKey: Option<string>, provider: Option<string>, now: int)
    | UnlockVault(env: UnlockEnv)
    | Lock
    | Disconnect
    | GetVerified(now: int)
    | NewInstance(now: int)

  /* ---- local storage ---- */

  function LoadVerified(stored: Stored, now: int): Option<Verified> {
    if stored.Record? && stored.verified.expiresAt > now then Some(stored.verified) else None
  }

  /** Reading removes a record that has expired or has the wrong shape. */
  function AfterLoad(stored: Stored, now: int): Stored {
    if stored.WrongShape? || (stored.Record? && stored.verified.expiresAt <= now) then Empty else stored
  }

  /* ---- the events ---- */

  function NonBlank(s: Option<string>): Option<string> {
    if s == Some("") then None else s
  }

  /** JavaScript truthiness of the wallet field. */
  predicate Connected(m: Memory) {
    NonBlank(m.wallet).Some?
  }

  const NoMemory := Memory(None, None, false, None, None, None, None, None)

  function WithoutMaterials(m: Memory): Memory {
    m.(unlocked := false, lastUnlock := None, lastUnlockSignature := None, lastVaultRoot := None,
       lastVaultRootSignature := None)
  }

  function ConnectStep(s: TabState, pubKey: Option<string>, provider: Option<string>, now: int): TabState {
    var m := s.memory;
    var mismatch := m.verified.Some? && m.verified.value.walletPubKey != NonBlank(pubKey);
    var stored := if mismatch then Empty else s.stored;
    var kept := if mismatch then None else m.verified;
    var loaded := LoadVerified(stored, now);
    var verified := if kept.None? && loaded.Some?
        && loaded.value.walletPubKey == NonBlank(pubKey) then loaded else kept;
    var m' := m.(wallet := NonBlank(pubKey), provider := NonBlank(provider), unlocked := false, verified := verified);
    TabState(
      if Connected(m) && m.wallet != NonBlank(pubKey) then WithoutMaterials(m') else m',
      if kept.None? then AfterLoad(stored, now) else stored)
  }

  /** The new Verified record of a successful unlock. */
  function Refreshed(m: Memory, verifiedAt: int): Verified {
    Verified(m.wallet, verifiedAt, verifiedAt + VERIFIED_TTL_MS, m.provider,
      if m.verified.Some? then m.verified.value.nonce else None,
      if m.verified.Some? then m.verified.value.issuedAt else None)
  }

  function UnlockStep(s: TabState, env: UnlockEnv): TabState {
    var m := s.memory;
    if !Connected(m) || !env.built || env.unlockSignature.None? then s
    else
      var u := BuildUnlock(env.origin, m.wallet.value, env.nonce, env.now, DEFAULT_VAULT);
      var m1 := m.(lastUnlock := Some(u), lastUnlockSignature := env.unlockSignature);
      if DeriveKekFromUnlock(env.unlockSignature.value, Some(env.salt), u, env.now).Err? || !env.rootBuilt
          || env.rootSignature.None?
      then s.(memory := m1)
      else
        var v := Refreshed(m, env.verifiedAt);
        TabState(
          m1.(lastVaultRoot := Some(VaultRoot(m.wallet.value, DEFAULT_VAULT)),
              lastVaultRootSignature := env.rootSignature,
              verified := Some(v), unlocked := true),
          if env.saved then Record(v) else s.stored)
  }

  function SessionStep(s: TabState, e: Event): TabState {
    match e
    case Connect(pubKey, provider, now) => ConnectStep(s, pubKey, provider, now)
    case UnlockVault(env) => UnlockStep(s, env)
    case Lock => s.(memory := WithoutMaterials(s.memory))
    case Disconnect => TabState(NoMemory, Empty)
    case GetVerified(now) => TabState(s.memory.(verified := LoadVerified(s.stored, now)), AfterLoad(s.stored, now))
    case NewInstance(now) => TabState(NoMemory.(verified := LoadVerified(s.stored, now)), AfterLoad(s.stored, now))
  }

  function SessionRun(s: TabState, events: seq<Event>): TabState {
    if events == [] then s else SessionStep(SessionRun(s, events[..|events| - 1]), events[|events| - 1])
  }

  /** A fresh tab over whatever an earlier session left in storage. */
  function Fresh(stored: Stored, now: int): TabState {
    SessionStep(TabState(NoMemory, stored), NewInstance(now))
  }

  /* ---- the invariant ---- */

  predicate MaterialsFor(m: Memory, w: string) {
    && (m.lastUnlock.Some? ==> m.lastUnlock.value.wallet == w && m.lastUnlock.value.vaultId == DEFAULT_VAULT)
    && (m.lastUnlock.Some? <==> m.lastUnlockSignature.Some?)
    && (m.lastVaultRoot.Some? ==> m.lastVaultRoot.value == VaultRoot(w, DEFAULT_VAULT))
    && (m.lastVaultRoot.Some? <==> m.lastVaultRootSignature.Some?)
  }

  predicate NoMaterials(m: Memory) {
    m.lastUnlock.None? && m.lastUnlockSignature.None? && m.lastVaultRoot.None? && m.lastVaultRootSignature.None?
  }

  /** Unlocked means: connected, with all four materials, all built for the connected wallet. */
  predicate UnlockedTrue(m: Memory) {
    && m.wallet != Some("")
    && (if Connected(m) then MaterialsFor(m, m.wallet.value) else NoMaterials(m))
    && (m.unlocked ==> Connected(m) && m.lastUnlock.Some? && m.lastVaultRoot.Some?)
  }

  /** What is stored belongs to the record in memory, and that to the connected wallet. */
  predicate VerifiedTrue(s: TabState) {
    && (s.stored.Record? ==>
          && s.memory.verified.Some?
          && s.memory.verified.value.walletPubKey == s.stored.verified.walletPubKey)
    && (Connected(s.memory) && s.memory.verified.Some? ==> s.memory.verified.value.walletPubKey == s.memory.wallet)
  }

  predicate SessionTrue(s: TabState) {
    UnlockedTrue(s.memory) && VerifiedTrue(s)
  }

  lemma SessionStepKeeps(s: TabState, e: Event)
    requires SessionTrue(s)
    ensures SessionTrue(SessionStep(s, e))
  {
    hide DeriveKekFromUnlock;
  }

  /**
   * Over every sequence of events from a fresh tab, whatever local storage held: unlocked
   * implies a connected wallet and four materials built for it, and what `getVerified`
   * answers next is nothing or an unexpired record of the connected wallet.
   */
  lemma {:induction false} SessionInvariant(stored: Stored, now: int, events: seq<Event>, later: int)
    ensures SessionTrue(SessionRun(Fresh(stored, now), events))
    ensures var s, t := SessionRun(Fresh(stored, now), events),
        SessionRun(Fresh(stored, now), events + [GetVerified(later)]);
            && t.memory.verified == LoadVerified(s.stored, later)
            && (t.stored.Record? ==>
                  t.stored.verified.expiresAt > later && t.memory.verified == Some(t.stored.verified))
            && (t.memory.verified.Some? ==> t.memory.verified.value.expiresAt > later)
            && (t.memory.verified.Some? && Connected(s.memory) ==>
                  t.memory.verified.value.walletPubKey == s.memory.wallet)
  {
    hide SessionStep;
    assert (events + [GetVerified(later)])[..|events|] == events;
    if events == [] {
      FreshTrue(stored, now);
    } else {
      SessionInvariant(stored, now, events[..|events| - 1], later);
      SessionStepKeeps(SessionRun(Fresh(stored, now), events[..|events| - 1]), events[|events| - 1]);
    }
    GetVerifiedAnswer(SessionRun(Fresh(stored, now), events), later);
  }

  lemma FreshTrue(stored: Stored, now: int)
    ensures SessionTrue(Fresh(stored, now))
  {
  }

  lemma GetVerifiedAnswer(s: TabState, later: int)
    ensures SessionStep(s, GetVerified(later)).memory.verified == LoadVerified(s.stored, later)
    ensures SessionStep(s, GetVerified(later)).stored == AfterLoad(s.stored, later)
  {
  }

  /**
   * After a switch, a disconnect, a lock or a new instance the vault is locked and no
   * material is left; connecting always locks, and keeps the materials only for the wallet
   * they were built for.
   */
  lemma StartsLocked(s: TabState, e: Event)
    requires SessionTrue(s)
    ensures var t := SessionStep(s, e).memory;
            && (e.Connect? || e.Lock? || e.Disconnect? || e.NewInstance? ==> !t.unlocked)
            && (e.Lock? || e.Disconnect? || e.NewInstance? ==> NoMaterials(t))
            && (e.Connect? && t.wallet != s.memory.wallet ==> NoMaterials(t))
  {
  }

  /** An unlock reports success exactly when both messages were built and signed, and then all is set. */
  lemma UnlockSucceedsExactly(s: TabState, env: UnlockEnv)
    requires SessionTrue(s) && !s.memory.unlocked
    ensures var t := UnlockStep(s, env);
            && (t.memory.unlocked <==>
                  && Connected(s.memory) && env.built && env.rootBuilt
                  && env.unlockSignature.Some? && env.rootSignature.Some?)
            && (t.memory.unlocked ==>
                  && t.memory.lastUnlockSignature == env.unlockSignature
                  && t.memory.lastVaultRootSignature == env.rootSignature
                  && t.memory.verified.Some? && t.memory.verified.value.expiresAt == env.verifiedAt + VERIFIED_TTL_MS
                  && (env.saved ==> LoadVerified(t.stored, env.verifiedAt) == t.memory.verified))
            && (!t.memory.unlocked ==>
                  && t.stored == s.stored && t.memory.verified == s.memory.verified
                  && t.memory.lastVaultRootSignature == s.memory.lastVaultRootSignature)
  {
  }

  /* ---- what each event does to the session ---- */

  /** The same wallet, provider and record, in memory and in storage. */
  predicate SameWalletAndRecord(s: TabState, t: TabState) {
    && t.memory.wallet == s.memory.wallet && t.memory.provider == s.memory.provider
    && t.memory.verified == s.memory.verified && t.stored == s.stored
  }

  predicate SameMaterials(m: Memory, m': Memory) {
    && m'.lastUnlock == m.lastUnlock && m'.lastUnlockSignature == m.lastUnlockSignature
    && m'.lastVaultRoot == m.lastVaultRoot && m'.lastVaultRootSignature == m.lastVaultRootSignature
  }

  /**
   * Connecting locks and takes the wallet and provider it is given, blank ones as none. A
   * record in memory of that wallet stays, as does its stored copy; one of another wallet goes
   * from both. Without one in memory an unexpired stored record of that wallet is adopted.
   * Materials are dropped exactly if another wallet was connected.
   */
  lemma Connecting(s: TabState, pubKey: Option<string>, provider: Option<string>, now: int)
    ensures var t := SessionStep(s, Connect(pubKey, provider, now));
            var w := if pubKey == Some("") then None else pubKey;
            && t.memory.wallet == w && t.memory.provider == (if provider == Some("") then None else provider)
            && !t.memory.unlocked
            && (s.memory.verified.Some? && s.memory.verified.value.walletPubKey == w ==>
                  t.memory.verified == s.memory.verified && t.stored == s.stored)
            && (s.memory.verified.Some? && s.memory.verified.value.walletPubKey != w ==>
                  t.memory.verified == None && t.stored == Empty)
            && (s.memory.verified.None? && s.stored.Record? && s.stored.verified.expiresAt > now ==>
                  && t.stored == s.stored
                  && t.memory.verified
                  == if s.stored.verified.walletPubKey == w then Some(s.stored.verified) else None)
            && (s.memory.verified.None? && s.stored.Record? && s.stored.verified.expiresAt <= now ==>
                  t.stored == Empty && t.memory.verified == None)
            && (if s.memory.wallet != None && s.memory.wallet != Some("") && s.memory.wallet != w
                then NoMaterials(t.memory) else SameMaterials(s.memory, t.memory))
  {
  }

  /** Locking keeps wallet, provider and record and drops the materials. */
  lemma Locking(s: TabState)
    ensures var t := SessionStep(s, Lock);
            SameWalletAndRecord(s, t) && !t.memory.unlocked && NoMaterials(t.memory)
  {
  }

  /** Disconnecting forgets everything, the stored record too. */
  lemma Disconnecting(s: TabState)
    ensures var t := SessionStep(s, Disconnect);
            && t.stored == Empty && t.memory.wallet == t.memory.provider == None && t.memory.verified == None
            && !t.memory.unlocked && NoMaterials(t.memory)
  {
  }

  /** An unlock that fails leaves all but the unlock message and its signature. */
  lemma FailedUnlock(s: TabState, env: UnlockEnv)
    requires !(env.built && env.rootBuilt && env.unlockSignature.Some? && env.rootSignature.Some?)
    ensures var t := SessionStep(s, UnlockVault(env));
            && SameWalletAndRecord(s, t) && t.memory.unlocked == s.memory.unlocked
            && t.memory.lastVaultRoot == s.memory.lastVaultRoot
            && t.memory.lastVaultRootSignature == s.memory.lastVaultRootSignature
  {
    hide DeriveKekFromUnlock;
  }

  /**
   * What a successful unlock leaves: ten minutes of unlock for this origin and wallet, the
   * vault root of the wallet, and a record good for 24 hours that keeps the nonce and the
   * issue date of the record before it.
   */
  lemma Unlocking(s: TabState, env: UnlockEnv, w: string)
    requires s.memory.wallet == Some(w) && w != "" && env.built && env.rootBuilt
    requires env.unlockSignature.Some? && env.rootSignature.Some?
    ensures var t := SessionStep(s, UnlockVault(env));
            var earlier := s.memory.verified;
            var v := Verified(Some(w), env.verifiedAt, env.verifiedAt + 86_400_000, s.memory.provider,
                if earlier == None then None else earlier.value.nonce,
                if earlier == None then None else earlier.value.issuedAt);
            && t.memory == Memory(Some(w), s.memory.provider, true, Some(v),
                Some(Unlock(env.origin, w, env.nonce, env.now, env.now + 600_000, "local-default")),
                env.unlockSignature, Some(VaultRoot(w, "local-default")), env.rootSignature)
            && t.stored == if env.saved then Record(v) else s.stored
  {
  }

  /** An event before `v` expires that connects no other wallet, does not disconnect and unlocks nothing. */
  predicate Harmless(e: Event, v: Verified) {
    match e
    case Connect(pubKey, _, now) => (if pubKey == Some("") then None else pubKey) == v.walletPubKey
    case UnlockVault(env) => !(env.built && env.rootBuilt && env.unlockSignature.Some? && env.rootSignature.Some?)
    case Lock => true
    case Disconnect => false
    case GetVerified(now) => now < v.expiresAt
    case NewInstance(now) => now < v.expiresAt
  }

  predicate Holding(s: TabState, v: Verified) {
    s.memory.verified == Some(v) && s.stored == Record(v)
  }

  lemma HarmlessHolds(s: TabState, e: Event, v: Verified)
    requires Holding(s, v) && Harmless(e, v)
    ensures Holding(SessionStep(s, e), v)
  {
    hide SessionStep;
    match e
    case Connect(pubKey, provider, now) => Connecting(s, pubKey, provider, now);
    case UnlockVault(env) => FailedUnlock(s, env);
    case Lock => Locking(s);
    case _ => Reading(s, e, v);
  }

  /** A read and a reload find an unexpired stored record. */
  lemma Reading(s: TabState, e: Event, v: Verified)
    requires s.stored == Record(v) && ((e.GetVerified? || e.NewInstance?) && e.now < v.expiresAt)
    ensures Holding(SessionStep(s, e), v)
  {
  }

  /**
   * A stored record outlives reloads: after a reload and any number of further reloads, reads,
   * locks, failed unlocks and connections of its own wallet, asking before it expires answers
   * exactly the record, and asking later answers nothing and removes it.
   */
  lemma {:induction false} RecordSurvives(v: Verified, now: int, events: seq<Event>, later: int)
    requires now < v.expiresAt && forall e | e in events :: Harmless(e, v)
    ensures Holding(SessionRun(Fresh(Record(v), now), events), v)
    ensures var t := SessionRun(Fresh(Record(v), now), events + [GetVerified(later)]);
            if later < v.expiresAt then t.memory.verified == Some(v) && t.stored == Record(v)
            else t.memory.verified == None && t.stored == Empty
  {
    hide SessionStep, Harmless, Holding;
    if events == [] {
      Reading(TabState(NoMemory, Record(v)), NewInstance(now), v);
    } else {
      var before, e := events[..|events| - 1], events[|events| - 1];
      RecordSurvives(v, now, before, later);
      assert e in events;
      HarmlessHolds(SessionRun(Fresh(Record(v), now), before), e, v);
    }
    AskedAgain(v, now, events, later);
  }

  lemma AskedAgain(v: Verified, now: int, events: seq<Event>, later: int)
    requires Holding(SessionRun(Fresh(Record(v), now), events), v)
    ensures var t := SessionRun(Fresh(Record(v), now), events + [GetVerified(later)]);
            if later < v.expiresAt then t.memory.verified == Some(v) && t.stored == Record(v)
            else t.memory.verified == None && t.stored == Empty
  {
    assert (events + [GetVerified(later)])[..|events|] == events;
  }

  /* ---- the session feeds the manifest service ---- */

  /** The wallet signs the vault-root message it is shown. */
  predicate WalletSigns(s: TabState, e: Event) {
    e.UnlockVault? && Connected(s.memory) && e.env.rootSignature.Some? ==>
        e.env.rootSignature.value == RootSignature(s.memory.wallet.value)
  }

  predicate WalletSignsRun(s: TabState, events: seq<Event>) {
    events != [] ==>
      WalletSignsRun(s, events[..|events| - 1])
          && WalletSigns(SessionRun(s, events[..|events| - 1]), events[|events| - 1])
  }

  /** Whenever a vault-root signature is at hand it is that of the connected wallet. */
  predicate RootTrue(m: Memory) {
    m.lastVaultRootSignature.Some? ==> Connected(m) && m.lastVaultRootSignature.value == RootSignature(m.wallet.value)
  }

  lemma RootStepKeeps(s: TabState, e: Event)
    requires SessionTrue(s) && RootTrue(s.memory) && WalletSigns(s, e)
    ensures RootTrue(SessionStep(s, e).memory)
  {
    hide RootSignature, DeriveKekFromUnlock;
  }

  /**
   * The signature that an unlocked session hands to the manifest service is always the
   * vault-root signature of the connected wallet, in this session as in any earlier one.
   */
  lemma {:induction false} UnlockedRootSignature(stored: Stored, now: int, events: seq<Event>)
    requires WalletSignsRun(Fresh(stored, now), events)
    ensures var m := SessionRun(Fresh(stored, now), events).memory;
            RootTrue(m) && (m.unlocked ==>
                              Connected(m) && m.lastVaultRootSignature == Some(RootSignature(m.wallet.value)))
  {
    hide SessionStep, RootSignature, WalletSigns;
    SessionInvariant(stored, now, events, 0);
    if events == [] {
      FreshRoot(stored, now);
    } else {
      var before := events[..|events| - 1];
      UnlockedRootSignature(stored, now, before);
      SessionInvariant(stored, now, before, 0);
      RootStepKeeps(SessionRun(Fresh(stored, now), before), events[|events| - 1]);
    }
  }

  lemma FreshRoot(stored: Stored, now: int)
    ensures Fresh(stored, now).memory.lastVaultRootSignature.None?
  {
  }

  /* ---- the object ---- */

  class LocalStorage {
    var verifiedItem: Stored

    constructor (item: Stored)
      ensures verifiedItem == item
    {
      verifiedItem := item;
    }

    method Load(now: int) returns (r: Option<Verified>)
      modifies this
      ensures r == LoadVerified(old(verifiedItem), now)
      ensures verifiedItem == AfterLoad(old(verifiedItem), now)
    {
      match verifiedItem
      case Empty => return None;
      case Malformed => return None;
      case WrongShape => verifiedItem := Empty; return None;
      case Record(v) =>
        if v.expiresAt > now { return Some(v); }
        verifiedItem := Empty;
        return None;
    }
  }

  class SessionManager {
    const storage: LocalStorage
    var walletPubKey: Option<string>
    var walletProvider: Option<string>
    var vaultUnlocked: bool
    var verified: Option<Verified>
    var lastUnlock: Option<Unlock>
    var lastUnlockSignature: Option<Bytes>
    var lastVaultRoot: Option<VaultRoot>
    var lastVaultRootSignature: Option<Bytes>

    function View(): TabState
      reads this, storage
    {
      TabState(
        Memory(walletPubKey, walletProvider, vaultUnlocked, verified, lastUnlock, lastUnlockSignature, lastVaultRoot,
               lastVaultRootSignature),
        storage.verifiedItem)
    }

    constructor (storage: LocalStorage, now: int)
      modifies storage
      ensures this.storage == storage && View() == Fresh(old(storage.verifiedItem), now) && SessionTrue(View())
    {
      this.storage := storage;
      walletPubKey, walletProvider, vaultUnlocked := None, None, false;
      lastUnlock, lastUnlockSignature, lastVaultRoot, lastVaultRootSignature := None, None, None, None;
      verified := None;
      new;
      verified := storage.Load(now);
    }

    method ClearMaterials()
      modifies this
      ensures View() == old(View()).(memory := WithoutMaterials(old(View()).memory))
    {
      vaultUnlocked := false;
      lastUnlock, lastUnlockSignature := None, None;
      lastVaultRoot, lastVaultRootSignature := None, None;
    }

    method ConnectWallet(pubKey: Option<string>, provider: Option<string>, now: int)
      modifies this, storage
      ensures View() == SessionStep(old(View()), Connect(pubKey, provider, now))
      ensures SessionTrue(old(View())) ==> SessionTrue(View())
    {
      if SessionTrue(View()) {
        SessionStepKeeps(View(), Connect(pubKey, provider, now));
      }
      var previous := walletPubKey;
      walletPubKey, walletProvider, vaultUnlocked := NonBlank(pubKey), NonBlank(provider), false;
      if verified.Some? && verified.value.walletPubKey != walletPubKey {
        storage.verifiedItem := Empty;
        verified := None;
      }
      if verified.None? {
        var loaded := storage.Load(now);
        if loaded.Some? && loaded.value.walletPubKey == walletPubKey {
          verified := loaded;
        }
      }
      if NonBlank(previous).Some? && previous != walletPubKey {
        ClearMaterials();
      }
    }

    method Unlock(env: UnlockEnv) returns (ok: bool)
      requires SessionTrue(View())
      modifies this, storage
      ensures View() == SessionStep(old(View()), UnlockVault(env)) && SessionTrue(View())
      ensures ok ==> vaultUnlocked
      ensures ok <==>
                && NonBlank(old(walletPubKey)).Some? && env.built && env.rootBuilt
                && env.unlockSignature.Some? && env.rootSignature.Some?
    {
      SessionStepKeeps(View(), UnlockVault(env));
      if NonBlank(walletPubKey).None? { return false; }
      if !env.built { return false; }
      var unlock := BuildUnlock(env.origin, walletPubKey.value, env.nonce, env.now, DEFAULT_VAULT);
      if env.unlockSignature.None? { return false; }
      lastUnlock, lastUnlockSignature := Some(unlock), env.unlockSignature;
      var kek := DeriveKekFromUnlock(env.unlockSignature.value, Some(env.salt), unlock, env.now);
      if kek.Err? || !env.rootBuilt || env.rootSignature.None? { return false; }
      lastVaultRoot, lastVaultRootSignature := Some(VaultRoot(walletPubKey.value, DEFAULT_VAULT)), env.rootSignature;
      var v := Refreshed(View().memory, env.verifiedAt);
      if env.saved {
        storage.verifiedItem := Record(v);
      }
      verified := Some(v);
      vaultUnlocked := true;
      return true;
    }

    method LockVault()
      requires SessionTrue(View())
      modifies this
      ensures View() == SessionStep(old(View()), Lock) && SessionTrue(View())
    {
      SessionStepKeeps(View(), Lock);
      ClearMaterials();
    }

    method DisconnectWallet()
      requires SessionTrue(View())
      modifies this, storage
      ensures View() == SessionStep(old(View()), Disconnect) && SessionTrue(View())
    {
      walletPubKey, walletProvider := None, None;
      ClearMaterials();
      storage.verifiedItem := Empty;
      verified := None;
    }

    method ReadVerified(now: int) returns (r: Option<Verified>)
      requires SessionTrue(View())
      modifies this, storage
      ensures View() == SessionStep(old(View()), GetVerified(now)) && SessionTrue(View())
      ensures r.Some? ==> r.value.expiresAt > now
      ensures r.Some? && NonBlank(walletPubKey).Some? ==> r.value.walletPubKey == walletPubKey
    {
      verified := storage.Load(now);
      return verified;
    }
  }
}
