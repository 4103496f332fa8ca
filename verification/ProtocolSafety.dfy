/**
 * Every pointer always names a stored manifest that its wallet can load, whatever is
 * interleaved, rejected or restored, and a call given an on-chain head never creates one.
 */
module ProtocolSafety {
  import opened Wrappers
  import opened Terms
  import opened AsciiText
  import opened KeyDerivation
  import opened Manifest
  import opened ManifestCrypto
  import opened Protocol

  /** Opening `bytes` with the vault-root signature of `w`. */
  function LoadFor(bytes: Bytes, w: string): Result<Loaded, ManifestError> {
    LoadBytes(bytes, w, RootSignature(w))
  }

  predicate LoadsAs(bytes: Bytes, w: string, m: ManifestV1) {
    LoadFor(bytes, w).Ok? && LoadFor(bytes, w).value.manifest == m
  }

  /** `cid` names a stored manifest of `w`. */
  predicate Good(store: Store, cid: Cid, w: string) {
    cid in store && LoadFor(store[cid], w).Ok?
  }

  function ManifestAt(store: Store, cid: Cid, w: string): ManifestV1
    requires Good(store, cid, w)
  {
    LoadFor(store[cid], w).value.manifest
  }

  predicate Grows(before: Store, after: Store) {
    forall c | c in before :: c in after && after[c] == before[c]
  }

  /* ---- what one call knows ---- */

  predicate OutcomeTrue(store: Store, w: string, o: Outcome) {
    match o
    case Got(m, cid) => cid in store && LoadsAs(store[cid], w, m)
    case Created(m, cid) => cid in store && LoadsAs(store[cid], w, m)
    case Appended(m, cid) => cid in store && LoadsAs(store[cid], w, m)
    case _ => true
  }

  predicate ReadCid(store: Store, c: Call) {
    c.cid.Some? && Good(store, c.cid.value, c.wallet)
  }

  /** The manifest being written is the one read, with this call's operation applied. */
  predicate Merged(store: Store, c: Call, key: Bytes, m: ManifestV1) {
    && ReadCid(store, c) && c.op.Some? && Is32(key)
    && m == Apply(ManifestAt(store, c.cid.value, c.wallet), c.op.value)
    && m.walletPubKey == c.wallet
  }

  predicate PcTrue(store: Store, c: Call) {
    match c.pc
    case InitKey(kek) => kek == DeriveVaultRootKek(c.signature)
    case InitSalt(kek, key) => kek == DeriveVaultRootKek(c.signature) && Is32(key)
    case InitWrap(kek, key, salt) => kek == DeriveVaultRootKek(c.signature) && Is32(key)
    case InitEncrypt(key, salt, wrapNonce, envelope) =>
      Is32(key) && BuildWrapEnvelope(c.wallet, DeriveVaultRootKek(c.signature), key, salt, wrapNonce) == Ok(envelope)
    case InitUpload(bytes) => LoadsAs(bytes, c.wallet, EmptyOf(c))
    case Fetch => ReadCid(store, c)
    case Unwrap(tree) => ReadCid(store, c) && ParseJson(store[c.cid.value]) == Some(tree)
    case Decrypt(tree, key) =>
      && ReadCid(store, c) && ParseJson(store[c.cid.value]) == Some(tree)
      && UnwrapManifestKey(tree, c.wallet, c.signature) == Ok(key)
    case WriteSalt(key, m) => Merged(store, c, key, m)
    case WriteKek(key, m, salt) => Merged(store, c, key, m)
    case WriteWrap(key, m, salt, kek) => Merged(store, c, key, m) && kek == DeriveVaultRootKek(c.signature)
    case WriteEncrypt(key, m, salt, wrapNonce, envelope) =>
      Merged(store, c, key, m) && BuildWrapEnvelope(c.wallet, DeriveVaultRootKek(c.signature), key, salt,
                                                    wrapNonce) == Ok(envelope)
    case WriteUpload(m, bytes) =>
      ReadCid(store, c) && c.op.Some? && LoadsAs(bytes, c.wallet, m)
      && m == Apply(ManifestAt(store, c.cid.value, c.wallet), c.op.value)
    case Releasing(o) => OutcomeTrue(store, c.wallet, o)
    case Done(o) => OutcomeTrue(store, c.wallet, o)
    case _ => true
  }

  /** The flags of a call follow its program counter. */
  predicate FlagsTrue(c: Call) {
    && (c.kind.Load? ==> !c.committed && !c.pc.Waiting? && !c.pc.Initialised? && !c.pc.Releasing? && !InWrite(c.pc))
    && (c.committed ==> c.op.Some? && (c.pc.Releasing? || c.pc.Done?) && OutcomeOf(c.pc).Appended?)
    && ((c.pc.Releasing? || c.pc.Done?) && OutcomeOf(c.pc).Appended? ==> c.committed)
    && (c.initialised ==> c.createdAt.Some? && !InInit(c.pc) && !c.pc.Waiting? && !HasSpace(c.wallet))
    && (c.createdAt.Some? ==> !HeadPresent(c.head))
    && (c.pc.Waiting? ==> c.createdAt.None?)
    && (InInit(c.pc) ==> c.createdAt.Some?)
    && (c.pc.Initialised? ==> c.initialised)
    && (c.pc.Done? && c.pc.outcome.Created? ==> c.initialised)
    && (c.pc.Releasing? ==> !c.pc.outcome.Created?)
    && (c.pc.Done? && c.pc.outcome.Got? ==> c.kind.Load? && c.cid == Some(c.pc.outcome.cid))
    && (c.pc.Releasing? ==> !c.pc.outcome.Got?)
    && (HasSpace(c.wallet) ==> c.pc.Waiting? || ((c.pc.Releasing? || c.pc.Done?) && OutcomeOf(c.pc).Failed?))
  }

  function OutcomeOf(pc: Pc): Outcome
    requires pc.Releasing? || pc.Done?
  {
    pc.outcome
  }

  predicate CallTrue(store: Store, c: Call) {
    && Trim(c.wallet) == c.wallet != []
    && c.signature == RootSignature(c.wallet)
    && PcTrue(store, c) && FlagsTrue(c)
  }

  predicate PointerTrue(store: Store, p: Option<Cid>, w: string) {
    p.Some? ==> Good(store, p.value, w)
  }

  /** The safety invariant of a tab on a store. */
  predicate Safe(s: State) {
    && (forall w | w in s.tab.pointer :: Good(s.store, s.tab.pointer[w], w))
    && (forall i | 0 <= i < |s.tab.calls| :: CallTrue(s.store, s.tab.calls[i]))
  }

  /** Callers sign with the vault root of their wallet; a restored CID is a manifest of it. */
  predicate Honest(s: State, a: Action) {
    match a
    case InvokeAppend(w, signature, _, _, _) => signature == RootSignature(Trim(w))
    case InvokeLoad(w, signature, _, _, _) => signature == RootSignature(Trim(w))
    case SetPointer(w, cid) => Good(s.store, Trim(cid), Trim(w))
    case _ => true
  }

  predicate HonestRun(s: State, actions: seq<Action>) {
    actions != [] ==>
      HonestRun(s, actions[..|actions| - 1]) && Honest(Run(s, actions[..|actions| - 1]), actions[|actions| - 1])
  }

  /* ---- the store only grows, and nothing learnt is lost ---- */

  lemma CallTrueGrows(before: Store, after: Store, c: Call)
    requires Grows(before, after) && CallTrue(before, c)
    ensures CallTrue(after, c)
  {
  }

  /** Bytes load as a manifest of one wallet only: the envelope names it. */
  lemma OneOwner(bytes: Bytes, v: string, w: string)
    requires LoadFor(bytes, v).Ok? && LoadFor(bytes, w).Ok?
    ensures v == w
  {
    hide ReadManifest, RootSignature, UnwrapWith, Truthy, NonEmpty, FromBase64, TextOf;
  }

  /* ---- one step of one call ---- */

  /** What a step of one call must keep. */
  ghost predicate Kept(before: Local, after: Local) {
    && Grows(before.store, after.store)
    && CallTrue(after.store, after.call)
    && PointerTrue(after.store, after.pointer, before.call.wallet)
    && after.call.kind == before.call.kind && after.call.wallet == before.call.wallet
    && after.call.previous == before.call.previous && after.call.head == before.call.head
  }

  lemma StartSafe(l: Local, env: Env)
    requires Trim(l.call.wallet) == l.call.wallet != [] && l.call.signature == RootSignature(l.call.wallet)
    requires l.call.createdAt.None? && !l.call.initialised && !l.call.committed
    requires PointerTrue(l.store, l.pointer, l.call.wallet)
    ensures Kept(l, StartBody(l, env))
  {
    hide HasSpace, Good, LoadsAs, Trim, RootSignature;
  }

  lemma InitSafe(l: Local, env: Env)
    requires CallTrue(l.store, l.call) && InInit(l.call.pc) && PointerTrue(l.store, l.pointer, l.call.wallet)
    ensures Kept(l, InitPhase(l, env))
  {
    hide HasSpace, LoadFor, BuildWrapEnvelope, EncryptManifest, DeriveVaultRootKek, DeriveManifestKey, RootSignature,
         Trim, Encode;
    var c := l.call;
    if c.pc.InitEncrypt? {
      var m := EmptyOf(c);
      var r := EncryptManifest(m, c.pc.key, c.wallet, c.pc.envelope, env.nonce);
      if r.Ok? {
        WrittenLoads(m, c.pc.key, c.wallet, c.pc.salt, c.pc.wrapNonce, env.nonce, c.pc.envelope);
      }
    }
  }

  lemma WrittenLoads(m: ManifestV1, key: Bytes, w: string, salt: Bytes, wrapNonce: Bytes, nonce: Bytes, envelope: Json)
    requires BuildWrapEnvelope(w, DeriveVaultRootKek(RootSignature(w)), key, salt, wrapNonce) == Ok(envelope)
    requires EncryptManifest(m, key, w, envelope, nonce).Ok? && m.walletPubKey == w
    ensures LoadsAs(Encode(EncryptManifest(m, key, w, envelope, nonce).value), w, m)
  {
    hide BuildWrapEnvelope, EncryptManifest, LoadBytes, Encode;
    SealSteps(m, key, w, RootSignature(w), salt, wrapNonce, nonce, envelope);
  }

  /** Reading the fetched tree is loading the stored bytes. */
  lemma ReadIsLoad(bytes: Bytes, tree: Json, key: Bytes, w: string)
    requires ParseJson(bytes) == Some(tree) && UnwrapManifestKey(tree, w, RootSignature(w)) == Ok(key)
    requires ReadManifest(tree, key, w).Ok?
    ensures LoadFor(bytes, w) == Ok(Loaded(key, ReadManifest(tree, key, w).value))
    ensures ReadManifest(tree, key, w).value.walletPubKey == w && Is32(key)
  {
    hide ParseJson, UnwrapManifestKey, ReadManifest;
    ReadChecks(tree, key, w);
  }

  lemma DecryptSafe(l: Local, env: Env)
    requires CallTrue(l.store, l.call) && l.call.pc.Decrypt? && PointerTrue(l.store, l.pointer, l.call.wallet)
    ensures Kept(l, ReadPhase(l, env))
  {
    hide HasSpace, LoadFor, ParseJson, UnwrapManifestKey, ReadManifest, RootSignature, Trim, Apply, Is32, Truthy,
         NewEntry;
    var c := l.call;
    if ReadManifest(c.pc.tree, c.pc.key, c.wallet).Ok? {
      ReadIsLoad(l.store[c.cid.value], c.pc.tree, c.pc.key, c.wallet);
      ApplyOwner(ReadManifest(c.pc.tree, c.pc.key, c.wallet).value);
    }
  }

  lemma ReadSafe(l: Local, env: Env)
    requires CallTrue(l.store, l.call) && InRead(l.call.pc) && PointerTrue(l.store, l.pointer, l.call.wallet)
    ensures Kept(l, ReadPhase(l, env))
  {
    hide HasSpace, LoadFor, ParseJson, UnwrapManifestKey, ReadManifest, RootSignature, Trim, MergePhase;
    if l.call.pc.Decrypt? {
      DecryptSafe(l, env);
    }
  }

  lemma ApplyOwner(m: ManifestV1)
    ensures forall op :: Apply(m, op).walletPubKey == m.walletPubKey
  {
  }

  lemma WriteSafe(l: Local, env: Env)
    requires CallTrue(l.store, l.call) && PointerTrue(l.store, l.pointer, l.call.wallet)
    requires InWrite(l.call.pc) || l.call.pc.Releasing? || l.call.pc.Done?
    ensures Kept(l, WritePhase(l, env))
  {
    hide HasSpace, LoadFor, BuildWrapEnvelope, EncryptManifest, DeriveVaultRootKek, RootSignature, Trim, Encode, Apply,
         Is32;
    var c := l.call;
    if c.pc.WriteEncrypt? {
      var r := EncryptManifest(c.pc.manifest, c.pc.key, c.wallet, c.pc.envelope, env.nonce);
      if r.Ok? {
        WrittenLoads(c.pc.manifest, c.pc.key, c.wallet, c.pc.salt, c.pc.wrapNonce, env.nonce, c.pc.envelope);
      }
    }
  }

  lemma AdvanceSafe(l: Local, env: Env)
    requires CallTrue(l.store, l.call) && PointerTrue(l.store, l.pointer, l.call.wallet)
    ensures Kept(l, AdvanceLocal(l, env))
  {
    hide HasSpace, Good, LoadsAs, Trim, RootSignature, StartBody, InitPhase, ReadPhase, WritePhase;
    if l.call.pc.Waiting? {
      StartSafe(l, env);
    } else if InInit(l.call.pc) {
      InitSafe(l, env);
    } else if InRead(l.call.pc) {
      ReadSafe(l, env);
    } else {
      WriteSafe(l, env);
    }
  }

  lemma RejectSafe(l: Local, stored: Option<Cid>)
    requires CallTrue(l.store, l.call) && PointerTrue(l.store, l.pointer, l.call.wallet)
    ensures Kept(l, RejectLocal(l, stored))
  {
    hide HasSpace, LoadFor, Trim, RootSignature;
  }

  /* ---- every run ---- */

  lemma PutSafe(s: State, i: nat, l: Local)
    requires Safe(s) && i < |s.tab.calls| && Kept(View(s, i), l)
    ensures Safe(Put(s, i, l)) && Grows(s.store, Put(s, i, l).store)
  {
    hide HasSpace, CallTrue, LoadFor;
    var s' := Put(s, i, l);
    forall k | 0 <= k < |s'.tab.calls| ensures CallTrue(s'.store, s'.tab.calls[k]) {
      if k != i {
        CallTrueGrows(s.store, s'.store, s.tab.calls[k]);
      }
    }
  }

  lemma ViewPointer(s: State, i: nat)
    requires Safe(s) && i < |s.tab.calls|
    ensures PointerTrue(s.store, PointerOf(s.tab, s.tab.calls[i].wallet), s.tab.calls[i].wallet)
  {
    hide CallTrue, LoadFor;
  }

  lemma AppendInvoked(s: State, a: Action)
    requires Safe(s) && Honest(s, a) && a.InvokeAppend?
    ensures Safe(Step(s, a)) && Step(s, a).store == s.store
  {
    hide CallTrue, Good, RootSignature, NewCall, Trim;
    var w := Trim(a.wallet);
    TrimIdempotent(a.wallet);
    NewCallTrue(s.store, a.draft, w, a.signature, a.head, TailOf(s.tab, w));
  }

  lemma LoadInvoked(s: State, a: Action)
    requires Safe(s) && Honest(s, a) && a.InvokeLoad?
    ensures Safe(Step(s, a)) && Step(s, a).store == s.store
  {
    hide CallTrue, Good, RootSignature, StartBody, Trim;
    var w := Trim(a.wallet);
    TrimIdempotent(a.wallet);
    var l := Local(s.store, PointerOf(s.tab, w), NewCall(Load, w, a.signature, a.head, None));
    if w != [] {
      StartSafe(l, a.env);
      StartKeeps(l, a.env);
    }
  }

  lemma StartKeeps(l: Local, env: Env)
    ensures StartBody(l, env).store == l.store && StartBody(l, env).pointer == l.pointer
  {
  }

  lemma CallStepped(s: State, a: Action)
    requires Safe(s) && (a.Advance? || a.Reject?)
    ensures Safe(Step(s, a)) && Grows(s.store, Step(s, a).store)
  {
    hide CallTrue, Good, AdvanceLocal, RejectLocal, Enabled;
    if Enabled(s.tab, a.i) {
      EnabledInRange(s.tab, a.i);
      ViewPointer(s, a.i);
      if a.Advance? {
        AdvanceSafe(View(s, a.i), a.env);
        PutSafe(s, a.i, AdvanceLocal(View(s, a.i), a.env));
      } else {
        RejectSafe(View(s, a.i), a.stored);
        PutSafe(s, a.i, RejectLocal(View(s, a.i), a.stored));
      }
    }
  }

  lemma EnabledInRange(tab: Tab, i: nat)
    ensures Enabled(tab, i) ==> i < |tab.calls|
  {
  }

  /** A restore sets a pointer to a manifest of its wallet, or is refused. */
  lemma PointerSetSafe(s: State, a: Action)
    requires Safe(s) && Honest(s, a) && a.SetPointer?
    ensures Safe(Step(s, a)) && Step(s, a).store == s.store
  {
    hide CallTrue, Good, Trim, HasSpace;
  }

  lemma StepSafe(s: State, a: Action)
    requires Safe(s) && Honest(s, a)
    ensures Safe(Step(s, a)) && Grows(s.store, Step(s, a).store)
  {
    hide Safe, Honest, Step;
    if a.InvokeAppend? {
      AppendInvoked(s, a);
    } else if a.InvokeLoad? {
      LoadInvoked(s, a);
    } else if a.Advance? || a.Reject? {
      CallStepped(s, a);
    } else {
      PointerSetSafe(s, a);
    }
  }

  lemma NewCallTrue(store: Store, draft: Draft, w: string, signature: Bytes, head: Option<Cid>, previous: Option<nat>)
    requires signature == RootSignature(w) && Trim(w) == w
    ensures w != [] ==> CallTrue(store, NewCall(Append(draft), w, signature, head, previous))
  {
    hide HasSpace, RootSignature, Trim;
  }

  /**
   * In every run by honest callers, whatever interleaves or fails: every pointer names a
   * stored manifest that loads with its wallet's vault-root signature, every finished call
   * reported a manifest that really is stored under the CID it reported, and the store grew.
   */
  lemma {:induction false} RunSafe(s: State, actions: seq<Action>)
    requires Safe(s) && HonestRun(s, actions)
    ensures Safe(Run(s, actions)) && Grows(s.store, Run(s, actions).store)
  {
    hide Safe, Honest, Step;
    if actions != [] {
      var before := actions[..|actions| - 1];
      RunSafe(s, before);
      StepSafe(Run(s, before), actions[|actions| - 1]);
    }
  }

  /** A call for a wallet name with a blank in it can only fail, and moves no pointer. */
  lemma BlankNamesOnlyFail(s: State, actions: seq<Action>, i: nat)
    requires Safe(s) && HonestRun(s, actions) && i < |Run(s, actions).tab.calls|
    requires HasSpace(Run(s, actions).tab.calls[i].wallet)
    ensures var c := Run(s, actions).tab.calls[i];
            && (c.pc.Waiting? || ((c.pc.Releasing? || c.pc.Done?) && c.pc.outcome.Failed?))
            && !c.initialised && !c.committed
  {
    hide Run, PcTrue, Good, HonestRun, HasSpace;
    RunSafe(s, actions);
    assert CallTrue(Run(s, actions).store, Run(s, actions).tab.calls[i]);
  }

  /**
   * A call that was handed an on-chain head never creates a manifest: it never uploads an
   * empty one, never moves an absent pointer by initialisation and never reports `Created`.
   */
  lemma HeadForbidsCreation(s: State, actions: seq<Action>, i: nat)
    requires Safe(s) && HonestRun(s, actions)
    requires i < |Run(s, actions).tab.calls| && HeadPresent(Run(s, actions).tab.calls[i].head)
    ensures var c := Run(s, actions).tab.calls[i];
            !c.initialised && !InInit(c.pc) && !(c.pc.Done? && c.pc.outcome.Created?)
  {
    hide Run, PcTrue, Good, HonestRun;
    RunSafe(s, actions);
    assert CallTrue(Run(s, actions).store, Run(s, actions).tab.calls[i]);
  }
}
