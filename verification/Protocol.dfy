/**
 * Manifest append and load in one browser tab (packages/manifest/src/service.ts,
 * packages/manifest/src/internal/mutex.ts), as a machine with one step per `await`.
 *
 * A call is the body of appendEntryAndPersist or loadManifestOrInit between two awaits.
 * `Step` is total: an action that the program could not take leaves the state as it is.
 * Clock, uuid, random bytes and the CID answered by the store come in with the action;
 * the store is content-addressed, so a CID never comes back for other bytes.
 */
module Protocol {
  import opened Wrappers
  import opened Terms
  import opened AsciiText
  import opened KeyDerivation
  import opened Manifest
  import opened ManifestCrypto

  type Cid = string
  type Store = map<Cid, Bytes>

  datatype CallKind = Append(draft: Draft) | Load

  datatype MergeOp = MergeOp(entry: Entry, updatedAt: string)

  datatype Outcome =
    | Got(manifest: ManifestV1, cid: Cid)
    | Created(manifest: ManifestV1, cid: Cid)
    | Appended(manifest: ManifestV1, cid: Cid)
    | RestoreNeeded
    | Failed(why: ManifestError)

  /** What the call awaits, with the local variables it will need afterwards. */
  datatype Pc =
    | Waiting                                   // await previous
    | InitKek                                   // await deriveVaultRootKekFromSignature
    | InitKey(kek: Bytes)                       // await deriveManifestKey
    | InitSalt(kek: Bytes, key: Bytes)          // await sodium
    | InitWrap(kek: Bytes, key: Bytes, salt: Bytes)
    | InitEncrypt(key: Bytes, salt: Bytes, wrapNonce: Bytes, envelope: Json)
    | InitUpload(bytes: Bytes)                  // await addBytes
    | Initialised                               // await loadManifestOrInit
    | Fetch                                     // await catBytes
    | Unwrap(tree: Json)
    | Decrypt(tree: Json, key: Bytes)
    | WriteSalt(key: Bytes, manifest: ManifestV1)
    | WriteKek(key: Bytes, manifest: ManifestV1, salt: Bytes)
    | WriteWrap(key: Bytes, manifest: ManifestV1, salt: Bytes, kek: Bytes)
    | WriteEncrypt(key: Bytes, manifest: ManifestV1, salt: Bytes, wrapNonce: Bytes, envelope: Json)
    | WriteUpload(manifest: ManifestV1, bytes: Bytes)
    | Releasing(outcome: Outcome)               // finally { release() }
    | Done(outcome: Outcome)

  /**
   * `previous` is the promise the call chained onto; call number i releases promise i.
   * `createdAt`, `cid` and `op` are locals once they are known; `initialised` and
   * `committed` record that this call moved the pointer.
   */
  datatype Call = Call(
    kind: CallKind, wallet: string, signature: Bytes, head: Option<Cid>, previous: Option<nat>, pc: Pc,
    createdAt: Option<string>, cid: Option<Cid>, op: Option<MergeOp>, initialised: bool, committed: bool)

  /** `tail` is mutexByWallet: the promise of the latest caller of each wallet's mutex. */
  datatype Tab = Tab(pointer: map<string, Cid>, tail: map<string, nat>, calls: seq<Call>)

  datatype State = State(store: Store, tab: Tab)

  /** What the outside world supplies to one step. */
  datatype Env = Env(now: string, later: string, uuid: string, salt: Bytes, wrapNonce: Bytes, nonce: Bytes, cid: Cid)

  datatype Action =
    | InvokeAppend(wallet: string, signature: Bytes, draft: Draft, head: Option<Cid>, unlock: bool)
    | InvokeLoad(wallet: string, signature: Bytes, head: Option<Cid>, unlock: bool, env: Env)
    | Advance(i: nat, env: Env)
    | Reject(i: nat, stored: Option<Cid>)
    | SetPointer(wallet: string, cid: Cid)

  /* ---- one call against the store and its wallet's pointer ---- */

  datatype Local = Local(store: Store, pointer: Option<Cid>, call: Call)

  /** The store answered `cid` for `bytes`. */
  predicate CanStore(store: Store, cid: Cid, bytes: Bytes) {
    cid != [] && Trim(cid) == cid && (cid in store ==> store[cid] == bytes)
  }

  predicate HeadPresent(head: Option<Cid>) {
    head.Some? && head.value != []
  }

  function Goto(l: Local, pc: Pc): Local {
    l.(call := l.call.(pc := pc))
  }

  /** Leaving the body: an append still holds its mutex until `release` runs. */
  function Finish(l: Local, o: Outcome): Local {
    Goto(l, if l.call.kind.Append? then Releasing(o) else Done(o))
  }

  function StartFetch(l: Local, cid: Cid): Local {
    Goto(l.(call := l.call.(cid := Some(cid))), Fetch)
  }

  /** The pointer read at the start of either body; the pointer store refuses names with blanks. */
  function StartBody(l: Local, env: Env): Local {
    if HasSpace(l.call.wallet) then Finish(l, Failed(WalletHasBlanks))
    else if l.pointer.Some? then StartFetch(l, l.pointer.value)
    else if HeadPresent(l.call.head)
        then Finish(l, if l.call.kind.Append? then Failed(RestoreRequired) else RestoreNeeded)
    else Goto(l.(call := l.call.(createdAt := Some(env.now))), InitKek)
  }

  function EmptyOf(c: Call): ManifestV1 {
    EmptyManifest(c.wallet, if c.createdAt.Some? then c.createdAt.value else "")
  }

  function InitPhase(l: Local, env: Env): Local {
    var c := l.call;
    match c.pc
    case InitKek => Goto(l, InitKey(DeriveVaultRootKek(c.signature)))
    case InitKey(kek) => Goto(l, InitSalt(kek, DeriveManifestKey(kek)))
    case InitSalt(kek, key) => Goto(l, InitWrap(kek, key, env.salt))
    case InitWrap(kek, key, salt) => (
      match BuildWrapEnvelope(c.wallet, kek, key, salt, env.wrapNonce)
      case Err(e) => Finish(l, Failed(e))
      case Ok(envelope) => Goto(l, InitEncrypt(key, salt, env.wrapNonce, envelope)))
    case InitEncrypt(key, salt, wrapNonce, envelope) => (
      match EncryptManifest(EmptyOf(c), key, c.wallet, envelope, env.nonce)
      case Err(e) => Finish(l, Failed(e))
      case Ok(tree) => Goto(l, InitUpload(Encode(tree))))
    case InitUpload(bytes) =>
      if !CanStore(l.store, env.cid, bytes) then l
      else
        var l' := Local(l.store[env.cid := bytes], Some(env.cid), c.(initialised := true));
        if c.kind.Append? then Goto(l', Initialised) else Finish(l', Created(EmptyOf(c), env.cid))
    case _ => l
  }

  /** The new entry and the merged manifest, or the refusal of an unusable draft. */
  function MergePhase(l: Local, key: Bytes, m: ManifestV1, env: Env): Local
    requires l.call.kind.Append?
  {
    var d := l.call.kind.draft;
    if Trim(d.fileCid) == [] then Finish(l, Failed(MissingFileCid))
    else if !Truthy(d.envelope) then Finish(l, Failed(MissingEntryEnvelope))
    else
      var entry := NewEntry(d, if d.entryId.Some? then d.entryId.value else env.uuid,
                               if d.addedAt.Some? then d.addedAt.value else env.now);
      var op := MergeOp(entry, env.later);
      Goto(l.(call := l.call.(op := Some(op))), WriteSalt(key, Apply(m, op)))
  }

  function Apply(m: ManifestV1, op: MergeOp): ManifestV1 {
    Merge(m, op.entry, op.updatedAt)
  }

  function ReadPhase(l: Local, env: Env): Local {
    var c := l.call;
    match c.pc
    case Initialised => if l.pointer.Some? then StartFetch(l, l.pointer.value) else Finish(l, Failed(NoPointer))
    case Fetch =>
      if c.cid.None? || c.cid.value !in l.store then Finish(l, Failed(StoreFailed))
      else (
        match ParseJson(l.store[c.cid.value])
        case None => Finish(l, Failed(BadJson))
        case Some(tree) => Goto(l, Unwrap(tree)))
    case Unwrap(tree) => (
      match UnwrapManifestKey(tree, c.wallet, c.signature)
      case Err(e) => Finish(l, Failed(e))
      case Ok(key) => Goto(l, Decrypt(tree, key)))
    case Decrypt(tree, key) => (
      match ReadManifest(tree, key, c.wallet)
      case Err(e) => Finish(l, Failed(e))
      case Ok(m) =>
        if c.kind.Append? then MergePhase(l, key, m, env)
        else Finish(l, Got(m, if c.cid.Some? then c.cid.value else "")))
    case _ => l
  }

  function WritePhase(l: Local, env: Env): Local {
    var c := l.call;
    match c.pc
    case WriteSalt(key, m) => Goto(l, WriteKek(key, m, env.salt))
    case WriteKek(key, m, salt) => Goto(l, WriteWrap(key, m, salt, DeriveVaultRootKek(c.signature)))
    case WriteWrap(key, m, salt, kek) => (
      match BuildWrapEnvelope(c.wallet, kek, key, salt, env.wrapNonce)
      case Err(e) => Finish(l, Failed(e))
      case Ok(envelope) => Goto(l, WriteEncrypt(key, m, salt, env.wrapNonce, envelope)))
    case WriteEncrypt(key, m, salt, wrapNonce, envelope) => (
      match EncryptManifest(m, key, c.wallet, envelope, env.nonce)
      case Err(e) => Finish(l, Failed(e))
      case Ok(tree) => Goto(l, WriteUpload(m, Encode(tree))))
    case WriteUpload(m, bytes) =>
      if !CanStore(l.store, env.cid, bytes) then l
      else Finish(Local(l.store[env.cid := bytes], Some(env.cid), c.(committed := true)), Appended(m, env.cid))
    case Releasing(o) => Goto(l, Done(o))
    case _ => l
  }

  predicate InInit(pc: Pc) {
    pc.InitKek? || pc.InitKey? || pc.InitSalt? || pc.InitWrap? || pc.InitEncrypt? || pc.InitUpload?
  }

  predicate InRead(pc: Pc) {
    pc.Initialised? || pc.Fetch? || pc.Unwrap? || pc.Decrypt?
  }

  predicate InWrite(pc: Pc) {
    pc.WriteSalt? || pc.WriteKek? || pc.WriteWrap? || pc.WriteEncrypt? || pc.WriteUpload?
  }

  function AdvanceLocal(l: Local, env: Env): Local {
    var pc := l.call.pc;
    if pc.Waiting? then StartBody(l, env)
    else if InInit(pc) then InitPhase(l, env)
    else if InRead(pc) then ReadPhase(l, env)
    else WritePhase(l, env)
  }

  /** An upload may have stored its bytes although its answer, or what follows it, throws. */
  function AfterThrow(store: Store, pc: Pc, stored: Option<Cid>): Store {
    if (pc.InitUpload? || pc.WriteUpload?) && stored.Some?
        && (stored.value in store ==> store[stored.value] == pc.bytes)
    then store[stored.value := pc.bytes]
    else store
  }

  /** The awaited operation throws. */
  function RejectLocal(l: Local, stored: Option<Cid>): Local {
    var pc := l.call.pc;
    if InInit(pc) || InWrite(pc) || (InRead(pc) && !pc.Initialised?)
    then Finish(l.(store := AfterThrow(l.store, pc, stored)), Failed(StepFailed))
    else l
  }

  /* ---- the tab ---- */

  predicate AppendOf(c: Call, w: string) {
    c.kind.Append? && c.wallet == w
  }

  function PointerOf(tab: Tab, w: string): Option<Cid> {
    if w in tab.pointer then Some(tab.pointer[w]) else None
  }

  /** A waiting call may go on once the promise it awaits has been released. */
  predicate Enabled(tab: Tab, i: nat) {
    && i < |tab.calls|
    && !tab.calls[i].pc.Done?
    && (tab.calls[i].pc.Waiting? ==>
          var p := tab.calls[i].previous;
          p.Some? ==> p.value < |tab.calls| && tab.calls[p.value].pc.Done?)
  }

  function View(s: State, i: nat): Local
    requires i < |s.tab.calls|
  {
    Local(s.store, PointerOf(s.tab, s.tab.calls[i].wallet), s.tab.calls[i])
  }

  function PutPointer(pointer: map<string, Cid>, w: string, p: Option<Cid>): map<string, Cid> {
    if p.Some? then pointer[w := p.value] else pointer
  }

  function Put(s: State, i: nat, l: Local): State
    requires i < |s.tab.calls|
  {
    State(l.store, Tab(PutPointer(s.tab.pointer, s.tab.calls[i].wallet, l.pointer), s.tab.tail,
                       s.tab.calls[i := l.call]))
  }

  function NewCall(kind: CallKind, wallet: string, signature: Bytes, head: Option<Cid>, previous: Option<nat>): Call {
    Call(kind, wallet, signature, head, previous, Waiting, None, None, None, false, false)
  }

  function TailOf(tab: Tab, w: string): Option<nat> {
    if w in tab.tail then Some(tab.tail[w]) else None
  }

  function Step(s: State, a: Action): State {
    match a
    case InvokeAppend(rawWallet, signature, draft, head, unlock) =>
      var w := Trim(rawWallet);
      if w == [] || !unlock then s
      else
        var c := NewCall(Append(draft), w, signature, head, TailOf(s.tab, w));
        State(s.store, Tab(s.tab.pointer, s.tab.tail[w := |s.tab.calls|], s.tab.calls + [c]))
    case InvokeLoad(rawWallet, signature, head, unlock, env) =>
      var w := Trim(rawWallet);
      if w == [] || !unlock then s
      else
        var l := StartBody(Local(s.store, PointerOf(s.tab, w), NewCall(Load, w, signature, head, None)), env);
        State(s.store, s.tab.(calls := s.tab.calls + [l.call]))
    case Advance(i, env) => if Enabled(s.tab, i) then Put(s, i, AdvanceLocal(View(s, i), env)) else s
    case Reject(i, stored) => if Enabled(s.tab, i) then Put(s, i, RejectLocal(View(s, i), stored)) else s
    case SetPointer(rawWallet, cid) =>
      var w := Trim(rawWallet);
      if Trim(cid) == [] || w == [] || HasSpace(w) then s
      else State(s.store, s.tab.(pointer := s.tab.pointer[w := Trim(cid)]))
  }

  function Run(s: State, actions: seq<Action>): State {
    if actions == [] then s else Step(Run(s, actions[..|actions| - 1]), actions[|actions| - 1])
  }

  lemma {:induction false} RunSplit(s: State, a: seq<Action>, b: seq<Action>)
    ensures Run(s, a + b) == Run(Run(s, a), b)
  {
    if b == [] {
      assert a + b == a;
    } else {
      assert (a + b)[..|a + b| - 1] == a + b[..|b| - 1];
      RunSplit(s, a, b[..|b| - 1]);
    }
  }
}
