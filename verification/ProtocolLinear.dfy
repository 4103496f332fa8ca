/**
 * Concurrent appends refine a sequential fold: whatever the interleaving and the failures,
 * the manifest behind each pointer is what the successful calls produce one after the
 * other in call order.
 */
module ProtocolLinear {
  import opened Wrappers
  import opened Terms
  import opened AsciiText
  import opened KeyDerivation
  import opened Manifest
  import opened ManifestCrypto
  import opened Protocol
  import opened ProtocolSafety
  import opened ProtocolMutex

  /* ---- the sequential specification ---- */

  /** The manifest behind the pointer of `w`. */
  function Behind(s: State, w: string): Option<ManifestV1> {
    if w in s.tab.pointer && Good(s.store, s.tab.pointer[w], w)
    then Some(ManifestAt(s.store, s.tab.pointer[w], w))
    else None
  }

  /** What one call contributes: a fresh empty manifest, its merge, both, or nothing. */
  function Effect(m: Option<ManifestV1>, c: Call, w: string): Option<ManifestV1> {
    if c.wallet != w then m
    else
      var base := if c.initialised then Some(EmptyOf(c)) else m;
      if c.committed && c.op.Some? && base.Some? then Some(Apply(base.value, c.op.value)) else base
  }

  /** The calls of `w`, one after the other in the order they were made. */
  function Replay(start: Option<ManifestV1>, calls: seq<Call>, w: string): Option<ManifestV1> {
    if calls == [] then start
    else Effect(Replay(start, calls[..|calls| - 1], w), calls[|calls| - 1], w)
  }

  /**
   * An initialising load may be answered: its wallet still has no pointer, earlier appends
   * of the wallet are done and no later one has begun.
   */
  predicate Undisturbed(tab: Tab, i: nat)
    requires i < |tab.calls|
  {
    var w := tab.calls[i].wallet;
    && PointerOf(tab, w) == None
    && forall k | 0 <= k < |tab.calls| && AppendOf(tab.calls[k], w) ::
        if k < i then tab.calls[k].pc.Done? else !Holds(tab.calls[k])
  }

  /** The step hands a direct initialisation the CID of its upload. */
  predicate AnswersInit(s: State, a: Action) {
    && a.Advance? && a.i < |s.tab.calls| && s.tab.calls[a.i].kind.Load? && s.tab.calls[a.i].pc.InitUpload?
    && CanStore(s.store, a.env.cid, s.tab.calls[a.i].pc.bytes)
  }

  /** Nobody restores a pointer, and direct initialisations are answered undisturbed. */
  predicate Disciplined(s: State, a: Action) {
    !a.SetPointer? && (AnswersInit(s, a) ==> Undisturbed(s.tab, a.i))
  }

  predicate DisciplinedRun(s: State, actions: seq<Action>) {
    actions != [] ==>
      DisciplinedRun(s, actions[..|actions| - 1])
          && Disciplined(Run(s, actions[..|actions| - 1]), actions[|actions| - 1])
  }

  /* ---- the invariant ---- */

  /** A running append knows the pointer as it is. */
  predicate Current(c: Call, pointer: Option<Cid>) {
    Holds(c) ==>
      && (InInit(c.pc) ==> pointer == None)
      && (c.pc.Initialised? ==> pointer.Some?)
      && ((InRead(c.pc) && !c.pc.Initialised?) || InWrite(c.pc) ==> c.cid.Some? && pointer == c.cid)
  }

  /** What moved the pointer of a wallet left one, and nothing takes a pointer away. */
  predicate Pointed(tab: Tab) {
    forall i | 0 <= i < |tab.calls| && (tab.calls[i].initialised || tab.calls[i].committed) ::
        tab.calls[i].wallet in tab.pointer
  }

  /** A load that initialised did so after every earlier append of its wallet was done. */
  predicate AfterEarlier(calls: seq<Call>) {
    forall j, k | 0 <= j < k < |calls| && calls[k].kind.Load? && calls[k].initialised
        && AppendOf(calls[j], calls[k].wallet) ::
      calls[j].pc.Done?
  }

  predicate AllCurrent(tab: Tab) {
    forall i | 0 <= i < |tab.calls| :: Current(tab.calls[i], PointerOf(tab, tab.calls[i].wallet))
  }

  ghost predicate Folded(start: State, s: State) {
    forall w :: Behind(s, w) == Replay(Behind(start, w), s.tab.calls, w)
  }

  ghost predicate Linear(start: State, s: State) {
    && Safe(s) && Queue(s.tab) && AllCurrent(s.tab) && Pointed(s.tab) && AfterEarlier(s.tab.calls)
    && Folded(start, s)
  }

  /* ---- one step of one call ---- */

  function EntriesOf(m: Option<ManifestV1>): seq<Entry> {
    if m.Some? then m.value.entries else []
  }

  function LocalBehind(l: Local): Option<ManifestV1> {
    if l.pointer.Some? && Good(l.store, l.pointer.value, l.call.wallet)
    then Some(ManifestAt(l.store, l.pointer.value, l.call.wallet))
    else None
  }

  /** Neither the pointer nor this call's contribution changed. */
  predicate Still(before: Local, after: Local) {
    && after.pointer == before.pointer
    && after.call.initialised == before.call.initialised && after.call.committed == before.call.committed
    && (before.call.initialised ==> after.call.createdAt == before.call.createdAt)
    && (before.call.committed ==>
          after.call.op == before.call.op && Reported(after.call.pc) == Reported(before.call.pc))
  }

  function Reported(pc: Pc): Option<Outcome> {
    if pc.Releasing? || pc.Done? then Some(pc.outcome) else None
  }

  /** The pointer was absent and now names this call's empty manifest. */
  predicate Initialises(before: Local, after: Local) {
    && before.pointer == None && !before.call.initialised && !before.call.committed
    && after.call.initialised && !after.call.committed
    && LocalBehind(after) == Some(EmptyOf(after.call))
  }

  /** The pointer now names the old manifest with this call's operation applied, as reported. */
  predicate Commits(before: Local, after: Local) {
    && LocalBehind(before).Some? && !before.call.committed && after.call.committed && after.call.op.Some?
    && after.call.initialised == before.call.initialised && after.call.createdAt == before.call.createdAt
    && LocalBehind(after) == Some(Apply(LocalBehind(before).value, after.call.op.value))
    && after.pointer.Some? && Reported(after.call.pc) == Some(Appended(LocalBehind(after).value, after.pointer.value))
  }

  ghost predicate Moves(before: Local, after: Local) {
    && Kept(before, after)
    && (Still(before, after) || Initialises(before, after) || (Holds(before.call) && Commits(before, after)))
    && Current(after.call, after.pointer)
  }

  ghost predicate Ready(l: Local) {
    CallTrue(l.store, l.call) && PointerTrue(l.store, l.pointer, l.call.wallet) && Current(l.call, l.pointer)
  }

  /** A direct initialisation finds no pointer when its upload is answered. */
  predicate Timely(l: Local, env: Env) {
    l.call.kind.Load? && l.call.pc.InitUpload? && CanStore(l.store, env.cid, l.call.pc.bytes) ==> l.pointer == None
  }

  lemma StartMoves(l: Local, env: Env)
    requires Ready(l) && l.call.pc.Waiting?
    ensures Moves(l, StartBody(l, env))
  {
    hide CallTrue, Good;
    FlagsOf(l.store, l.call);
    CallOwner(l.store, l.call);
    StartSafe(l, env);
  }

  lemma FlagsOf(store: Store, c: Call)
    requires CallTrue(store, c)
    ensures FlagsTrue(c)
  {
  }

  lemma CallOwner(store: Store, c: Call)
    requires CallTrue(store, c)
    ensures Trim(c.wallet) == c.wallet != [] && c.signature == RootSignature(c.wallet)
  {
    hide PcTrue, RootSignature;
  }

  lemma InitMoves(l: Local, env: Env)
    requires Ready(l) && InInit(l.call.pc) && Timely(l, env)
    ensures Moves(l, InitPhase(l, env))
  {
    hide LoadFor, BuildWrapEnvelope, EncryptManifest, DeriveVaultRootKek, DeriveManifestKey, RootSignature, Trim,
         Encode;
    InitSafe(l, env);
  }

  lemma ReadMoves(l: Local, env: Env)
    requires Ready(l) && InRead(l.call.pc)
    ensures Moves(l, ReadPhase(l, env))
  {
    hide CallTrue, Good, ParseJson, UnwrapManifestKey, ReadManifest, Apply, NewEntry, Trim, Truthy;
    FlagsOf(l.store, l.call);
    ReadSafe(l, env);
  }

  lemma WriteMoves(l: Local, env: Env)
    requires Ready(l) && (InWrite(l.call.pc) || l.call.pc.Releasing?)
    ensures Moves(l, WritePhase(l, env))
  {
    hide LoadFor, BuildWrapEnvelope, EncryptManifest, DeriveVaultRootKek, RootSignature, Trim, Encode, Apply, Is32;
    WriteSafe(l, env);
  }

  lemma AdvanceMoves(l: Local, env: Env)
    requires Ready(l) && !l.call.pc.Done? && Timely(l, env)
    ensures Moves(l, AdvanceLocal(l, env))
  {
    hide Ready, Timely, Moves, StartBody, InitPhase, ReadPhase, WritePhase;
    if l.call.pc.Waiting? {
      StartMoves(l, env);
    } else if InInit(l.call.pc) {
      InitMoves(l, env);
    } else if InRead(l.call.pc) {
      ReadMoves(l, env);
    } else {
      WriteMoves(l, env);
    }
  }

  lemma RejectMoves(l: Local, stored: Option<Cid>)
    requires Ready(l)
    ensures Moves(l, RejectLocal(l, stored))
  {
    hide CallTrue, Good;
    FlagsOf(l.store, l.call);
    RejectSafe(l, stored);
  }

  /* ---- the fold under one step ---- */

  /** A call that has contributed nothing to `w`. */
  predicate Idle(c: Call, w: string) {
    c.wallet == w ==> !c.initialised && !c.committed
  }

  lemma {:induction false} ReplaySame(start: Option<ManifestV1>, calls: seq<Call>, i: nat, c: Call, w: string)
    requires i < |calls| && forall m :: Effect(m, c, w) == Effect(m, calls[i], w)
    ensures Replay(start, calls[i := c], w) == Replay(start, calls, w)
  {
    hide Effect;
    var n := |calls| - 1;
    if i < n {
      assert calls[i := c][..n] == calls[..n][i := c];
      ReplaySame(start, calls[..n], i, c, w);
    } else {
      assert calls[i := c][..n] == calls[..n];
    }
  }

  lemma {:induction false} ReplayIdleTail(start: Option<ManifestV1>, calls: seq<Call>, i: nat, w: string)
    requires i < |calls| && forall k | i < k < |calls| :: Idle(calls[k], w)
    ensures Replay(start, calls, w) == Effect(Replay(start, calls[..i], w), calls[i], w)
  {
    var n := |calls| - 1;
    if i < n {
      assert calls[..n][..i] == calls[..i] && calls[..n][i] == calls[i];
      ReplayIdleTail(start, calls[..n], i, w);
    }
  }

  lemma ReplayIdleCall(start: Option<ManifestV1>, calls: seq<Call>, c: Call, w: string)
    requires Idle(c, w)
    ensures Replay(start, calls + [c], w) == Replay(start, calls, w)
  {
    assert (calls + [c])[..|calls|] == calls;
  }

  lemma StillEffect(before: Local, after: Local, m: Option<ManifestV1>, w: string)
    requires Still(before, after) && before.call.wallet == after.call.wallet
    ensures Effect(m, after.call, w) == Effect(m, before.call, w)
  {
    hide Apply, EmptyManifest;
  }

  lemma LaterCallIdle(s: State, i: nat, k: nat)
    requires Safe(s) && InOrder(s.tab.calls) && Pointed(s.tab) && AfterEarlier(s.tab.calls) && i < k < |s.tab.calls|
    requires Holds(s.tab.calls[i]) || PointerOf(s.tab, s.tab.calls[i].wallet) == None
    ensures Idle(s.tab.calls[k], s.tab.calls[i].wallet)
  {
    hide CallTrue, Good;
    var c := s.tab.calls[k];
    assert CallTrue(s.store, c);
    FlagsOf(s.store, c);
  }

  /**
   * While an append holds the mutex, and while there is no pointer, no later call of the
   * wallet has contributed anything.
   */
  lemma LaterCallsIdle(start: State, s: State, i: nat)
    requires Linear(start, s) && i < |s.tab.calls|
    requires Holds(s.tab.calls[i]) || PointerOf(s.tab, s.tab.calls[i].wallet) == None
    ensures forall k | i < k < |s.tab.calls| :: Idle(s.tab.calls[k], s.tab.calls[i].wallet)
  {
    hide Folded, AllCurrent, Chained, Safe, InOrder, Pointed, AfterEarlier, Idle, Holds;
    forall k | i < k < |s.tab.calls| ensures Idle(s.tab.calls[k], s.tab.calls[i].wallet) {
      LaterCallIdle(s, i, k);
    }
  }

  /** Stores that grow keep the manifest behind every good CID. */
  lemma BehindGrows(s: State, store: Store, w: string)
    requires Safe(s) && Grows(s.store, store)
    ensures Behind(State(store, s.tab), w) == Behind(s, w)
  {
    hide LoadFor, CallTrue;
  }

  lemma PutBehind(s: State, i: nat, l: Local, w: string)
    requires Safe(s) && i < |s.tab.calls| && Kept(View(s, i), l)
    requires l.pointer == None ==> View(s, i).pointer == None
    ensures w != s.tab.calls[i].wallet ==> Behind(Put(s, i, l), w) == Behind(s, w)
    ensures w == s.tab.calls[i].wallet ==> Behind(Put(s, i, l), w) == LocalBehind(l)
    ensures w == s.tab.calls[i].wallet ==> Behind(s, w) == LocalBehind(View(s, i))
  {
    hide LoadFor, CallTrue;
    BehindGrows(s, l.store, w);
  }

  /** The fold follows one step of one call. */
  lemma PutReplay(start: State, s: State, i: nat, l: Local, w: string)
    requires Linear(start, s) && Enabled(s.tab, i) && Moves(View(s, i), l)
    ensures Behind(Put(s, i, l), w) == Replay(Behind(start, w), Put(s, i, l).tab.calls, w)
    ensures EntriesOf(Behind(s, w)) <= EntriesOf(Behind(Put(s, i, l), w))
    ensures Behind(s, w).Some? ==> Behind(Put(s, i, l), w).Some?
  {
    hide Good, CallTrue, Queue, Apply, Replay, Behind, LocalBehind, Current;
    var before, calls := View(s, i), s.tab.calls;
    MoveKeepsPointer(before, l);
    PutBehind(s, i, l, w);
    assert Behind(s, w) == Replay(Behind(start, w), calls, w);
    if w != before.call.wallet {
      ReplaySame(Behind(start, w), calls, i, l.call, w);
    } else if Still(before, l) {
      StillBehind(before, l);
      forall m ensures Effect(m, l.call, w) == Effect(m, calls[i], w) { StillEffect(before, l, m, w); }
      ReplaySame(Behind(start, w), calls, i, l.call, w);
    } else {
      LaterCallsIdle(start, s, i);
      ReplayIdleTail(Behind(start, w), calls, i, w);
      var after := calls[i := l.call];
      assert after[..i] == calls[..i];
      ReplayIdleTail(Behind(start, w), after, i, w);
      if Commits(before, l) {
        ApplyExtends(LocalBehind(before).value, l.call.op.value);
      } else {
        AbsentBehind(before);
      }
    }
  }

  lemma MoveKeepsPointer(before: Local, after: Local)
    requires Moves(before, after)
    ensures after.pointer == None ==> before.pointer == None
  {
    hide Good, CallTrue;
  }

  lemma StillBehind(before: Local, after: Local)
    requires Still(before, after) && Kept(before, after) && PointerTrueHere(before)
    ensures LocalBehind(after) == LocalBehind(before)
  {
    hide LoadFor, CallTrue;
  }

  predicate PointerTrueHere(l: Local) {
    PointerTrue(l.store, l.pointer, l.call.wallet)
  }

  lemma AbsentBehind(l: Local)
    ensures l.pointer == None ==> LocalBehind(l) == None
  {
  }

  lemma ApplyExtends(m: ManifestV1, op: MergeOp)
    ensures m.entries <= Apply(m, op).entries
    ensures Contains(Apply(m, op).entries, op.entry)
    ensures PairwiseDistinct(m.entries) ==> PairwiseDistinct(Apply(m, op).entries)
  {
    var r := MergeEntries(m.entries, op.entry);
    if !Contains(m.entries, op.entry) {
      assert Clash(r[|m.entries|], op.entry);
    }
    if PairwiseDistinct(m.entries) {
      MergeKeepsDistinct(m.entries, op.entry);
    }
  }

  /**
   * Why loads that initialise must be kept out: such a load runs outside the mutex, and
   * when its upload arrives the wallet is left with an empty manifest, whatever it had before.
   */
  lemma LateInitialisationEmpties(l: Local, env: Env)
    requires CallTrue(l.store, l.call) && l.call.pc.InitUpload? && CanStore(l.store, env.cid, l.call.pc.bytes)
    ensures LocalBehind(AdvanceLocal(l, env)) == Some(EmptyOf(l.call))
    ensures EntriesOf(LocalBehind(AdvanceLocal(l, env))) == []
  {
    hide LoadFor;
  }
}
