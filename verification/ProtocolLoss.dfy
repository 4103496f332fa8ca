/**
 * Exactly which runs lose entries. Without restores, entry lists only ever grow precisely if
 * no direct initialisation is answered after an append of its wallet has committed; in those
 * runs the entries of a wallet are what its committed appends contribute in call order.
 */
module ProtocolLoss {
  import opened Wrappers
  import opened Terms
  import opened AsciiText
  import opened KeyDerivation
  import opened Manifest
  import opened ManifestCrypto
  import opened Protocol
  import opened ProtocolSafety
  import opened ProtocolMutex
  import opened ProtocolLinear
  import opened ProtocolResults
  import opened ProtocolOutcomes
  import opened ProtocolInit

  /** Nobody restores a pointer, and no direct initialisation is answered after a commit of its wallet. */
  predicate Gentle(s: State, a: Action) {
    !a.SetPointer? && (AnswersInit(s, a) ==> !SomeCommitted(s.tab, s.tab.calls[a.i].wallet))
  }

  predicate GentleRun(s: State, actions: seq<Action>) {
    actions != [] ==>
      GentleRun(s, actions[..|actions| - 1]) && Gentle(Run(s, actions[..|actions| - 1]), actions[|actions| - 1])
  }

  /** The entries of `w` with what each committed append added, in call order. */
  function Gathered(entries: seq<Entry>, calls: seq<Call>, w: string): seq<Entry> {
    if calls == [] then entries
    else
      var before, c := Gathered(entries, calls[..|calls| - 1], w), calls[|calls| - 1];
      if c.wallet == w && c.committed && c.op.Some? then MergeEntries(before, c.op.value.entry) else before
  }

  /* ---- the fold ---- */

  predicate SameGift(a: Call, b: Call) {
    a.wallet == b.wallet && a.committed == b.committed && (a.committed ==> a.op == b.op)
  }

  lemma {:induction false} GatheredSame(entries: seq<Entry>, calls: seq<Call>, i: nat, c: Call, w: string)
    requires i < |calls| && (SameGift(calls[i], c) || (calls[i].wallet != w && c.wallet != w))
    ensures Gathered(entries, calls[i := c], w) == Gathered(entries, calls, w)
  {
    hide MergeEntries;
    var n := |calls| - 1;
    if i < n {
      assert calls[i := c][..n] == calls[..n][i := c];
      GatheredSame(entries, calls[..n], i, c, w);
    } else {
      assert calls[i := c][..n] == calls[..n];
    }
  }

  predicate NoneCommitted(calls: seq<Call>, from: nat, w: string) {
    forall k | from <= k < |calls| && calls[k].wallet == w :: !calls[k].committed
  }

  lemma {:induction false} GatheredTail(entries: seq<Entry>, calls: seq<Call>, n: nat, w: string)
    requires n <= |calls| && NoneCommitted(calls, n, w)
    ensures Gathered(entries, calls, w) == Gathered(entries, calls[..n], w)
  {
    hide MergeEntries;
    if n < |calls| {
      assert calls[..|calls| - 1][..n] == calls[..n];
      GatheredTail(entries, calls[..|calls| - 1], n, w);
    } else {
      assert calls[..n] == calls;
    }
  }

  /** A call commits while no call after it has: its entry is merged last. */
  lemma GatheredCommit(entries: seq<Entry>, calls: seq<Call>, i: nat, c: Call)
    requires i < |calls| && !calls[i].committed && c.committed && c.op.Some? && c.wallet == calls[i].wallet
    requires NoneCommitted(calls, i + 1, c.wallet)
    ensures Gathered(entries, calls[i := c], c.wallet) ==
        MergeEntries(Gathered(entries, calls, c.wallet), c.op.value.entry)
  {
    hide MergeEntries;
    var after := calls[i := c];
    GatheredTail(entries, calls, i, c.wallet);
    GatheredTail(entries, after, i + 1, c.wallet);
    assert after[..i + 1][..i] == calls[..i];
  }

  lemma GatheredNew(entries: seq<Entry>, calls: seq<Call>, c: Call, w: string)
    requires !c.committed
    ensures Gathered(entries, calls + [c], w) == Gathered(entries, calls, w)
  {
    hide MergeEntries;
    assert (calls + [c])[..|calls|] == calls;
  }

  lemma {:induction false} GatheredNothing(calls: seq<Call>, w: string)
    requires NoneCommitted(calls, 0, w)
    ensures Gathered([], calls, w) == []
  {
    if calls != [] {
      GatheredNothing(calls[..|calls| - 1], w);
    }
  }

  /* ---- the invariant ---- */

  /** A running append knows the entries behind its pointer, if not the pointer itself. */
  predicate LocalKnows(l: Local, someCommitted: bool) {
    var c := l.call;
    Holds(c) ==>
      && (InInit(c.pc) ==> !someCommitted)
      && (c.pc.Initialised? ==> l.pointer.Some?)
      && ((InRead(c.pc) && !c.pc.Initialised?) || InWrite(c.pc) ==>
            c.cid.Some? && Good(l.store, c.cid.value, c.wallet)
            && ManifestAt(l.store, c.cid.value, c.wallet).entries == EntriesOf(LocalBehind(l)))
  }

  predicate Known(s: State) {
    forall k | 0 <= k < |s.tab.calls| :: LocalKnows(View(s, k), SomeCommitted(s.tab, s.tab.calls[k].wallet))
  }

  ghost predicate GatheredUp(start: State, s: State) {
    forall w :: EntriesOf(Behind(s, w)) == Gathered(EntriesOf(Behind(start, w)), s.tab.calls, w)
  }

  ghost predicate CommittedPointed(tab: Tab) {
    forall w :: SomeCommitted(tab, w) ==> w in tab.pointer
  }

  ghost predicate Keeping(start: State, s: State) {
    && Safe(s) && Queue(s.tab) && CreatedWithout(start, s) && Known(s) && CommittedPointed(s.tab)
    && GatheredUp(start, s)
  }

  /* ---- one step of one call ---- */

  lemma AnsweredBehind(l: Local, env: Env)
    requires CallTrue(l.store, l.call) && AnswersUpload(l, env)
    ensures var after := AdvanceLocal(l, env);
            && (l.call.pc.InitUpload? ==>
                  LocalBehind(after) == Some(EmptyOf(l.call)) && after.call.committed == l.call.committed)
            && (l.call.pc.WriteUpload? ==> LocalBehind(after) == Some(l.call.pc.manifest) && after.call.committed)
            && after.call.op == l.call.op && after.call.wallet == l.call.wallet
            && (InRead(after.call.pc) ==> after.call.pc.Initialised?) && !InWrite(after.call.pc)
                && !InInit(after.call.pc)
  {
    hide LoadFor, Apply, Trim, HasSpace;
  }

  lemma UnansweredFlags(l: Local, env: Env)
    requires FlagsTrue(l.call) && !AnswersUpload(l, env)
    ensures SameGift(l.call, AdvanceLocal(l, env).call)
  {
    hide BuildWrapEnvelope, EncryptManifest, DeriveVaultRootKek, DeriveManifestKey, EmptyOf, ReadPhase, Trim, HasSpace,
         CanStore;
    if InRead(l.call.pc) {
      ReadCommits(l, env);
    }
  }

  lemma ReadCommits(l: Local, env: Env)
    requires InRead(l.call.pc)
    ensures ReadPhase(l, env).call.committed == l.call.committed && ReadPhase(l, env).call.wallet == l.call.wallet
  {
    hide UnwrapManifestKey, ReadManifest, ParseJson, Apply, NewEntry, Truthy, Trim;
  }

  lemma StartKnows(l: Local, env: Env, someCommitted: bool)
    requires CallTrue(l.store, l.call) && PointerTrue(l.store, l.pointer, l.call.wallet) && l.call.pc.Waiting?
    requires l.pointer == None ==> !someCommitted
    ensures LocalKnows(StartBody(l, env), someCommitted)
  {
    hide CallTrue, LoadFor, HasSpace;
  }

  predicate Uses(pc: Pc) {
    (InRead(pc) && !pc.Initialised?) || InWrite(pc)
  }

  /** The call goes on with the CID it has, or takes the one its pointer names. */
  predicate GoesOn(before: Local, after: Local) {
    && after.store == before.store && after.pointer == before.pointer && after.call.wallet == before.call.wallet
    && (Holds(after.call) ==>
          && Holds(before.call)
          && (InInit(after.call.pc) ==> InInit(before.call.pc))
          && (after.call.pc.Initialised? ==> before.call.pc.Initialised?)
          && (Uses(after.call.pc) ==>
                || (Uses(before.call.pc) && after.call.cid == before.call.cid)
                || (before.call.pc.Initialised? && after.call.cid == before.pointer)))
  }

  lemma GoesOnKnowing(before: Local, after: Local, someCommitted: bool)
    requires LocalKnows(before, someCommitted) && GoesOn(before, after)
    requires PointerTrue(before.store, before.pointer, before.call.wallet)
    ensures LocalKnows(after, someCommitted)
  {
    hide LoadFor;
  }

  lemma ReadGoesOn(l: Local, env: Env)
    requires InRead(l.call.pc)
    ensures GoesOn(l, ReadPhase(l, env))
  {
    hide UnwrapManifestKey, ReadManifest, ParseJson, Apply, NewEntry, Truthy, Trim;
  }

  lemma OtherGoesOn(l: Local, env: Env)
    requires !AnswersUpload(l, env) && (InInit(l.call.pc) || InWrite(l.call.pc) || l.call.pc.Releasing?)
    ensures GoesOn(l, AdvanceLocal(l, env))
  {
    hide BuildWrapEnvelope, EncryptManifest, DeriveVaultRootKek, DeriveManifestKey, EmptyOf, CanStore;
  }

  /** A step without an answered upload leaves what the call knows. */
  lemma UnansweredKnows(l: Local, env: Env, someCommitted: bool)
    requires CallTrue(l.store, l.call) && PointerTrue(l.store, l.pointer, l.call.wallet) && !l.call.pc.Done?
    requires LocalKnows(l, someCommitted) && !AnswersUpload(l, env) && (l.pointer == None ==> !someCommitted)
    ensures LocalKnows(AdvanceLocal(l, env), someCommitted)
  {
    hide LocalKnows, GoesOn, CallTrue, Good, StartBody, ReadPhase, InitPhase, WritePhase, AnswersUpload;
    if l.call.pc.Waiting? {
      StartKnows(l, env, someCommitted);
    } else if InRead(l.call.pc) {
      ReadGoesOn(l, env);
      GoesOnKnowing(l, ReadPhase(l, env), someCommitted);
    } else {
      OtherGoesOn(l, env);
      GoesOnKnowing(l, AdvanceLocal(l, env), someCommitted);
    }
  }

  /** A step keeps what a call knows if the entries behind its pointer stay the same. */
  lemma StillKnows(before: Local, after: Local, someCommitted: bool, later: bool)
    requires LocalKnows(before, someCommitted) && Grows(before.store, after.store) && after.call == before.call
    requires before.pointer.Some? ==> after.pointer.Some?
    requires EntriesOf(LocalBehind(after)) == EntriesOf(LocalBehind(before)) && (later ==> someCommitted)
    ensures LocalKnows(after, later)
  {
    hide LoadFor, LocalBehind;
  }

  /* ---- the tab ---- */

  lemma CommittedFlagsOf(store: Store, c: Call)
    requires CallTrue(store, c)
    ensures c.committed ==> c.op.Some?
    ensures c.pc.Waiting? || c.kind.Load? || InInit(c.pc) || InRead(c.pc) || InWrite(c.pc) ==> !c.committed
  {
    hide PcTrue;
  }

  /** While an append holds the mutex, no later call of its wallet has committed. */
  lemma NoneLaterCommitted(s: State, i: nat)
    requires Safe(s) && InOrder(s.tab.calls) && i < |s.tab.calls| && Holds(s.tab.calls[i])
    ensures NoneCommitted(s.tab.calls, i + 1, s.tab.calls[i].wallet)
  {
    hide CallTrue, Good, Holds;
    forall k | i + 1 <= k < |s.tab.calls| && s.tab.calls[k].wallet == s.tab.calls[i].wallet
        ensures !s.tab.calls[k].committed {
      assert CallTrue(s.store, s.tab.calls[k]);
      CommittedFlagsOf(s.store, s.tab.calls[k]);
      HoldsPc(s.tab.calls[i]);
    }
  }

  lemma HoldsPc(c: Call)
    ensures Holds(c) ==> c.kind.Append? && !c.pc.Done?
  {
  }

  /** What a step of call `i` has to show for its wallet, so that all wallets keep their entries. */
  predicate Contributes(before: Local, after: Local) {
    || (SameGift(before.call, after.call) && EntriesOf(LocalBehind(after)) == EntriesOf(LocalBehind(before)))
    || (Holds(before.call) && !before.call.committed && after.call.committed && after.call.op.Some?
          && after.call.wallet == before.call.wallet
        && EntriesOf(LocalBehind(after)) == MergeEntries(EntriesOf(LocalBehind(before)), after.call.op.value.entry))
  }

  lemma PutGathered(start: State, s: State, i: nat, l: Local, w: string)
    requires Safe(s) && InOrder(s.tab.calls) && GatheredUp(start, s) && i < |s.tab.calls|
    requires Kept(View(s, i), l) && Contributes(View(s, i), l) && (l.pointer == None ==> View(s, i).pointer == None)
    ensures EntriesOf(Behind(Put(s, i, l), w)) == Gathered(EntriesOf(Behind(start, w)), Put(s, i, l).tab.calls, w)
    ensures EntriesOf(Behind(s, w)) <= EntriesOf(Behind(Put(s, i, l), w))
  {
    hide Good, CallTrue, InOrder, Behind, LocalBehind, MergeEntries, Gathered, Holds;
    PutBehind(s, i, l, w);
    var calls, v := s.tab.calls, s.tab.calls[i].wallet;
    assert EntriesOf(Behind(s, w)) == Gathered(EntriesOf(Behind(start, w)), calls, w);
    if w != v || SameGift(calls[i], l.call) {
      GatheredSame(EntriesOf(Behind(start, w)), calls, i, l.call, w);
    } else {
      NoneLaterCommitted(s, i);
      GatheredCommit(EntriesOf(Behind(start, w)), calls, i, l.call);
      MergePrefix(EntriesOf(Behind(s, w)), l.call.op.value.entry);
    }
  }

  lemma MergePrefix(entries: seq<Entry>, e: Entry)
    ensures entries <= MergeEntries(entries, e)
  {
  }

  lemma BehindStays(before: Local, after: Local)
    requires Kept(before, after) && after.pointer == before.pointer && PointerTrueHere(before)
    ensures LocalBehind(after) == LocalBehind(before)
  {
    hide LoadFor, CallTrue;
  }

  lemma InitContributes(start: State, s: State, i: nat, env: Env)
    requires Keeping(start, s) && i < |s.tab.calls| && s.tab.calls[i].pc.InitUpload? && AnswersUpload(View(s, i), env)
    requires Gentle(s, Advance(i, env))
    ensures Contributes(View(s, i), AdvanceLocal(View(s, i), env))
  {
    hide AdvanceLocal, CallTrue, Good, Queue, Behind, CanStore, Replay, MergeEntries, LocalBehind;
    var c := s.tab.calls[i];
    assert CallTrue(s.store, c);
    FlagsOf(s.store, c);
    AnsweredBehind(View(s, i), env);
    assert LocalKnows(View(s, i), SomeCommitted(s.tab, c.wallet));
    NoneMeansNone(s.tab, c.wallet);
    assert EntriesOf(Behind(s, c.wallet)) == Gathered(EntriesOf(Behind(start, c.wallet)), s.tab.calls, c.wallet);
    AbsentStart(start, c.wallet);
    GatheredNothing(s.tab.calls, c.wallet);
    OwnBehind(s, i);
  }

  lemma NoneMeansNone(tab: Tab, w: string)
    ensures !SomeCommitted(tab, w) ==> NoneCommitted(tab.calls, 0, w)
  {
  }

  lemma AbsentStart(start: State, w: string)
    ensures w !in start.tab.pointer ==> EntriesOf(Behind(start, w)) == []
  {
  }

  lemma OwnBehind(s: State, i: nat)
    requires i < |s.tab.calls|
    ensures LocalBehind(View(s, i)) == Behind(s, s.tab.calls[i].wallet)
  {
    hide LoadFor;
  }

  lemma WriteContributes(l: Local, env: Env, someCommitted: bool)
    requires CallTrue(l.store, l.call) && l.call.pc.WriteUpload? && AnswersUpload(l, env)
    requires LocalKnows(l, someCommitted)
    ensures Contributes(l, AdvanceLocal(l, env))
  {
    hide AdvanceLocal, LoadFor, CanStore, LocalBehind, MergeEntries;
    FlagsOf(l.store, l.call);
    AnsweredBehind(l, env);
  }

  lemma AdvanceContributes(start: State, s: State, i: nat, env: Env)
    requires Keeping(start, s) && Enabled(s.tab, i) && Gentle(s, Advance(i, env))
    ensures Kept(View(s, i), AdvanceLocal(View(s, i), env)) && Contributes(View(s, i), AdvanceLocal(View(s, i), env))
    ensures AdvanceLocal(View(s, i), env).pointer == None ==> View(s, i).pointer == None
  {
    hide AdvanceLocal, CallTrue, Good, Queue, GatheredUp, CanStore, LocalBehind, MergeEntries, Gentle, CreatedWithout,
         CommittedPointed, LocalKnows, Enabled;
    EnabledInRange(s.tab, i);
    var l := View(s, i);
    assert CallTrue(s.store, s.tab.calls[i]);
    ViewPointer(s, i);
    AdvanceSafe(l, env);
    PointerMoves(l, env);
    if !AnswersUpload(l, env) {
      FlagsOf(s.store, l.call);
      UnansweredFlags(l, env);
      BehindStays(l, AdvanceLocal(l, env));
    } else if l.call.pc.InitUpload? {
      InitContributes(start, s, i, env);
    } else {
      assert LocalKnows(l, SomeCommitted(s.tab, l.call.wallet));
      WriteContributes(l, env, SomeCommitted(s.tab, l.call.wallet));
    }
  }

  /* ---- what every call knows after a step ---- */

  lemma CommittedAfter(s: State, i: nat, l: Local, w: string)
    requires i < |s.tab.calls|
    requires (SameGift(s.tab.calls[i], l.call) || (l.call.wallet == s.tab.calls[i].wallet && w != l.call.wallet))
    ensures SomeCommitted(Put(s, i, l).tab, w) ==> SomeCommitted(s.tab, w)
  {
    if SomeCommitted(Put(s, i, l).tab, w) {
      var k :| 0 <= k < |s.tab.calls| && Put(s, i, l).tab.calls[k].wallet == w && Put(s, i, l).tab.calls[k].committed;
      assert s.tab.calls[k].wallet == w && s.tab.calls[k].committed;
    }
  }

  lemma OtherKnown(start: State, s: State, i: nat, l: Local, k: nat)
    requires Keeping(start, s) && Enabled(s.tab, i) && Kept(View(s, i), l) && Contributes(View(s, i), l)
    requires (l.pointer == None ==> View(s, i).pointer == None) && k < |s.tab.calls| && k != i
    ensures LocalKnows(View(Put(s, i, l), k), SomeCommitted(Put(s, i, l).tab, s.tab.calls[k].wallet))
  {
    hide Good, CallTrue, Chained, InOrder, Behind, LocalBehind, MergeEntries, GatheredUp, CreatedWithout,
         CommittedPointed, LocalKnows, SomeCommitted, Holds;
    var w := s.tab.calls[k].wallet;
    assert LocalKnows(View(s, k), SomeCommitted(s.tab, w));
    OwnBehind(s, k);
    OwnBehind(Put(s, i, l), k);
    PutBehind(s, i, l, w);
    if w == s.tab.calls[i].wallet && !SameGift(s.tab.calls[i], l.call) {
      OneHolds(s, i, k);
      NotHoldingKnows(View(Put(s, i, l), k), SomeCommitted(Put(s, i, l).tab, w));
    } else {
      CommittedAfter(s, i, l, w);
      StillKnows(View(s, k), View(Put(s, i, l), k), SomeCommitted(s.tab, w), SomeCommitted(Put(s, i, l).tab, w));
    }
  }

  lemma OneHolds(s: State, i: nat, k: nat)
    requires InOrder(s.tab.calls) && i < |s.tab.calls| && k < |s.tab.calls| && i != k
    requires s.tab.calls[i].wallet == s.tab.calls[k].wallet
    ensures Holds(s.tab.calls[i]) ==> !Holds(s.tab.calls[k])
  {
  }

  lemma NotHoldingKnows(l: Local, someCommitted: bool)
    requires !Holds(l.call)
    ensures LocalKnows(l, someCommitted)
  {
  }

  lemma PutKnown(start: State, s: State, i: nat, l: Local)
    requires Keeping(start, s) && Enabled(s.tab, i) && Kept(View(s, i), l) && Contributes(View(s, i), l)
    requires l.pointer == None ==> View(s, i).pointer == None
    requires LocalKnows(l, SomeCommitted(Put(s, i, l).tab, l.call.wallet))
    ensures Known(Put(s, i, l))
  {
    hide Keeping, Contributes, LocalKnows, SomeCommitted, Enabled, CallTrue, Good;
    EnabledInRange(s.tab, i);
    var t := Put(s, i, l);
    assert View(t, i) == l by { PutView(s, i, l); }
    forall k | 0 <= k < |t.tab.calls| ensures LocalKnows(View(t, k), SomeCommitted(t.tab, t.tab.calls[k].wallet)) {
      if k != i {
        OtherKnown(start, s, i, l, k);
      }
    }
  }

  lemma PutView(s: State, i: nat, l: Local)
    requires i < |s.tab.calls| && l.call.wallet == s.tab.calls[i].wallet
    requires (l.pointer == None ==> View(s, i).pointer == None)
    ensures View(Put(s, i, l), i) == l
  {
  }

  lemma PutPointedCommits(s: State, i: nat, l: Local)
    requires CommittedPointed(s.tab) && i < |s.tab.calls| && l.call.wallet == s.tab.calls[i].wallet
    requires SameGift(s.tab.calls[i], l.call) || l.pointer.Some?
    ensures CommittedPointed(Put(s, i, l).tab)
  {
    hide SomeCommitted;
    forall w | SomeCommitted(Put(s, i, l).tab, w) ensures w in Put(s, i, l).tab.pointer {
      if SameGift(s.tab.calls[i], l.call) || w != l.call.wallet {
        CommittedAfter(s, i, l, w);
      }
    }
  }

  lemma PutKeeping(start: State, s: State, i: nat, l: Local)
    requires Keeping(start, s) && Enabled(s.tab, i) && Kept(View(s, i), l) && Contributes(View(s, i), l)
    requires l.pointer == None ==> View(s, i).pointer == None
    requires LocalKnows(l, SomeCommitted(Put(s, i, l).tab, l.call.wallet))
    requires SameGift(s.tab.calls[i], l.call) || l.pointer.Some?
    requires Queue(Put(s, i, l).tab) && CreatedWithout(start, Put(s, i, l))
    ensures Keeping(start, Put(s, i, l))
    ensures forall w :: EntriesOf(Behind(s, w)) <= EntriesOf(Behind(Put(s, i, l), w))
  {
    hide Safe, Known, CreatedWithout, CommittedPointed, Contributes, LocalKnows, SomeCommitted, Enabled, CallTrue, Good,
         Put, View, Chained, InOrder;
    hide Behind, Gathered;
    EnabledInRange(s.tab, i);
    PutSafe(s, i, l);
    PutKnown(start, s, i, l);
    KeptWallet(s, i, l);
    PutPointedCommits(s, i, l);
    forall w
      ensures EntriesOf(Behind(Put(s, i, l), w)) == Gathered(EntriesOf(Behind(start, w)), Put(s, i, l).tab.calls, w)
      ensures EntriesOf(Behind(s, w)) <= EntriesOf(Behind(Put(s, i, l), w))
    {
      PutGathered(start, s, i, l, w);
    }
  }

  lemma KeptWallet(s: State, i: nat, l: Local)
    requires i < |s.tab.calls| && Kept(View(s, i), l)
    ensures l.call.wallet == s.tab.calls[i].wallet
  {
    hide CallTrue, Good;
  }

  /* ---- one action ---- */

  lemma AdvanceKnows(start: State, s: State, i: nat, env: Env)
    requires Keeping(start, s) && Enabled(s.tab, i) && Gentle(s, Advance(i, env))
    ensures var l := AdvanceLocal(View(s, i), env);
            && LocalKnows(l, SomeCommitted(Put(s, i, l).tab, l.call.wallet))
            && (SameGift(s.tab.calls[i], l.call) || l.pointer.Some?)
  {
    hide AdvanceLocal, CallTrue, Good, Queue, GatheredUp, CreatedWithout, LocalKnows, SomeCommitted, LocalBehind,
         Enabled, Gentle, CanStore;
    EnabledShape(s.tab, i);
    var l := AdvanceLocal(View(s, i), env);
    assert CallTrue(s.store, s.tab.calls[i]);
    FlagsOf(s.store, s.tab.calls[i]);
    ViewPointer(s, i);
    PointerMoves(View(s, i), env);
    assert LocalKnows(View(s, i), SomeCommitted(s.tab, s.tab.calls[i].wallet));
    if AnswersUpload(View(s, i), env) {
      AnsweredBehind(View(s, i), env);
      AnsweredKnows(l, SomeCommitted(Put(s, i, l).tab, l.call.wallet));
    } else {
      UnansweredFlags(View(s, i), env);
      CommittedAfter(s, i, l, l.call.wallet);
      UnansweredKnows(View(s, i), env, SomeCommitted(s.tab, s.tab.calls[i].wallet));
      KnowsLess(l, SomeCommitted(s.tab, s.tab.calls[i].wallet), SomeCommitted(Put(s, i, l).tab, l.call.wallet));
    }
  }

  lemma AnsweredKnows(l: Local, someCommitted: bool)
    requires l.pointer.Some? && (InRead(l.call.pc) ==> l.call.pc.Initialised?) && !InWrite(l.call.pc)
    requires !InInit(l.call.pc)
    ensures LocalKnows(l, someCommitted)
  {
    hide Good, LocalBehind;
  }

  lemma KnowsLess(l: Local, someCommitted: bool, later: bool)
    requires LocalKnows(l, someCommitted) && (later ==> someCommitted)
    ensures LocalKnows(l, later)
  {
    hide Good, LocalBehind;
  }

  lemma RejectContributes(s: State, i: nat, stored: Option<Cid>)
    requires Safe(s) && i < |s.tab.calls|
    ensures var l := RejectLocal(View(s, i), stored);
            && Kept(View(s, i), l) && Contributes(View(s, i), l) && SameGift(s.tab.calls[i], l.call)
            && l.pointer == View(s, i).pointer
  {
    hide CallTrue, Good, LocalBehind, RejectLocal, MergeEntries;
    assert CallTrue(s.store, s.tab.calls[i]);
    ViewPointer(s, i);
    RejectSafe(View(s, i), stored);
    RejectLeavesPointer(View(s, i), stored);
    RejectGift(View(s, i), stored);
    BehindStays(View(s, i), RejectLocal(View(s, i), stored));
  }

  lemma RejectGift(l: Local, stored: Option<Cid>)
    ensures SameGift(l.call, RejectLocal(l, stored).call)
  {
  }

  lemma RejectKnows(s: State, i: nat, stored: Option<Cid>, someCommitted: bool)
    requires i < |s.tab.calls| && LocalKnows(View(s, i), someCommitted)
    ensures LocalKnows(RejectLocal(View(s, i), stored), someCommitted)
  {
    hide LoadFor;
  }

  lemma CallKeeping(start: State, s: State, a: Action)
    requires Keeping(start, s) && Gentle(s, a) && (a.Advance? || a.Reject?)
    ensures Keeping(start, Step(s, a))
    ensures forall w :: EntriesOf(Behind(s, w)) <= EntriesOf(Behind(Step(s, a), w))
  {
    hide Enabled, AdvanceLocal, RejectLocal, Put, View, Queue, GatheredUp, Behind, Known, CallTrue, Good,
         CommittedPointed, CreatedWithout;
    hide LocalKnows, SomeCommitted, Contributes, Kept, Gentle, SameGift;
    StepQueue(s, a);
    StepCreatedWithout(start, s, a);
    if Enabled(s.tab, a.i) {
      EnabledShape(s.tab, a.i);
      ViewCall(s, a.i);
      if a.Advance? {
        AdvanceContributes(start, s, a.i, a.env);
        AdvanceKnows(start, s, a.i, a.env);
        PutKeeping(start, s, a.i, AdvanceLocal(View(s, a.i), a.env));
      } else {
        RejectContributes(s, a.i, a.stored);
        RejectKnowsAfter(start, s, a.i, a.stored);
        PutKeeping(start, s, a.i, RejectLocal(View(s, a.i), a.stored));
      }
    }
  }

  lemma RejectKnowsAfter(start: State, s: State, i: nat, stored: Option<Cid>)
    requires Keeping(start, s) && i < |s.tab.calls|
    ensures var l := RejectLocal(View(s, i), stored); LocalKnows(l, SomeCommitted(Put(s, i, l).tab, l.call.wallet))
  {
    hide LocalKnows, RejectLocal, CallTrue, Good, Queue, GatheredUp, CreatedWithout, SomeCommitted;
    var l := RejectLocal(View(s, i), stored);
    RejectGift(View(s, i), stored);
    CommittedAfter(s, i, l, l.call.wallet);
    assert LocalKnows(View(s, i), SomeCommitted(s.tab, s.tab.calls[i].wallet));
    RejectKnows(s, i, stored, SomeCommitted(s.tab, s.tab.calls[i].wallet));
    KnowsLess(l, SomeCommitted(s.tab, s.tab.calls[i].wallet), SomeCommitted(Put(s, i, l).tab, l.call.wallet));
  }

  lemma NewCommits(calls: seq<Call>, c: Call, before: Tab, after: Tab, w: string)
    requires before.calls == calls && after.calls == calls + [c] && !c.committed
    ensures SomeCommitted(after, w) ==> SomeCommitted(before, w)
  {
    if SomeCommitted(after, w) {
      var k :| 0 <= k < |after.calls| && after.calls[k].wallet == w && after.calls[k].committed;
      assert calls[k].wallet == w && calls[k].committed;
    }
  }

  lemma InvokeKeeping(start: State, s: State, t: State, c: Call)
    requires Keeping(start, s) && Safe(t) && Queue(t.tab) && CreatedWithout(start, t)
    requires t.store == s.store && t.tab.pointer == s.tab.pointer && t.tab.calls == s.tab.calls + [c] && !Holds(c)
    requires !c.committed
    ensures Keeping(start, t)
    ensures forall w :: Behind(t, w) == Behind(s, w)
  {
    hide Safe, Queue, CreatedWithout, Good, LocalKnows, SomeCommitted, Holds, Gathered;
    forall k | 0 <= k < |t.tab.calls| ensures LocalKnows(View(t, k), SomeCommitted(t.tab, t.tab.calls[k].wallet)) {
      if k < |s.tab.calls| {
        NewCommits(s.tab.calls, c, s.tab, t.tab, t.tab.calls[k].wallet);
        assert View(t, k) == View(s, k);
        KnowsLess(View(s, k), SomeCommitted(s.tab, s.tab.calls[k].wallet), SomeCommitted(t.tab, t.tab.calls[k].wallet));
      } else {
        NotHoldingKnows(View(t, k), SomeCommitted(t.tab, t.tab.calls[k].wallet));
      }
    }
    forall w ensures Behind(t, w) == Behind(s, w) && (SomeCommitted(t.tab, w) ==> w in t.tab.pointer)
      ensures EntriesOf(Behind(t, w)) == Gathered(EntriesOf(Behind(start, w)), t.tab.calls, w)
    {
      NewCommits(s.tab.calls, c, s.tab, t.tab, w);
      GatheredNew(EntriesOf(Behind(start, w)), s.tab.calls, c, w);
    }
  }

  lemma StepKeeping(start: State, s: State, a: Action)
    requires Keeping(start, s) && Honest(s, a) && Gentle(s, a)
    ensures Keeping(start, Step(s, a))
    ensures forall w :: EntriesOf(Behind(s, w)) <= EntriesOf(Behind(Step(s, a), w))
  {
    hide Queue, GatheredUp, Behind, Known, CallTrue, Good, CommittedPointed, CreatedWithout, Trim, StartBody,
         AdvanceLocal, RejectLocal, RootSignature, HasSpace;
    if a.Advance? || a.Reject? {
      CallKeeping(start, s, a);
    } else {
      StepSafe(s, a);
      StepQueue(s, a);
      StepCreatedWithout(start, s, a);
      if a.InvokeAppend? && Trim(a.wallet) != [] && a.unlock {
        InvokeKeeping(start, s, Step(s, a),
                      NewCall(Append(a.draft), Trim(a.wallet), a.signature, a.head, TailOf(s.tab, Trim(a.wallet))));
      } else if a.InvokeLoad? && Trim(a.wallet) != [] && a.unlock {
        var l := Local(s.store, PointerOf(s.tab, Trim(a.wallet)),
                       NewCall(Load, Trim(a.wallet), a.signature, a.head, None));
        StartShape(l, a.env);
        StartFlags(l, a.env);
        InvokeKeeping(start, s, Step(s, a), StartBody(l, a.env).call);
      }
    }
  }

  /* ---- runs ---- */

  lemma QuietKeeping(s: State)
    requires Safe(s) && Quiet(s)
    ensures Keeping(s, s)
  {
    hide LoadFor;
  }

  lemma {:induction false} RunKeeping(start: State, actions: seq<Action>)
    requires Safe(start) && Quiet(start) && HonestRun(start, actions) && GentleRun(start, actions)
    ensures Keeping(start, Run(start, actions))
  {
    hide Keeping, Safe, Honest, Gentle, Step;
    if actions == [] {
      QuietKeeping(start);
    } else {
      var before := actions[..|actions| - 1];
      RunKeeping(start, before);
      StepKeeping(start, Run(start, before), actions[|actions| - 1]);
    }
  }

  /** In a gentle run the entries of every wallet are those its committed appends gathered, in call order. */
  lemma EntriesAreGathered(start: State, actions: seq<Action>, w: string)
    requires Safe(start) && Quiet(start) && HonestRun(start, actions) && GentleRun(start, actions)
    ensures EntriesOf(Behind(Run(start, actions), w)) ==
        Gathered(EntriesOf(Behind(start, w)), Run(start, actions).tab.calls, w)
  {
    hide Run, Safe, HonestRun, GentleRun, Behind, Gathered, Known, Queue, CreatedWithout, CommittedPointed;
    RunKeeping(start, actions);
  }

  lemma {:induction false} GatheredContains(entries: seq<Entry>, calls: seq<Call>, i: nat, w: string)
    requires i < |calls| && calls[i].wallet == w && calls[i].committed && calls[i].op.Some?
    ensures Contains(Gathered(entries, calls, w), calls[i].op.value.entry)
  {
    hide MergeEntries, Contains;
    var before, c := Gathered(entries, calls[..|calls| - 1], w), calls[|calls| - 1];
    if i < |calls| - 1 {
      GatheredContains(entries, calls[..|calls| - 1], i, w);
      if c.wallet == w && c.committed && c.op.Some? {
        MergePrefix(before, c.op.value.entry);
        ContainsPrefix(before, MergeEntries(before, c.op.value.entry), calls[i].op.value.entry);
      }
    } else {
      MergeContains(before, c.op.value.entry);
    }
  }

  lemma MergeContains(entries: seq<Entry>, e: Entry)
    ensures Contains(MergeEntries(entries, e), e)
  {
    if !Contains(entries, e) {
      assert Clash(MergeEntries(entries, e)[|entries|], e);
    }
  }

  /** In a gentle run the entry of every committed append is there at the end. */
  lemma CommittedEntriesStay(start: State, actions: seq<Action>, i: nat)
    requires Safe(start) && Quiet(start) && HonestRun(start, actions) && GentleRun(start, actions)
    requires i < |Run(start, actions).tab.calls| && Run(start, actions).tab.calls[i].committed
    ensures var s := Run(start, actions); var c := s.tab.calls[i];
            c.op.Some? && Contains(EntriesOf(Behind(s, c.wallet)), c.op.value.entry)
  {
    hide Run, HonestRun, GentleRun, Behind, Gathered, CallTrue, Good, Contains;
    var s := Run(start, actions);
    RunSafe(start, actions);
    assert CallTrue(s.store, s.tab.calls[i]);
    CommittedFlagsOf(s.store, s.tab.calls[i]);
    EntriesAreGathered(start, actions, s.tab.calls[i].wallet);
    GatheredContains(EntriesOf(Behind(start, s.tab.calls[i].wallet)), s.tab.calls, i, s.tab.calls[i].wallet);
  }

  /** No wallet has lost an entry in the step. */
  ghost predicate KeepsEntries(s: State, t: State) {
    forall w :: EntriesOf(Behind(s, w)) <= EntriesOf(Behind(t, w))
  }

  /** After a gentle run, the next step keeps all entries exactly if it is gentle too. */
  lemma StepKeepsExactly(start: State, before: seq<Action>, a: Action)
    requires Safe(start) && Quiet(start) && HonestRun(start, before) && GentleRun(start, before)
    requires Honest(Run(start, before), a) && !a.SetPointer?
    ensures KeepsEntries(Run(start, before), Step(Run(start, before), a)) <==> Gentle(Run(start, before), a)
  {
    hide Run, Quiet, HonestRun, GentleRun, Honest, Behind, Keeping, Step, Safe, CanStore, Contains;
    var s := Run(start, before);
    RunKeeping(start, before);
    RunSafe(start, before);
    if Gentle(s, a) {
      StepKeeping(start, s, a);
    } else {
      var w := s.tab.calls[a.i].wallet;
      var k :| 0 <= k < |s.tab.calls| && s.tab.calls[k].wallet == w && s.tab.calls[k].committed;
      CommittedEntriesStay(start, before, k);
      ContainsSome(EntriesOf(Behind(s, w)), s.tab.calls[k].op.value.entry);
      EmptiedBehind(s, a.i, a.env);
    }
  }

  ghost predicate KeepsAll(start: State, actions: seq<Action>) {
    actions != [] ==>
      && KeepsAll(start, actions[..|actions| - 1])
      && KeepsEntries(Run(start, actions[..|actions| - 1]), Run(start, actions))
  }

  /**
   * The exact condition. In a run of honest callers without restores no step ever loses an
   * entry of any wallet, precisely if no direct initialisation is answered after an append of
   * its wallet has committed.
   */
  lemma {:induction false} NothingLostExactly(start: State, actions: seq<Action>)
    requires Safe(start) && Quiet(start) && HonestRun(start, actions) && NoRestores(actions)
    ensures KeepsAll(start, actions) <==> GentleRun(start, actions)
  {
    hide Safe, Honest, Gentle, Step, KeepsEntries;
    if actions != [] {
      var before, a := actions[..|actions| - 1], actions[|actions| - 1];
      NothingLostExactly(start, before);
      if GentleRun(start, before) {
        StepKeepsExactly(start, before, a);
      }
    }
  }
}
