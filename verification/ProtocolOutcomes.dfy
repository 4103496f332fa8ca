/**
 * What a caller can rely on when its call has finished: a reported append is the fold of
 * the calls up to it and its entry is never lost, a failed append changed nothing a later
 * call can see except for a first empty manifest, and a load is a snapshot.
 */
module ProtocolOutcomes {
  import opened Wrappers
  import opened Terms
  import opened AsciiText
  import opened KeyDerivation
  import opened Manifest
  import opened ManifestCrypto
  import opened Protocol
  import opened ProtocolSafety
  import opened ProtocolMutex
  import opened ProtocolLinear
  import opened ProtocolResults

  /* ---- what each call has done stays explained by the calls before it ---- */

  /** What a call did to its wallet's manifest, in terms of the earlier calls alone. */
  predicate Settled(m: Option<ManifestV1>, calls: seq<Call>, i: nat)
    requires i < |calls|
  {
    var c := calls[i];
    && (c.initialised ==> Replay(m, calls[..i], c.wallet) == None)
    && (c.committed ==>
          && Reported(c.pc).Some? && Reported(c.pc).value.Appended?
          && Replay(m, calls[..i + 1], c.wallet) == Some(Reported(c.pc).value.manifest))
  }

  ghost predicate AllSettled(start: State, s: State) {
    forall i | 0 <= i < |s.tab.calls| :: Settled(Behind(start, s.tab.calls[i].wallet), s.tab.calls, i)
  }

  /** Replacing a call that is not before `n`, or is another wallet's, keeps the fold of the first `n`. */
  lemma FoldBefore(m: Option<ManifestV1>, calls: seq<Call>, i: nat, c: Call, n: nat, w: string)
    requires i < |calls| && n <= |calls|
    requires i < n ==> forall b :: Effect(b, c, w) == Effect(b, calls[i], w)
    ensures Replay(m, calls[i := c][..n], w) == Replay(m, calls[..n], w)
  {
    hide Effect, Replay;
    if i < n {
      assert calls[i := c][..n] == calls[..n][i := c];
      ReplaySame(m, calls[..n], i, c, w);
    } else {
      assert calls[i := c][..n] == calls[..n];
    }
  }

  lemma StillSettled(m: Option<ManifestV1>, calls: seq<Call>, i: nat, before: Local, after: Local)
    requires i < |calls| && before.call == calls[i] && before.call.wallet == after.call.wallet
    requires Settled(m, calls, i) && Still(before, after)
    ensures Settled(m, calls[i := after.call], i)
  {
    hide Replay, Effect;
    var w := before.call.wallet;
    forall b ensures Effect(b, after.call, w) == Effect(b, calls[i], w) { StillEffect(before, after, b, w); }
    FoldBefore(m, calls, i, after.call, i, w);
    FoldBefore(m, calls, i, after.call, i + 1, w);
  }

  lemma ReplayLast(m: Option<ManifestV1>, calls: seq<Call>, i: nat, w: string)
    requires i < |calls|
    ensures Replay(m, calls[..i + 1], w) == Effect(Replay(m, calls[..i], w), calls[i], w)
  {
    hide Effect;
    assert calls[..i + 1][..i] == calls[..i];
  }

  /** The call that moves settles: everything earlier has finished and nothing later has begun. */
  lemma MoverSettled(start: State, s: State, i: nat, l: Local)
    requires Linear(start, s) && Enabled(s.tab, i) && Moves(View(s, i), l)
    requires Settled(Behind(start, s.tab.calls[i].wallet), s.tab.calls, i)
    ensures Settled(Behind(start, s.tab.calls[i].wallet), Put(s, i, l).tab.calls, i)
  {
    hide Good, CallTrue, Queue, Apply, Replay, Behind, LocalBehind, Current, Effect, Settled;
    var before, calls, w := View(s, i), s.tab.calls, s.tab.calls[i].wallet;
    var m, after := Behind(start, w), calls[i := l.call];
    if Still(before, l) {
      StillSettled(m, calls, i, before, l);
    } else {
      MoveKeepsPointer(before, l);
      PutBehind(s, i, l, w);
      LaterCallsIdle(start, s, i);
      ReplayIdleTail(m, calls, i, w);
      assert after[..i] == calls[..i];
      ReplayLast(m, after, i, w);
      ReplayIdleTail(m, after, i, w);
      PutReplay(start, s, i, l, w);
      MoverCase(m, calls, i, before, l);
    }
  }

  lemma MoverCase(m: Option<ManifestV1>, calls: seq<Call>, i: nat, before: Local, l: Local)
    requires i < |calls| && before.call == calls[i] && l.call.wallet == before.call.wallet
    requires Initialises(before, l) || Commits(before, l)
    requires Settled(m, calls, i)
    requires Effect(Replay(m, calls[..i], before.call.wallet), before.call, before.call.wallet) == LocalBehind(before)
    requires Replay(m, calls[i := l.call][..i + 1], before.call.wallet) == LocalBehind(l)
    ensures Settled(m, calls[i := l.call], i)
  {
    hide Replay, Good, Apply;
    assert calls[i := l.call][..i] == calls[..i];
  }

  /** Every other call stays settled. */
  lemma OtherSettled(start: State, s: State, i: nat, l: Local, k: nat)
    requires Linear(start, s) && Enabled(s.tab, i) && Moves(View(s, i), l)
    requires k < |s.tab.calls| && k != i
    requires Settled(Behind(start, s.tab.calls[k].wallet), s.tab.calls, k)
    ensures Settled(Behind(start, s.tab.calls[k].wallet), Put(s, i, l).tab.calls, k)
  {
    hide Good, CallTrue, Chained, Apply, Replay, Behind, LocalBehind, Current, Effect, InOrder, Pointed, AfterEarlier,
         AllCurrent;
    var calls, w := s.tab.calls, s.tab.calls[k].wallet;
    if i < k && calls[i].wallet == w && !Still(View(s, i), l) {
      LaterCallIdle(s, i, k);
    } else {
      if i < k {
        forall b ensures Effect(b, l.call, w) == Effect(b, calls[i], w) {
          if calls[i].wallet == w { StillEffect(View(s, i), l, b, w); } else { OtherWallet(b, l.call, calls[i], w); }
        }
      }
      FoldBefore(Behind(start, w), calls, i, l.call, k, w);
      FoldBefore(Behind(start, w), calls, i, l.call, k + 1, w);
    }
  }

  lemma OtherWallet(m: Option<ManifestV1>, a: Call, b: Call, w: string)
    requires a.wallet != w && b.wallet != w
    ensures Effect(m, a, w) == Effect(m, b, w)
  {
  }

  lemma PutSettled(start: State, s: State, i: nat, l: Local)
    requires Linear(start, s) && AllSettled(start, s) && Enabled(s.tab, i) && Moves(View(s, i), l)
    ensures AllSettled(start, Put(s, i, l))
  {
    hide Linear, Settled, Behind, Moves, Enabled;
    EnabledShape(s.tab, i);
    MoveWallet(View(s, i), l);
    forall k | 0 <= k < |Put(s, i, l).tab.calls|
      ensures Settled(Behind(start, Put(s, i, l).tab.calls[k].wallet), Put(s, i, l).tab.calls, k)
    {
      if k == i { MoverSettled(start, s, i, l); } else { OtherSettled(start, s, i, l, k); }
    }
  }

  /** A new call changes none of the folds before it. */
  lemma NewSettled(start: State, s: State, t: State, c: Call)
    requires AllSettled(start, s) && t.tab.calls == s.tab.calls + [c] && !c.initialised && !c.committed
    ensures AllSettled(start, t)
  {
    hide Behind, Replay;
    forall k | 0 <= k < |t.tab.calls| ensures Settled(Behind(start, t.tab.calls[k].wallet), t.tab.calls, k) {
      if k < |s.tab.calls| {
        assert t.tab.calls[..k] == s.tab.calls[..k] && t.tab.calls[..k + 1] == s.tab.calls[..k + 1];
        assert Settled(Behind(start, s.tab.calls[k].wallet), s.tab.calls, k);
      }
    }
  }

  lemma StepSettled(start: State, s: State, a: Action)
    requires Linear(start, s) && AllSettled(start, s) && Honest(s, a) && Disciplined(s, a)
    ensures AllSettled(start, Step(s, a))
  {
    hide AllSettled, Enabled, AdvanceLocal, RejectLocal, Put, View, Trim, StartBody, Honest, Disciplined, CallTrue,
         Good, Queue, Folded, AllCurrent, Pointed, AfterEarlier, KeepsClear;
    NoSetPointer(s, a);
    match a
    case InvokeAppend(raw, signature, draft, head, unlock) =>
      if Trim(raw) != [] && unlock {
        NewSettled(start, s, Step(s, a), NewCall(Append(draft), Trim(raw), signature, head, TailOf(s.tab, Trim(raw))));
      }
    case InvokeLoad(raw, signature, head, unlock, env) =>
      if Trim(raw) != [] && unlock {
        var l := Local(s.store, PointerOf(s.tab, Trim(raw)), NewCall(Load, Trim(raw), signature, head, None));
        StartFlags(l, env);
        NewSettled(start, s, Step(s, a), StartBody(l, env).call);
      }
    case Advance(i, env) =>
      if Enabled(s.tab, i) {
        EnabledShape(s.tab, i);
        ViewReady(start, s, i);
        ViewCall(s, i);
        DisciplineKeepsClear(s, i, env);
        AdvanceMoves(View(s, i), env);
        PutSettled(start, s, i, AdvanceLocal(View(s, i), env));
      }
    case Reject(i, stored) =>
      if Enabled(s.tab, i) {
        EnabledShape(s.tab, i);
        ViewReady(start, s, i);
        RejectMoves(View(s, i), stored);
        PutSettled(start, s, i, RejectLocal(View(s, i), stored));
      }
    case SetPointer(_, _) =>
  }

  lemma StartFlags(l: Local, env: Env)
    ensures StartBody(l, env).call.initialised == l.call.initialised
    ensures StartBody(l, env).call.committed == l.call.committed
  {
  }

  lemma {:induction false} RunSettled(start: State, actions: seq<Action>)
    requires Safe(start) && Quiet(start) && HonestRun(start, actions) && DisciplinedRun(start, actions)
    ensures AllSettled(start, Run(start, actions))
  {
    hide Linear, Safe, Honest, Disciplined, Step, Settled;
    if actions != [] {
      var before := actions[..|actions| - 1];
      RunSettled(start, before);
      RunLinear(start, before);
      StepSettled(start, Run(start, before), actions[|actions| - 1]);
    }
  }

  /* ---- appends ---- */

  /**
   * The manifest an append reports is the fold of the calls made up to and including it,
   * it contains the call's entry, and that entry is still in the wallet's manifest at the
   * end of every run.
   */
  lemma NoEntryLost(start: State, actions: seq<Action>, i: nat)
    requires Safe(start) && Quiet(start) && HonestRun(start, actions) && DisciplinedRun(start, actions)
    requires i < |Run(start, actions).tab.calls| && Run(start, actions).tab.calls[i].committed
    ensures var s := Run(start, actions); var c := s.tab.calls[i];
            && c.op.Some? && Reported(c.pc).Some? && Reported(c.pc).value.Appended?
            && Replay(Behind(start, c.wallet), s.tab.calls[..i + 1], c.wallet) == Some(Reported(c.pc).value.manifest)
            && Contains(Reported(c.pc).value.manifest.entries, c.op.value.entry)
            && Reported(c.pc).value.manifest.entries <= EntriesOf(Behind(s, c.wallet))
            && Contains(EntriesOf(Behind(s, c.wallet)), c.op.value.entry)
  {
    hide Run, Safe, Behind, Replay, Contains, HonestRun, DisciplinedRun, PcTrue;
    RunLinear(start, actions);
    RunSettled(start, actions);
    RunSafe(start, actions);
    var s := Run(start, actions);
    var c, w, m := s.tab.calls[i], s.tab.calls[i].wallet, Behind(start, s.tab.calls[i].wallet);
    CommittedFlags(s, i);
    assert Settled(m, s.tab.calls, i);
    ReplayLast(m, s.tab.calls, i, w);
    EffectContains(Replay(m, s.tab.calls[..i], w), c);
    SettledFresh(start, s, w);
    FoldGrows(m, s.tab.calls, i + 1, w);
    Linearizable(start, actions, w);
    ContainsPrefix(Reported(c.pc).value.manifest.entries, EntriesOf(Behind(s, w)), c.op.value.entry);
  }

  lemma CommittedFlags(s: State, i: nat)
    requires Safe(s) && i < |s.tab.calls| && s.tab.calls[i].committed
    ensures s.tab.calls[i].op.Some?
  {
    hide PcTrue, Good;
    assert CallTrue(s.store, s.tab.calls[i]);
  }

  lemma EffectContains(m: Option<ManifestV1>, c: Call)
    requires c.committed && c.op.Some? && Effect(m, c, c.wallet).Some?
    ensures Contains(Effect(m, c, c.wallet).value.entries, c.op.value.entry)
  {
    if c.initialised { ApplyExtends(EmptyOf(c), c.op.value); } else { ApplyExtends(m.value, c.op.value); }
  }

  /** A call only ever lengthens the entry list: it starts afresh only where there was nothing. */
  predicate FreshOnlyIfAbsent(m: Option<ManifestV1>, calls: seq<Call>, w: string) {
    forall k | 0 <= k < |calls| && calls[k].wallet == w && calls[k].initialised :: Replay(m, calls[..k], w) == None
  }

  lemma {:induction false} FoldGrows(m: Option<ManifestV1>, calls: seq<Call>, n: nat, w: string)
    requires n <= |calls| && FreshOnlyIfAbsent(m, calls, w)
    ensures EntriesOf(Replay(m, calls[..n], w)) <= EntriesOf(Replay(m, calls, w))
  {
    hide Effect;
    if n < |calls| {
      var init := calls[..|calls| - 1];
      forall k | 0 <= k < |init| && init[k].wallet == w && init[k].initialised ensures Replay(m, init[..k], w) == None {
        assert init[..k] == calls[..k];
      }
      assert init[..n] == calls[..n];
      FoldGrows(m, init, n, w);
      assert calls[..|calls| - 1] == init;
      EffectGrows(Replay(m, init, w), calls[|calls| - 1], w);
    } else {
      assert calls[..n] == calls;
    }
  }

  lemma EffectGrows(m: Option<ManifestV1>, c: Call, w: string)
    requires c.wallet == w && c.initialised ==> m == None
    ensures EntriesOf(m) <= EntriesOf(Effect(m, c, w))
  {
    hide Apply;
    if c.wallet == w && c.committed && c.op.Some? {
      if c.initialised { ApplyExtends(EmptyOf(c), c.op.value); } else if m.Some? { ApplyExtends(m.value, c.op.value); }
    }
  }

  lemma SettledFresh(start: State, s: State, w: string)
    requires AllSettled(start, s)
    ensures FreshOnlyIfAbsent(Behind(start, w), s.tab.calls, w)
  {
    hide Behind, Replay;
    forall k | 0 <= k < |s.tab.calls| && s.tab.calls[k].wallet == w && s.tab.calls[k].initialised
      ensures Replay(Behind(start, w), s.tab.calls[..k], w) == None
    {
      assert Settled(Behind(start, s.tab.calls[k].wallet), s.tab.calls, k);
    }
  }

  /**
   * Failure atomicity. An append that failed at any step committed nothing: the fold up to
   * it is the fold before it, or, where there was neither a manifest nor an on-chain head,
   * a freshly created empty manifest.
   */
  lemma FailureAtomic(start: State, actions: seq<Action>, i: nat)
    requires Safe(start) && Quiet(start) && HonestRun(start, actions) && DisciplinedRun(start, actions)
    requires i < |Run(start, actions).tab.calls|
    requires var c := Run(start, actions).tab.calls[i];
             c.kind.Append? && Reported(c.pc).Some? && Reported(c.pc).value.Failed?
    ensures var s := Run(start, actions); var c := s.tab.calls[i];
            var before, after := Replay(Behind(start, c.wallet), s.tab.calls[..i], c.wallet),
                Replay(Behind(start, c.wallet), s.tab.calls[..i + 1], c.wallet);
            && !c.committed
            && (after == before || (before == None && !HeadPresent(c.head) && after == Some(EmptyOf(c))
                                      && EntriesOf(after) == []))
            && (before.Some? || HeadPresent(c.head) ==> after == before)
  {
    hide Run, Safe, Behind, Replay, HonestRun, DisciplinedRun, PcTrue;
    RunSettled(start, actions);
    RunSafe(start, actions);
    var s := Run(start, actions);
    FailedFlags(s, i);
    assert Settled(Behind(start, s.tab.calls[i].wallet), s.tab.calls, i);
    ReplayLast(Behind(start, s.tab.calls[i].wallet), s.tab.calls, i, s.tab.calls[i].wallet);
  }

  lemma FailedFlags(s: State, i: nat)
    requires Safe(s) && i < |s.tab.calls| && Reported(s.tab.calls[i].pc).Some?
    requires !Reported(s.tab.calls[i].pc).value.Appended?
    ensures !s.tab.calls[i].committed
    ensures s.tab.calls[i].initialised ==> !HeadPresent(s.tab.calls[i].head)
  {
    hide PcTrue, Good;
    assert CallTrue(s.store, s.tab.calls[i]);
  }

  /**
   * The pointer moves only in the step that receives an upload's CID: any other step, and
   * every rejection, leaves all pointers alone, and the pointer then names the uploaded bytes.
   */
  lemma PointerFollowsUpload(s: State, a: Action)
    requires Step(s, a).tab.pointer != s.tab.pointer
    ensures a.SetPointer? || a.Advance?
    ensures a.Advance? ==>
              && a.i < |s.tab.calls| && (s.tab.calls[a.i].pc.InitUpload? || s.tab.calls[a.i].pc.WriteUpload?)
              && Step(s, a).tab.pointer == s.tab.pointer[s.tab.calls[a.i].wallet := a.env.cid]
              && Step(s, a).store == s.store[a.env.cid := s.tab.calls[a.i].pc.bytes]
  {
    hide AdvanceLocal, RejectLocal, StartBody, Trim;
    if a.InvokeLoad? {
    } else if a.Advance? {
      if Enabled(s.tab, a.i) {
        AdvanceUploads(View(s, a.i), a.env);
        PutBack(s.tab.pointer, s.tab.calls[a.i].wallet);
      }
    } else if a.Reject? {
      if Enabled(s.tab, a.i) {
        RejectLeavesPointer(View(s, a.i), a.stored);
        PutBack(s.tab.pointer, s.tab.calls[a.i].wallet);
      }
    }
  }

  lemma PutBack(pointer: map<string, Cid>, w: string)
    ensures PutPointer(pointer, w, if w in pointer then Some(pointer[w]) else None) == pointer
  {
  }

  /** The step took the CID of an upload, or left store and pointer alone. */
  predicate Uploads(before: Local, after: Local, env: Env) {
    || (after.store == before.store && after.pointer == before.pointer)
    || (before.call.pc.InitUpload? && after.pointer == Some(env.cid)
          && after.store == before.store[env.cid := before.call.pc.bytes])
    || (before.call.pc.WriteUpload? && after.pointer == Some(env.cid)
          && after.store == before.store[env.cid := before.call.pc.bytes])
  }

  lemma AdvanceUploads(l: Local, env: Env)
    ensures Uploads(l, AdvanceLocal(l, env), env)
  {
    hide BuildWrapEnvelope, EncryptManifest, DeriveVaultRootKek, DeriveManifestKey, EmptyOf, CanStore, ReadPhase;
    if InRead(l.call.pc) {
      ReadLeavesPointer(l, env);
    }
  }

  /** The step hands the call the CID of its upload. */
  predicate AnswersUpload(l: Local, env: Env) {
    (l.call.pc.InitUpload? || l.call.pc.WriteUpload?) && CanStore(l.store, env.cid, l.call.pc.bytes)
  }

  lemma PointerMoves(l: Local, env: Env)
    ensures AnswersUpload(l, env) ==>
        AdvanceLocal(l, env).pointer == Some(env.cid) && env.cid != [] && Trim(env.cid) == env.cid
    ensures !AnswersUpload(l, env) ==> AdvanceLocal(l, env).pointer == l.pointer
  {
    hide BuildWrapEnvelope, EncryptManifest, DeriveVaultRootKek, DeriveManifestKey, EmptyOf, ReadPhase, Trim, HasSpace;
    if InRead(l.call.pc) {
      ReadLeavesPointer(l, env);
    }
  }

  /* ---- the pointer and a call that fails ---- */

  /** What later steps never take back from a call. */
  predicate Lasting(before: Call, after: Call) {
    && after.kind == before.kind && after.wallet == before.wallet && after.head == before.head
    && (before.committed ==> after.committed)
    && (before.initialised ==> after.initialised && after.createdAt == before.createdAt)
  }

  lemma MoveLasts(before: Local, after: Local)
    requires Moves(before, after)
    ensures Lasting(before.call, after.call)
  {
    hide CallTrue, Good, Current;
  }

  lemma StepLasts(start: State, s: State, a: Action, i: nat)
    requires Linear(start, s) && Disciplined(s, a) && i < |s.tab.calls|
    ensures i < |Step(s, a).tab.calls| && Lasting(s.tab.calls[i], Step(s, a).tab.calls[i])
  {
    hide AdvanceLocal, RejectLocal, StartBody, Trim, Disciplined, CallTrue, Good, Queue, Folded, AllCurrent, Pointed,
         AfterEarlier, Moves, Enabled, KeepsClear;
    if a.Advance? || a.Reject? {
      EnabledInRange(s.tab, a.i);
    }
    if (a.Advance? || a.Reject?) && a.i == i && Enabled(s.tab, i) {
      EnabledShape(s.tab, i);
      ViewReady(start, s, i);
      if a.Advance? {
        assert CallTrue(s.store, s.tab.calls[i]);
        DisciplineKeepsClear(s, i, a.env);
        AdvanceMoves(View(s, i), a.env);
        MoveLasts(View(s, i), AdvanceLocal(View(s, i), a.env));
      } else {
        RejectMoves(View(s, i), a.stored);
        MoveLasts(View(s, i), RejectLocal(View(s, i), a.stored));
      }
    }
  }

  lemma {:induction false} RunLasts(start: State, pre: seq<Action>, post: seq<Action>, i: nat)
    requires Safe(start) && Quiet(start) && HonestRun(start, pre + post) && DisciplinedRun(start, pre + post)
    requires i < |Run(start, pre).tab.calls|
    ensures i < |Run(start, pre + post).tab.calls|
    ensures Lasting(Run(start, pre).tab.calls[i], Run(start, pre + post).tab.calls[i])
  {
    hide Safe, Honest, Disciplined, Step, Linear;
    if post == [] {
      assert pre + post == pre;
    } else {
      assert (pre + post)[..|pre + post| - 1] == pre + post[..|post| - 1];
      RunLasts(start, pre, post[..|post| - 1], i);
      RunLinear(start, pre + post[..|post| - 1]);
      StepLasts(start, Run(start, pre + post[..|post| - 1]), post[|post| - 1], i);
    }
  }

  /** The step of a call that moves its wallet's pointer, seen from the call. */
  lemma PointerStep(start: State, s: State, i: nat, env: Env)
    requires Linear(start, s) && Disciplined(s, Advance(i, env))
    requires Step(s, Advance(i, env)).tab.pointer != s.tab.pointer
    ensures var t := Step(s, Advance(i, env));
            && i < |s.tab.calls| && i < |t.tab.calls|
            && (t.tab.calls[i].committed ||
                  (s.tab.calls[i].wallet !in s.tab.pointer && !HeadPresent(s.tab.calls[i].head)
                     && t.tab.calls[i].initialised
                   && Behind(t, s.tab.calls[i].wallet) == Some(EmptyOf(t.tab.calls[i]))))
  {
    hide AdvanceLocal, Behind, LocalBehind, Folded, Queue, AllCurrent, Pointed, AfterEarlier, CallTrue, Good,
         Disciplined, Enabled, Moves, KeepsClear;
    EnabledInRange(s.tab, i);
    var before, after := View(s, i), AdvanceLocal(View(s, i), env);
    assert Enabled(s.tab, i);
    ViewReady(start, s, i);
    assert CallTrue(s.store, s.tab.calls[i]);
    DisciplineKeepsClear(s, i, env);
    EnabledShape(s.tab, i);
    AdvanceMoves(before, env);
    MoveWallet(before, after);
    MoveKeepsPointer(before, after);
    PutBehind(s, i, after, s.tab.calls[i].wallet);
    PutBack(s.tab.pointer, s.tab.calls[i].wallet);
    MoveKinds(before, after);
    InitialisedFlags(after.store, after.call);
  }

  lemma MoveKinds(before: Local, after: Local)
    requires Moves(before, after) && after.pointer != before.pointer
    ensures after.call.committed
         || (before.pointer == None && after.call.initialised && LocalBehind(after) == Some(EmptyOf(after.call)))
    ensures CallTrue(after.store, after.call) && after.call.head == before.call.head
  {
    hide CallTrue, Good, Current;
  }

  lemma InitialisedFlags(store: Store, c: Call)
    requires CallTrue(store, c)
    ensures c.initialised ==> !HeadPresent(c.head)
  {
    hide PcTrue;
  }

  /**
   * A call that ends in failure moved its wallet's pointer in no step but possibly one: it
   * found no pointer, had been given no on-chain head, and left the pointer at its own
   * freshly created empty manifest.
   */
  lemma FailedCallAndPointer(start: State, pre: seq<Action>, i: nat, env: Env, post: seq<Action>)
    requires Safe(start) && Quiet(start)
    requires HonestRun(start, pre + [Advance(i, env)] + post) && DisciplinedRun(start, pre + [Advance(i, env)] + post)
    requires i < |Run(start, pre + [Advance(i, env)] + post).tab.calls|
    requires var c := Run(start, pre + [Advance(i, env)] + post).tab.calls[i];
             Reported(c.pc).Some? && Reported(c.pc).value.Failed?
    requires Run(start, pre + [Advance(i, env)]).tab.pointer != Run(start, pre).tab.pointer
    ensures var s, t, c := Run(start, pre), Run(start, pre + [Advance(i, env)]),
        Run(start, pre + [Advance(i, env)] + post).tab.calls[i];
            && c.wallet !in s.tab.pointer && !HeadPresent(c.head)
            && Behind(t, c.wallet) == Some(EmptyOf(c)) && EntriesOf(Behind(t, c.wallet)) == []
            && t.tab.pointer == s.tab.pointer[c.wallet := env.cid]
  {
    hide Safe, Quiet, Honest, Disciplined, Linear, Step, Behind;
    var a := Advance(i, env);
    var before := pre + [a];
    assert before[..|before| - 1] == pre;
    RunPrefix(start, before, post, "");
    RunPrefix(start, pre, [a], "");
    RunLinear(start, pre);
    PointerStep(start, Run(start, pre), i, env);
    PointerFollowsUpload(Run(start, pre), a);
    RunLasts(start, pre, [a], i);
    RunLasts(start, before, post, i);
    RunSafe(start, before + post);
    FailedFlags(Run(start, before + post), i);
  }

  /* ---- loads ---- */

  lemma {:induction false} HonestSplit(s: State, a: seq<Action>, b: seq<Action>)
    requires HonestRun(s, a + b)
    ensures HonestRun(s, a) && HonestRun(Run(s, a), b)
  {
    hide Honest, Step;
    if b == [] {
      assert a + b == a;
    } else {
      assert (a + b)[..|a + b| - 1] == a + b[..|b| - 1];
      HonestSplit(s, a, b[..|b| - 1]);
      RunSplit(s, a, b[..|b| - 1]);
    }
  }

  /** What a load fixed when it read the pointer. */
  predicate SameRead(a: Call, b: Call) {
    a.kind == b.kind && a.wallet == b.wallet && a.cid == b.cid
  }

  lemma AdvanceKeepsRead(l: Local, env: Env)
    requires l.call.kind.Load? && !l.call.pc.Waiting? && !l.call.pc.Initialised?
    ensures SameRead(l.call, AdvanceLocal(l, env).call)
  {
    hide BuildWrapEnvelope, EncryptManifest, UnwrapManifestKey, ReadManifest, ParseJson, DeriveVaultRootKek,
         DeriveManifestKey, EmptyOf, CanStore;
  }

  lemma LoadStarted(s: State, i: nat)
    requires Safe(s) && i < |s.tab.calls| && s.tab.calls[i].kind.Load?
    ensures !s.tab.calls[i].pc.Waiting? && !s.tab.calls[i].pc.Initialised?
  {
    hide PcTrue, Good;
    assert CallTrue(s.store, s.tab.calls[i]);
  }

  lemma StepKeepsRead(s: State, a: Action, i: nat)
    requires Safe(s) && i < |s.tab.calls| && s.tab.calls[i].kind.Load?
    ensures i < |Step(s, a).tab.calls| && SameRead(s.tab.calls[i], Step(s, a).tab.calls[i])
  {
    hide Safe, AdvanceLocal, StartBody, Trim;
    LoadStarted(s, i);
    if a.Advance? && a.i == i && Enabled(s.tab, i) {
      AdvanceKeepsRead(View(s, i), a.env);
    }
  }

  lemma {:induction false} RunKeepsRead(s: State, actions: seq<Action>, i: nat)
    requires Safe(s) && HonestRun(s, actions) && i < |s.tab.calls| && s.tab.calls[i].kind.Load?
    ensures i < |Run(s, actions).tab.calls| && SameRead(s.tab.calls[i], Run(s, actions).tab.calls[i])
  {
    hide Safe, Honest, Step;
    if actions != [] {
      var before := actions[..|actions| - 1];
      RunKeepsRead(s, before, i);
      RunSafe(s, before);
      StepKeepsRead(Run(s, before), actions[|actions| - 1], i);
    }
  }

  /** The call made by a load, and what it knows about the pointer. */
  lemma LoadReadsPointer(s: State, a: Action)
    requires Safe(s) && Honest(s, a) && a.InvokeLoad? && Trim(a.wallet) != [] && a.unlock
    ensures var t, w := Step(s, a), Trim(a.wallet);
            && |t.tab.calls| == |s.tab.calls| + 1 && t.tab.calls[|s.tab.calls|].kind.Load?
            && t.tab.calls[|s.tab.calls|].wallet == w
            && (t.tab.calls[|s.tab.calls|].cid == PointerOf(s.tab, w) || t.tab.calls[|s.tab.calls|].cid == None)
  {
    hide Safe, Honest, Trim;
  }

  /**
   * Snapshot loads, in every run of honest callers, even with restores and direct
   * initialisations: a load that succeeds returns the manifest the pointer named when the
   * load read it, whatever appends have committed before it finishes.
   */
  lemma SnapshotLoad(start: State, pre: seq<Action>, a: Action, post: seq<Action>)
    requires Safe(start) && HonestRun(start, pre + [a] + post)
    requires a.InvokeLoad? && Trim(a.wallet) != [] && a.unlock
    ensures var i, s := |Run(start, pre).tab.calls|, Run(start, pre + [a] + post);
            i < |s.tab.calls| &&
            (s.tab.calls[i].pc.Done? && s.tab.calls[i].pc.outcome.Got? ==>
               && Some(s.tab.calls[i].pc.outcome.cid) == PointerOf(Run(start, pre).tab, Trim(a.wallet))
               && Some(s.tab.calls[i].pc.outcome.manifest) == Behind(Run(start, pre), Trim(a.wallet)))
  {
    hide Step, Honest, Behind, Trim, Safe, SameRead;
    HonestSplit(start, pre + [a], post);
    HonestSplit(start, pre, [a]);
    RunSplit(start, pre + [a], post);
    var s1, s := Run(start, pre), Run(start, pre + [a] + post);
    assert (pre + [a])[..|pre + [a]| - 1] == pre;
    assert Run(start, pre + [a]) == Step(s1, a) && Honest(s1, a);
    RunSafe(start, pre);
    StepSafe(s1, a);
    LoadReadsPointer(s1, a);
    var i := |s1.tab.calls|;
    RunKeepsRead(Step(s1, a), post, i);
    RunSafe(Step(s1, a), post);
    GotSnapshot(s1, s, i, Step(s1, a).tab.calls[i], Trim(a.wallet));
  }

  lemma GotSnapshot(s1: State, s: State, i: nat, c: Call, w: string)
    requires Safe(s1) && Safe(s) && Grows(s1.store, s.store) && i < |s.tab.calls|
    requires SameRead(c, s.tab.calls[i]) && c.wallet == w && (c.cid == PointerOf(s1.tab, w) || c.cid == None)
    ensures s.tab.calls[i].pc.Done? && s.tab.calls[i].pc.outcome.Got? ==>
              && Some(s.tab.calls[i].pc.outcome.cid) == PointerOf(s1.tab, w)
              && Some(s.tab.calls[i].pc.outcome.manifest) == Behind(s1, w)
  {
    hide LoadFor;
    assert CallTrue(s.store, s.tab.calls[i]);
  }

  /**
   * Two loads of a wallet whose pointer reads are ordered: the entries the first returns are
   * a prefix of those the second returns, even if the first finishes later.
   */
  lemma LoadsGrow(start: State, pre: seq<Action>, a: Action, mid: seq<Action>, b: Action, post: seq<Action>)
    requires Safe(start) && Quiet(start)
    requires HonestRun(start, pre + ([a] + mid + [b] + post)) && DisciplinedRun(start, pre + ([a] + mid + [b] + post))
    requires a.InvokeLoad? && b.InvokeLoad? && Trim(a.wallet) == Trim(b.wallet) != [] && a.unlock && b.unlock
    ensures var i, j, s := |Run(start, pre).tab.calls|, |Run(start, pre + [a] + mid).tab.calls|,
        Run(start, pre + ([a] + mid + [b] + post));
            && i < |s.tab.calls| && j < |s.tab.calls|
            && (s.tab.calls[i].pc.Done? && s.tab.calls[i].pc.outcome.Got? && s.tab.calls[j].pc.Done?
                  && s.tab.calls[j].pc.outcome.Got? ==>
                  s.tab.calls[i].pc.outcome.manifest.entries <= s.tab.calls[j].pc.outcome.manifest.entries)
  {
    hide Run, HonestRun, DisciplinedRun, Behind, Trim, Safe;
    var all := pre + ([a] + mid + [b] + post);
    assert all == pre + [a] + (mid + [b] + post);
    assert all == (pre + [a] + mid) + [b] + post;
    SnapshotLoad(start, pre, a, mid + [b] + post);
    SnapshotLoad(start, pre + [a] + mid, b, post);
    var before := pre + [a] + mid;
    assert all == before + ([b] + post);
    RunPrefix(start, before, [b] + post, Trim(a.wallet));
    assert before == pre + ([a] + mid);
    RunPrefix(start, pre, [a] + mid, Trim(a.wallet));
  }

  /**
   * Reading never fails by itself: fetching, parsing, unwrapping and decrypting what an
   * honest run's pointer named always succeed, so a read ends in failure only if an awaited
   * operation throws or an append's draft is unusable, and a load ends with the manifest
   * that its CID names.
   */
  lemma ReadNeverFails(l: Local, env: Env)
    requires CallTrue(l.store, l.call) && InRead(l.call.pc) && !l.call.pc.Initialised?
    ensures var c := ReadPhase(l, env).call;
            && (Reported(c.pc).Some? && Reported(c.pc).value.Failed? ==>
                  l.call.kind.Append? && l.call.pc.Decrypt?
                      && (Reported(c.pc).value.why.MissingFileCid? || Reported(c.pc).value.why.MissingEntryEnvelope?))
            && (l.call.kind.Load? && l.call.pc.Decrypt? ==>
                  c.pc == Done(Got(ManifestAt(l.store, l.call.cid.value, l.call.wallet), l.call.cid.value)))
            && (l.call.kind.Load? && !l.call.pc.Decrypt? ==> c.pc.Unwrap? || c.pc.Decrypt?)
  {
    hide UnwrapManifestKey, ReadManifest, ParseJson, RootSignature, Apply, NewEntry, Trim, Truthy;
    assert Good(l.store, l.call.cid.value, l.call.wallet);
  }
}
