/**
 * The promise-chain mutex of packages/manifest/src/internal/mutex.ts inside the protocol:
 * mutual exclusion, first-in first-out by call order, and progress.
 */
module ProtocolMutex {
  import opened Wrappers
  import opened Terms
  import opened AsciiText
  import opened KeyDerivation
  import opened Manifest
  import opened ManifestCrypto
  import opened Protocol

  /** `p` is the latest append of `w` among the first `n` calls, if there is one. */
  predicate IsLatest(calls: seq<Call>, p: Option<nat>, n: nat, w: string)
    requires n <= |calls|
  {
    match p
    case None => forall j | 0 <= j < n :: !AppendOf(calls[j], w)
    case Some(k) => k < n && AppendOf(calls[k], w) && forall j | k < j < n :: !AppendOf(calls[j], w)
  }

  /** Each append chained onto the previous append of its wallet, and `tail` is the last one. */
  ghost predicate Chained(tab: Tab) {
    && (forall w :: IsLatest(tab.calls, TailOf(tab, w), |tab.calls|, w))
    && (forall i | 0 <= i < |tab.calls| && tab.calls[i].kind.Append? ::
          IsLatest(tab.calls, tab.calls[i].previous, i, tab.calls[i].wallet))
    && (forall i | 0 <= i < |tab.calls| && tab.calls[i].kind.Load? :: !tab.calls[i].pc.Waiting?)
  }

  /** An append of a wallet leaves `await previous` only after all earlier ones released. */
  predicate InOrder(calls: seq<Call>) {
    forall i, j | 0 <= j < i < |calls| && calls[i].kind.Append? && AppendOf(calls[j], calls[i].wallet) ::
      calls[i].pc.Waiting? || calls[j].pc.Done?
  }

  ghost predicate Queue(tab: Tab) {
    Chained(tab) && InOrder(tab.calls)
  }

  /** The body of an append is running: it holds the mutex. */
  predicate Holds(c: Call) {
    c.kind.Append? && !c.pc.Waiting? && !c.pc.Done?
  }

  /* ---- one step ---- */

  predicate SameIdentity(a: Call, b: Call) {
    a.kind == b.kind && a.wallet == b.wallet && a.signature == b.signature && a.head == b.head
        && a.previous == b.previous
  }

  lemma StartShape(l: Local, env: Env)
    ensures SameIdentity(l.call, StartBody(l, env).call) && !StartBody(l, env).call.pc.Waiting?
    ensures Rank(StartBody(l, env).call.pc) < Rank(Waiting)
  {
  }

  /** A step keeps the call's identity and, unless it is refused, brings it nearer its end. */
  ghost predicate Shape(before: Local, after: Local, env: Env) {
    && SameIdentity(before.call, after.call) && !after.call.pc.Waiting?
    && (after != before ==> Rank(after.call.pc) < Rank(before.call.pc))
    && (Accepts(before, env) ==> after != before)
  }

  lemma InitShape(l: Local, env: Env)
    requires InInit(l.call.pc)
    ensures Shape(l, InitPhase(l, env), env)
  {
    hide BuildWrapEnvelope, EncryptManifest, CanStore, DeriveVaultRootKek, DeriveManifestKey, EmptyOf;
  }

  lemma MergeShape(l: Local, key: Bytes, m: ManifestV1, env: Env)
    requires l.call.kind.Append?
    ensures SameIdentity(l.call, MergePhase(l, key, m, env).call)
    ensures MergePhase(l, key, m, env).call.pc.WriteSalt? || MergePhase(l, key, m, env).call.pc.Releasing?
  {
    hide Apply, Truthy, Trim, NewEntry;
  }

  lemma ReadShape(l: Local, env: Env)
    requires InRead(l.call.pc)
    ensures Shape(l, ReadPhase(l, env), env)
  {
    hide UnwrapManifestKey, ReadManifest, ParseJson, MergePhase;
    if l.call.pc.Decrypt? && l.call.kind.Append? {
      var r := ReadManifest(l.call.pc.tree, l.call.pc.key, l.call.wallet);
      if r.Ok? {
        MergeShape(l, l.call.pc.key, r.value, env);
      }
    }
  }

  lemma WriteShape(l: Local, env: Env)
    requires InWrite(l.call.pc) || l.call.pc.Releasing?
    ensures Shape(l, WritePhase(l, env), env)
  {
    hide BuildWrapEnvelope, EncryptManifest, CanStore, DeriveVaultRootKek;
  }

  lemma AdvanceShape(l: Local, env: Env)
    requires !l.call.pc.Done?
    ensures Shape(l, AdvanceLocal(l, env), env)
  {
    hide StartBody, InitPhase, ReadPhase, WritePhase;
    if l.call.pc.Waiting? {
      StartShape(l, env);
    } else if InInit(l.call.pc) {
      InitShape(l, env);
    } else if InRead(l.call.pc) {
      ReadShape(l, env);
    } else {
      WriteShape(l, env);
    }
  }

  lemma RejectShape(l: Local, stored: Option<Cid>)
    ensures var c := RejectLocal(l, stored).call; SameIdentity(l.call, c) && (c.pc.Waiting? <==> l.call.pc.Waiting?)
    ensures RejectLocal(l, stored) != l ==> Rank(RejectLocal(l, stored).call.pc) < Rank(l.call.pc)
  {
  }

  /** Steps left before the call settles. */
  function Rank(pc: Pc): nat {
    match pc
    case Waiting => 18 case InitKek => 17 case InitKey(_) => 16 case InitSalt(_, _) => 15 case InitWrap(_, _, _) => 14
    case InitEncrypt(_, _, _, _) => 13 case InitUpload(_) => 12 case Initialised => 11 case Fetch => 10
    case Unwrap(_) => 9 case Decrypt(_, _) => 8 case WriteSalt(_, _) => 7 case WriteKek(_, _, _) => 6
    case WriteWrap(_, _, _, _) => 5 case WriteEncrypt(_, _, _, _, _) => 4 case WriteUpload(_, _) => 3
    case Releasing(_) => 1 case Done(_) => 0
  }

  /** The store answers an upload with a CID that content addressing allows. */
  predicate Accepts(l: Local, env: Env) {
    && (l.call.pc.InitUpload? ==> CanStore(l.store, env.cid, l.call.pc.bytes))
    && (l.call.pc.WriteUpload? ==> CanStore(l.store, env.cid, l.call.pc.bytes))
  }

  lemma ReplaceQueue(tab: Tab, i: nat, c: Call, pointer: map<string, Cid>)
    requires Queue(tab) && Enabled(tab, i) && SameIdentity(tab.calls[i], c)
    requires c.pc.Waiting? ==> tab.calls[i].pc.Waiting?
    ensures Queue(Tab(pointer, tab.tail, tab.calls[i := c]))
  {
    var after := Tab(pointer, tab.tail, tab.calls[i := c]);
    forall w ensures IsLatest(after.calls, TailOf(after, w), |after.calls|, w) {
      assert TailOf(after, w) == TailOf(tab, w);
      assert IsLatest(tab.calls, TailOf(tab, w), |tab.calls|, w);
    }
    if tab.calls[i].kind.Append? && tab.calls[i].pc.Waiting? {
      PreviousDone(tab, i);
    }
  }

  /** Once the awaited promise is released, every earlier append of the wallet is done. */
  lemma PreviousDone(tab: Tab, i: nat)
    requires Queue(tab) && Enabled(tab, i) && tab.calls[i].kind.Append? && tab.calls[i].pc.Waiting?
    ensures forall j | 0 <= j < i && AppendOf(tab.calls[j], tab.calls[i].wallet) :: tab.calls[j].pc.Done?
  {
    var p := tab.calls[i].previous;
    forall j | 0 <= j < i && AppendOf(tab.calls[j], tab.calls[i].wallet) ensures tab.calls[j].pc.Done? {
      assert IsLatest(tab.calls, p, i, tab.calls[i].wallet);
      assert p.Some? && j <= p.value;
    }
  }

  lemma AppendQueue(tab: Tab, c: Call)
    requires Queue(tab) && c.kind.Append? && c.pc.Waiting? && c.previous == TailOf(tab, c.wallet)
    ensures Queue(Tab(tab.pointer, tab.tail[c.wallet := |tab.calls|], tab.calls + [c]))
  {
    var after := Tab(tab.pointer, tab.tail[c.wallet := |tab.calls|], tab.calls + [c]);
    forall w ensures IsLatest(after.calls, TailOf(after, w), |after.calls|, w) {
      assert IsLatest(tab.calls, TailOf(tab, w), |tab.calls|, w);
    }
    assert IsLatest(tab.calls, TailOf(tab, c.wallet), |tab.calls|, c.wallet);
    forall i | 0 <= i < |after.calls| && after.calls[i].kind.Append?
      ensures IsLatest(after.calls, after.calls[i].previous, i, after.calls[i].wallet)
    {
      if i < |tab.calls| {
        assert IsLatest(tab.calls, tab.calls[i].previous, i, tab.calls[i].wallet);
      }
    }
  }

  lemma LoadQueue(tab: Tab, c: Call)
    requires Queue(tab) && c.kind.Load? && !c.pc.Waiting?
    ensures Queue(tab.(calls := tab.calls + [c]))
  {
    var after := tab.(calls := tab.calls + [c]);
    forall w ensures IsLatest(after.calls, TailOf(after, w), |after.calls|, w) {
      assert TailOf(after, w) == TailOf(tab, w);
      assert IsLatest(tab.calls, TailOf(tab, w), |tab.calls|, w);
    }
    forall i | 0 <= i < |after.calls| && after.calls[i].kind.Append?
      ensures IsLatest(after.calls, after.calls[i].previous, i, after.calls[i].wallet)
    {
      assert IsLatest(tab.calls, tab.calls[i].previous, i, tab.calls[i].wallet);
    }
  }

  lemma PointerQueue(tab: Tab, pointer: map<string, Cid>)
    requires Queue(tab)
    ensures Queue(tab.(pointer := pointer))
  {
    var after := tab.(pointer := pointer);
    forall w ensures IsLatest(after.calls, TailOf(after, w), |after.calls|, w) {
      assert TailOf(after, w) == TailOf(tab, w);
      assert IsLatest(tab.calls, TailOf(tab, w), |tab.calls|, w);
    }
  }

  lemma StepQueue(s: State, a: Action)
    requires Queue(s.tab)
    ensures Queue(Step(s, a).tab)
  {
    hide Queue, AdvanceLocal, RejectLocal, StartBody, Trim;
    match a
    case InvokeAppend(rawWallet, signature, draft, head, unlock) =>
      var w := Trim(rawWallet);
      AppendQueue(s.tab, NewCall(Append(draft), w, signature, head, TailOf(s.tab, w)));
    case InvokeLoad(rawWallet, signature, head, unlock, env) =>
      var l := Local(s.store, PointerOf(s.tab, Trim(rawWallet)), NewCall(Load, Trim(rawWallet), signature, head, None));
      StartShape(l, env);
      LoadQueue(s.tab, StartBody(l, env).call);
    case Advance(i, env) =>
      if Enabled(s.tab, i) {
        AdvanceShape(View(s, i), env);
        ReplaceQueue(s.tab, i, AdvanceLocal(View(s, i), env).call, Step(s, a).tab.pointer);
      }
    case Reject(i, stored) =>
      if Enabled(s.tab, i) {
        RejectShape(View(s, i), stored);
        ReplaceQueue(s.tab, i, RejectLocal(View(s, i), stored).call, Step(s, a).tab.pointer);
      }
    case SetPointer(w, cid) =>
      PointerQueue(s.tab, s.tab.pointer[Trim(w) := Trim(cid)]);
  }

  /* ---- every run ---- */

  /** No call has been made yet; pointers and store may hold anything. */
  predicate Quiet(s: State) {
    s.tab.calls == [] && s.tab.tail == map[]
  }

  lemma {:induction false} RunQueue(s: State, actions: seq<Action>)
    requires Quiet(s)
    ensures Queue(Run(s, actions).tab)
  {
    hide Step;
    if actions != [] {
      RunQueue(s, actions[..|actions| - 1]);
      StepQueue(Run(s, actions[..|actions| - 1]), actions[|actions| - 1]);
    }
  }

  /**
   * Mutual exclusion and first-in first-out, in every run: two appends of one wallet never
   * hold the mutex together, and the later caller starts only after the earlier one is done.
   */
  lemma MutualExclusionFifo(s: State, actions: seq<Action>, i: nat, j: nat)
    requires Quiet(s) && j < i < |Run(s, actions).tab.calls|
    requires var calls := Run(s, actions).tab.calls;
             calls[i].kind.Append? && calls[j].kind.Append? && calls[i].wallet == calls[j].wallet
    ensures var calls := Run(s, actions).tab.calls;
            && !(Holds(calls[i]) && Holds(calls[j]))
            && (!calls[i].pc.Waiting? ==> calls[j].pc.Done?)
  {
    hide Run;
    RunQueue(s, actions);
    assert InOrder(Run(s, actions).tab.calls);
  }

  /**
   * Each append waits for the append of its wallet that was made just before it, so never
   * for itself or for a later one; the body of an append takes no lock again.
   */
  lemma WaitsForEarlierOnly(s: State, actions: seq<Action>, i: nat)
    requires Quiet(s) && i < |Run(s, actions).tab.calls| && Run(s, actions).tab.calls[i].kind.Append?
    ensures var calls := Run(s, actions).tab.calls; IsLatest(calls, calls[i].previous, i, calls[i].wallet)
  {
    hide Run, IsLatest, InOrder;
    RunQueue(s, actions);
  }

  /**
   * `finally`: when the awaited operation of a running append throws, the pointer stays as it
   * is, the store gains at most the bytes being uploaded, and the very next step of that call
   * gives the mutex to the next caller.
   */
  lemma ThrowReleases(l: Local, stored: Option<Cid>, env: Env)
    requires Holds(l.call) && !l.call.pc.Initialised? && !l.call.pc.Releasing?
    ensures var thrown := RejectLocal(l, stored); var after := AdvanceLocal(thrown, env);
            && thrown.pointer == l.pointer && after.pointer == l.pointer
            && thrown.store == AfterThrow(l.store, l.call.pc, stored) && after.store == thrown.store
            && after.call.pc == Done(Failed(StepFailed))
  {
  }

  /* ---- progress ---- */

  function Measure(calls: seq<Call>): nat {
    if calls == [] then 0 else Measure(calls[..|calls| - 1]) + Rank(calls[|calls| - 1].pc)
  }

  lemma {:induction false} MeasureUpdate(calls: seq<Call>, i: nat, c: Call)
    requires i < |calls|
    ensures Measure(calls[i := c]) + Rank(calls[i].pc) == Measure(calls) + Rank(c.pc)
  {
    if i < |calls| - 1 {
      assert calls[i := c][..|calls| - 1] == calls[..|calls| - 1][i := c];
      MeasureUpdate(calls[..|calls| - 1], i, c);
    } else {
      assert calls[i := c][..|calls| - 1] == calls[..|calls| - 1];
    }
  }

  /** A step of an existing call that does something brings the end nearer. */
  lemma StepDecreases(s: State, a: Action)
    requires (a.Advance? || a.Reject?) && Step(s, a).tab.calls != s.tab.calls
    ensures Measure(Step(s, a).tab.calls) < Measure(s.tab.calls)
  {
    hide AdvanceLocal, RejectLocal, Enabled;
    EnabledShape(s.tab, a.i);
    if a.Advance? {
      AdvanceShape(View(s, a.i), a.env);
      MeasureUpdate(s.tab.calls, a.i, AdvanceLocal(View(s, a.i), a.env).call);
    } else {
      RejectShape(View(s, a.i), a.stored);
      MeasureUpdate(s.tab.calls, a.i, RejectLocal(View(s, a.i), a.stored).call);
    }
  }

  lemma EnabledShape(tab: Tab, i: nat)
    ensures Enabled(tab, i) ==> i < |tab.calls| && !tab.calls[i].pc.Done?
  {
  }

  /**
   * No deadlock: while some call is unfinished there is an enabled one, and the next step
   * of any enabled call, with a store that answers, really moves it on. The enabled call
   * found here is the earliest unfinished one, so no caller is overtaken for ever.
   */
  lemma SomeCallCanMove(s: State, actions: seq<Action>, unfinished: nat) returns (i: nat)
    requires Quiet(s) && unfinished < |Run(s, actions).tab.calls| && !Run(s, actions).tab.calls[unfinished].pc.Done?
    ensures i <= unfinished && Enabled(Run(s, actions).tab, i)
    ensures forall env | Accepts(View(Run(s, actions), i), env) ::
              Measure(Step(Run(s, actions), Advance(i, env)).tab.calls) < Measure(Run(s, actions).tab.calls)
  {
    hide Run, AdvanceLocal;
    var t := Run(s, actions);
    RunQueue(s, actions);
    i := EarliestUnfinished(t.tab.calls, unfinished);
    if t.tab.calls[i].pc.Waiting? {
      assert IsLatest(t.tab.calls, t.tab.calls[i].previous, i, t.tab.calls[i].wallet);
    }
    forall env | Accepts(View(t, i), env)
      ensures Measure(Step(t, Advance(i, env)).tab.calls) < Measure(t.tab.calls)
    {
      AdvanceShape(View(t, i), env);
      MeasureUpdate(t.tab.calls, i, AdvanceLocal(View(t, i), env).call);
    }
  }

  lemma EarliestUnfinished(calls: seq<Call>, n: nat) returns (i: nat)
    requires n < |calls| && !calls[n].pc.Done?
    ensures i <= n && !calls[i].pc.Done? && forall j | 0 <= j < i :: calls[j].pc.Done?
  {
    if j: nat :| j < n && !calls[j].pc.Done? {
      i := EarliestUnfinished(calls, j);
    } else {
      i := n;
    }
  }

  /** Only calls already made move, and every action changes something. */
  predicate Busy(s: State, actions: seq<Action>) {
    actions != [] ==>
      var before, a := Run(s, actions[..|actions| - 1]), actions[|actions| - 1];
      Busy(s, actions[..|actions| - 1]) && (a.Advance? || a.Reject?) && Step(before, a).tab.calls != before.tab.calls
  }

  /** Termination: once no new call arrives, at most `Measure` effective steps are left. */
  lemma {:induction false} RunsTerminate(s: State, actions: seq<Action>)
    requires Busy(s, actions)
    ensures Measure(Run(s, actions).tab.calls) + |actions| <= Measure(s.tab.calls)
  {
    hide Step, Measure;
    if actions != [] {
      RunsTerminate(s, actions[..|actions| - 1]);
      StepDecreases(Run(s, actions[..|actions| - 1]), actions[|actions| - 1]);
    }
  }
}
