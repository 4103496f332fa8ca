/** Appends whose awaits are answered succeed, whatever all other calls do meanwhile. */
module ProtocolSuccess {
  import opened Wrappers
  import opened Terms
  import opened AsciiText
  import opened KeyDerivation
  import opened Manifest
  import opened ManifestCrypto
  import opened Protocol
  import opened ProtocolSafety
  import opened ProtocolMutex
  import opened ProtocolLinear
  import opened ProtocolResults
  import opened ProtocolOutcomes

  /** The random salt at hand is not empty. */
  predicate Salted(pc: Pc) {
    (pc.InitWrap? || pc.WriteWrap? || pc.WriteKek? ==> NonEmpty(pc.salt))
  }

  predicate Usable(d: Draft) {
    Trim(d.fileCid) != [] && Truthy(d.envelope)
  }

  /** Nothing stands in the way of this append: name and draft are usable and no restore is due. */
  ghost predicate Promising(l: Local) {
    && Ready(l) && l.call.kind.Append? && Usable(l.call.kind.draft) && Salted(l.call.pc)
    && (Reported(l.call.pc).Some? ==> Reported(l.call.pc).value.Appended?)
    && (l.call.pc.Waiting? ==> !HasSpace(l.call.wallet) && (HeadPresent(l.call.head) ==> l.pointer.Some?))
  }

  /** The part of `Promising` that one phase has to establish. */
  predicate StillPromising(c: Call) {
    Salted(c.pc) && !c.pc.Waiting? && (Reported(c.pc).Some? ==> Reported(c.pc).value.Appended?)
  }

  lemma InitPromising(l: Local, env: Env)
    requires Promising(l) && InInit(l.call.pc) && NonEmpty(env.salt)
    ensures StillPromising(InitPhase(l, env).call)
  {
    hide LoadFor, BuildWrapEnvelope, EncryptManifest, DeriveVaultRootKek, RootSignature, Trim, Encode, Truthy, NonEmpty;
    var c := l.call;
    CallOwner(l.store, c);
    if c.pc.InitWrap? {
      BuildAccepts(c.wallet, c.signature, c.pc.key, c.pc.salt, env.wrapNonce);
    } else if c.pc.InitEncrypt? {
      EncryptAccepts(EmptyOf(c), c.pc.key, c.wallet, c.signature, c.pc.salt, c.pc.wrapNonce, env.nonce, c.pc.envelope);
    }
  }

  lemma BuildAccepts(wallet: string, signature: Bytes, key: Bytes, salt: Bytes, wrapNonce: Bytes)
    requires Trim(wallet) != [] && Is32(key) && NonEmpty(salt)
    ensures BuildWrapEnvelope(wallet, DeriveVaultRootKek(signature), key, salt, wrapNonce).Ok?
  {
  }

  lemma ReadPromising(l: Local, env: Env)
    requires Promising(l) && InRead(l.call.pc)
    ensures StillPromising(ReadPhase(l, env).call)
  {
    hide ParseJson, UnwrapManifestKey, ReadManifest, RootSignature, Apply, NewEntry, Trim, Truthy, NonEmpty;
    if !l.call.pc.Initialised? {
      assert Good(l.store, l.call.cid.value, l.call.wallet);
    }
  }

  lemma WritePromising(l: Local, env: Env)
    requires Promising(l) && (InWrite(l.call.pc) || l.call.pc.Releasing?) && NonEmpty(env.salt)
    ensures StillPromising(WritePhase(l, env).call)
  {
    hide LoadFor, BuildWrapEnvelope, EncryptManifest, DeriveVaultRootKek, RootSignature, Trim, Encode, Truthy, Apply,
         NonEmpty;
    var c := l.call;
    CallOwner(l.store, c);
    if c.pc.WriteWrap? {
      BuildAccepts(c.wallet, c.signature, c.pc.key, c.pc.salt, env.wrapNonce);
    } else if c.pc.WriteEncrypt? {
      EncryptAccepts(c.pc.manifest, c.pc.key, c.wallet, c.signature, c.pc.salt, c.pc.wrapNonce, env.nonce,
                     c.pc.envelope);
    }
  }

  lemma StartPromising(l: Local, env: Env)
    requires Promising(l) && l.call.pc.Waiting?
    ensures StillPromising(StartBody(l, env).call)
  {
    hide Ready, Usable;
  }

  lemma StepPromising(l: Local, env: Env)
    requires Promising(l) && !l.call.pc.Done? && NonEmpty(env.salt)
    ensures Promising(AdvanceLocal(l, env))
  {
    hide StartBody, InitPhase, ReadPhase, WritePhase, CallTrue, Good, Current, Usable, Salted;
    if l.call.pc.Waiting? {
      StartPromising(l, env);
    } else if InInit(l.call.pc) {
      InitPromising(l, env);
    } else if InRead(l.call.pc) {
      ReadPromising(l, env);
    } else {
      WritePromising(l, env);
    }
    AdvanceMoves(l, env);
  }

  /* ---- the call among all others ---- */

  /** The call has left the queue, or may leave it now. */
  predicate Going(tab: Tab, i: nat) {
    i < |tab.calls| && (tab.calls[i].pc.Done? || Enabled(tab, i))
  }

  /** Call `i` does not throw, and its uploads and random bytes are usable. */
  predicate AnsweredStep(s: State, a: Action, i: nat)
    requires i < |s.tab.calls|
  {
    && (a.Advance? && a.i == i ==> Accepts(View(s, i), a.env) && NonEmpty(a.env.salt))
    && (a.Reject? ==> a.i != i)
  }

  predicate AnsweredRun(s: State, actions: seq<Action>, i: nat) {
    actions != [] ==>
      && AnsweredRun(s, actions[..|actions| - 1], i)
      && i < |Run(s, actions[..|actions| - 1]).tab.calls|
      && AnsweredStep(Run(s, actions[..|actions| - 1]), actions[|actions| - 1], i)
  }

  /** How often call `i` gets an answer. */
  function Turns(actions: seq<Action>, i: nat): nat {
    if actions == [] then 0
    else
      var last := actions[|actions| - 1];
      Turns(actions[..|actions| - 1], i) + (if last.Advance? && last.i == i then 1 else 0)
  }

  lemma PointersStay(s: State, a: Action)
    ensures s.tab.pointer.Keys <= Step(s, a).tab.pointer.Keys
  {
    hide AdvanceLocal, RejectLocal, StartBody, Trim;
  }

  lemma OtherStep(s: State, a: Action, i: nat)
    requires i < |s.tab.calls| && !((a.Advance? || a.Reject?) && a.i == i)
    ensures i < |Step(s, a).tab.calls| && Step(s, a).tab.calls[i] == s.tab.calls[i]
  {
    hide AdvanceLocal, RejectLocal, StartBody, Trim;
  }

  lemma DoneStays(s: State, a: Action, i: nat)
    requires i < |s.tab.calls| && s.tab.calls[i].pc.Done?
    ensures i < |Step(s, a).tab.calls| && Step(s, a).tab.calls[i] == s.tab.calls[i]
  {
    hide AdvanceLocal, RejectLocal, StartBody, Trim;
  }

  lemma OwnStep(s: State, i: nat, env: Env)
    requires Enabled(s.tab, i)
    ensures i < |Step(s, Advance(i, env)).tab.calls|
    ensures Step(s, Advance(i, env)).tab.calls[i] == AdvanceLocal(View(s, i), env).call
  {
    hide AdvanceLocal;
  }

  lemma PromisingAfter(start: State, s: State, t: State, i: nat)
    requires i < |s.tab.calls| && Promising(View(s, i)) && Linear(start, t)
    requires i < |t.tab.calls| && t.tab.calls[i] == s.tab.calls[i] && s.tab.pointer.Keys <= t.tab.pointer.Keys
    ensures Promising(View(t, i))
  {
    hide Linear, Ready, Usable, Salted;
    ViewReady(start, t, i);
  }

  /** The parts of `Promising` that only concern the call. */
  lemma PromisingCall(l: Local, m: Local)
    requires Promising(l) && Ready(m) && m.call == l.call && !l.call.pc.Waiting?
    ensures Promising(m)
  {
    hide Ready, Usable, Salted;
  }

  lemma PromisingKind(l: Local)
    requires Promising(l)
    ensures l.call.kind.Append?
  {
    hide Ready, Usable, Salted;
  }

  /** One step of the whole tab: the call stays promising, and its own turn brings it nearer its end. */
  lemma RunStepPromising(start: State, s: State, a: Action, i: nat)
    requires Linear(start, s) && Honest(s, a) && Disciplined(s, a)
    requires Going(s.tab, i) && Promising(View(s, i)) && AnsweredStep(s, a, i)
    ensures Going(Step(s, a).tab, i) && Promising(View(Step(s, a), i))
    ensures a.Advance? && a.i == i ==>
              Step(s, a).tab.calls[i].pc.Done? || Rank(Step(s, a).tab.calls[i].pc) < Rank(s.tab.calls[i].pc)
    ensures !(a.Advance? && a.i == i) || s.tab.calls[i].pc.Done? ==> Step(s, a).tab.calls[i] == s.tab.calls[i]
  {
    hide Linear, Honest, Disciplined, Promising, Step, Enabled, AdvanceLocal, AnsweredStep, View, Accepts;
    var t := Step(s, a);
    StepLinear(start, s, a);
    PointersStay(s, a);
    if s.tab.calls[i].pc.Done? {
      DoneStays(s, a, i);
      PromisingAfter(start, s, t, i);
    } else if a.Advance? && a.i == i {
      AnsweredHere(s, a.env, i);
      EnabledShape(s.tab, i);
      ViewCall(s, i);
      PromisingKind(View(s, i));
      StepPromising(View(s, i), a.env);
      AdvanceShape(View(s, i), a.env);
      OwnStep(s, i, a.env);
      ViewReady(start, t, i);
      ViewCall(t, i);
      PromisingCall(AdvanceLocal(View(s, i), a.env), View(t, i));
      RunningGoes(t.tab, i);
    } else {
      OtherRejected(s, a, i);
      OtherStep(s, a, i);
      PromisingAfter(start, s, t, i);
      GoingStays(s, a, i);
    }
  }

  lemma AnsweredHere(s: State, env: Env, i: nat)
    requires i < |s.tab.calls| && AnsweredStep(s, Advance(i, env), i)
    ensures Accepts(View(s, i), env) && NonEmpty(env.salt)
  {
  }

  lemma OtherRejected(s: State, a: Action, i: nat)
    requires i < |s.tab.calls| && AnsweredStep(s, a, i)
    ensures a.Reject? ==> a.i != i
  {
  }

  lemma RunningGoes(tab: Tab, i: nat)
    requires i < |tab.calls| && !tab.calls[i].pc.Waiting?
    ensures Going(tab, i)
  {
  }

  lemma GoingStays(s: State, a: Action, i: nat)
    requires Enabled(s.tab, i) && i < |Step(s, a).tab.calls| && Step(s, a).tab.calls[i] == s.tab.calls[i]
    ensures Going(Step(s, a).tab, i)
  {
    hide Step;
    var previous := s.tab.calls[i].previous;
    if s.tab.calls[i].pc.Waiting? && previous.Some? {
      DoneStays(s, a, previous.value);
    }
  }

  lemma {:induction false} RunPromising(start: State, pre: seq<Action>, run: seq<Action>, i: nat)
    requires Safe(start) && Quiet(start) && HonestRun(start, pre + run) && DisciplinedRun(start, pre + run)
    requires Going(Run(start, pre).tab, i) && Promising(View(Run(start, pre), i))
    requires AnsweredRun(Run(start, pre), run, i)
    ensures var s, t := Run(start, pre), Run(start, pre + run);
            && Going(t.tab, i) && Promising(View(t, i))
            && (t.tab.calls[i].pc.Done? || Rank(t.tab.calls[i].pc) + Turns(run, i) <= Rank(s.tab.calls[i].pc))
  {
    hide Safe, Quiet, Honest, Disciplined, Promising, Step, Rank, Linear, AnsweredStep, View;
    if run == [] {
      assert pre + run == pre;
    } else {
      var init, a := run[..|run| - 1], run[|run| - 1];
      assert (pre + run)[..|pre + run| - 1] == pre + init;
      RunPromising(start, pre, init, i);
      RunSplit(start, pre, init);
      RunLinear(start, pre + init);
      RunStepPromising(start, Run(start, pre + init), a, i);
    }
  }

  /**
   * In every run: an append with a usable draft, a wallet name without blanks and no restore
   * due, whose turn has come, and whose awaits are answered 18 times, has reported success by
   * then, whatever all other calls do and however they fail: no check of the code stops it.
   */
  lemma AnsweredAppendSucceeds(start: State, pre: seq<Action>, run: seq<Action>, i: nat)
    requires Safe(start) && Quiet(start) && HonestRun(start, pre + run) && DisciplinedRun(start, pre + run)
    requires Enabled(Run(start, pre).tab, i)
    requires var c := Run(start, pre).tab.calls[i];
             && c.kind.Append? && Usable(c.kind.draft) && Reported(c.pc).None? && Salted(c.pc)
             && (c.pc.Waiting? ==>
                   !HasSpace(c.wallet) && (HeadPresent(c.head) ==> c.wallet in Run(start, pre).tab.pointer))
    requires AnsweredRun(Run(start, pre), run, i) && Turns(run, i) >= Rank(Run(start, pre).tab.calls[i].pc)
    ensures var t := Run(start, pre + run);
            && i < |t.tab.calls| && t.tab.calls[i].pc.Done? && t.tab.calls[i].pc.outcome.Appended?
            && t.tab.calls[i].committed
  {
    hide Run, Safe, Quiet, HonestRun, DisciplinedRun, Linear, Ready, Usable, Salted, AnsweredRun, Turns, Enabled;
    ReadyAt(start, pre, run, i);
    RunPromising(start, pre, run, i);
    EnabledShape(Run(start, pre).tab, i);
    PromisingFlags(View(Run(start, pre + run), i));
  }

  lemma ReadyAt(start: State, pre: seq<Action>, run: seq<Action>, i: nat)
    requires Safe(start) && Quiet(start) && HonestRun(start, pre + run) && DisciplinedRun(start, pre + run)
    requires Enabled(Run(start, pre).tab, i)
    ensures i < |Run(start, pre).tab.calls| && Ready(View(Run(start, pre), i))
  {
    hide Run, Safe, Quiet, Linear, Ready, Enabled, Honest, Disciplined, Behind, Step;
    RunPrefix(start, pre, run, "");
    RunLinear(start, pre);
    EnabledInRange(Run(start, pre).tab, i);
    ViewReady(start, Run(start, pre), i);
  }

  lemma PromisingFlags(l: Local)
    requires Promising(l)
    ensures l.call.pc.Done? ==> l.call.pc.outcome.Appended? && l.call.committed
    ensures Rank(l.call.pc) == 0 ==> l.call.pc.Done?
  {
    hide CallTrue, Good, Current, Usable, Salted;
    FlagsOf(l.store, l.call);
  }

  /* ---- loads ---- */

  /** A load that found a pointer and has not failed. */
  predicate Loading(c: Call) {
    c.kind.Load? && c.cid.Some? && (c.pc.Fetch? || c.pc.Unwrap? || c.pc.Decrypt? || (c.pc.Done? && c.pc.outcome.Got?))
  }

  lemma LoadGoesOn(l: Local, env: Env)
    requires CallTrue(l.store, l.call) && Loading(l.call) && !l.call.pc.Done?
    ensures Loading(AdvanceLocal(l, env).call) && Rank(AdvanceLocal(l, env).call.pc) < Rank(l.call.pc)
  {
    hide CallTrue, ReadPhase;
    ReadNeverFails(l, env);
    ReadShape(l, env);
    AdvanceKeepsRead(l, env);
  }

  /** One step of the whole tab: the load keeps going, and its own turn brings it nearer its end. */
  lemma StepLoading(s: State, a: Action, i: nat)
    requires Safe(s) && i < |s.tab.calls| && Loading(s.tab.calls[i]) && (a.Reject? ==> a.i != i)
    ensures i < |Step(s, a).tab.calls| && Loading(Step(s, a).tab.calls[i])
    ensures a.Advance? && a.i == i && !s.tab.calls[i].pc.Done? ==>
        Rank(Step(s, a).tab.calls[i].pc) < Rank(s.tab.calls[i].pc)
    ensures !(a.Advance? && a.i == i) || s.tab.calls[i].pc.Done? ==> Step(s, a).tab.calls[i] == s.tab.calls[i]
  {
    hide CallTrue, Good, AdvanceLocal, Step, Rank;
    if s.tab.calls[i].pc.Done? {
      DoneStays(s, a, i);
    } else if a.Advance? && a.i == i {
      assert CallTrue(s.store, s.tab.calls[i]);
      LoadGoesOn(View(s, i), a.env);
      OwnStep(s, i, a.env);
    } else {
      OtherStep(s, a, i);
    }
  }

  predicate NotRejected(actions: seq<Action>, i: nat) {
    forall n | 0 <= n < |actions| :: actions[n].Reject? ==> actions[n].i != i
  }

  /**
   * In every run of honest callers, whatever else happens: a load that found a pointer and
   * whose awaits do not throw returns a manifest once it has been answered often enough.
   */
  lemma {:induction false} AnsweredLoadSucceeds(s: State, run: seq<Action>, i: nat)
    requires Safe(s) && HonestRun(s, run) && i < |s.tab.calls| && Loading(s.tab.calls[i]) && NotRejected(run, i)
    ensures i < |Run(s, run).tab.calls| && Loading(Run(s, run).tab.calls[i])
    ensures Run(s, run).tab.calls[i].pc.Done?
        || Rank(Run(s, run).tab.calls[i].pc) + Turns(run, i) <= Rank(s.tab.calls[i].pc)
    ensures Turns(run, i) >= Rank(s.tab.calls[i].pc) ==>
              Run(s, run).tab.calls[i].pc.Done? && Run(s, run).tab.calls[i].pc.outcome.Got?
  {
    hide Safe, Honest, Step, Rank, Loading;
    if run != [] {
      var init := run[..|run| - 1];
      AnsweredLoadSucceeds(s, init, i);
      RunSafe(s, init);
      StepLoading(Run(s, init), run[|run| - 1], i);
    }
    LoadingEnds(Run(s, run).tab.calls[i]);
  }

  lemma LoadingEnds(c: Call)
    requires Loading(c)
    ensures c.pc.Done? ==> c.pc.outcome.Got?
    ensures Rank(c.pc) == 0 ==> c.pc.Done?
  {
  }

  /** A load of a usable name that finds a pointer starts by fetching it: ten answers are enough. */
  lemma LoadBegins(s: State, a: Action)
    requires a.InvokeLoad? && UsableName(Trim(a.wallet)) && a.unlock && Trim(a.wallet) in s.tab.pointer
    ensures var c := Step(s, a).tab.calls[|s.tab.calls|]; Loading(c) && Rank(c.pc) == 10
  {
    hide Trim, HasSpace;
  }
}
