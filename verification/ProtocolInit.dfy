/**
 * Loads that initialise outside the mutex: what a caller must avoid, exactly when entries
 * are lost otherwise, and a run in which a reported append is lost.
 */
module ProtocolInit {
  import opened Wrappers
  import opened OctetStrings
  import opened Terms
  import opened AsciiText
  import opened KeyDerivation
  import opened Manifest
  import opened ManifestCrypto
  import opened Protocol
  import opened ProtocolSafety
  import opened ProtocolMutex
  import opened ProtocolLinear
  import opened ProtocolResults
  import opened ProtocolOutcomes
  import opened ProtocolSuccess

  /* ---- a rule for callers ---- */

  predicate AllDone(tab: Tab, w: string) {
    forall k | 0 <= k < |tab.calls| && tab.calls[k].wallet == w :: tab.calls[k].pc.Done?
  }

  predicate NoneInitialising(tab: Tab, w: string) {
    forall k | 0 <= k < |tab.calls| && tab.calls[k].wallet == w && tab.calls[k].kind.Load? :: !InInit(tab.calls[k].pc)
  }

  /**
   * A load that will initialise is started only when no call of its wallet is unfinished, and
   * no append of the wallet is started before it is done. Nobody restores a pointer.
   */
  predicate Careful(s: State, a: Action) {
    match a
    case SetPointer(_, _) => false
    case InvokeLoad(w, _, head, _, _) => PointerOf(s.tab, Trim(w)).Some? || HeadPresent(head) || AllDone(s.tab, Trim(w))
    case InvokeAppend(w, _, _, _, _) => NoneInitialising(s.tab, Trim(w))
    case _ => true
  }

  predicate CarefulRun(s: State, actions: seq<Action>) {
    actions != [] ==>
      CarefulRun(s, actions[..|actions| - 1]) && Careful(Run(s, actions[..|actions| - 1]), actions[|actions| - 1])
  }

  /** An initialising load is the only unfinished call of its wallet, and there is no pointer. */
  predicate Alone(tab: Tab) {
    forall i, k | 0 <= i < |tab.calls| && 0 <= k < |tab.calls| && tab.calls[i].kind.Load? && InInit(tab.calls[i].pc)
                  && tab.calls[k].wallet == tab.calls[i].wallet ::
      PointerOf(tab, tab.calls[i].wallet) == None && (k != i ==> tab.calls[k].pc.Done?)
  }

  lemma AloneIsDisciplined(s: State, a: Action)
    requires Alone(s.tab) && Careful(s, a)
    ensures Disciplined(s, a)
  {
    hide CanStore, Trim;
  }

  lemma InitEntered(l: Local, env: Env)
    requires l.call.kind.Load? && !l.call.pc.Waiting? && !l.call.pc.Done? && InInit(AdvanceLocal(l, env).call.pc)
    ensures InInit(l.call.pc) && AdvanceLocal(l, env).pointer == l.pointer
  {
    hide BuildWrapEnvelope, EncryptManifest, DeriveVaultRootKek, DeriveManifestKey, EmptyOf, CanStore, ReadPhase;
    if InRead(l.call.pc) {
      ReadIsNotInit(l, env);
    }
  }

  lemma ReadIsNotInit(l: Local, env: Env)
    requires InRead(l.call.pc) && l.call.kind.Load?
    ensures !InInit(ReadPhase(l, env).call.pc)
  {
    hide UnwrapManifestKey, ReadManifest, ParseJson, MergePhase;
  }

  lemma PutAlone(s: State, i: nat, l: Local)
    requires Alone(s.tab) && Enabled(s.tab, i) && SameIdentity(s.tab.calls[i], l.call)
    requires s.tab.calls[i].kind.Load? && InInit(l.call.pc) ==>
        InInit(s.tab.calls[i].pc) && l.pointer == View(s, i).pointer
    ensures Alone(Put(s, i, l).tab)
  {
  }

  lemma CarefulKeepsAlone(s: State, a: Action)
    requires Safe(s) && Alone(s.tab) && Careful(s, a)
    ensures Alone(Step(s, a).tab)
  {
    hide Safe, AdvanceLocal, RejectLocal, Alone, Trim, Enabled, Put;
    match a
    case InvokeAppend(raw, signature, draft, head, unlock) =>
      if Trim(raw) != [] && unlock { AppendAlone(s, a, Trim(raw)); }
    case InvokeLoad(raw, signature, head, unlock, env) =>
      if Trim(raw) != [] && unlock { LoadAlone(s, a, Trim(raw)); }
    case Advance(i, env) =>
      if Enabled(s.tab, i) {
        EnabledShape(s.tab, i);
        AdvanceShape(View(s, i), env);
        if s.tab.calls[i].kind.Load? {
          LoadStarted(s, i);
          if InInit(AdvanceLocal(View(s, i), env).call.pc) { InitEntered(View(s, i), env); }
        }
        PutAlone(s, i, AdvanceLocal(View(s, i), env));
      }
    case Reject(i, stored) =>
      if Enabled(s.tab, i) {
        EnabledShape(s.tab, i);
        RejectShape(View(s, i), stored);
        RejectNotInit(View(s, i), stored);
        PutAlone(s, i, RejectLocal(View(s, i), stored));
      }
  }

  lemma RejectNotInit(l: Local, stored: Option<Cid>)
    ensures !InInit(RejectLocal(l, stored).call.pc)
  {
  }

  lemma AppendAlone(s: State, a: Action, w: string)
    requires Alone(s.tab) && a.InvokeAppend? && w == Trim(a.wallet) != [] && a.unlock && NoneInitialising(s.tab, w)
    ensures Alone(Step(s, a).tab)
  {
    hide Trim;
  }

  lemma LoadAlone(s: State, a: Action, w: string)
    requires Alone(s.tab) && a.InvokeLoad? && w == Trim(a.wallet) != [] && a.unlock
    requires PointerOf(s.tab, w).Some? || HeadPresent(a.head) || AllDone(s.tab, w)
    ensures Alone(Step(s, a).tab)
  {
    hide Trim;
  }

  /** Callers that follow the rule make disciplined runs, so all results about those apply. */
  lemma {:induction false} CarefulRunsAreDisciplined(start: State, actions: seq<Action>)
    requires Safe(start) && Quiet(start) && HonestRun(start, actions) && CarefulRun(start, actions)
    ensures DisciplinedRun(start, actions) && Alone(Run(start, actions).tab)
  {
    hide Safe, Honest, Careful, Disciplined, Step;
    if actions != [] {
      var before := actions[..|actions| - 1];
      CarefulRunsAreDisciplined(start, before);
      RunSafe(start, before);
      AloneIsDisciplined(Run(start, before), actions[|actions| - 1]);
      CarefulKeepsAlone(Run(start, before), actions[|actions| - 1]);
    }
  }

  /* ---- exactly when entries are lost ---- */

  lemma InitialisedStays(s: State, a: Action, i: nat)
    requires i < |s.tab.calls|
    ensures i < |Step(s, a).tab.calls| && (s.tab.calls[i].initialised ==> Step(s, a).tab.calls[i].initialised)
    ensures Step(s, a).tab.calls[i].kind == s.tab.calls[i].kind
    ensures AnswersInit(s, a) && a.i == i ==> Step(s, a).tab.calls[i].initialised
  {
    hide AdvanceLocal, RejectLocal, StartBody, Trim, CanStore;
    if a.Advance? && a.i == i {
      FlagStays(View(s, i), a.env);
    } else if a.Reject? && a.i == i {
      RejectFlagStays(View(s, i), a.stored);
    }
  }

  lemma FlagStays(l: Local, env: Env)
    ensures AdvanceLocal(l, env).call.kind == l.call.kind
    ensures (l.call.initialised ==> AdvanceLocal(l, env).call.initialised)
    ensures l.call.pc.InitUpload? && CanStore(l.store, env.cid, l.call.pc.bytes) ==>
        AdvanceLocal(l, env).call.initialised
    ensures AdvanceLocal(l, env).call.createdAt.Some? ==> l.call.createdAt.Some? || l.pointer == None
    ensures AdvanceLocal(l, env).call.wallet == l.call.wallet
  {
    hide BuildWrapEnvelope, EncryptManifest, DeriveVaultRootKek, DeriveManifestKey, EmptyOf, CanStore, ReadPhase,
         HasSpace;
    if InRead(l.call.pc) {
      ReadKeepsFlags(l, env);
    }
  }

  lemma ReadKeepsFlags(l: Local, env: Env)
    requires InRead(l.call.pc)
    ensures var c := ReadPhase(l, env).call;
            c.kind == l.call.kind && c.wallet == l.call.wallet && c.initialised == l.call.initialised
                && c.createdAt == l.call.createdAt
  {
    hide UnwrapManifestKey, ReadManifest, ParseJson, Apply, NewEntry, Truthy, Trim;
  }

  lemma RejectFlagStays(l: Local, stored: Option<Cid>)
    ensures var c := RejectLocal(l, stored).call;
            && c.kind == l.call.kind && c.wallet == l.call.wallet
            && c.initialised == l.call.initialised && c.createdAt == l.call.createdAt
  {
  }

  predicate NoLoadInitialised(tab: Tab) {
    forall k | 0 <= k < |tab.calls| && tab.calls[k].kind.Load? :: !tab.calls[k].initialised
  }

  predicate NoRestores(actions: seq<Action>) {
    forall n | 0 <= n < |actions| :: !actions[n].SetPointer?
  }

  /** Without restores every run is disciplined until a direct initialisation has been answered. */
  lemma {:induction false} DisciplinedUntilFirst(start: State, actions: seq<Action>)
    requires NoRestores(actions) && NoLoadInitialised(Run(start, actions).tab)
    ensures DisciplinedRun(start, actions)
  {
    hide Step, Undisturbed, CanStore;
    if actions != [] {
      var before, a := actions[..|actions| - 1], actions[|actions| - 1];
      var s := Run(start, before);
      forall k | 0 <= k < |s.tab.calls| && s.tab.calls[k].kind.Load? ensures !s.tab.calls[k].initialised {
        InitialisedStays(s, a, k);
      }
      DisciplinedUntilFirst(start, before);
      if AnswersInit(s, a) {
        InitialisedStays(s, a, a.i);
      }
    }
  }

  /** Calls with a creation date found no pointer, so their wallet had none at the start. */
  predicate CreatedWithout(start: State, s: State) {
    && start.tab.pointer.Keys <= s.tab.pointer.Keys
    && forall i | 0 <= i < |s.tab.calls| && s.tab.calls[i].createdAt.Some? ::
        s.tab.calls[i].wallet !in start.tab.pointer
  }

  lemma StepCreatedWithout(start: State, s: State, a: Action)
    requires CreatedWithout(start, s)
    ensures CreatedWithout(start, Step(s, a))
  {
    hide AdvanceLocal, RejectLocal, Trim;
    PointersStay(s, a);
    if a.Advance? && Enabled(s.tab, a.i) {
      FlagStays(View(s, a.i), a.env);
    } else if a.Reject? && Enabled(s.tab, a.i) {
      RejectFlagStays(View(s, a.i), a.stored);
    }
  }

  lemma {:induction false} RunCreatedWithout(start: State, actions: seq<Action>)
    requires Quiet(start)
    ensures CreatedWithout(start, Run(start, actions))
  {
    hide Step;
    if actions != [] {
      RunCreatedWithout(start, actions[..|actions| - 1]);
      StepCreatedWithout(start, Run(start, actions[..|actions| - 1]), actions[|actions| - 1]);
    }
  }

  /** Some append of the wallet has moved its pointer to a merged manifest. */
  predicate SomeCommitted(tab: Tab, w: string) {
    exists k | 0 <= k < |tab.calls| :: tab.calls[k].wallet == w && tab.calls[k].committed
  }

  lemma {:induction false} FoldOfNothing(m: Option<ManifestV1>, calls: seq<Call>, w: string)
    requires EntriesOf(m) == [] && forall k | 0 <= k < |calls| && calls[k].wallet == w :: !calls[k].committed
    ensures EntriesOf(Replay(m, calls, w)) == []
  {
    if calls != [] {
      FoldOfNothing(m, calls[..|calls| - 1], w);
    }
  }

  /** Behind a pointer that was absent at the start there are entries exactly if an append committed. */
  lemma EntriesExactlyIfCommitted(start: State, actions: seq<Action>, w: string)
    requires Safe(start) && Quiet(start) && HonestRun(start, actions) && DisciplinedRun(start, actions)
    requires w !in start.tab.pointer
    ensures EntriesOf(Behind(Run(start, actions), w)) != [] <==> SomeCommitted(Run(start, actions).tab, w)
  {
    hide Run, Safe, Quiet, HonestRun, DisciplinedRun, Replay, Contains, Good;
    var s := Run(start, actions);
    if SomeCommitted(s.tab, w) {
      var k :| 0 <= k < |s.tab.calls| && s.tab.calls[k].wallet == w && s.tab.calls[k].committed;
      NoEntryLost(start, actions, k);
      ContainsSome(EntriesOf(Behind(s, w)), s.tab.calls[k].op.value.entry);
    } else {
      Linearizable(start, actions, w);
      FoldOfNothing(Behind(start, w), s.tab.calls, w);
    }
  }

  lemma ContainsSome(entries: seq<Entry>, e: Entry)
    requires Contains(entries, e)
    ensures entries != []
  {
  }

  /**
   * When the upload of a direct initialisation is answered, its wallet is left with an empty
   * manifest. Entries are lost in that step exactly if an append of the wallet has committed
   * before; otherwise the step takes nothing away.
   */
  lemma InitialisationLosesExactly(start: State, actions: seq<Action>, i: nat, env: Env)
    requires Safe(start) && Quiet(start) && HonestRun(start, actions) && DisciplinedRun(start, actions)
    requires AnswersInit(Run(start, actions), Advance(i, env))
    ensures var s, t := Run(start, actions), Step(Run(start, actions), Advance(i, env));
            var w := s.tab.calls[i].wallet;
            && EntriesOf(Behind(t, w)) == []
            && (!(EntriesOf(Behind(s, w)) <= EntriesOf(Behind(t, w))) <==> SomeCommitted(s.tab, w))
  {
    hide Run, Quiet, HonestRun, DisciplinedRun, Behind, CallTrue, Good, CanStore, AdvanceLocal;
    var s := Run(start, actions);
    RunSafe(start, actions);
    RunCreatedWithout(start, actions);
    assert CallTrue(s.store, s.tab.calls[i]);
    FlagsOf(s.store, s.tab.calls[i]);
    EntriesExactlyIfCommitted(start, actions, s.tab.calls[i].wallet);
    EmptiedBehind(s, i, env);
  }

  lemma EmptiedBehind(s: State, i: nat, env: Env)
    requires Safe(s) && AnswersInit(s, Advance(i, env))
    ensures EntriesOf(Behind(Step(s, Advance(i, env)), s.tab.calls[i].wallet)) == []
  {
    hide CallTrue, Good, CanStore, AdvanceLocal, Behind, LocalBehind;
    assert CallTrue(s.store, s.tab.calls[i]);
    ViewPointer(s, i);
    LateInitialisationEmpties(View(s, i), env);
    AdvanceSafe(View(s, i), env);
    AnsweredPointer(View(s, i), env);
    PutBehind(s, i, AdvanceLocal(View(s, i), env), s.tab.calls[i].wallet);
  }

  lemma AnsweredPointer(l: Local, env: Env)
    requires l.call.pc.InitUpload? && CanStore(l.store, env.cid, l.call.pc.bytes)
    ensures AdvanceLocal(l, env).pointer == Some(env.cid)
  {
    hide CanStore, EmptyOf;
  }

  /* ---- a run that loses a reported entry ---- */

  function Bs(n: nat): (s: string)
    ensures |s| == n && forall i | 0 <= i < n :: s[i] == 'b'
  {
    if n == 0 then [] else Bs(n - 1) + ['b']
  }

  lemma LongerThanAll(keys: set<string>) returns (n: nat)
    ensures forall k | k in keys :: |k| < n
  {
    n := 1;
    if keys != {} {
      var k :| k in keys;
      var m := LongerThanAll(keys - {k});
      n := if m > |k| then m else |k| + 1;
      forall x | x in keys ensures |x| < n {
        assert x == k || x in keys - {k};
      }
    }
  }

  /** The answer fits whatever is uploaded: the store has not used its CID yet. */
  predicate Fits(store: Store, env: Env) {
    NonEmpty(env.salt) && env.cid != [] && Trim(env.cid) == env.cid && env.cid !in store
  }

  lemma FitsEverything(store: Store, env: Env)
    requires Fits(store, env)
    ensures NonEmpty(env.salt) && forall bytes :: CanStore(store, env.cid, bytes)
  {
    hide Trim, NonEmpty;
  }

  lemma FreshCid(keys: set<string>) returns (cid: string)
    ensures cid != [] && Trim(cid) == cid && cid !in keys
  {
    hide Trim;
    var n := LongerThanAll(keys);
    cid := Bs(n + 1);
    TrimOfTrimmed(cid);
  }

  /** A store always has an unused CID for an upload. */
  lemma FreshAnswer(store: Store) returns (env: Env)
    ensures Fits(store, env)
  {
    hide Trim;
    var cid := FreshCid(store.Keys);
    env := Env("", "", "", Raw([0]), Raw([0]), Raw([0]), cid);
  }

  lemma AppendAnswerFits(s: State, i: nat, env: Env)
    requires i < |s.tab.calls| && s.tab.calls[i].kind.Append? && Fits(s.store, env)
    ensures Honest(s, Advance(i, env)) && Disciplined(s, Advance(i, env)) && AnsweredStep(s, Advance(i, env), i)
  {
    hide CanStore, NonEmpty, Undisturbed, Fits;
    FitsEverything(s.store, env);
  }

  lemma OneMoreHonest(start: State, before: seq<Action>, a: Action)
    requires HonestRun(start, before) && DisciplinedRun(start, before)
    requires Honest(Run(start, before), a) && Disciplined(Run(start, before), a)
    ensures HonestRun(start, before + [a]) && DisciplinedRun(start, before + [a])
  {
    hide Step, Honest, Disciplined, Run;
    assert (before + [a])[..|before + [a]| - 1] == before;
  }

  lemma OneMoreAnswer(s: State, run: seq<Action>, a: Action, i: nat)
    requires AnsweredRun(s, run, i) && i < |Run(s, run).tab.calls| && AnsweredStep(Run(s, run), a, i) && a.Advance?
    requires a.i == i
    ensures AnsweredRun(s, run + [a], i) && Turns(run + [a], i) == Turns(run, i) + 1
  {
    hide Step, AnsweredStep, Run;
    assert (run + [a])[..|run + [a]| - 1] == run;
  }

  /** `n` answers for the append `i`, whatever state the tab is in. */
  lemma {:induction false} AnswerAppend(start: State, pre: seq<Action>, i: nat, n: nat) returns (run: seq<Action>)
    requires Safe(start) && Quiet(start) && HonestRun(start, pre) && DisciplinedRun(start, pre)
    requires i < |Run(start, pre).tab.calls| && Run(start, pre).tab.calls[i].kind.Append?
    ensures |run| == n && Turns(run, i) == n && AnsweredRun(Run(start, pre), run, i)
    ensures forall k | 0 <= k < n :: run[k].Advance? && run[k].i == i
    ensures HonestRun(start, pre + run) && DisciplinedRun(start, pre + run)
  {
    hide Safe, Quiet, Run, Fits, Honest, Disciplined, AnsweredStep, HonestRun, DisciplinedRun;
    run := [];
    if n == 0 {
      assert pre + run == pre;
    } else {
      var init := AnswerAppend(start, pre, i, n - 1);
      var s := Run(start, pre + init);
      RunSplit(start, pre, init);
      KindOf(start, pre, init, i);
      var env := FreshAnswer(s.store);
      var a := Advance(i, env);
      run := init + [a];
      AppendAnswerFits(s, i, env);
      OneMoreHonest(start, pre + init, a);
      OneMoreAnswer(Run(start, pre), init, a, i);
      assert pre + run == pre + init + [a];
    }
  }

  lemma {:induction false} OthersKeep(s: State, run: seq<Action>, i: nat, k: nat)
    requires k < |s.tab.calls| && k != i && forall n | 0 <= n < |run| :: run[n].Advance? && run[n].i == i
    ensures k < |Run(s, run).tab.calls| && Run(s, run).tab.calls[k] == s.tab.calls[k]
  {
    hide Step;
    if run != [] {
      OthersKeep(s, run[..|run| - 1], i, k);
      OtherStep(Run(s, run[..|run| - 1]), run[|run| - 1], k);
    }
  }

  /** One answered await of an initialisation brings it one step on. */
  lemma InitGoesOn(l: Local, env: Env)
    requires CallTrue(l.store, l.call) && InInit(l.call.pc) && !l.call.pc.InitUpload? && Salted(l.call.pc)
    requires NonEmpty(env.salt)
    ensures var c := AdvanceLocal(l, env).call;
            && InInit(c.pc) && Salted(c.pc) && Rank(c.pc) == Rank(l.call.pc) - 1
            && c.kind == l.call.kind && c.wallet == l.call.wallet
  {
    hide LoadFor, BuildWrapEnvelope, EncryptManifest, DeriveVaultRootKek, DeriveManifestKey, RootSignature, Trim,
         Encode, NonEmpty;
    var c := l.call;
    CallOwner(l.store, c);
    if c.pc.InitWrap? {
      BuildAccepts(c.wallet, c.signature, c.pc.key, c.pc.salt, env.wrapNonce);
    } else if c.pc.InitEncrypt? {
      EncryptAccepts(EmptyOf(c), c.pc.key, c.wallet, c.signature, c.pc.salt, c.pc.wrapNonce, env.nonce, c.pc.envelope);
    }
  }

  predicate Initialising(s: State, i: nat, rank: nat) {
    && i < |s.tab.calls| && s.tab.calls[i].kind.Load? && InInit(s.tab.calls[i].pc) && Salted(s.tab.calls[i].pc)
    && Rank(s.tab.calls[i].pc) == rank
  }

  lemma InitStep(s: State, i: nat, rank: nat, env: Env)
    requires Safe(s) && Initialising(s, i, rank) && rank > 12 && Fits(s.store, env)
    ensures Initialising(Step(s, Advance(i, env)), i, rank - 1)
    ensures Step(s, Advance(i, env)).tab.calls[i].wallet == s.tab.calls[i].wallet
    ensures Honest(s, Advance(i, env)) && Disciplined(s, Advance(i, env))
  {
    hide AdvanceLocal, CallTrue, Salted, Good, Undisturbed, CanStore, NonEmpty, Step, Fits;
    FitsEverything(s.store, env);
    assert CallTrue(s.store, s.tab.calls[i]);
    InitGoesOn(View(s, i), env);
    OwnStep(s, i, env);
  }

  /** Answers that bring the initialising load `i` to its upload. */
  lemma {:induction false} AnswerLoad(start: State, pre: seq<Action>, i: nat, n: nat) returns (run: seq<Action>)
    requires Safe(start) && Quiet(start) && HonestRun(start, pre) && DisciplinedRun(start, pre) && n <= 5
    requires Initialising(Run(start, pre), i, 17)
    ensures |run| == n && forall k | 0 <= k < n :: run[k].Advance? && run[k].i == i
    ensures HonestRun(start, pre + run) && DisciplinedRun(start, pre + run)
    ensures Initialising(Run(start, pre + run), i, 17 - n)
    ensures Run(start, pre + run).tab.calls[i].wallet == Run(start, pre).tab.calls[i].wallet
  {
    hide Safe, Quiet, Step, Salted, InInit, Rank, Fits, Honest, Disciplined, HonestRun, DisciplinedRun, Run;
    run := [];
    if n == 0 {
      assert pre + run == pre;
    } else {
      var init := AnswerLoad(start, pre, i, n - 1);
      var s := Run(start, pre + init);
      var env := FreshAnswer(s.store);
      var a := Advance(i, env);
      run := init + [a];
      RunSafe(start, pre + init);
      InitStep(s, i, 17 - (n - 1), env);
      OneMoreHonest(start, pre + init, a);
      LastStep(start, pre + init, a);
      assert pre + run == pre + init + [a];
    }
  }

  /** The load of the race has begun to initialise, and nothing else has happened. */
  predicate OnlyLoad(s: State, w: string) {
    |s.tab.calls| == 1 && Initialising(s, 0, 17) && s.tab.calls[0].wallet == w && w !in s.tab.tail
  }

  /** The append of the race waits, first in line. */
  predicate BothStarted(s: State, w: string, draft: Draft) {
    && |s.tab.calls| == 2 && Initialising(s, 0, 17) && s.tab.calls[0].wallet == w
    && s.tab.calls[1] == NewCall(Append(draft), w, RootSignature(w), None, None)
  }

  predicate RaceLoad(a: Action, w: string) {
    a.InvokeLoad? && a.wallet == w && a.signature == RootSignature(w) && a.head == None && a.unlock
  }

  lemma LoadStarts(start: State, w: string, load: Action)
    requires Quiet(start) && w !in start.tab.pointer && UsableName(w) && RaceLoad(load, w)
    ensures Honest(start, load) && Disciplined(start, load) && OnlyLoad(Step(start, load), w)
  {
    hide RootSignature, Trim, HasSpace;
    UsableIsTrimmed(w);
  }

  lemma AppendStarts(s: State, w: string, append: Action)
    requires OnlyLoad(s, w) && UsableName(w)
    requires append.InvokeAppend? && append.wallet == w && append.signature == RootSignature(w) && append.head == None
    requires append.unlock
    ensures Honest(s, append) && Disciplined(s, append) && BothStarted(Step(s, append), w, append.draft)
  {
    hide RootSignature, Trim, Salted, HasSpace;
    UsableIsTrimmed(w);
  }

  lemma TwoActions(start: State, a: Action, b: Action)
    requires Honest(start, a) && Disciplined(start, a) && Honest(Step(start, a), b) && Disciplined(Step(start, a), b)
    ensures HonestRun(start, [a, b]) && DisciplinedRun(start, [a, b]) && Run(start, [a, b]) == Step(Step(start, a), b)
  {
    hide Step, Honest, Disciplined;
    assert [a, b][..1] == [a] && [a][..0] == [];
    assert Run(start, []) == start && HonestRun(start, []) && DisciplinedRun(start, []);
    assert Run(start, [a]) == Step(start, a) && HonestRun(start, [a]) && DisciplinedRun(start, [a]);
  }

  /** The two calls of the race: a load that will initialise, then an append. */
  lemma RaceStarts(start: State, w: string, draft: Draft) returns (pre: seq<Action>)
    requires Quiet(start) && w !in start.tab.pointer && UsableName(w)
    ensures HonestRun(start, pre) && DisciplinedRun(start, pre) && BothStarted(Run(start, pre), w, draft)
    ensures |pre| == 2 && pre[0].InvokeLoad? && pre[1].InvokeAppend?
  {
    hide RootSignature, Trim, Step, Honest, Disciplined, OnlyLoad, BothStarted, Quiet, Run, HonestRun, DisciplinedRun;
    var load := InvokeLoad(w, RootSignature(w), None, true, Env("", "", "", Raw([0]), Raw([0]), Raw([0]), ""));
    var append := InvokeAppend(w, RootSignature(w), draft, None, true);
    LoadStarts(start, w, load);
    AppendStarts(Step(start, load), w, append);
    TwoActions(start, load, append);
    pre := [load, append];
  }

  /** The append has reported success, and the load waits for the answer to its upload. */
  predicate AboutToLose(s: State, w: string, draft: Draft) {
    && |s.tab.calls| == 2 && Initialising(s, 0, 12) && s.tab.calls[0].wallet == w
    && s.tab.calls[1].kind == Append(draft) && s.tab.calls[1].wallet == w
    && s.tab.calls[1].pc.Done? && s.tab.calls[1].pc.outcome.Appended? && s.tab.calls[1].committed
  }

  lemma RaceRuns(start: State, w: string, draft: Draft) returns (before: seq<Action>)
    requires Safe(start) && Quiet(start) && w !in start.tab.pointer && UsableName(w) && Usable(draft)
    ensures HonestRun(start, before) && DisciplinedRun(start, before) && NoRestores(before)
    ensures AboutToLose(Run(start, before), w, draft)
  {
    hide Run, Safe, Quiet, HonestRun, DisciplinedRun, Trim, RootSignature, Usable, AnsweredRun, Turns, Initialising;
    var pre := RaceStarts(start, w, draft);
    var first := AnswerAppend(start, pre, 1, 18);
    FirstInLine(Run(start, pre), 1);
    AnsweredAppendSucceeds(start, pre, first, 1);
    RunSplit(start, pre, first);
    OthersKeep(Run(start, pre), first, 1, 0);
    RunLasts(start, pre, first, 1);
    CallsCount(start, pre, first, 1);
    SameInitialising(Run(start, pre), Run(start, pre + first), 0, 17);
    var late := AnswerLoad(start, pre + first, 0, 5);
    RunSplit(start, pre + first, late);
    OthersKeep(Run(start, pre + first), late, 0, 1);
    CallsCount(start, pre + first, late, 0);
    before := pre + first + late;
  }

  lemma FirstInLine(s: State, i: nat)
    requires i < |s.tab.calls| && s.tab.calls[i].previous == None && s.tab.calls[i].pc.Waiting?
    ensures Enabled(s.tab, i) && Salted(s.tab.calls[i].pc) && Reported(s.tab.calls[i].pc).None?
  {
  }

  lemma SameInitialising(s: State, t: State, i: nat, rank: nat)
    requires Initialising(s, i, rank) && i < |t.tab.calls| && t.tab.calls[i] == s.tab.calls[i]
    ensures Initialising(t, i, rank)
  {
    hide Salted, InInit, Rank;
  }

  lemma UploadWaits(s: State, i: nat, env: Env)
    requires Initialising(s, i, 12) && Fits(s.store, env)
    ensures AnswersInit(s, Advance(i, env))
  {
    hide CanStore, Salted, Fits;
    FitsEverything(s.store, env);
  }

  /** The append reported success, it is committed, and its wallet has no entries at all. */
  predicate EntryLost(t: State, w: string, draft: Draft) {
    && |t.tab.calls| == 2 && t.tab.calls[1].kind == Append(draft) && t.tab.calls[1].wallet == w
    && t.tab.calls[1].pc.Done? && t.tab.calls[1].pc.outcome.Appended? && t.tab.calls[1].committed
    && EntriesOf(Behind(t, w)) == []
  }

  lemma UploadAnswered(start: State, before: seq<Action>, w: string, draft: Draft, env: Env)
    requires Safe(start) && Quiet(start) && HonestRun(start, before) && DisciplinedRun(start, before)
    requires AboutToLose(Run(start, before), w, draft) && AnswersInit(Run(start, before), Advance(0, env))
    ensures EntryLost(Step(Run(start, before), Advance(0, env)), w, draft)
  {
    hide Run, Safe, Quiet, HonestRun, DisciplinedRun, Behind, Step, Initialising, AnswersInit, SomeCommitted;
    InitialisationLosesExactly(start, before, 0, env);
    OtherStep(Run(start, before), Advance(0, env), 1);
    AdvanceAddsNoCall(Run(start, before), 0, env);
  }

  lemma AdvanceAddsNoCall(s: State, i: nat, env: Env)
    ensures |Step(s, Advance(i, env)).tab.calls| == |s.tab.calls|
  {
    hide AdvanceLocal;
  }

  /** The store answers the waiting upload of the race. */
  lemma RaceUpload(s: State, w: string, draft: Draft) returns (env: Env)
    requires AboutToLose(s, w, draft)
    ensures AnswersInit(s, Advance(0, env))
  {
    hide Fits, Initialising, AnswersInit;
    env := FreshAnswer(s.store);
    UploadWaits(s, 0, env);
  }

  lemma RaceEnds(start: State, before: seq<Action>, w: string, draft: Draft) returns (actions: seq<Action>)
    requires Safe(start) && Quiet(start) && HonestRun(start, before) && DisciplinedRun(start, before)
    requires NoRestores(before)
    requires AboutToLose(Run(start, before), w, draft)
    ensures HonestRun(start, actions) && NoRestores(actions) && EntryLost(Run(start, actions), w, draft)
  {
    hide Run, Safe, Quiet, HonestRun, DisciplinedRun, Step, AboutToLose, AnswersInit, EntryLost;
    var env := RaceUpload(Run(start, before), w, draft);
    UploadAnswered(start, before, w, draft, env);
    LastStep(start, before, Advance(0, env));
    actions := before + [Advance(0, env)];
  }

  /**
   * From every quiet state in which a wallet has no pointer there is a run without restores,
   * by honest callers, in which an append reports success and yet its entry, like every
   * entry, is gone: a load started before it initialises after it.
   */
  lemma RaceLosesEntry(start: State, w: string, draft: Draft) returns (actions: seq<Action>)
    requires Safe(start) && Quiet(start) && w !in start.tab.pointer && UsableName(w) && Usable(draft)
    ensures HonestRun(start, actions) && NoRestores(actions) && EntryLost(Run(start, actions), w, draft)
  {
    hide Run, Safe, Quiet, HonestRun, DisciplinedRun, NoRestores, AboutToLose, EntryLost, Usable, Trim;
    var before := RaceRuns(start, w, draft);
    actions := RaceEnds(start, before, w, draft);
  }

  lemma LastStep(start: State, before: seq<Action>, a: Action)
    ensures Run(start, before + [a]) == Step(Run(start, before), a)
    ensures HonestRun(start, before) && a.Advance? ==> HonestRun(start, before + [a])
  {
    hide Step;
    assert (before + [a])[..|before + [a]| - 1] == before;
  }

  lemma {:induction false} KindOf(start: State, pre: seq<Action>, run: seq<Action>, i: nat)
    requires i < |Run(start, pre).tab.calls|
    ensures i < |Run(start, pre + run).tab.calls|
    ensures Run(start, pre + run).tab.calls[i].kind == Run(start, pre).tab.calls[i].kind
  {
    hide Step;
    if run == [] {
      assert pre + run == pre;
    } else {
      assert (pre + run)[..|pre + run| - 1] == pre + run[..|run| - 1];
      KindOf(start, pre, run[..|run| - 1], i);
      InitialisedStays(Run(start, pre + run[..|run| - 1]), run[|run| - 1], i);
    }
  }

  lemma {:induction false} CallsCount(start: State, pre: seq<Action>, run: seq<Action>, i: nat)
    requires forall n | 0 <= n < |run| :: run[n].Advance? && run[n].i == i
    ensures |Run(start, pre + run).tab.calls| == |Run(start, pre).tab.calls|
  {
    hide AdvanceLocal;
    if run == [] {
      assert pre + run == pre;
    } else {
      assert (pre + run)[..|pre + run| - 1] == pre + run[..|run| - 1];
      CallsCount(start, pre, run[..|run| - 1], i);
    }
  }
}
