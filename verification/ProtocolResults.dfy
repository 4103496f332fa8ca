/** What the protocol promises over whole runs. */
module ProtocolResults {
  import opened Wrappers
  import opened Terms
  import opened AsciiText
  import opened KeyDerivation
  import opened Manifest
  import opened ManifestCrypto
  import opened Protocol
  import opened ProtocolSafety
  import opened ProtocolMutex
  import opened ProtocolLinear

  /* ---- the invariant over one step of one call ---- */

  /** A step that moves the pointer keeps clear of every other call of the wallet. */
  predicate KeepsClear(s: State, i: nat, l: Local)
    requires i < |s.tab.calls|
  {
    Holds(s.tab.calls[i]) || l.pointer == PointerOf(s.tab, s.tab.calls[i].wallet) || Undisturbed(s.tab, i)
  }

  lemma PutPointed(s: State, i: nat, l: Local)
    requires Pointed(s.tab) && i < |s.tab.calls| && Moves(View(s, i), l)
    ensures Pointed(Put(s, i, l).tab)
  {
    hide CallTrue, Good, Current;
  }

  lemma PutAfterEarlier(s: State, i: nat, l: Local)
    requires AfterEarlier(s.tab.calls) && InOrder(s.tab.calls) && Enabled(s.tab, i) && Moves(View(s, i), l)
    requires KeepsClear(s, i, l)
    ensures AfterEarlier(Put(s, i, l).tab.calls)
  {
    hide CallTrue, Good, Current, InOrder;
    var t := Put(s, i, l).tab.calls;
    forall j, k | 0 <= j < k < |t| && t[k].kind.Load? && t[k].initialised && AppendOf(t[j], t[k].wallet)
        ensures t[j].pc.Done? {
      if k != i || s.tab.calls[i].initialised {
        assert s.tab.calls[k].initialised && AppendOf(s.tab.calls[j], s.tab.calls[k].wallet);
      } else {
        InitialisesMoves(View(s, i), l);
      }
    }
  }

  lemma InitialisesMoves(before: Local, after: Local)
    requires Moves(before, after) && !before.call.initialised && after.call.initialised
    ensures before.pointer == None && after.pointer.Some?
  {
    hide CallTrue, Good, Current;
  }

  lemma OtherCurrent(s: State, i: nat, l: Local, k: nat)
    requires InOrder(s.tab.calls) && AllCurrent(s.tab) && Enabled(s.tab, i) && Moves(View(s, i), l)
    requires KeepsClear(s, i, l)
    requires k < |s.tab.calls| && k != i
    ensures Current(s.tab.calls[k], PointerOf(Put(s, i, l).tab, s.tab.calls[k].wallet))
  {
    hide Current, Kept, Still, Initialises, Commits, AllCurrent;
    CurrentAt(s.tab, k);
    if PointerOf(Put(s, i, l).tab, s.tab.calls[k].wallet) != PointerOf(s.tab, s.tab.calls[k].wallet) {
      NotHolding(s.tab.calls[k], PointerOf(Put(s, i, l).tab, s.tab.calls[k].wallet));
    }
  }

  lemma CurrentAt(tab: Tab, k: nat)
    requires AllCurrent(tab) && k < |tab.calls|
    ensures Current(tab.calls[k], PointerOf(tab, tab.calls[k].wallet))
  {
    hide Current;
  }

  lemma NotHolding(c: Call, pointer: Option<Cid>)
    requires !Holds(c)
    ensures Current(c, pointer)
  {
  }

  lemma PutCurrent(s: State, i: nat, l: Local)
    requires InOrder(s.tab.calls) && AllCurrent(s.tab) && Enabled(s.tab, i) && Moves(View(s, i), l)
    requires KeepsClear(s, i, l)
    ensures AllCurrent(Put(s, i, l).tab)
  {
    hide Current, Kept, Still, Initialises, Commits, Enabled, KeepsClear, InOrder;
    EnabledInRange(s.tab, i);
    MoveKeepsPointer(View(s, i), l);
    MoveWallet(View(s, i), l);
    var t := Put(s, i, l).tab;
    forall k | 0 <= k < |t.calls| ensures Current(t.calls[k], PointerOf(t, t.calls[k].wallet)) {
      if k != i {
        OtherCurrent(s, i, l, k);
      }
    }
  }

  lemma MoveWallet(before: Local, after: Local)
    requires Moves(before, after)
    ensures after.call.wallet == before.call.wallet && after.call.kind == before.call.kind
    ensures Kept(before, after)
  {
    hide Good, CallTrue, Still, Initialises, Commits, Current;
  }

  lemma PutLinear(start: State, s: State, i: nat, l: Local)
    requires Linear(start, s) && Enabled(s.tab, i) && Moves(View(s, i), l) && KeepsClear(s, i, l)
    requires Queue(Put(s, i, l).tab)
    ensures Linear(start, Put(s, i, l))
    ensures forall w :: EntriesOf(Behind(s, w)) <= EntriesOf(Behind(Put(s, i, l), w))
  {
    hide Safe, Chained, Replay, Behind, Put, View, Moves, Enabled, AllCurrent, Pointed, AfterEarlier, InOrder,
         KeepsClear;
    EnabledInRange(s.tab, i);
    MoveWallet(View(s, i), l);
    PutSafe(s, i, l);
    PutCurrent(s, i, l);
    PutPointed(s, i, l);
    PutAfterEarlier(s, i, l);
    forall w
      ensures Behind(Put(s, i, l), w) == Replay(Behind(start, w), Put(s, i, l).tab.calls, w)
      ensures EntriesOf(Behind(s, w)) <= EntriesOf(Behind(Put(s, i, l), w))
    {
      PutReplay(start, s, i, l, w);
    }
  }

  lemma ViewReady(start: State, s: State, i: nat)
    requires Linear(start, s) && i < |s.tab.calls|
    ensures Ready(View(s, i))
  {
    hide CallTrue, LoadFor, Queue, Replay, Behind, Current, Pointed, AfterEarlier;
    ViewPointer(s, i);
  }

  /* ---- the invariant over one action ---- */

  lemma DisciplineKeepsClear(s: State, i: nat, env: Env)
    requires Enabled(s.tab, i) && Disciplined(s, Advance(i, env)) && CallTrue(s.store, s.tab.calls[i])
    ensures Timely(View(s, i), env) && KeepsClear(s, i, AdvanceLocal(View(s, i), env))
  {
    hide AdvanceLocal, CanStore, PcTrue;
    if !AnswersInit(s, Advance(i, env)) {
      LoadsMoveOnlyByInit(View(s, i), env);
    }
  }

  lemma LoadsMoveOnlyByInit(l: Local, env: Env)
    requires FlagsTrue(l.call) && !l.call.pc.Done?
    requires !(l.call.kind.Load? && l.call.pc.InitUpload? && CanStore(l.store, env.cid, l.call.pc.bytes))
    ensures l.call.kind.Load? || l.call.pc.Waiting? ==> AdvanceLocal(l, env).pointer == l.pointer
  {
    hide BuildWrapEnvelope, EncryptManifest, DeriveVaultRootKek, DeriveManifestKey, EmptyOf, ReadPhase, CanStore;
    if InRead(l.call.pc) {
      ReadLeavesPointer(l, env);
    }
  }

  lemma ReadLeavesPointer(l: Local, env: Env)
    requires InRead(l.call.pc)
    ensures ReadPhase(l, env).store == l.store && ReadPhase(l, env).pointer == l.pointer
  {
    hide UnwrapManifestKey, ReadManifest, ParseJson, Apply, NewEntry, Truthy, Trim;
  }

  lemma RejectLeavesPointer(l: Local, stored: Option<Cid>)
    ensures RejectLocal(l, stored).pointer == l.pointer
  {
  }

  lemma CallLinear(start: State, s: State, a: Action)
    requires Linear(start, s) && Disciplined(s, a) && (a.Advance? || a.Reject?)
    ensures Linear(start, Step(s, a))
    ensures forall w :: EntriesOf(Behind(s, w)) <= EntriesOf(Behind(Step(s, a), w))
  {
    hide Enabled, AdvanceLocal, RejectLocal, Put, View, Queue, Folded, Behind, AllCurrent, Pointed, AfterEarlier,
         CallTrue, Good, Disciplined, KeepsClear;
    StepQueue(s, a);
    if Enabled(s.tab, a.i) {
      EnabledShape(s.tab, a.i);
      ViewReady(start, s, a.i);
      ViewCall(s, a.i);
      if a.Advance? {
        DisciplineKeepsClear(s, a.i, a.env);
        AdvanceMoves(View(s, a.i), a.env);
        PutLinear(start, s, a.i, AdvanceLocal(View(s, a.i), a.env));
      } else {
        RejectKeepsClear(s, a.i, a.stored);
        RejectMoves(View(s, a.i), a.stored);
        PutLinear(start, s, a.i, RejectLocal(View(s, a.i), a.stored));
      }
    }
  }

  lemma RejectKeepsClear(s: State, i: nat, stored: Option<Cid>)
    requires i < |s.tab.calls|
    ensures KeepsClear(s, i, RejectLocal(View(s, i), stored))
  {
    hide RejectLocal;
    RejectLeavesPointer(View(s, i), stored);
  }

  lemma ViewCall(s: State, i: nat)
    requires i < |s.tab.calls|
    ensures View(s, i).call == s.tab.calls[i]
  {
  }

  /** A new call that has done nothing leaves every manifest and every fold as it was. */
  lemma InvokeLinear(start: State, s: State, a: Action, c: Call)
    requires Linear(start, s) && Safe(Step(s, a)) && Queue(Step(s, a).tab)
    requires Step(s, a).store == s.store && Step(s, a).tab.pointer == s.tab.pointer
    requires Step(s, a).tab.calls == s.tab.calls + [c]
    requires !Holds(c) && !c.initialised && !c.committed
    ensures Linear(start, Step(s, a))
    ensures forall w :: Behind(Step(s, a), w) == Behind(s, w)
  {
    hide Step, Safe, Queue, Replay, Good, Current, Holds;
    var t := Step(s, a);
    forall w ensures Behind(t, w) == Behind(s, w) == Replay(Behind(start, w), t.tab.calls, w) {
      ReplayIdleCall(Behind(start, w), s.tab.calls, c, w);
    }
    NotHolding(c, PointerOf(t.tab, c.wallet));
  }

  lemma StepLinear(start: State, s: State, a: Action)
    requires Linear(start, s) && Honest(s, a) && Disciplined(s, a)
    ensures Linear(start, Step(s, a))
    ensures forall w :: EntriesOf(Behind(s, w)) <= EntriesOf(Behind(Step(s, a), w))
  {
    hide Linear, Behind, Honest, Disciplined, Replay, Step;
    if a.Advance? || a.Reject? {
      CallLinear(start, s, a);
    } else if a.InvokeAppend? {
      AppendLinear(start, s, a);
    } else if a.InvokeLoad? {
      LoadLinear(start, s, a);
    } else {
      NoSetPointer(s, a);
    }
  }

  lemma NoSetPointer(s: State, a: Action)
    ensures Disciplined(s, a) ==> !a.SetPointer?
  {
  }

  lemma AppendLinear(start: State, s: State, a: Action)
    requires Linear(start, s) && Honest(s, a) && a.InvokeAppend?
    ensures Linear(start, Step(s, a))
    ensures forall w :: EntriesOf(Behind(s, w)) <= EntriesOf(Behind(Step(s, a), w))
  {
    hide Queue, Folded, Behind, Trim, RootSignature, CallTrue, Good, AllCurrent, Pointed, AfterEarlier;
    StepSafe(s, a);
    StepQueue(s, a);
    var w := Trim(a.wallet);
    if w != [] && a.unlock {
      InvokeLinear(start, s, a, NewCall(Append(a.draft), w, a.signature, a.head, TailOf(s.tab, w)));
    }
  }

  lemma LoadLinear(start: State, s: State, a: Action)
    requires Linear(start, s) && Honest(s, a) && a.InvokeLoad?
    ensures Linear(start, Step(s, a))
    ensures forall w :: EntriesOf(Behind(s, w)) <= EntriesOf(Behind(Step(s, a), w))
  {
    hide Queue, Folded, Behind, Trim, RootSignature, CallTrue, Good, AllCurrent, Pointed, AfterEarlier;
    StepSafe(s, a);
    StepQueue(s, a);
    var w := Trim(a.wallet);
    if w != [] && a.unlock {
      var l := Local(s.store, PointerOf(s.tab, w), NewCall(Load, w, a.signature, a.head, None));
      InvokeLinear(start, s, a, StartBody(l, a.env).call);
    }
  }

  /* ---- runs ---- */

  lemma {:induction false} RunLinear(start: State, actions: seq<Action>)
    requires Safe(start) && Quiet(start) && HonestRun(start, actions) && DisciplinedRun(start, actions)
    ensures Linear(start, Run(start, actions))
  {
    hide Linear, Safe, Honest, Disciplined, Step;
    if actions == [] {
      QuietLinear(start);
    } else {
      var before := actions[..|actions| - 1];
      RunLinear(start, before);
      StepLinear(start, Run(start, before), actions[|actions| - 1]);
    }
  }

  lemma QuietLinear(s: State)
    requires Safe(s) && Quiet(s)
    ensures Linear(s, s)
  {
    hide LoadFor;
  }

  /**
   * Linearizability. In every disciplined run, with any number of concurrent appends and
   * loads on any wallets, any interleaving of their awaits and any failures, the manifest
   * behind each pointer equals the fold of the successful calls in call order.
   */
  lemma Linearizable(start: State, actions: seq<Action>, w: string)
    requires Safe(start) && Quiet(start) && HonestRun(start, actions) && DisciplinedRun(start, actions)
    ensures Behind(Run(start, actions), w) == Replay(Behind(start, w), Run(start, actions).tab.calls, w)
  {
    hide Run, Behind, Replay, Safe, HonestRun, DisciplinedRun;
    RunLinear(start, actions);
  }

  lemma {:induction false} RunPrefix(start: State, a: seq<Action>, b: seq<Action>, w: string)
    requires Safe(start) && Quiet(start) && HonestRun(start, a + b) && DisciplinedRun(start, a + b)
    ensures EntriesOf(Behind(Run(start, a), w)) <= EntriesOf(Behind(Run(start, a + b), w))
    ensures HonestRun(start, a) && DisciplinedRun(start, a)
  {
    hide Linear, Safe, Honest, Disciplined, Step, Behind;
    if b == [] {
      assert a + b == a;
    } else {
      var before := a + b[..|b| - 1];
      assert (a + b)[..|a + b| - 1] == before;
      RunPrefix(start, a, b[..|b| - 1], w);
      RunLinear(start, before);
      StepLinear(start, Run(start, before), b[|b| - 1]);
    }
  }

  lemma ContainsPrefix(p: seq<Entry>, q: seq<Entry>, e: Entry)
    requires p <= q && Contains(p, e)
    ensures Contains(q, e)
  {
    var i :| 0 <= i < |p| && Clash(p[i], e);
    assert Clash(q[i], e);
  }
}
