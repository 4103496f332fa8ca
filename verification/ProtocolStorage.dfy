/**
 * The protocol on its own pointer store: every pointer read is the migrating getManifestCid
 * and every write is setManifestCid, on one key-value store for all wallets
 * (packages/manifest/src/service.ts with packages/manifest/src/storage.ts as its default).
 *
 * For wallet names and a cluster without colons this machine and the one of Protocol, which
 * keeps one pointer per wallet, go through the same calls and agree on every pointer, so the
 * run results hold of the key-value store. With a colon they part.
 */
module ProtocolStorage {
  import opened Wrappers
  import opened Terms
  import opened AsciiText
  import opened KeyDerivation
  import opened Manifest
  import opened ManifestCrypto
  import opened PointerStore
  import opened Protocol
  import opened ProtocolSafety
  import opened ProtocolMutex
  import opened ProtocolLinear
  import opened ProtocolResults
  import opened ProtocolOutcomes

  datatype Real = Real(store: Store, items: Items, tail: map<string, nat>, calls: seq<Call>)

  /* ---- the machine ---- */

  function Calls(r: Real): Tab {
    Tab(map[], r.tail, r.calls)
  }

  function RealView(r: Real, cluster: string, i: nat): Local
    requires i < |r.calls|
  {
    Local(r.store, Pointer(r.items, cluster, r.calls[i].wallet), r.calls[i])
  }

  /** The call reads its pointer in its next step. */
  predicate Reads(c: Call) {
    (c.pc.Waiting? && !HasSpace(c.wallet)) || c.pc.Initialised?
  }

  function AfterAdvance(items: Items, cluster: string, l: Local, env: Env): Items {
    if AnswersUpload(l, env) then items[ScopedKey(cluster, l.call.wallet) := Trim(env.cid)]
    else if Reads(l.call) then Migrated(items, cluster, l.call.wallet)
    else items
  }

  function RealStep(r: Real, a: Action, cluster: string): Real {
    match a
    case InvokeAppend(rawWallet, signature, draft, head, unlock) =>
      var w := Trim(rawWallet);
      if w == [] || !unlock then r
      else
        var c := NewCall(Append(draft), w, signature, head, TailOf(Calls(r), w));
        r.(tail := r.tail[w := |r.calls|], calls := r.calls + [c])
    case InvokeLoad(rawWallet, signature, head, unlock, env) =>
      var w := Trim(rawWallet);
      if w == [] || !unlock then r
      else
        var l := StartBody(Local(r.store, Pointer(r.items, cluster, w), NewCall(Load, w, signature, head, None)), env);
        r.(items := if HasSpace(w) then r.items else Migrated(r.items, cluster, w), calls := r.calls + [l.call])
    case Advance(i, env) =>
      if !Enabled(Calls(r), i) then r
      else
        var l := AdvanceLocal(RealView(r, cluster, i), env);
        r.(store := l.store, items := AfterAdvance(r.items, cluster, RealView(r, cluster, i), env),
           calls := r.calls[i := l.call])
    case Reject(i, stored) =>
      if !Enabled(Calls(r), i) then r
      else
        var l := RejectLocal(RealView(r, cluster, i), stored);
        r.(store := l.store, calls := r.calls[i := l.call])
    case SetPointer(rawWallet, cid) =>
      var w := Trim(rawWallet);
      if Trim(cid) == [] || w == [] || HasSpace(w) then r
      else r.(items := r.items[ScopedKey(cluster, w) := Trim(cid)])
  }

  function RealRun(r: Real, actions: seq<Action>, cluster: string): Real {
    if actions == [] then r
    else RealStep(RealRun(r, actions[..|actions| - 1], cluster), actions[|actions| - 1], cluster)
  }

  /* ---- the state it stands for ---- */

  /** Every name whose scoped or legacy key is in the store, and perhaps more. */
  function NamesIn(items: Items, cluster: string): set<string> {
    var n := |ScopedKey(cluster, "")|;
    (set k | k in items && |k| >= |Prefix| :: k[|Prefix|..]) + (set k | k in items && |k| >= n :: k[n..])
  }

  /** One pointer for each colon-free wallet name. */
  function PointerMap(items: Items, cluster: string): map<string, Cid> {
    map w | w in NamesIn(items, cluster) && ColonFree(w) && Pointer(items, cluster, w).Some? ::
        Pointer(items, cluster, w).value
  }

  lemma NameFound(items: Items, cluster: string, w: string)
    ensures Pointer(items, cluster, w).Some? ==> w in NamesIn(items, cluster)
  {
    hide Trim;
    if ScopedKey(cluster, w) in items {
      assert ScopedKey(cluster, w) == ScopedKey(cluster, "") + w;
      assert ScopedKey(cluster, w)[|ScopedKey(cluster, "")|..] == w;
    } else if LegacyKey(w) in items {
      assert LegacyKey(w)[|Prefix|..] == w;
    }
  }

  function Abs(r: Real, cluster: string): State {
    State(r.store, Tab(PointerMap(r.items, cluster), r.tail, r.calls))
  }

  /** The same calls on the same store, and the same pointer for every colon-free name. */
  ghost predicate Joined(s: State, r: Real, cluster: string) {
    && s.store == r.store && s.tab.tail == r.tail && s.tab.calls == r.calls
    && forall w | ColonFree(w) :: PointerOf(s.tab, w) == Pointer(r.items, cluster, w)
  }

  lemma AbsJoined(r: Real, cluster: string)
    ensures Joined(Abs(r, cluster), r, cluster)
  {
    hide Pointer, NamesIn, ColonFree;
    forall w | ColonFree(w) ensures PointerOf(Abs(r, cluster).tab, w) == Pointer(r.items, cluster, w) {
      NameFound(r.items, cluster, w);
    }
  }

  /* ---- one step ---- */

  predicate ActionNamed(a: Action) {
    match a
    case InvokeAppend(w, _, _, _, _) => ColonFree(Trim(w))
    case InvokeLoad(w, _, _, _, _) => ColonFree(Trim(w))
    case SetPointer(w, _) => ColonFree(Trim(w))
    case _ => true
  }

  predicate CallsNamed(calls: seq<Call>) {
    forall i | 0 <= i < |calls| :: ColonFree(calls[i].wallet)
  }

  predicate ActionsNamed(actions: seq<Action>) {
    forall n | 0 <= n < |actions| :: ActionNamed(actions[n])
  }

  ghost predicate SamePointers(before: Items, after: Items, cluster: string) {
    forall w | ColonFree(w) :: Pointer(after, cluster, w) == Pointer(before, cluster, w)
  }

  lemma ReadSame(items: Items, cluster: string, w: string)
    requires ColonFree(cluster) && ColonFree(w)
    ensures SamePointers(items, Migrated(items, cluster, w), cluster)
  {
    hide Pointer, Migrated, ColonFree;
    forall v | ColonFree(v) ensures Pointer(Migrated(items, cluster, w), cluster, v) == Pointer(items, cluster, v) {
      ReadChangesNoPointer(items, cluster, w, cluster, v);
    }
  }

  lemma WrittenPointers(items: Items, cluster: string, w: string, cid: string)
    requires ColonFree(cluster) && ColonFree(w) && Trim(cid) != []
    ensures forall v | ColonFree(v) :: Pointer(items[ScopedKey(cluster, w) := Trim(cid)], cluster, v) ==
              if v == w then Some(Trim(cid)) else Pointer(items, cluster, v)
  {
    hide Pointer, ColonFree, Trim, ScopedKey;
    forall v | ColonFree(v)
      ensures Pointer(items[ScopedKey(cluster, w) := Trim(cid)], cluster, v) ==
                if v == w then Some(Trim(cid)) else Pointer(items, cluster, v)
    {
      if v == w {
        SetThenGet(items, cluster, w, cid, cluster, v);
      } else {
        SetChangesNoOther(items, cluster, w, cid, cluster, v);
      }
    }
  }

  lemma AdvanceJoined(s: State, r: Real, i: nat, env: Env, cluster: string)
    requires ColonFree(cluster) && Joined(s, r, cluster) && CallsNamed(r.calls) && Enabled(s.tab, i)
    ensures Joined(Step(s, Advance(i, env)), RealStep(r, Advance(i, env), cluster), cluster)
    ensures AdvanceLocal(View(s, i), env) == AdvanceLocal(RealView(r, cluster, i), env)
  {
    hide AdvanceLocal, Pointer, ColonFree, Migrated, Trim, ScopedKey, CanStore, HasSpace;
    var w, l := s.tab.calls[i].wallet, AdvanceLocal(View(s, i), env);
    assert ColonFree(w) && View(s, i) == RealView(r, cluster, i);
    PointerMoves(View(s, i), env);
    if AnswersUpload(View(s, i), env) {
      WrittenPointers(r.items, cluster, w, env.cid);
    } else {
      PutBack(s.tab.pointer, w);
      ReadSame(r.items, cluster, w);
    }
  }

  lemma RejectJoined(s: State, r: Real, i: nat, stored: Option<Cid>, cluster: string)
    requires Joined(s, r, cluster) && CallsNamed(r.calls) && Enabled(s.tab, i)
    ensures Joined(Step(s, Reject(i, stored)), RealStep(r, Reject(i, stored), cluster), cluster)
    ensures RejectLocal(View(s, i), stored) == RejectLocal(RealView(r, cluster, i), stored)
  {
    hide RejectLocal, Pointer, ColonFree;
    assert ColonFree(s.tab.calls[i].wallet) && View(s, i) == RealView(r, cluster, i);
    RejectLeavesPointer(View(s, i), stored);
    PutBack(s.tab.pointer, s.tab.calls[i].wallet);
  }

  lemma LoadJoined(s: State, r: Real, a: Action, cluster: string)
    requires ColonFree(cluster) && Joined(s, r, cluster) && a.InvokeLoad? && ActionNamed(a)
    ensures Joined(Step(s, a), RealStep(r, a, cluster), cluster)
  {
    hide StartBody, Pointer, ColonFree, Migrated, Trim, HasSpace;
    ReadSame(r.items, cluster, Trim(a.wallet));
  }

  lemma SetJoined(s: State, r: Real, a: Action, cluster: string)
    requires ColonFree(cluster) && Joined(s, r, cluster) && a.SetPointer? && ActionNamed(a)
    ensures Joined(Step(s, a), RealStep(r, a, cluster), cluster)
  {
    hide Pointer, ColonFree, Trim, ScopedKey, HasSpace;
    if Trim(a.cid) != [] {
      WrittenPointers(r.items, cluster, Trim(a.wallet), a.cid);
    }
  }

  lemma StepNamed(r: Real, a: Action, cluster: string)
    requires CallsNamed(r.calls) && ActionNamed(a)
    ensures CallsNamed(RealStep(r, a, cluster).calls)
  {
    hide ColonFree, Trim, HasSpace, StartBody, AdvanceLocal, RejectLocal, Pointer, Migrated, AfterAdvance;
    match a
    case InvokeAppend(_, _, _, _, _) =>
    case InvokeLoad(raw, signature, head, unlock, env) =>
      StartShape(Local(r.store, Pointer(r.items, cluster, Trim(raw)),
                       NewCall(Load, Trim(raw), signature, head, None)), env);
    case Advance(i, env) =>
      if Enabled(Calls(r), i) { AdvanceShape(RealView(r, cluster, i), env); }
    case Reject(i, stored) =>
      if Enabled(Calls(r), i) { RejectShape(RealView(r, cluster, i), stored); }
    case SetPointer(_, _) =>
  }

  lemma SameEnabled(s: State, r: Real, i: nat)
    requires s.tab.calls == r.calls
    ensures Enabled(s.tab, i) <==> Enabled(Calls(r), i)
  {
  }

  /** Both machines take the same step. */
  lemma StepJoined(s: State, r: Real, a: Action, cluster: string)
    requires ColonFree(cluster) && Joined(s, r, cluster) && CallsNamed(r.calls) && ActionNamed(a)
    ensures Joined(Step(s, a), RealStep(r, a, cluster), cluster) && CallsNamed(RealStep(r, a, cluster).calls)
  {
    hide ColonFree, Trim, StartBody, AdvanceLocal, RejectLocal, Pointer, Migrated, Enabled, CallsNamed, AfterAdvance;
    StepNamed(r, a, cluster);
    match a
    case InvokeAppend(_, _, _, _, _) =>
    case InvokeLoad(_, _, _, _, _) => LoadJoined(s, r, a, cluster);
    case Advance(i, env) =>
      SameEnabled(s, r, i);
      if Enabled(s.tab, i) { AdvanceJoined(s, r, i, env, cluster); }
    case Reject(i, stored) =>
      SameEnabled(s, r, i);
      if Enabled(s.tab, i) { RejectJoined(s, r, i, stored, cluster); }
    case SetPointer(_, _) => SetJoined(s, r, a, cluster);
  }

  /* ---- every run ---- */

  predicate RealHonestRun(r: Real, actions: seq<Action>, cluster: string) {
    actions != [] ==>
      && RealHonestRun(r, actions[..|actions| - 1], cluster)
      && Honest(Abs(RealRun(r, actions[..|actions| - 1], cluster), cluster), actions[|actions| - 1])
  }

  predicate RealDisciplinedRun(r: Real, actions: seq<Action>, cluster: string) {
    actions != [] ==>
      && RealDisciplinedRun(r, actions[..|actions| - 1], cluster)
      && Disciplined(Abs(RealRun(r, actions[..|actions| - 1], cluster), cluster), actions[|actions| - 1])
  }

  lemma HonestAgrees(s: State, r: Real, a: Action, cluster: string)
    requires Joined(s, r, cluster)
    ensures Honest(s, a) <==> Honest(Abs(r, cluster), a)
  {
    hide Good, RootSignature, Trim, PointerMap;
  }

  lemma DisciplinedAgrees(s: State, r: Real, a: Action, cluster: string)
    requires Joined(s, r, cluster) && CallsNamed(r.calls)
    ensures Disciplined(s, a) <==> Disciplined(Abs(r, cluster), a)
  {
    hide CanStore, PointerMap, ColonFree, Pointer, PointerOf;
    AbsJoined(r, cluster);
  }

  /**
   * Every run of one machine is a run of the other: same calls, same store, the same pointer
   * of every colon-free wallet at every time, and the same conditions on callers.
   */
  lemma {:induction false} RunJoined(r: Real, actions: seq<Action>, cluster: string)
    requires ColonFree(cluster) && CallsNamed(r.calls) && ActionsNamed(actions)
    ensures Joined(Run(Abs(r, cluster), actions), RealRun(r, actions, cluster), cluster)
    ensures CallsNamed(RealRun(r, actions, cluster).calls)
    ensures RealHonestRun(r, actions, cluster) <==> HonestRun(Abs(r, cluster), actions)
    ensures RealDisciplinedRun(r, actions, cluster) <==> DisciplinedRun(Abs(r, cluster), actions)
  {
    hide Step, RealStep, Honest, Disciplined, Joined, CallsNamed, Abs, ActionNamed, ColonFree;
    if actions == [] {
      AbsJoined(r, cluster);
    } else {
      var before, a := actions[..|actions| - 1], actions[|actions| - 1];
      RunJoined(r, before, cluster);
      HonestAgrees(Run(Abs(r, cluster), before), RealRun(r, before, cluster), a, cluster);
      DisciplinedAgrees(Run(Abs(r, cluster), before), RealRun(r, before, cluster), a, cluster);
      StepJoined(Run(Abs(r, cluster), before), RealRun(r, before, cluster), a, cluster);
    }
  }

  /* ---- the run results on the key-value store ---- */

  /** Every colon-free wallet's pointer names a stored manifest that it can load. */
  ghost predicate PointersLoad(r: Real, cluster: string) {
    forall w | ColonFree(w) && Pointer(r.items, cluster, w).Some? ::
        Good(r.store, Pointer(r.items, cluster, w).value, w)
  }

  /** The manifest behind the pointer of `w` in the key-value store. */
  function RealBehind(r: Real, cluster: string, w: string): Option<ManifestV1> {
    var p := Pointer(r.items, cluster, w);
    if p.Some? && Good(r.store, p.value, w) then Some(ManifestAt(r.store, p.value, w)) else None
  }

  predicate NoCalls(r: Real) {
    r.calls == [] && r.tail == map[]
  }

  lemma AbsSafe(r: Real, cluster: string)
    requires NoCalls(r) && PointersLoad(r, cluster)
    ensures Safe(Abs(r, cluster)) && Quiet(Abs(r, cluster))
  {
    hide Pointer, Good, NamesIn, ColonFree;
  }

  lemma JoinedBehind(s: State, r: Real, cluster: string, w: string)
    requires Joined(s, r, cluster) && ColonFree(w)
    ensures RealBehind(r, cluster, w) == Behind(s, w)
  {
    hide Pointer, LoadFor, ColonFree;
    assert PointerOf(s.tab, w) == Pointer(r.items, cluster, w);
  }

  lemma JoinedLoads(s: State, r: Real, cluster: string)
    requires Joined(s, r, cluster) && Safe(s)
    ensures PointersLoad(r, cluster)
  {
    hide Pointer, LoadFor, ColonFree, CallTrue;
    forall w | ColonFree(w) && Pointer(r.items, cluster, w).Some?
        ensures Good(r.store, Pointer(r.items, cluster, w).value, w) {
      assert PointerOf(s.tab, w) == Pointer(r.items, cluster, w);
    }
  }

  /**
   * Safety on the key-value store: in every honest run with colon-free names, what
   * getManifestCid answers for a wallet names a stored manifest that loads with that wallet's
   * vault-root signature, every finished call reported the truth, and the store only grew.
   */
  lemma StoredPointersLoad(r: Real, actions: seq<Action>, cluster: string)
    requires ColonFree(cluster) && NoCalls(r) && PointersLoad(r, cluster) && ActionsNamed(actions)
    requires RealHonestRun(r, actions, cluster)
    ensures var t := RealRun(r, actions, cluster);
            && PointersLoad(t, cluster) && Grows(r.store, t.store)
            && forall i | 0 <= i < |t.calls| :: CallTrue(t.store, t.calls[i])
  {
    hide Run, RealRun, HonestRun, RealHonestRun, Safe, Joined, Abs, PointersLoad, CallTrue, ActionsNamed, ColonFree;
    AbsSafe(r, cluster);
    AbsStore(r, cluster);
    RunJoined(r, actions, cluster);
    RunSafe(Abs(r, cluster), actions);
    JoinedLoads(Run(Abs(r, cluster), actions), RealRun(r, actions, cluster), cluster);
    JoinedCalls(Run(Abs(r, cluster), actions), RealRun(r, actions, cluster), cluster);
  }

  lemma AbsStore(r: Real, cluster: string)
    ensures Abs(r, cluster).store == r.store && (NoCalls(r) ==> CallsNamed(r.calls))
  {
    hide PointerMap;
  }

  lemma JoinedCalls(s: State, r: Real, cluster: string)
    requires Joined(s, r, cluster) && Safe(s)
    ensures s.store == r.store && s.tab.calls == r.calls && forall i | 0 <= i < |r.calls| ::
        CallTrue(r.store, r.calls[i])
  {
    hide CallTrue, Good, Pointer, ColonFree;
  }

  /**
   * Linearizability on the key-value store: the manifest behind what getManifestCid answers
   * for a wallet is the fold of that wallet's calls in call order.
   */
  lemma StoredPointersLinearizable(r: Real, actions: seq<Action>, cluster: string, w: string)
    requires ColonFree(cluster) && ColonFree(w) && NoCalls(r) && PointersLoad(r, cluster) && ActionsNamed(actions)
    requires RealHonestRun(r, actions, cluster) && RealDisciplinedRun(r, actions, cluster)
    ensures RealBehind(RealRun(r, actions, cluster), cluster, w)
         == Replay(RealBehind(r, cluster, w), RealRun(r, actions, cluster).calls, w)
  {
    hide Run, RealRun, HonestRun, RealHonestRun, DisciplinedRun, RealDisciplinedRun, Safe, Joined, Abs, PointersLoad,
         Replay, Behind, RealBehind;
    hide ActionsNamed, ColonFree, Quiet;
    AbsSafe(r, cluster);
    AbsStore(r, cluster);
    AbsJoined(r, cluster);
    RunJoined(r, actions, cluster);
    Linearizable(Abs(r, cluster), actions, w);
    JoinedBehind(Abs(r, cluster), r, cluster, w);
    JoinedBehind(Run(Abs(r, cluster), actions), RealRun(r, actions, cluster), cluster, w);
    RunSafe(Abs(r, cluster), actions);
    JoinedCalls(Run(Abs(r, cluster), actions), RealRun(r, actions, cluster), cluster);
  }

  /** No entry is lost on the key-value store. */
  lemma StoredEntriesStay(r: Real, actions: seq<Action>, cluster: string, i: nat)
    requires ColonFree(cluster) && NoCalls(r) && PointersLoad(r, cluster) && ActionsNamed(actions)
    requires RealHonestRun(r, actions, cluster) && RealDisciplinedRun(r, actions, cluster)
    requires i < |RealRun(r, actions, cluster).calls| && RealRun(r, actions, cluster).calls[i].committed
    ensures var t := RealRun(r, actions, cluster); var c := t.calls[i];
            && c.op.Some? && Reported(c.pc).Some? && Reported(c.pc).value.Appended?
            && Contains(Reported(c.pc).value.manifest.entries, c.op.value.entry)
            && Reported(c.pc).value.manifest.entries <= EntriesOf(RealBehind(t, cluster, c.wallet))
            && Contains(EntriesOf(RealBehind(t, cluster, c.wallet)), c.op.value.entry)
  {
    hide Run, RealRun, HonestRun, RealHonestRun, DisciplinedRun, RealDisciplinedRun, Safe, Joined, Abs, PointersLoad,
         Replay, Behind, RealBehind;
    hide ActionsNamed, ColonFree, Quiet, Contains;
    AbsSafe(r, cluster);
    AbsStore(r, cluster);
    RunJoined(r, actions, cluster);
    RunSafe(Abs(r, cluster), actions);
    JoinedCalls(Run(Abs(r, cluster), actions), RealRun(r, actions, cluster), cluster);
    NoEntryLost(Abs(r, cluster), actions, i);
    JoinedBehind(Run(Abs(r, cluster), actions), RealRun(r, actions, cluster), cluster,
                 RealRun(r, actions, cluster).calls[i].wallet);
  }

  /* ---- where a colon breaks the join ---- */

  /**
   * Whenever an upload of wallet `w` is answered, the key-value store from then on answers
   * its CID also for the wallet named cluster:w, as long as that has no scoped value; and that
   * wallet cannot load it.
   */
  lemma ColonBreaksTheJoin(r: Real, cluster: string, i: nat, env: Env)
    requires i < |r.calls| && CallTrue(r.store, r.calls[i]) && AnswersUpload(RealView(r, cluster, i), env)
    requires var other := ClusterName(cluster) + ":" + r.calls[i].wallet; ScopedKey(cluster, other) !in r.items
    ensures var t, other := RealStep(r, Advance(i, env), cluster), ClusterName(cluster) + ":" + r.calls[i].wallet;
            Pointer(t.items, cluster, other) == Some(env.cid) && !Good(t.store, env.cid, other)
  {
    hide AdvanceLocal, Pointer, Trim, ScopedKey, LoadFor, HasSpace;
    var w := r.calls[i].wallet;
    var other := ClusterName(cluster) + ":" + w;
    UploadEnabled(r, i);
    PointerMoves(RealView(r, cluster, i), env);
    AdvanceUploads(RealView(r, cluster, i), env);
    ColonsCollide(cluster, w);
    SetThenGet(r.items, cluster, w, env.cid, cluster, other);
    assert |other| > |w|;
    if LoadFor(r.calls[i].pc.bytes, other).Ok? {
      OneOwner(r.calls[i].pc.bytes, other, w);
      assert false;
    }
  }

  lemma UploadEnabled(r: Real, i: nat)
    requires i < |r.calls| && (r.calls[i].pc.InitUpload? || r.calls[i].pc.WriteUpload?)
    ensures Enabled(Calls(r), i)
  {
  }
}
