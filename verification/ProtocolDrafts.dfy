/**
 * What an append adds, in terms of the draft its caller supplied, and what a created manifest
 * is, in terms of the clock.
 */
module ProtocolDrafts {
  import opened Wrappers
  import opened Terms
  import opened AsciiText
  import opened KeyDerivation
  import opened Manifest
  import opened ManifestCrypto
  import opened Protocol
  import opened ProtocolSafety
  import opened ProtocolMutex
  import opened ProtocolLinear
  import opened ProtocolResults
  import opened ProtocolOutcomes
  import opened ProtocolEntries
  import opened ProtocolSuccess
  import opened ProtocolLoss

  /** The entry is the draft, with the clock's date and the fresh id where the draft names none. */
  predicate IsDraft(e: Entry, d: Draft, now: string, uuid: string) {
    && e.fileCid == d.fileCid && d.envelope == Some(e.envelope)
    && e.originalFileName == d.originalFileName && e.mimeType == d.mimeType
    && e.fileSize == d.fileSize && e.fileIntegritySha256B64 == d.fileIntegritySha256B64
    && (d.addedAt.Some? ==> e.addedAt == d.addedAt.value) && (d.addedAt.None? ==> e.addedAt == now)
    && (d.entryId.Some? ==> e.entryId == d.entryId.value) && (d.entryId.None? ==> e.entryId == uuid)
  }

  /** Action `n` is the step of call `i` that made its entry: clock, fresh id and new date are that step's. */
  predicate MadeIn(op: MergeOp, d: Draft, actions: seq<Action>, i: nat, n: nat) {
    && n < |actions| && actions[n].Advance? && actions[n].i == i
    && IsDraft(op.entry, d, actions[n].env.now, actions[n].env.uuid) && op.updatedAt == actions[n].env.later
  }

  ghost predicate FromDraft(c: Call, actions: seq<Action>, i: nat) {
    c.op.Some? ==> c.kind.Append? && Usable(c.kind.draft) && exists n: nat ::
        MadeIn(c.op.value, c.kind.draft, actions, i, n)
  }

  /** The date of a manifest that a call creates is the clock of one of its steps. */
  predicate DatedIn(c: Call, actions: seq<Action>, i: nat) {
    c.createdAt.Some? ==>
      exists n | 0 <= n < |actions| ::
        ((actions[n].Advance? && actions[n].i == i) || actions[n].InvokeLoad?)
            && actions[n].env.now == c.createdAt.value
  }

  lemma MergeMakes(l: Local, key: Bytes, m: ManifestV1, env: Env)
    requires l.call.kind.Append? && MergePhase(l, key, m, env).call.op != l.call.op
    ensures var op := MergePhase(l, key, m, env).call.op;
            && Usable(l.call.kind.draft) && op.Some?
            && IsDraft(op.value.entry, l.call.kind.draft, env.now, env.uuid) && op.value.updatedAt == env.later
  {
    hide Trim;
  }

  /** What one step of a call may do to its operation and its date. */
  predicate Makes(before: Call, after: Call, env: Env) {
    && after.kind == before.kind
    && (after.op != before.op ==>
          && before.kind.Append? && Usable(before.kind.draft) && after.op.Some?
          && IsDraft(after.op.value.entry, before.kind.draft, env.now, env.uuid)
          && after.op.value.updatedAt == env.later)
    && (after.createdAt == before.createdAt || after.createdAt == Some(env.now))
  }

  lemma ReadMakes(l: Local, env: Env)
    requires InRead(l.call.pc)
    ensures Makes(l.call, ReadPhase(l, env).call, env)
  {
    hide UnwrapManifestKey, ReadManifest, ParseJson, MergePhase, IsDraft, Usable;
    if l.call.pc.Decrypt? && l.call.kind.Append? {
      var r := ReadManifest(l.call.pc.tree, l.call.pc.key, l.call.wallet);
      if r.Ok? {
        MergeShape(l, l.call.pc.key, r.value, env);
        MergeDates(l, l.call.pc.key, r.value, env);
        if MergePhase(l, l.call.pc.key, r.value, env).call.op != l.call.op {
          MergeMakes(l, l.call.pc.key, r.value, env);
        }
      }
    }
  }

  lemma StepMakes(l: Local, env: Env)
    ensures Makes(l.call, AdvanceLocal(l, env).call, env)
  {
    hide BuildWrapEnvelope, EncryptManifest, DeriveVaultRootKek, DeriveManifestKey, EmptyOf, CanStore, HasSpace,
         IsDraft;
    hide Usable, ReadPhase;
    if InRead(l.call.pc) {
      ReadMakes(l, env);
    }
  }

  lemma MergeDates(l: Local, key: Bytes, m: ManifestV1, env: Env)
    requires l.call.kind.Append?
    ensures MergePhase(l, key, m, env).call.createdAt == l.call.createdAt
  {
    hide Apply, Truthy, Trim, NewEntry;
  }

  lemma MadeStays(c: Call, actions: seq<Action>, a: Action, i: nat)
    requires FromDraft(c, actions, i) && DatedIn(c, actions, i)
    ensures FromDraft(c, actions + [a], i) && DatedIn(c, actions + [a], i)
  {
    hide IsDraft, Usable;
    if c.op.Some? {
      var n: nat :| MadeIn(c.op.value, c.kind.draft, actions, i, n);
      assert MadeIn(c.op.value, c.kind.draft, actions + [a], i, n);
    }
    if c.createdAt.Some? {
      var n :| 0 <= n < |actions|
        && ((actions[n].Advance? && actions[n].i == i) || actions[n].InvokeLoad?)
            && actions[n].env.now == c.createdAt.value;
      assert (actions + [a])[n] == actions[n];
    }
  }

  lemma OwnMade(before: Call, after: Call, actions: seq<Action>, a: Action, i: nat)
    requires FromDraft(before, actions, i) && DatedIn(before, actions, i) && a.Advance? && a.i == i
    requires Makes(before, after, a.env)
    ensures FromDraft(after, actions + [a], i) && DatedIn(after, actions + [a], i)
  {
    hide IsDraft, Usable;
    MadeStays(before, actions, a, i);
    var all := actions + [a];
    assert all[|actions|] == a;
    if after.op != before.op {
      assert MadeIn(after.op.value, after.kind.draft, all, i, |actions|);
    }
  }

  lemma NewMade(s: State, actions: seq<Action>, a: Action, i: nat)
    requires i == |s.tab.calls| && i < |Step(s, a).tab.calls|
    ensures FromDraft(Step(s, a).tab.calls[i], actions + [a], i) && DatedIn(Step(s, a).tab.calls[i], actions + [a], i)
  {
    hide AdvanceLocal, RejectLocal, Trim, HasSpace, Usable;
    assert (actions + [a])[|actions|] == a;
  }

  lemma RejectKeepsMade(l: Local, stored: Option<Cid>)
    ensures var c := RejectLocal(l, stored).call;
            c.op == l.call.op && c.createdAt == l.call.createdAt && c.kind == l.call.kind
  {
  }

  lemma StepFromDraft(s: State, actions: seq<Action>, a: Action, i: nat)
    requires i < |Step(s, a).tab.calls|
    requires i < |s.tab.calls| ==> FromDraft(s.tab.calls[i], actions, i) && DatedIn(s.tab.calls[i], actions, i)
    ensures FromDraft(Step(s, a).tab.calls[i], actions + [a], i) && DatedIn(Step(s, a).tab.calls[i], actions + [a], i)
  {
    hide AdvanceLocal, RejectLocal, StartBody, Trim, HasSpace, FromDraft, DatedIn, IsDraft, Usable;
    if i >= |s.tab.calls| {
      CallsGrowByOne(s, a);
      NewMade(s, actions, a, i);
    } else {
      MadeStays(s.tab.calls[i], actions, a, i);
      if a.Advance? && a.i == i && Enabled(s.tab, i) {
        StepMakes(View(s, i), a.env);
        OwnMade(s.tab.calls[i], AdvanceLocal(View(s, i), a.env).call, actions, a, i);
      } else if a.Reject? && a.i == i && Enabled(s.tab, i) {
        RejectKeepsMade(View(s, i), a.stored);
        SameMade(s.tab.calls[i], RejectLocal(View(s, i), a.stored).call, actions + [a], i);
      }
    }
  }

  lemma SameMade(b: Call, c: Call, actions: seq<Action>, i: nat)
    requires FromDraft(b, actions, i) && DatedIn(b, actions, i) && c.op == b.op && c.createdAt == b.createdAt
    requires c.kind == b.kind
    ensures FromDraft(c, actions, i) && DatedIn(c, actions, i)
  {
  }

  lemma CallsGrowByOne(s: State, a: Action)
    ensures |Step(s, a).tab.calls| <= |s.tab.calls| + 1
  {
    hide AdvanceLocal, RejectLocal, StartBody, Trim, HasSpace;
  }

  /**
   * Over every run: the entry of an append is its draft, with the clock and the fresh id of
   * one of its own steps where the draft leaves them out; a created manifest carries the
   * clock of such a step.
   */
  lemma {:induction false} EntriesComeFromDrafts(start: State, actions: seq<Action>, i: nat)
    requires Quiet(start) && i < |Run(start, actions).tab.calls|
    ensures FromDraft(Run(start, actions).tab.calls[i], actions, i)
    ensures DatedIn(Run(start, actions).tab.calls[i], actions, i)
  {
    hide Step, FromDraft, DatedIn;
    if actions != [] {
      var before, a := actions[..|actions| - 1], actions[|actions| - 1];
      assert actions == before + [a];
      if i < |Run(start, before).tab.calls| {
        EntriesComeFromDrafts(start, before, i);
      }
      StepFromDraft(Run(start, before), before, a, i);
    }
  }

  /** The manifest an append merged into: its own empty one, or the fold of the calls before it. */
  function Base(m: Option<ManifestV1>, calls: seq<Call>, i: nat): Option<ManifestV1>
    requires i < |calls|
  {
    if calls[i].initialised then
      var date := if calls[i].createdAt.Some? then calls[i].createdAt.value else "";
      Some(ManifestV1(calls[i].wallet, date, date, []))
    else Replay(m, calls[..i], calls[i].wallet)
  }

  /**
   * What a reported append did, in terms of its draft: the reported manifest is the one before
   * it with the same owner and creation date, the date of the step that merged, and the
   * draft as its last entry, unless an entry with that id, or with that file and date, was
   * there; then no entry changed. At the end of the run such an entry is still there.
   */
  lemma ReportedDraft(start: State, actions: seq<Action>, i: nat) returns (n: nat)
    requires Safe(start) && Quiet(start) && HonestRun(start, actions) && DisciplinedRun(start, actions)
    requires i < |Run(start, actions).tab.calls| && Run(start, actions).tab.calls[i].committed
    ensures var s := Run(start, actions); var c := s.tab.calls[i];
            && c.kind.Append? && c.op.Some? && MadeIn(c.op.value, c.kind.draft, actions, i, n)
            && Reported(c.pc).Some? && Reported(c.pc).value.Appended?
            && (var e, m, b := c.op.value.entry, Reported(c.pc).value.manifest,
                Base(Behind(start, c.wallet), s.tab.calls, i);
                && b.Some? && m.createdAt == b.value.createdAt && m.updatedAt == actions[n].env.later
                && m.entries == (if HasIdOrFile(b.value.entries, e.entryId, e.fileCid, e.addedAt) then b.value.entries
                                 else b.value.entries + [e])
                && HasIdOrFile(EntriesOf(Behind(s, c.wallet)), e.entryId, e.fileCid, e.addedAt))
  {
    hide Run, Safe, Behind, Replay, Contains, HonestRun, DisciplinedRun, HasIdOrFile, Merge, IsDraft, Usable;
    var s := Run(start, actions);
    EntriesComeFromDrafts(start, actions, i);
    NoEntryLost(start, actions, i);
    RunSettled(start, actions);
    var c := s.tab.calls[i];
    n :| MadeIn(c.op.value, c.kind.draft, actions, i, n);
    ReplayLast(Behind(start, c.wallet), s.tab.calls, i, c.wallet);
    var b := Base(Behind(start, c.wallet), s.tab.calls, i);
    MergeMeaning(b.value, c.op.value.entry, c.op.value.updatedAt);
    ContainsMeaning(EntriesOf(Behind(s, c.wallet)), c.op.value.entry);
  }

  lemma ContainsMeaning(entries: seq<Entry>, e: Entry)
    ensures Contains(entries, e) <==> HasIdOrFile(entries, e.entryId, e.fileCid, e.addedAt)
  {
    if Contains(entries, e) {
      var k :| 0 <= k < |entries| && Clash(entries[k], e);
    }
    if HasIdOrFile(entries, e.entryId, e.fileCid, e.addedAt) {
      var k :| 0 <= k < |entries| && (entries[k].entryId == e.entryId
        || (entries[k].fileCid == e.fileCid && entries[k].addedAt == e.addedAt));
      assert Clash(entries[k], e);
    }
  }

  /** In a gentle run the draft of every committed append is there at the end, or an entry that stood for it. */
  lemma CommittedDraftsStay(start: State, actions: seq<Action>, i: nat) returns (n: nat)
    requires Safe(start) && Quiet(start) && HonestRun(start, actions) && GentleRun(start, actions)
    requires i < |Run(start, actions).tab.calls| && Run(start, actions).tab.calls[i].committed
    ensures var s := Run(start, actions); var c := s.tab.calls[i];
            && c.kind.Append? && c.op.Some? && MadeIn(c.op.value, c.kind.draft, actions, i, n)
            && HasIdOrFile(EntriesOf(Behind(s, c.wallet)), c.op.value.entry.entryId, c.kind.draft.fileCid,
                           c.op.value.entry.addedAt)
  {
    hide Run, Safe, Behind, Contains, HonestRun, GentleRun, HasIdOrFile, Usable;
    EntriesComeFromDrafts(start, actions, i);
    CommittedEntriesStay(start, actions, i);
    var c := Run(start, actions).tab.calls[i];
    n :| MadeIn(c.op.value, c.kind.draft, actions, i, n);
    ContainsMeaning(EntriesOf(Behind(Run(start, actions), c.wallet)), c.op.value.entry);
  }

  /** Both drafts name the same id, or the same file and the same date. */
  predicate SameDraft(a: Draft, b: Draft) {
    || (a.entryId.Some? && a.entryId == b.entryId)
    || (a.fileCid == b.fileCid && a.addedAt.Some? && a.addedAt == b.addedAt)
  }

  /**
   * Appending again, in terms of drafts: when an append commits whose draft names the id, or
   * the file and date, of an earlier draft whose entry the wallet's manifest holds, then its
   * entries stay exactly as they were.
   */
  lemma RedraftChangesNothing(start: State, pre: seq<Action>, mid: seq<Action>, j: nat, i: nat, env: Env)
    requires Safe(start) && Quiet(start)
    requires HonestRun(start, pre + mid) && DisciplinedRun(start, pre + mid)
    requires Disciplined(Run(start, pre + mid), Advance(i, env))
    requires j < |Run(start, pre).tab.calls|
    requires var d := Run(start, pre).tab.calls[j]; var s, t := Run(start, pre + mid),
        Step(Run(start, pre + mid), Advance(i, env));
             && d.kind.Append? && d.op.Some?
             && i < |s.tab.calls| && i < |t.tab.calls| && !s.tab.calls[i].committed && t.tab.calls[i].committed
             && t.tab.calls[i].kind.Append? && SameDraft(d.kind.draft, t.tab.calls[i].kind.draft)
             && d.op.value.entry in EntriesOf(Behind(Run(start, pre), s.tab.calls[i].wallet))
    ensures var s, t := Run(start, pre + mid), Step(Run(start, pre + mid), Advance(i, env));
            EntriesOf(Behind(t, s.tab.calls[i].wallet)) == EntriesOf(Behind(s, s.tab.calls[i].wallet))
  {
    hide Safe, Behind, Contains, HonestRun, DisciplinedRun, Disciplined, Step, Usable, Quiet, Run;
    var a := Advance(i, env);
    RunOneMore(start, pre + mid, a);
    EntriesComeFromDrafts(start, pre, j);
    EntriesComeFromDrafts(start, pre + mid + [a], i);
    var d, t := Run(start, pre).tab.calls[j], Step(Run(start, pre + mid), a);
    var n: nat :| MadeIn(d.op.value, d.kind.draft, pre, j, n);
    CommitHasOp(start, pre + mid, a, i);
    var k: nat :| MadeIn(t.tab.calls[i].op.value, t.tab.calls[i].kind.draft, pre + mid + [a], i, k);
    MemberClashes(EntriesOf(Behind(Run(start, pre), Run(start, pre + mid).tab.calls[i].wallet)), d.op.value.entry,
                  t.tab.calls[i].op.value.entry);
    ReappendChangesNothing(start, pre, mid, i, env);
  }

  lemma RunOneMore(start: State, actions: seq<Action>, a: Action)
    ensures Run(start, actions + [a]) == Step(Run(start, actions), a)
  {
    hide Step;
    assert (actions + [a])[..|actions|] == actions;
  }

  lemma CommitHasOp(start: State, actions: seq<Action>, a: Action, i: nat)
    requires Safe(start) && HonestRun(start, actions) && a.Advance? && i < |Step(Run(start, actions), a).tab.calls|
    ensures Step(Run(start, actions), a).tab.calls[i].committed ==> Step(Run(start, actions), a).tab.calls[i].op.Some?
  {
    hide Run, HonestRun, Step, CallTrue, Good;
    RunSafe(start, actions);
    StepSafe(Run(start, actions), a);
    var t := Step(Run(start, actions), a);
    assert CallTrue(t.store, t.tab.calls[i]);
    CommittedFlagsOf(t.store, t.tab.calls[i]);
  }

  lemma MemberClashes(entries: seq<Entry>, e: Entry, again: Entry)
    requires e in entries && (e.entryId == again.entryId || (e.fileCid == again.fileCid && e.addedAt == again.addedAt))
    ensures Contains(entries, again)
  {
    var k :| 0 <= k < |entries| && entries[k] == e;
    assert Clash(entries[k], again);
  }

  /* ---- what a created manifest is ---- */

  /** A call that initialises knows its date, and what it reports as created is empty and bears that date twice. */
  predicate CreatesEmpty(c: Call) {
    && (InInit(c.pc) ==> c.createdAt.Some?)
    && (Reported(c.pc).Some? && Reported(c.pc).value.Created? ==>
          && c.createdAt.Some?
          && Reported(c.pc).value.manifest == ManifestV1(c.wallet, c.createdAt.value, c.createdAt.value, []))
  }

  lemma AdvanceCreatesEmpty(l: Local, env: Env)
    requires CreatesEmpty(l.call)
    ensures CreatesEmpty(AdvanceLocal(l, env).call)
  {
    hide BuildWrapEnvelope, EncryptManifest, DeriveVaultRootKek, DeriveManifestKey, CanStore, HasSpace, ReadPhase;
    if InRead(l.call.pc) {
      ReadCreatesNothing(l, env);
    }
  }

  lemma ReadCreatesNothing(l: Local, env: Env)
    requires InRead(l.call.pc)
    ensures CreatesEmpty(ReadPhase(l, env).call)
  {
    hide UnwrapManifestKey, ReadManifest, ParseJson, MergePhase;
    if l.call.pc.Decrypt? && l.call.kind.Append? {
      var r := ReadManifest(l.call.pc.tree, l.call.pc.key, l.call.wallet);
      if r.Ok? {
        MergeCreatesNothing(l, l.call.pc.key, r.value, env);
      }
    }
  }

  lemma MergeCreatesNothing(l: Local, key: Bytes, m: ManifestV1, env: Env)
    requires l.call.kind.Append?
    ensures CreatesEmpty(MergePhase(l, key, m, env).call)
  {
    hide Apply, Truthy, Trim, NewEntry;
  }

  lemma RejectCreatesNothing(l: Local, stored: Option<Cid>)
    requires CreatesEmpty(l.call)
    ensures CreatesEmpty(RejectLocal(l, stored).call)
  {
  }

  lemma StepCreatesEmpty(s: State, a: Action, i: nat)
    requires i < |Step(s, a).tab.calls| && (i < |s.tab.calls| ==> CreatesEmpty(s.tab.calls[i]))
    ensures CreatesEmpty(Step(s, a).tab.calls[i])
  {
    hide AdvanceLocal, RejectLocal, Trim, HasSpace, CreatesEmpty;
    CallsGrowByOne(s, a);
    if i >= |s.tab.calls| {
      StartCreatesNothing(s, a);
    } else if a.Advance? && Enabled(s.tab, i) {
      AdvanceCreatesEmpty(View(s, i), a.env);
    } else if a.Reject? && Enabled(s.tab, i) {
      RejectCreatesNothing(View(s, i), a.stored);
    }
  }

  lemma StartCreatesNothing(s: State, a: Action)
    ensures |Step(s, a).tab.calls| == |s.tab.calls| + 1 ==> CreatesEmpty(Step(s, a).tab.calls[|s.tab.calls|])
  {
    hide AdvanceLocal, RejectLocal, Trim, HasSpace;
  }

  lemma {:induction false} RunCreatesEmpty(start: State, actions: seq<Action>, i: nat)
    requires Quiet(start) && i < |Run(start, actions).tab.calls|
    ensures CreatesEmpty(Run(start, actions).tab.calls[i])
  {
    hide Step, CreatesEmpty;
    if actions != [] {
      var before := actions[..|actions| - 1];
      if i < |Run(start, before).tab.calls| {
        RunCreatesEmpty(start, before, i);
      }
      StepCreatesEmpty(Run(start, before), actions[|actions| - 1], i);
    }
  }

  /**
   * Over every run: a manifest that a call reports as created belongs to the wallet it asked
   * for, holds no entry, and was created and updated at the clock of the step that began it.
   */
  lemma CreatedIsEmpty(start: State, actions: seq<Action>, i: nat) returns (n: nat)
    requires Quiet(start) && i < |Run(start, actions).tab.calls|
    requires var r := Reported(Run(start, actions).tab.calls[i].pc); r.Some? && r.value.Created?
    ensures var c := Run(start, actions).tab.calls[i];
            && n < |actions| && ((actions[n].Advance? && actions[n].i == i) || actions[n].InvokeLoad?)
            && Reported(c.pc).value.manifest == ManifestV1(c.wallet, actions[n].env.now, actions[n].env.now, [])
  {
    hide Run;
    RunCreatesEmpty(start, actions, i);
    EntriesComeFromDrafts(start, actions, i);
    var c := Run(start, actions).tab.calls[i];
    n :| 0 <= n < |actions| && ((actions[n].Advance? && actions[n].i == i) || actions[n].InvokeLoad?)
      && actions[n].env.now == c.createdAt.value;
  }

  /* ---- what a caller is told ---- */

  /** Without a name or an unlocked vault nothing begins; otherwise exactly one call does, under the trimmed name. */
  lemma CallsBegin(s: State, rawWallet: string, signature: Bytes, draft: Draft, head: Option<Cid>, unlock: bool,
      env: Env)
    ensures var t, u := Step(s, InvokeAppend(rawWallet, signature, draft, head, unlock)),
                Step(s, InvokeLoad(rawWallet, signature, head, unlock, env));
            if Trim(rawWallet) == [] || !unlock then t == u == s
            else
              && t.store == u.store == s.store && t.tab.pointer == u.tab.pointer == s.tab.pointer
              && u.tab.tail == s.tab.tail && t.tab.tail == s.tab.tail[Trim(rawWallet) := |s.tab.calls|]
              && |t.tab.calls| == |u.tab.calls| == |s.tab.calls| + 1
              && t.tab.calls[..|s.tab.calls|] == u.tab.calls[..|s.tab.calls|] == s.tab.calls
              && (var c := t.tab.calls[|s.tab.calls|];
                  && c.kind == Append(draft) && c.wallet == Trim(rawWallet) && c.signature == signature
                  && c.head == head && c.pc.Waiting?
                  && c.previous == if Trim(rawWallet) in s.tab.tail then Some(s.tab.tail[Trim(rawWallet)]) else None)
              && (var c := u.tab.calls[|s.tab.calls|];
                  && c.kind == Load && c.wallet == Trim(rawWallet) && c.signature == signature && c.head == head
                  && c.previous == None && !c.pc.Waiting?)
  {
    hide Trim, HasSpace;
  }

  /** With an on-chain head and no pointer an append ends in RestoreRequired and a load in RestoreNeeded. */
  lemma RestoreIsDemanded(l: Local, env: Env)
    requires l.call.pc.Waiting? && !HasSpace(l.call.wallet) && l.pointer == None
    requires l.call.head.Some? && l.call.head.value != []
    ensures l.call.kind.Append? ==> StartBody(l, env).call.pc == Releasing(Failed(RestoreRequired))
    ensures l.call.kind.Load? ==> StartBody(l, env).call.pc == Done(RestoreNeeded)
    ensures StartBody(l, env).store == l.store && StartBody(l, env).pointer == None
  {
  }

  /** A draft without a file or without an envelope is refused after the read, and nothing is written. */
  lemma UnusableDraftFails(l: Local, key: Bytes, m: ManifestV1, env: Env)
    requires l.call.kind.Append?
    ensures var d, after := l.call.kind.draft, MergePhase(l, key, m, env);
            && after.store == l.store && after.pointer == l.pointer
            && (Trim(d.fileCid) == [] ==> after.call.pc == Releasing(Failed(MissingFileCid)))
            && (Trim(d.fileCid) != [] ==>
                  if d.envelope.None? || d.envelope == Some(Null) || d.envelope == Some(Num(0))
                      || d.envelope == Some(Str(Lit("")))
                  then after.call.pc == Releasing(Failed(MissingEntryEnvelope))
                  else after.call.pc.WriteSalt?)
  {
    hide Trim, Apply;
  }
}
