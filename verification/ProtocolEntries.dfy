/** Entry lists over whole runs: never a duplicate, and appending something again adds nothing. */
module ProtocolEntries {
  import opened Wrappers
  import opened Terms
  import opened AsciiText
  import opened KeyDerivation
  import opened Manifest
  import opened ManifestCrypto
  import opened Protocol
  import opened ProtocolSafety
  import opened ProtocolMutex
  import opened ProtocolLinear
  import opened ProtocolResults
  import opened ProtocolOutcomes

  /** Every stored manifest, whoever can load it, has pairwise distinct entries. */
  ghost predicate DistinctStore(store: Store) {
    forall cid, w | Good(store, cid, w) :: PairwiseDistinct(ManifestAt(store, cid, w).entries)
  }

  lemma StoreOneMore(store: Store, cid: Cid, bytes: Bytes, w: string, m: ManifestV1)
    requires DistinctStore(store) && LoadsAs(bytes, w, m) && PairwiseDistinct(m.entries)
    ensures DistinctStore(store[cid := bytes])
  {
    hide LoadFor, PairwiseDistinct;
    var after := store[cid := bytes];
    forall c, v | Good(after, c, v) ensures PairwiseDistinct(ManifestAt(after, c, v).entries) {
      if c == cid {
        OneOwner(bytes, v, w);
      } else {
        assert Good(store, c, v);
      }
    }
  }

  lemma AdvanceDistinct(l: Local, env: Env)
    requires CallTrue(l.store, l.call) && DistinctStore(l.store)
    ensures DistinctStore(AdvanceLocal(l, env).store)
  {
    hide AdvanceLocal, LoadFor, DistinctStore, PairwiseDistinct, Apply;
    AdvanceUploads(l, env);
    if l.call.pc.InitUpload? || l.call.pc.WriteUpload? {
      UploadDistinct(l, env.cid);
    }
  }

  lemma EmptyIsDistinct(c: Call)
    ensures PairwiseDistinct(EmptyOf(c).entries)
  {
  }

  lemma DistinctAt(store: Store, cid: Cid, w: string)
    requires DistinctStore(store) && Good(store, cid, w)
    ensures PairwiseDistinct(ManifestAt(store, cid, w).entries)
  {
    hide LoadFor, PairwiseDistinct;
  }

  /** A throw may leave the uploaded bytes in the store, but they too are a manifest of distinct entries. */
  lemma RejectDistinct(l: Local, stored: Option<Cid>)
    requires CallTrue(l.store, l.call) && DistinctStore(l.store)
    ensures DistinctStore(RejectLocal(l, stored).store)
  {
    hide LoadFor, DistinctStore, PairwiseDistinct, Apply;
    if stored.Some? && (l.call.pc.InitUpload? || l.call.pc.WriteUpload?) {
      UploadDistinct(l, stored.value);
    }
  }

  lemma UploadDistinct(l: Local, cid: Cid)
    requires CallTrue(l.store, l.call) && DistinctStore(l.store) && (l.call.pc.InitUpload? || l.call.pc.WriteUpload?)
    ensures DistinctStore(l.store[cid := l.call.pc.bytes])
  {
    hide LoadFor, DistinctStore, PairwiseDistinct, Apply;
    if l.call.pc.InitUpload? {
      EmptyIsDistinct(l.call);
      StoreOneMore(l.store, cid, l.call.pc.bytes, l.call.wallet, EmptyOf(l.call));
    } else {
      var m := ManifestAt(l.store, l.call.cid.value, l.call.wallet);
      DistinctAt(l.store, l.call.cid.value, l.call.wallet);
      ApplyExtends(m, l.call.op.value);
      StoreOneMore(l.store, cid, l.call.pc.bytes, l.call.wallet, l.call.pc.manifest);
    }
  }

  lemma StepDistinct(s: State, a: Action)
    requires Safe(s) && DistinctStore(s.store)
    ensures DistinctStore(Step(s, a).store)
  {
    hide CallTrue, Good, DistinctStore, AdvanceLocal, RejectLocal, StartBody, Trim;
    if a.Advance? && Enabled(s.tab, a.i) {
      assert CallTrue(s.store, s.tab.calls[a.i]);
      AdvanceDistinct(View(s, a.i), a.env);
    } else if a.Reject? && Enabled(s.tab, a.i) {
      assert CallTrue(s.store, s.tab.calls[a.i]);
      RejectDistinct(View(s, a.i), a.stored);
    }
  }

  /**
   * Over every run of honest callers, with any restores, initialising loads, interleavings
   * and failures: entries stay pairwise distinct, in id and in (file, date), in every stored
   * manifest and so behind every pointer.
   */
  lemma {:induction false} EntriesStayDistinct(start: State, actions: seq<Action>, w: string)
    requires Safe(start) && HonestRun(start, actions) && DistinctStore(start.store)
    ensures DistinctStore(Run(start, actions).store)
    ensures var entries := EntriesOf(Behind(Run(start, actions), w));
            forall i, j | 0 <= i < j < |entries| ::
              && entries[i].entryId != entries[j].entryId
              && (entries[i].fileCid != entries[j].fileCid || entries[i].addedAt != entries[j].addedAt)
  {
    hide Safe, Honest, Step, DistinctStore, PairwiseDistinct;
    if actions != [] {
      var before := actions[..|actions| - 1];
      EntriesStayDistinct(start, before, w);
      RunSafe(start, before);
      StepDistinct(Run(start, before), actions[|actions| - 1]);
    }
    BehindDistinct(Run(start, actions), w);
    DistinctMeaning(EntriesOf(Behind(Run(start, actions), w)));
  }

  lemma BehindDistinct(s: State, w: string)
    requires DistinctStore(s.store)
    ensures PairwiseDistinct(EntriesOf(Behind(s, w)))
  {
    hide LoadFor;
  }

  /**
   * Appending again: when an append commits whose entry clashes with one that the wallet's
   * manifest held at any earlier time, the wallet's entries stay exactly as they were.
   */
  lemma ReappendChangesNothing(start: State, pre: seq<Action>, mid: seq<Action>, i: nat, env: Env)
    requires Safe(start) && Quiet(start)
    requires HonestRun(start, pre + mid) && DisciplinedRun(start, pre + mid)
    requires Disciplined(Run(start, pre + mid), Advance(i, env))
    requires var s, t := Run(start, pre + mid), Step(Run(start, pre + mid), Advance(i, env));
             && i < |s.tab.calls| && !s.tab.calls[i].committed && i < |t.tab.calls| && t.tab.calls[i].committed
             && t.tab.calls[i].op.Some?
             && Contains(EntriesOf(Behind(Run(start, pre), s.tab.calls[i].wallet)), t.tab.calls[i].op.value.entry)
    ensures var s, t := Run(start, pre + mid), Step(Run(start, pre + mid), Advance(i, env));
            EntriesOf(Behind(t, s.tab.calls[i].wallet)) == EntriesOf(Behind(s, s.tab.calls[i].wallet))
  {
    hide Run, Safe, Quiet, HonestRun, DisciplinedRun, Disciplined, Linear, Behind, Contains, Step;
    var s, t := Run(start, pre + mid), Step(Run(start, pre + mid), Advance(i, env));
    var w := s.tab.calls[i].wallet;
    RunPrefix(start, pre, mid, w);
    RunLinear(start, pre + mid);
    ContainsPrefix(EntriesOf(Behind(Run(start, pre), w)), EntriesOf(Behind(s, w)), t.tab.calls[i].op.value.entry);
    CommitOfKnown(start, s, i, env);
  }

  lemma CommitOfKnown(start: State, s: State, i: nat, env: Env)
    requires Linear(start, s) && Disciplined(s, Advance(i, env)) && i < |s.tab.calls| && !s.tab.calls[i].committed
    requires var t := Step(s, Advance(i, env));
             && i < |t.tab.calls| && t.tab.calls[i].committed && t.tab.calls[i].op.Some?
             && Contains(EntriesOf(Behind(s, s.tab.calls[i].wallet)), t.tab.calls[i].op.value.entry)
    ensures EntriesOf(Behind(Step(s, Advance(i, env)), s.tab.calls[i].wallet)) ==
        EntriesOf(Behind(s, s.tab.calls[i].wallet))
  {
    hide AdvanceLocal, Behind, Folded, Queue, AllCurrent, Pointed, AfterEarlier, CallTrue, Good, Disciplined, Enabled,
         Moves, Contains;
    EnabledInRange(s.tab, i);
    var before, after := View(s, i), AdvanceLocal(View(s, i), env);
    ViewReady(start, s, i);
    assert CallTrue(s.store, s.tab.calls[i]);
    assert Enabled(s.tab, i);
    DisciplineKeepsClear(s, i, env);
    EnabledShape(s.tab, i);
    AdvanceMoves(before, env);
    MoveWallet(before, after);
    MoveKeepsPointer(before, after);
    PutBehind(s, i, after, s.tab.calls[i].wallet);
    KnownCommit(before, after);
  }

  lemma KnownCommit(before: Local, after: Local)
    requires Moves(before, after) && !before.call.committed && after.call.committed && after.call.op.Some?
    requires Contains(EntriesOf(LocalBehind(before)), after.call.op.value.entry)
    ensures EntriesOf(LocalBehind(after)) == EntriesOf(LocalBehind(before))
  {
    hide CallTrue, Good, Current, Contains;
  }
}
