/**
 * packages/manifest/src/service.ts and internal/mutex.ts as the program keeps their state:
 * a map of mutexes by wallet, the pointer of each wallet, the content-addressed store and
 * the calls in flight. Every method takes exactly one step of the machine in Protocol, so
 * the results about its runs are results about this object.
 */
module ManifestService {
  import opened Wrappers
  import opened Terms
  import opened AsciiText
  import opened KeyDerivation
  import opened Manifest
  import opened ManifestCrypto
  import opened Protocol
  import opened ProtocolSafety
  import opened ProtocolMutex
  import opened ProtocolLinear
  import opened ProtocolResults
  import opened ProtocolOutcomes

  /** createMutex: `tail` is the promise of the latest caller, none once nobody has called. */
  class Mutex {
    var tail: Option<nat>

    constructor ()
      ensures tail == None
    {
      tail := None;
    }

    /** The synchronous part of runExclusive: chain onto the tail and become the tail. */
    method Chain(promise: nat) returns (previous: Option<nat>)
      modifies this
      ensures previous == old(tail) && tail == Some(promise)
    {
      previous := tail;
      tail := Some(promise);
    }
  }

  class Service {
    var store: Store
    var pointer: map<string, Cid>
    var mutexByWallet: map<string, Mutex>
    var calls: seq<Call>
    ghost const start: State
    ghost var history: seq<Action>

    ghost predicate OneMutexEach()
      reads this
    {
      forall v, w | v in mutexByWallet && w in mutexByWallet && v != w :: mutexByWallet[v] != mutexByWallet[w]
    }

    function Tails(): map<string, nat>
      reads this, mutexByWallet.Values
    {
      map w | w in mutexByWallet && mutexByWallet[w].tail.Some? :: mutexByWallet[w].tail.value
    }

    function Snapshot(): State
      reads this, mutexByWallet.Values
    {
      State(store, Tab(pointer, Tails(), calls))
    }

    /** The state is what the history of steps leads to. */
    ghost predicate Valid()
      reads this, mutexByWallet.Values
    {
      OneMutexEach() && Quiet(start) && Snapshot() == Run(start, history)
    }

    constructor (store: Store, pointer: map<string, Cid>)
      ensures Valid() && history == [] && start == State(store, Tab(pointer, map[], []))
      ensures mutexByWallet == map[]
    {
      this.store, this.pointer, this.mutexByWallet, this.calls := store, pointer, map[], [];
      this.start := State(store, Tab(pointer, map[], []));
      this.history := [];
    }

    ghost method Record(a: Action)
      requires OneMutexEach() && Quiet(start) && Snapshot() == Step(Run(start, history), a)
      modifies this`history
      ensures Valid() && history == old(history) + [a] && Snapshot() == old(Snapshot())
    {
      hide Step, Run, Quiet;
      RunExtend(start, history, a);
      history := history + [a];
    }

    method GetMutex(wallet: string) returns (m: Mutex)
      requires OneMutexEach()
      modifies this`mutexByWallet
      ensures OneMutexEach() && Snapshot() == old(Snapshot())
      ensures wallet in mutexByWallet && mutexByWallet[wallet] == m && m.tail == TailOf(Snapshot().tab, wallet)
      ensures mutexByWallet.Values <= old(mutexByWallet.Values) + {m} && (m in old(mutexByWallet.Values) || fresh(m))
      ensures forall w | w in old(mutexByWallet) :: w in mutexByWallet && mutexByWallet[w] == old(mutexByWallet[w])
    {
      if wallet in mutexByWallet {
        m := mutexByWallet[wallet];
      } else {
        m := new Mutex();
        mutexByWallet := mutexByWallet[wallet := m];
      }
      assert Tails() == old(Tails());
    }

    /** getMutex, and the synchronous part of runExclusive. */
    method Enqueue(wallet: string) returns (previous: Option<nat>)
      requires OneMutexEach()
      modifies this`mutexByWallet, mutexByWallet.Values
      ensures OneMutexEach() && previous == old(TailOf(Snapshot().tab, wallet))
      ensures Snapshot() == old(State(store, Snapshot().tab.(tail := Tails()[wallet := |calls|])))
      ensures fresh(mutexByWallet.Values - old(mutexByWallet.Values))
    {
      ghost var tails := Tails();
      var m := GetMutex(wallet);
      previous := m.Chain(|calls|);
      assert Tails() == tails[wallet := |calls|];
    }

    /** appendEntryAndPersist up to the first await. */
    method InvokeAppend(wallet: string, signature: Bytes, draft: Draft, head: Option<Cid>, unlock: bool)
      requires Valid()
      modifies this, mutexByWallet.Values
      ensures Valid() && history == old(history) + [Action.InvokeAppend(wallet, signature, draft, head, unlock)]
      ensures Snapshot() == Step(old(Snapshot()), Action.InvokeAppend(wallet, signature, draft, head, unlock))
      ensures fresh(mutexByWallet.Values - old(mutexByWallet.Values))
    {
      hide Run, Trim, Quiet;
      var w := Trim(wallet);
      if w != [] && unlock {
        var previous := Enqueue(w);
        calls := calls + [NewCall(Append(draft), w, signature, head, previous)];
      }
      Record(Action.InvokeAppend(wallet, signature, draft, head, unlock));
    }

    /** loadManifestOrInit up to the first await. */
    method InvokeLoad(wallet: string, signature: Bytes, head: Option<Cid>, unlock: bool, env: Env)
      requires Valid()
      modifies this
      ensures Valid() && history == old(history) + [Action.InvokeLoad(wallet, signature, head, unlock, env)]
      ensures Snapshot() == Step(old(Snapshot()), Action.InvokeLoad(wallet, signature, head, unlock, env))
      ensures mutexByWallet == old(mutexByWallet)
    {
      hide Run, Trim, Quiet, HasSpace;
      var w := Trim(wallet);
      if w != [] && unlock {
        var c := NewCall(Load, w, signature, head, None);
        if HasSpace(w) {
          c := c.(pc := Done(Failed(WalletHasBlanks)));
        } else if w in pointer {
          c := c.(cid := Some(pointer[w]), pc := Fetch);
        } else if HeadPresent(head) {
          c := c.(pc := Done(RestoreNeeded));
        } else {
          c := c.(createdAt := Some(env.now), pc := InitKek);
        }
        calls := calls + [c];
      }
      Record(Action.InvokeLoad(wallet, signature, head, unlock, env));
    }

    /** setManifestCid called from outside the service: a restore. */
    method SetPointer(wallet: string, cid: Cid)
      requires Valid()
      modifies this
      ensures Valid() && history == old(history) + [Action.SetPointer(wallet, cid)]
      ensures Snapshot() == Step(old(Snapshot()), Action.SetPointer(wallet, cid))
      ensures mutexByWallet == old(mutexByWallet)
    {
      hide Run, Quiet, Trim, HasSpace;
      var w := Trim(wallet);
      if Trim(cid) != [] && w != [] && !HasSpace(w) {
        pointer := pointer[w := Trim(cid)];
      }
      Record(Action.SetPointer(wallet, cid));
    }

    /** The upload of call `i` answered: store, then pointer, in that order. */
    method Uploaded(i: nat, bytes: Bytes, cid: Cid, moved: Call)
      requires i < |calls|
      modifies this`store, this`pointer, this`calls
      ensures Snapshot() == Put(old(Snapshot()), i, Local(old(store)[cid := bytes], Some(cid), moved))
    {
      store := store[cid := bytes];
      pointer := pointer[calls[i].wallet := cid];
      calls := calls[i := moved];
    }

    /** Call `i` goes on without touching store or pointer. */
    method Moved(i: nat, moved: Call)
      requires i < |calls|
      modifies this`calls
      ensures Snapshot() == Put(old(Snapshot()), i, View(old(Snapshot()), i).(call := moved))
    {
      PutBack(pointer, calls[i].wallet);
      calls := calls[i := moved];
    }

    /** The body up to its first await: read the pointer. */
    method Start(i: nat, env: Env)
      requires i < |calls| && calls[i].pc.Waiting?
      modifies this`calls
      ensures Snapshot() == Put(old(Snapshot()), i, StartBody(View(old(Snapshot()), i), env))
    {
      hide HasSpace;
      var c := calls[i];
      if HasSpace(c.wallet) {
        c := Left(c, Failed(WalletHasBlanks));
      } else if c.wallet in pointer {
        c := c.(cid := Some(pointer[c.wallet]));
        c := c.(pc := Fetch);
      } else if HeadPresent(c.head) {
        c := Left(c, if c.kind.Append? then Failed(RestoreRequired) else RestoreNeeded);
      } else {
        c := c.(createdAt := Some(env.now));
        c := c.(pc := InitKek);
      }
      Moved(i, c);
    }

    /** INIT: empty manifest, keys, wrap, encrypt, upload, pointer. */
    method Initialise(i: nat, env: Env)
      requires i < |calls| && InInit(calls[i].pc)
      modifies this`store, this`pointer, this`calls
      ensures Snapshot() == Put(old(Snapshot()), i, InitPhase(View(old(Snapshot()), i), env))
    {
      hide BuildWrapEnvelope, EncryptManifest, DeriveVaultRootKek, DeriveManifestKey, CanStore, Encode, EmptyManifest,
           Put;
      var c := calls[i];
      var pc := c.pc;
      if pc.InitUpload? {
        if CanStore(store, env.cid, pc.bytes) {
          c := c.(initialised := true);
          c := if c.kind.Append? then c.(pc := Initialised) else Left(c, Created(EmptyOf(c), env.cid));
          Uploaded(i, pc.bytes, env.cid, c);
          return;
        }
      } else if pc.InitKek? {
        var kek := DeriveVaultRootKek(c.signature);
        c := c.(pc := InitKey(kek));
      } else if pc.InitKey? {
        var manifestKey := DeriveManifestKey(pc.kek);
        c := c.(pc := InitSalt(pc.kek, manifestKey));
      } else if pc.InitSalt? {
        c := c.(pc := InitWrap(pc.kek, pc.key, env.salt));
      } else if pc.InitWrap? {
        var envelope := BuildWrapEnvelope(c.wallet, pc.kek, pc.key, pc.salt, env.wrapNonce);
        if envelope.Err? {
          c := Left(c, Failed(envelope.error));
        } else {
          c := c.(pc := InitEncrypt(pc.key, pc.salt, env.wrapNonce, envelope.value));
        }
      } else {
        var manifest := EmptyOf(c);
        var encrypted := EncryptManifest(manifest, pc.key, c.wallet, pc.envelope, env.nonce);
        if encrypted.Err? {
          c := Left(c, Failed(encrypted.error));
        } else {
          c := c.(pc := InitUpload(Encode(encrypted.value)));
        }
      }
      Moved(i, c);
    }

    /** LOAD: fetch, parse, unwrap, decrypt; an append then merges. */
    method Read(i: nat, env: Env)
      requires i < |calls| && InRead(calls[i].pc)
      modifies this`calls
      ensures Snapshot() == Put(old(Snapshot()), i, ReadPhase(View(old(Snapshot()), i), env))
    {
      hide UnwrapManifestKey, ReadManifest, ParseJson, MergePhase, Put;
      var c := calls[i];
      var pc := c.pc;
      if pc.Initialised? {
        if c.wallet in pointer {
          c := c.(cid := Some(pointer[c.wallet]));
          c := c.(pc := Fetch);
        } else {
          c := Left(c, Failed(NoPointer));
        }
      } else if pc.Fetch? {
        if c.cid.None? || c.cid.value !in store {
          c := Left(c, Failed(StoreFailed));
        } else {
          var tree := ParseJson(store[c.cid.value]);
          c := if tree.None? then Left(c, Failed(BadJson)) else c.(pc := Unwrap(tree.value));
        }
      } else if pc.Unwrap? {
        var key := UnwrapManifestKey(pc.tree, c.wallet, c.signature);
        c := if key.Err? then Left(c, Failed(key.error)) else c.(pc := Decrypt(pc.tree, key.value));
      } else {
        var manifest := ReadManifest(pc.tree, pc.key, c.wallet);
        if manifest.Err? {
          c := Left(c, Failed(manifest.error));
        } else if c.kind.Load? {
          c := Left(c, Got(manifest.value, if c.cid.Some? then c.cid.value else ""));
        } else {
          c := MergeEntry(View(Snapshot(), i), pc.key, manifest.value, env);
        }
      }
      Moved(i, c);
    }

    /** Fresh salt, wrap again, encrypt, upload, and only then the pointer; `finally` releases. */
    method Write(i: nat, env: Env)
      requires i < |calls| && (InWrite(calls[i].pc) || calls[i].pc.Releasing?)
      modifies this`store, this`pointer, this`calls
      ensures Snapshot() == Put(old(Snapshot()), i, WritePhase(View(old(Snapshot()), i), env))
    {
      hide BuildWrapEnvelope, EncryptManifest, DeriveVaultRootKek, CanStore, Encode, Put;
      var c := calls[i];
      var pc := c.pc;
      if pc.WriteUpload? {
        if CanStore(store, env.cid, pc.bytes) {
          c := c.(committed := true);
          Uploaded(i, pc.bytes, env.cid, Left(c, Appended(pc.manifest, env.cid)));
          return;
        }
      } else if pc.WriteSalt? {
        c := c.(pc := WriteKek(pc.key, pc.manifest, env.salt));
      } else if pc.WriteKek? {
        var kek := DeriveVaultRootKek(c.signature);
        c := c.(pc := WriteWrap(pc.key, pc.manifest, pc.salt, kek));
      } else if pc.WriteWrap? {
        var envelope := BuildWrapEnvelope(c.wallet, pc.kek, pc.key, pc.salt, env.wrapNonce);
        if envelope.Err? {
          c := Left(c, Failed(envelope.error));
        } else {
          c := c.(pc := WriteEncrypt(pc.key, pc.manifest, pc.salt, env.wrapNonce, envelope.value));
        }
      } else if pc.WriteEncrypt? {
        var encrypted := EncryptManifest(pc.manifest, pc.key, c.wallet, pc.envelope, env.nonce);
        if encrypted.Err? {
          c := Left(c, Failed(encrypted.error));
        } else {
          c := c.(pc := WriteUpload(pc.manifest, Encode(encrypted.value)));
        }
      } else {
        c := c.(pc := Done(pc.outcome));
      }
      Moved(i, c);
    }

    /** The operation awaited by call `i` answered, and the call runs on to its next await. */
    method Advance(i: nat, env: Env)
      requires Valid()
      modifies this
      ensures Valid() && history == old(history) + [Action.Advance(i, env)]
      ensures Snapshot() == Step(old(Snapshot()), Action.Advance(i, env))
      ensures mutexByWallet == old(mutexByWallet)
    {
      hide Run, Quiet, StartBody, InitPhase, ReadPhase, WritePhase, Put;
      if Enabled(Snapshot().tab, i) {
        var pc := calls[i].pc;
        if pc.Waiting? {
          Start(i, env);
        } else if InInit(pc) {
          Initialise(i, env);
        } else if InRead(pc) {
          Read(i, env);
        } else {
          Write(i, env);
        }
      }
      Record(Action.Advance(i, env));
    }

    method Throw(i: nat, stored: Option<Cid>)
      requires i < |calls|
      modifies this`store, this`calls
      ensures Snapshot() == Put(old(Snapshot()), i, RejectLocal(View(old(Snapshot()), i), stored))
      ensures store == old(store) || store == AfterThrow(old(store), old(calls)[i].pc, stored)
    {
      PutBack(pointer, calls[i].wallet);
      var pc := calls[i].pc;
      if (pc.InitUpload? || pc.WriteUpload?) && stored.Some?
          && (stored.value in store ==> store[stored.value] == pc.bytes) {
        store := store[stored.value := pc.bytes];
      }
      if InInit(pc) || InWrite(pc) || (InRead(pc) && !pc.Initialised?) {
        calls := calls[i := Left(calls[i], Failed(StepFailed))];
      }
    }

    /**
     * The operation awaited by call `i` threw, an upload perhaps after storing its bytes; an
     * append goes on to `finally`.
     */
    method Reject(i: nat, stored: Option<Cid>)
      requires Valid()
      modifies this
      ensures Valid() && history == old(history) + [Action.Reject(i, stored)]
      ensures Snapshot() == Step(old(Snapshot()), Action.Reject(i, stored))
      ensures mutexByWallet == old(mutexByWallet) && pointer == old(pointer)
      ensures i < |old(calls)| ==> store == old(store) || store == AfterThrow(old(store), old(calls)[i].pc, stored)
    {
      hide Run, Quiet, RejectLocal, Put;
      if Enabled(Snapshot().tab, i) {
        Throw(i, stored);
      }
      Record(Action.Reject(i, stored));
    }

    /** What every reachable state of the object promises about one wallet. */
    lemma ReachableIsLinear(w: string)
      requires Valid() && Safe(start) && HonestRun(start, history) && DisciplinedRun(start, history)
      ensures Safe(Snapshot())
      ensures Behind(Snapshot(), w) == Replay(Behind(start, w), calls, w)
    {
      hide Run, Safe, Behind, Replay, HonestRun, DisciplinedRun;
      RunSafe(start, history);
      Linearizable(start, history, w);
    }
  }

  lemma RunExtend(s: State, history: seq<Action>, a: Action)
    ensures Run(s, history + [a]) == Step(Run(s, history), a)
  {
    hide Step;
    assert (history + [a])[..|history|] == history;
  }

  /** A call leaving its body: an append still has to release its mutex. */
  function Left(c: Call, o: Outcome): Call {
    c.(pc := if c.kind.Append? then Releasing(o) else Done(o))
  }

  /** `manifest.entries.some(...)`. */
  method HasEntry(entries: seq<Entry>, e: Entry) returns (found: bool)
    ensures found == Contains(entries, e)
  {
    for k := 0 to |entries|
      invariant forall j | 0 <= j < k :: !Clash(entries[j], e)
    {
      if entries[k].entryId == e.entryId || (entries[k].fileCid == e.fileCid && entries[k].addedAt == e.addedAt) {
        assert Clash(entries[k], e);
        return true;
      }
    }
    return false;
  }

  /** Merge of an append: the new entry, unless it is there already, and the new date. */
  method MergeEntry(l: Local, key: Bytes, read: ManifestV1, env: Env) returns (c: Call)
    requires l.call.kind.Append?
    ensures c == MergePhase(l, key, read, env).call && MergePhase(l, key, read, env) == l.(call := c)
  {
    hide Trim, Truthy, Contains;
    c := l.call;
    var draft := c.kind.draft;
    if Trim(draft.fileCid) == [] {
      return Left(c, Failed(MissingFileCid));
    }
    if !Truthy(draft.envelope) {
      return Left(c, Failed(MissingEntryEnvelope));
    }
    EnvelopePresent(draft);
    var addedAt := if draft.addedAt.Some? then draft.addedAt.value else env.now;
    var entryId := if draft.entryId.Some? then draft.entryId.value else env.uuid;
    var entry := NewEntry(draft, entryId, addedAt);
    var manifest := read;
    var found := HasEntry(manifest.entries, entry);
    if !found {
      manifest := manifest.(entries := manifest.entries + [entry]);
    }
    manifest := manifest.(updatedAt := env.later);
    c := c.(op := Some(MergeOp(entry, env.later)));
    c := c.(pc := WriteSalt(key, manifest));
  }

  lemma EnvelopePresent(d: Draft)
    ensures Truthy(d.envelope) ==> d.envelope.Some?
  {
  }
}
