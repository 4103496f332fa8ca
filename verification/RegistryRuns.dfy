/** What holds of every registry account after every sequence of transactions. */
module RegistryRuns {
  import opened Wrappers
  import opened AsciiText
  import opened Registry

  /* ---- addresses ---- */

  /**
   * Program and client agree on every accepted spelling, the stored id is canonical (the
   * program accepts it and stores it unchanged), and every id made of accepted characters
   * is such a fixed point.
   */
  lemma CanonicalSpelling(id: string)
    ensures AcceptsVaultId(id) ==> ClientVaultId(id) == Trim(id) && IsVaultId(Trim(id))
    ensures IsVaultId(id) <==> AcceptsVaultId(id) && Trim(id) == id
  {
    hide ToLower, TrimStart, TrimEnd;
    if AcceptsVaultId(id) {
      UnspacedIsLower(id);
    }
    if IsVaultId(id) {
      hide Trim;
      assert IsTrimmed(id);
      TrimOfTrimmed(id);
    }
  }

  /** A well-formed account: the invariant of every account the program ever holds. */
  predicate EntryTrue(e: RegistryEntry, wallet: Pubkey) {
    ValidCid(e.manifestCid) && e.manifestCidHash == Sha256Of(e.manifestCid) && e.publisher == wallet
        && e.manifestSchemaVersion == 1
  }

  predicate DistinctCids(entries: seq<RegistryEntry>) {
    forall i, j | 0 <= i < j < |entries| :: entries[i].manifestCid != entries[j].manifestCid
  }

  predicate AccountTrue(address: Address, a: Account) {
    && address == Pda(a.wallet, Sha256Of(a.vaultId))
    && IsVaultId(a.vaultId)
    && a.registryVersion == 1 && a.manifestSchemaVersion == 1
    && |a.entries| <= MaxEntries && DistinctCids(a.entries)
    && forall i | 0 <= i < |a.entries| :: EntryTrue(a.entries[i], a.wallet)
  }

  predicate AllTrue(accounts: Accounts) {
    forall address | address in accounts :: AccountTrue(address, accounts[address])
  }

  /** Append-only: nothing disappears, nothing published changes. */
  predicate Extends(before: Accounts, after: Accounts) {
    forall address | address in before ::
      && address in after
      && before[address].entries <= after[address].entries
      && before[address].(entries := [], updatedAt := 0) == after[address].(entries := [], updatedAt := 0)
  }

  lemma ExecuteKeeps(accounts: Accounts, ix: Instruction, now: int)
    requires AllTrue(accounts) && Execute(accounts, ix, now).Ok?
    ensures AllTrue(Execute(accounts, ix, now).value) && Extends(accounts, Execute(accounts, ix, now).value)
  {
    hide ValidCid, AcceptsVaultId, IsVaultId, Trim;
    if ix.Init? {
      AcceptedIsVaultId(ix.vaultId);
    } else {
      assert AccountTrue(ix.target, accounts[ix.target]);
      ValidIfNoError(ix.manifestCid);
    }
  }

  lemma AcceptedIsVaultId(id: string)
    ensures AcceptsVaultId(id) ==> IsVaultId(Trim(id))
  {
    hide IsVaultId, Trim;
  }

  lemma ValidIfNoError(cid: string)
    ensures CidError(cid).None? <==> ValidCid(cid)
  {
    hide IsBase58, IsBase32;
  }

  lemma {:induction false} ExecuteAllKeeps(accounts: Accounts, instructions: seq<Instruction>, now: int)
    requires AllTrue(accounts) && ExecuteAll(accounts, instructions, now).Ok?
    ensures AllTrue(ExecuteAll(accounts, instructions, now).value)
    ensures Extends(accounts, ExecuteAll(accounts, instructions, now).value)
    decreases |instructions|
  {
    hide Execute, AllTrue;
    if instructions != [] {
      ExecuteKeeps(accounts, instructions[0], now);
      ExecuteAllKeeps(Execute(accounts, instructions[0], now).value, instructions[1..], now);
    }
  }

  /**
   * Over every sequence of transactions, failed ones included: entries are append-only, at
   * most 32, with pairwise distinct valid CIDs, each with its own hash, the owner as
   * publisher and schema version 1, and the vault id is canonical.
   */
  lemma {:induction false} RegistryInvariant(accounts: Accounts, txs: seq<Transaction>)
    requires AllTrue(accounts)
    ensures AllTrue(RunTransactions(accounts, txs)) && Extends(accounts, RunTransactions(accounts, txs))
  {
    hide Process, AllTrue;
    if txs != [] {
      RegistryInvariant(accounts, txs[..|txs| - 1]);
      ProcessKeeps(RunTransactions(accounts, txs[..|txs| - 1]), txs[|txs| - 1]);
    }
  }

  /** No instruction was signed by `wallet`. */
  predicate SignedByOthers(instructions: seq<Instruction>, wallet: Pubkey) {
    forall i | 0 <= i < |instructions| :: instructions[i].signer != wallet
  }

  /** The accounts of `wallet` are the same in both. */
  predicate SameFor(before: Accounts, after: Accounts, wallet: Pubkey) {
    && (forall a | a in before && before[a].wallet == wallet :: a in after && after[a] == before[a])
    && (forall a | a in after && after[a].wallet == wallet :: a in before && before[a] == after[a])
  }

  lemma {:induction false} OthersExecute(accounts: Accounts, instructions: seq<Instruction>, now: int, wallet: Pubkey)
    requires SignedByOthers(instructions, wallet) && ExecuteAll(accounts, instructions, now).Ok?
    ensures SameFor(accounts, ExecuteAll(accounts, instructions, now).value, wallet)
    decreases |instructions|
  {
    hide CidError, AcceptsVaultId, Trim, Published;
    if instructions != [] {
      var next := Execute(accounts, instructions[0], now).value;
      assert SameFor(accounts, next, wallet);
      OthersExecute(next, instructions[1..], now, wallet);
    }
  }

  /** A transaction that a wallet did not sign creates, changes and removes none of its registries. */
  lemma OnlyTheOwnerPublishes(accounts: Accounts, tx: Transaction, wallet: Pubkey)
    requires SignedByOthers(tx.instructions, wallet)
    ensures SameFor(accounts, Process(accounts, tx), wallet)
  {
    hide ExecuteAll;
    if ExecuteAll(accounts, tx.instructions, tx.now).Ok? {
      OthersExecute(accounts, tx.instructions, tx.now, wallet);
    }
  }

  /**
   * The client finds an account exactly by its wallet and by the spellings whose canonical
   * form is its vault id; every spelling the program accepts for it is one of them.
   */
  lemma ClientFindsAccount(txs: seq<Transaction>, address: Address, wallet: Pubkey, spelling: string)
    requires address in RunTransactions(map[], txs)
    ensures var a := RunTransactions(map[], txs)[address];
            && (GetRegistryAddress(wallet, spelling) == address <==>
                  wallet == a.wallet && ClientVaultId(spelling) == a.vaultId)
            && (AcceptsVaultId(spelling) && Trim(spelling) == a.vaultId ==>
                  GetRegistryAddress(a.wallet, spelling) == address)
            && GetRegistryAddress(a.wallet, a.vaultId) == address
  {
    hide RunTransactions, AcceptsVaultId, IsVaultId, Trim, ClientVaultId, DistinctCids;
    RegistryInvariant(map[], txs);
    var a := RunTransactions(map[], txs)[address];
    assert AccountTrue(address, a);
    CanonicalSpelling(spelling);
    CanonicalSpelling(a.vaultId);
  }

  /* ---- publishing ---- */

  /** What a publication needs: a true picture of the chain, a fresh valid CID, and room or an acceptable id. */
  predicate CanPublish(accounts: Accounts, found: bool, wallet: Pubkey, vaultId: string, cid: string) {
    var address := GetRegistryAddress(wallet, vaultId);
    && ValidCid(cid) && found == (address in accounts)
    && (if found then |accounts[address].entries| < MaxEntries && !Published(accounts[address].entries, cid)
        else AcceptsVaultId(vaultId))
  }

  /** The accounts with one more entry, in a new account if there was none. */
  function AfterPublish(accounts: Accounts, wallet: Pubkey, vaultId: string, cid: string, now: int): Accounts {
    var address := GetRegistryAddress(wallet, vaultId);
    var a := if address in accounts then accounts[address] else NewAccount(wallet, ClientVaultId(vaultId), now);
    accounts[address := a.(entries := a.entries + [NewRegistryEntry(cid, wallet, now)], updatedAt := now)]
  }

  lemma PublishExactly(accounts: Accounts, found: bool, wallet: Pubkey, vaultId: string, cid: string, now: int)
    requires AllTrue(accounts)
    ensures var r := ExecuteAll(accounts, PublishInstructions(found, wallet, vaultId, cid), now);
            && (r.Ok? <==> CanPublish(accounts, found, wallet, vaultId, cid))
            && (r.Ok? ==> r.value == AfterPublish(accounts, wallet, vaultId, cid, now))
  {
    hide AcceptsVaultId, IsVaultId, Trim, ClientVaultId, DistinctCids, ValidCid, CidError;
    CanonicalSpelling(vaultId);
    ValidIfNoError(cid);
    var address := GetRegistryAddress(wallet, vaultId);
    if address in accounts {
      assert AccountTrue(address, accounts[address]);
    }
    if found {
      PublishFound(accounts, wallet, vaultId, cid, now);
    } else {
      PublishMissing(accounts, wallet, vaultId, cid, now);
    }
  }

  /**
   * publishManifest with a true picture of the chain succeeds exactly for a valid CID that
   * is not published yet, in a registry that is not full (or, if there is none, under an
   * acceptable id), and then exactly that entry is added. With a stale picture it fails.
   */
  lemma PublishSucceedsExactly(txs: seq<Transaction>, found: bool, wallet: Pubkey, vaultId: string, cid: string,
      now: int)
    ensures var accounts := RunTransactions(map[], txs);
            var r := ExecuteAll(accounts, PublishInstructions(found, wallet, vaultId, cid), now);
            && (r.Ok? <==> CanPublish(accounts, found, wallet, vaultId, cid))
            && (r.Ok? ==> r.value == AfterPublish(accounts, wallet, vaultId, cid, now))
  {
    hide RunTransactions, AllTrue, CanPublish, AfterPublish, PublishInstructions, ExecuteAll;
    NothingTrue();
    RegistryInvariant(map[], txs);
    PublishExactly(RunTransactions(map[], txs), found, wallet, vaultId, cid, now);
  }

  lemma NothingTrue()
    ensures AllTrue(map[])
  {
  }

  /** publishManifest, once it knows whether the registry was found: build the transaction and send it. */
  method PublishManifest(program: RegistryProgram, found: bool, wallet: Pubkey, vaultId: string, cid: string, now: int)
    returns (error: Option<ErrorCode>)
    requires AllTrue(program.accounts)
    modifies program
    ensures error.None? <==> old(CanPublish(program.accounts, found, wallet, vaultId, cid))
    ensures program.accounts == if error.None?
        then old(AfterPublish(program.accounts, wallet, vaultId, cid, now)) else old(program.accounts)
    ensures AllTrue(program.accounts) && Extends(old(program.accounts), program.accounts)
  {
    hide AllTrue, CanPublish, AfterPublish, CreateInit, CreateAppend, ExecuteAll, AccountTrue;
    var tx: seq<Instruction> := [];
    if !found {
      tx := tx + [CreateInit(wallet, vaultId, 1)];
    }
    tx := tx + [CreateAppend(wallet, vaultId, cid, 1)];
    assert tx == PublishInstructions(found, wallet, vaultId, cid);
    PublishExactly(program.accounts, found, wallet, vaultId, cid, now);
    ProcessKeeps(program.accounts, Transaction(tx, now));
    error := program.Submit(Transaction(tx, now));
  }

  lemma ProcessKeeps(accounts: Accounts, tx: Transaction)
    requires AllTrue(accounts)
    ensures AllTrue(Process(accounts, tx)) && Extends(accounts, Process(accounts, tx))
  {
    hide AllTrue, ExecuteAll;
    if ExecuteAll(accounts, tx.instructions, tx.now).Ok? {
      ExecuteAllKeeps(accounts, tx.instructions, tx.now);
    }
  }

  lemma ExecuteOne(accounts: Accounts, ix: Instruction, now: int)
    ensures ExecuteAll(accounts, [ix], now) == Execute(accounts, ix, now)
  {
    hide Execute;
    assert [ix][1..] == [];
  }

  lemma PublishFound(accounts: Accounts, wallet: Pubkey, vaultId: string, cid: string, now: int)
    ensures ExecuteAll(accounts, PublishInstructions(true, wallet, vaultId, cid), now) ==
        Execute(accounts, CreateAppend(wallet, vaultId, cid, 1), now)
  {
    hide Execute, CreateAppend;
    assert [] + [CreateAppend(wallet, vaultId, cid, 1)] == [CreateAppend(wallet, vaultId, cid, 1)];
    ExecuteOne(accounts, CreateAppend(wallet, vaultId, cid, 1), now);
  }

  lemma PublishMissing(accounts: Accounts, wallet: Pubkey, vaultId: string, cid: string, now: int)
    ensures ExecuteAll(accounts, PublishInstructions(false, wallet, vaultId, cid), now) ==
            match Execute(accounts, CreateInit(wallet, vaultId, 1), now)
            case Err(e) => Err(e)
            case Ok(next) => Execute(next, CreateAppend(wallet, vaultId, cid, 1), now)
  {
    hide Execute, CreateAppend, CreateInit;
    var tx := PublishInstructions(false, wallet, vaultId, cid);
    assert tx[0] == CreateInit(wallet, vaultId, 1) && tx[1..] == [CreateAppend(wallet, vaultId, cid, 1)];
    var r := Execute(accounts, tx[0], now);
    if r.Ok? {
      ExecuteOne(r.value, CreateAppend(wallet, vaultId, cid, 1), now);
    }
  }

  /* ---- the clock ---- */

  /** The cluster clock does not go backwards. */
  predicate ClockOrdered(txs: seq<Transaction>) {
    forall i, j | 0 <= i < j < |txs| :: txs[i].now <= txs[j].now
  }

  function LastUpdate(a: Account): int {
    if a.entries == [] then a.createdAt else a.entries[|a.entries| - 1].publishedAt
  }

  predicate TimesTrue(a: Account, now: int) {
    && a.updatedAt == LastUpdate(a) && a.updatedAt <= now
    && forall i, j | 0 <= i < j < |a.entries| :: a.entries[i].publishedAt <= a.entries[j].publishedAt
  }

  predicate AllTimed(accounts: Accounts, now: int) {
    forall address | address in accounts :: TimesTrue(accounts[address], now)
  }

  lemma ExecuteTimed(accounts: Accounts, ix: Instruction, now: int)
    requires AllTimed(accounts, now) && Execute(accounts, ix, now).Ok?
    ensures AllTimed(Execute(accounts, ix, now).value, now)
  {
    hide ValidCid, AcceptsVaultId, IsVaultId, Trim, CidError;
    if ix.Append? {
      assert TimesTrue(accounts[ix.target], now);
      AppendTimed(accounts[ix.target], ix.manifestCid, ix.signer, now);
    }
  }

  lemma AppendTimed(a: Account, cid: string, signer: Pubkey, now: int)
    requires TimesTrue(a, now)
    ensures TimesTrue(a.(entries := a.entries + [NewRegistryEntry(cid, signer, now)], updatedAt := now), now)
  {
    var n := |a.entries|;
    forall i | 0 <= i < n ensures a.entries[i].publishedAt <= now {
      assert i < n - 1 ==> a.entries[i].publishedAt <= a.entries[n - 1].publishedAt;
    }
  }

  lemma {:induction false} ExecuteAllTimed(accounts: Accounts, instructions: seq<Instruction>, now: int)
    requires AllTimed(accounts, now) && ExecuteAll(accounts, instructions, now).Ok?
    ensures AllTimed(ExecuteAll(accounts, instructions, now).value, now)
    decreases |instructions|
  {
    hide Execute, AllTimed;
    if instructions != [] {
      ExecuteTimed(accounts, instructions[0], now);
      ExecuteAllTimed(Execute(accounts, instructions[0], now).value, instructions[1..], now);
    }
  }

  /** Under a clock that does not go backwards, entries are in order of publication time. */
  lemma {:induction false} EntriesInTimeOrder(txs: seq<Transaction>, now: int)
    requires ClockOrdered(txs) && forall i | 0 <= i < |txs| :: txs[i].now <= now
    ensures AllTimed(RunTransactions(map[], txs), now)
  {
    hide ExecuteAll;
    if txs != [] {
      var tx := txs[|txs| - 1];
      var before := RunTransactions(map[], txs[..|txs| - 1]);
      EntriesInTimeOrder(txs[..|txs| - 1], tx.now);
      if ExecuteAll(before, tx.instructions, tx.now).Ok? {
        ExecuteAllTimed(before, tx.instructions, tx.now);
      }
    }
  }

  /* ---- the account's size ---- */

  const Space := 8 + 1 + 1 + 32 + (4 + MaxVaultIdLen) + 4 + MaxEntries * ((4 + MaxCidLen) + 32 + 8 + 32 + 1) + 8 + 8

  /** Borsh: four-byte lengths before strings and vectors, 32-byte keys and hashes, i64 times, one byte versions. */
  function EntrySize(e: RegistryEntry): nat {
    (4 + |e.manifestCid|) + 32 + 8 + 32 + 1
  }

  function EntriesSize(entries: seq<RegistryEntry>): nat {
    if entries == [] then 0 else EntriesSize(entries[..|entries| - 1]) + EntrySize(entries[|entries| - 1])
  }

  /** The discriminator and the fields in order. */
  function AccountSize(a: Account): nat {
    8 + 1 + 1 + 32 + (4 + |a.vaultId|) + (4 + EntriesSize(a.entries)) + 8 + 8
  }

  lemma {:induction false} EntriesSizeBound(entries: seq<RegistryEntry>)
    requires forall i | 0 <= i < |entries| :: |entries[i].manifestCid| <= MaxCidLen
    ensures EntriesSize(entries) <= |entries| * (MaxCidLen + 77)
    ensures EntriesSize(entries) == |entries| * (MaxCidLen + 77) <==>
        forall i | 0 <= i < |entries| :: |entries[i].manifestCid| == MaxCidLen
  {
    if entries != [] {
      EntriesSizeBound(entries[..|entries| - 1]);
    }
  }

  /** Every reachable account fits in `SPACE`, and fills it exactly when everything is at its maximum. */
  lemma AccountFits(txs: seq<Transaction>, address: Address)
    requires address in RunTransactions(map[], txs)
    ensures var a := RunTransactions(map[], txs)[address];
            && AccountSize(a) <= Space
            && (AccountSize(a) == Space <==>
                  && |a.vaultId| == MaxVaultIdLen && |a.entries| == MaxEntries
                  && forall i | 0 <= i < |a.entries| :: |a.entries[i].manifestCid| == MaxCidLen)
  {
    hide RunTransactions, DistinctCids, IsBase32, IsBase58;
    RegistryInvariant(map[], txs);
    var a := RunTransactions(map[], txs)[address];
    assert AccountTrue(address, a);
    forall i | 0 <= i < |a.entries| ensures |a.entries[i].manifestCid| <= MaxCidLen {
      assert EntryTrue(a.entries[i], a.wallet);
    }
    EntriesSizeBound(a.entries);
  }

  /* ---- the bound is reached ---- */

  function Repeat(c: char, n: nat): (s: string)
    ensures |s| == n && forall i | 0 <= i < n :: s[i] == c
  {
    if n == 0 then [] else Repeat(c, n - 1) + [c]
  }

  function Base32Char(k: nat): char
    requires k < 32
  {
    if k < 26 then ('a' as int + k) as char else ('2' as int + k - 26) as char
  }

  /** 32 different CIDs of 64 characters. */
  function LongCid(k: nat): string
    requires k < 32
  {
    Repeat('b', 63) + [Base32Char(k)]
  }

  lemma LongCidValid(k: nat)
    requires k < 32
    ensures ValidCid(LongCid(k)) && |LongCid(k)| == MaxCidLen && LongCid(k)[63] == Base32Char(k)
  {
    hide IsBase58;
  }

  function Filling(wallet: Pubkey, n: nat): seq<Transaction>
    requires n <= 32
  {
    if n == 0 then []
    else Filling(wallet, n - 1) + [Transaction(PublishInstructions(n != 1, wallet, Repeat('v', 32), LongCid(n - 1)), 0)]
  }

  function FilledEntries(wallet: Pubkey, n: nat): (entries: seq<RegistryEntry>)
    requires n <= 32
    ensures |entries| == n && forall i | 0 <= i < n :: entries[i] == NewRegistryEntry(LongCid(i), wallet, 0)
  {
    if n == 0 then [] else FilledEntries(wallet, n - 1) + [NewRegistryEntry(LongCid(n - 1), wallet, 0)]
  }

  lemma FilledUnpublished(wallet: Pubkey, n: nat)
    requires n < 32
    ensures !Published(FilledEntries(wallet, n), LongCid(n))
  {
    hide ValidCid, FilledEntries;
    forall i | 0 <= i < n ensures FilledEntries(wallet, n)[i].manifestCid != LongCid(n) {
      LongCidValid(i);
      LongCidValid(n);
    }
  }

  lemma {:induction false} FillingWorks(wallet: Pubkey, n: nat)
    requires n <= 32
    ensures var address := GetRegistryAddress(wallet, Repeat('v', 32));
            RunTransactions(map[], Filling(wallet, n)) ==
              if n == 0 then map[]
              else map[address := NewAccount(wallet, Repeat('v', 32), 0).(entries := FilledEntries(wallet, n))]
  {
    hide ValidCid, AcceptsVaultId, Trim, ClientVaultId, ExecuteAll, LongCid, Published, PublishInstructions,
         RunTransactions, Repeat;
    var id := Repeat('v', 32);
    NothingRun();
    if n > 0 {
      FillingWorks(wallet, n - 1);
      FillingLast(wallet, n);
      CanonicalSpelling(id);
      LongCidValid(n - 1);
      FilledUnpublished(wallet, n - 1);
      PublishSucceedsExactly(Filling(wallet, n - 1), n != 1, wallet, id, LongCid(n - 1), 0);
    }
  }

  lemma NothingRun()
    ensures RunTransactions(map[], []) == map[]
  {
  }

  lemma FillingLast(wallet: Pubkey, n: nat)
    requires 0 < n <= 32
    ensures RunTransactions(map[], Filling(wallet, n)) ==
            Process(RunTransactions(map[], Filling(wallet, n - 1)),
                    Transaction(PublishInstructions(n != 1, wallet, Repeat('v', 32), LongCid(n - 1)), 0))
  {
    hide Process, PublishInstructions, LongCid, Repeat;
    FillingLength(wallet, n - 1);
    assert Filling(wallet, n)[..n - 1] == Filling(wallet, n - 1);
  }

  lemma {:induction false} FillingLength(wallet: Pubkey, n: nat)
    requires n <= 32
    ensures |Filling(wallet, n)| == n
  {
    if n > 0 {
      FillingLength(wallet, n - 1);
    }
  }

  /** `SPACE` is not an over-estimate: some sequence of publications fills an account to the last byte. */
  lemma SpaceIsReached(wallet: Pubkey)
    ensures var accounts, address := RunTransactions(map[], Filling(wallet, 32)),
        GetRegistryAddress(wallet, Repeat('v', 32));
            address in accounts && AccountSize(accounts[address]) == Space
  {
    hide RunTransactions, LongCid, Filling;
    FillingWorks(wallet, 32);
    forall i | 0 <= i < 32 ensures |LongCid(i)| == MaxCidLen { LongCidValid(i); }
    AccountFits(Filling(wallet, 32), GetRegistryAddress(wallet, Repeat('v', 32)));
  }
}
