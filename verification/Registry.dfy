/**
 * The registry program (programs/sj_registry_program/src/lib.rs) and the client that
 * addresses it (packages/solana-registry/src/index.ts).
 *
 * SHA-256 and program-derived addresses are symbolic constructors. Accounts are a map by
 * address; an instruction yields the new accounts or an error, and the runtime keeps the old
 * accounts on an error. Strings are ASCII, so that byte and character counts agree.
 */
module Registry {
  import opened Wrappers
  import opened AsciiText
  import Encodings

  /** 32 bytes: the SHA-256 of a text, or bytes that are nobody's hash. */
  datatype Digest = Sha256Of(text: string) | OtherBytes(id: nat)

  type Pubkey = string

  datatype Address = Pda(wallet: Pubkey, vaultIdHash: Digest) | KeyAddress(key: Pubkey)

  datatype RegistryEntry = RegistryEntry(
    manifestCid: string, manifestCidHash: Digest, publishedAt: int, publisher: Pubkey, manifestSchemaVersion: int)

  datatype Account = Account(
    registryVersion: int, manifestSchemaVersion: int, wallet: Pubkey, vaultId: string, entries: seq<RegistryEntry>,
    createdAt: int, updatedAt: int)

  type Accounts = map<Address, Account>

  datatype ErrorCode =
    | RegistryFull | InvalidSchemaVersion | DuplicateEntry | InvalidVaultIdHash
    | InvalidVaultIdFormat | InvalidCidFormat | CidTooLong
    | ConstraintSeeds | AccountInUse | AccountMissing | ConstraintHasOne

  datatype Instruction =
    | Init(target: Address, signer: Pubkey, vaultId: string, vaultIdHash: Digest, schemaVersion: int)
    | Append(target: Address, signer: Pubkey, vaultIdHash: Digest, manifestCid: string, schemaVersion: int)

  const MaxEntries := 32
  const MaxCidLen := 64
  const MaxVaultIdLen := 32

  /* ---- the validators ---- */

  predicate VaultIdChar(c: char) {
    IsLower(c) || IsDigit(c) || c == '-' || c == '_'
  }

  predicate IsVaultId(id: string) {
    1 <= |id| <= MaxVaultIdLen && forall i | 0 <= i < |id| :: VaultIdChar(id[i])
  }

  predicate Unspaced(id: string) {
    forall i | 0 <= i < |id| :: id[i] != ' ' && !IsUpper(id[i])
  }

  /** The spellings the program accepts: only blanks other than ' ' may surround a vault id. */
  predicate AcceptsVaultId(id: string) {
    IsVaultId(Trim(id)) && Unspaced(id)
  }

  method ValidateAndCanonicalizeVaultId(id: string) returns (r: Result<string, ErrorCode>)
    ensures r == if AcceptsVaultId(id) then Ok(Trim(id)) else Err(InvalidVaultIdFormat)
    ensures r.Ok? <==>
        && 1 <= |Trim(id)| <= 32 && (forall c | c in Trim(id) :: c in "abcdefghijklmnopqrstuvwxyz0123456789-_")
        && forall c | c in id :: c != ' ' && c !in "ABCDEFGHIJKLMNOPQRSTUVWXYZ"
  {
    hide Trim, ToLower, IsUpper;
    VaultIdRule(id);
    var trimmed := Trim(id);
    var lower := ToLower(trimmed);
    LowerKeepsRejects(trimmed);
    if lower == [] || |lower| > MaxVaultIdLen {
      return Err(InvalidVaultIdFormat);
    }
    for i := 0 to |lower|
      invariant forall k | 0 <= k < i :: VaultIdChar(lower[k])
    {
      if !IsLower(lower[i]) && !IsDigit(lower[i]) && lower[i] != '-' && lower[i] != '_' {
        return Err(InvalidVaultIdFormat);
      }
    }
    for i := 0 to |id|
      invariant forall k | 0 <= k < i :: id[k] != ' ' && !IsUpper(id[k])
    {
      if id[i] == ' ' || IsUpper(id[i]) {
        return Err(InvalidVaultIdFormat);
      }
    }
    UnspacedIsLower(id);
    return Ok(lower);
  }

  /** Folding case cannot turn a character the program refuses into one it accepts, but for capitals. */
  lemma LowerKeepsRejects(s: string)
    ensures |ToLower(s)| == |s|
    ensures forall i | 0 <= i < |s| :: VaultIdChar(ToLower(s)[i]) <==> VaultIdChar(s[i]) || IsUpper(s[i])
  {
  }

  /** Where there are no capitals, trimming is all that canonicalization does. */
  lemma UnspacedIsLower(id: string)
    requires Unspaced(id)
    ensures ToLower(Trim(id)) == Trim(id)
    ensures forall i | 0 <= i < |Trim(id)| :: !IsUpper(Trim(id)[i])
  {
    hide Trim, ToLower;
    TrimResult(id);
    forall c | c in Trim(id) ensures !IsUpper(c) {
      assert c in id;
    }
    LowerOfLower(Trim(id));
  }

  lemma VaultIdLetters(i: nat)
    requires i < 38
    ensures VaultIdChar("abcdefghijklmnopqrstuvwxyz0123456789-_"[i])
  {
  }

  lemma CapitalLetters(i: nat)
    requires i < 26
    ensures IsUpper("ABCDEFGHIJKLMNOPQRSTUVWXYZ"[i])
  {
  }

  lemma NoOtherLetters(c: char)
    ensures VaultIdChar(c) ==> c in "abcdefghijklmnopqrstuvwxyz0123456789-_"
    ensures IsUpper(c) ==> c in "ABCDEFGHIJKLMNOPQRSTUVWXYZ"
  {
  }

  /** The alphabets, letter by letter. */
  lemma VaultIdAlphabet(c: char)
    ensures VaultIdChar(c) <==> c in "abcdefghijklmnopqrstuvwxyz0123456789-_"
    ensures IsUpper(c) <==> c in "ABCDEFGHIJKLMNOPQRSTUVWXYZ"
  {
    hide VaultIdChar, IsUpper;
    NoOtherLetters(c);
    var lower, upper := "abcdefghijklmnopqrstuvwxyz0123456789-_", "ABCDEFGHIJKLMNOPQRSTUVWXYZ";
    if c in lower {
      var i: nat :| i < |lower| && lower[i] == c;
      VaultIdLetters(i);
    }
    if c in upper {
      var i: nat :| i < |upper| && upper[i] == c;
      CapitalLetters(i);
    }
  }

  /** Which vault ids the program accepts, with every character spelled out. */
  lemma VaultIdRule(id: string)
    ensures AcceptsVaultId(id) <==>
        && 1 <= |Trim(id)| <= 32 && (forall c | c in Trim(id) :: c in "abcdefghijklmnopqrstuvwxyz0123456789-_")
        && forall c | c in id :: c != ' ' && c !in "ABCDEFGHIJKLMNOPQRSTUVWXYZ"
  {
    hide Trim, VaultIdChar, IsUpper;
    var t := Trim(id);
    var spelled := (forall c | c in t :: c in "abcdefghijklmnopqrstuvwxyz0123456789-_")
        && forall c | c in id :: c != ' ' && c !in "ABCDEFGHIJKLMNOPQRSTUVWXYZ";
    if spelled {
      forall i | 0 <= i < |t| ensures VaultIdChar(t[i]) {
        VaultIdAlphabet(t[i]);
      }
      forall i | 0 <= i < |id| ensures id[i] != ' ' && !IsUpper(id[i]) {
        VaultIdAlphabet(id[i]);
      }
    }
    if AcceptsVaultId(id) {
      forall c | c in t ensures c in "abcdefghijklmnopqrstuvwxyz0123456789-_" {
        VaultIdAlphabet(c);
      }
      forall c | c in id ensures c != ' ' && c !in "ABCDEFGHIJKLMNOPQRSTUVWXYZ" {
        VaultIdAlphabet(c);
      }
    }
  }

  predicate IsBase32(c: char) {
    IsLower(c) || '2' <= c <= '7'
  }

  predicate IsBase58(c: char) {
    Encodings.Digit58(c).Some?
  }

  predicate StartsWithQm(cid: string) {
    |cid| >= 2 && cid[0] == 'Q' && cid[1] == 'm'
  }

  /** A CIDv1 in base32, or a CIDv0 in base58, of at most 64 characters. */
  predicate ValidCid(cid: string) {
    && |cid| <= MaxCidLen
    && cid != []
    && (if cid[0] == 'b' then forall i | 0 <= i < |cid| :: IsBase32(cid[i])
        else StartsWithQm(cid) && forall i | 0 <= i < |cid| :: IsBase58(cid[i]))
  }

  lemma Base32Letters(i: nat)
    requires i < 32
    ensures IsBase32("abcdefghijklmnopqrstuvwxyz234567"[i])
  {
  }

  lemma Base32Alphabet(c: char)
    ensures IsBase32(c) <==> c in "abcdefghijklmnopqrstuvwxyz234567"
  {
    var alphabet := "abcdefghijklmnopqrstuvwxyz234567";
    if c in alphabet {
      var i: nat :| i < |alphabet| && alphabet[i] == c;
      Base32Letters(i);
    }
  }

  lemma Base58Alphabet(c: char)
    ensures IsBase58(c) <==> c in "123456789ABCDEFGHJKLMNPQRSTUVWXYZ" + "abcdefghijkmnopqrstuvwxyz"
  {
    hide Encodings.Digit58;
    var alphabet := "123456789ABCDEFGHJKLMNPQRSTUVWXYZ" + "abcdefghijkmnopqrstuvwxyz";
    if IsBase58(c) {
      Encodings.Alphabet58(c, Encodings.Digit58(c).value);
    }
    if c in alphabet {
      var i: nat :| i < |alphabet| && alphabet[i] == c;
      Encodings.Alphabet58(c, i);
    }
  }

  lemma AllBase32(cid: string)
    ensures (forall i | 0 <= i < |cid| :: IsBase32(cid[i])) <==>
        forall c | c in cid :: c in "abcdefghijklmnopqrstuvwxyz234567"
  {
    hide IsBase32;
    forall i | 0 <= i < |cid| ensures IsBase32(cid[i]) <==> cid[i] in "abcdefghijklmnopqrstuvwxyz234567" {
      Base32Alphabet(cid[i]);
    }
  }

  lemma AllBase58(cid: string)
    ensures (forall i | 0 <= i < |cid| :: IsBase58(cid[i])) <==>
        forall c | c in cid :: c in "123456789ABCDEFGHJKLMNPQRSTUVWXYZ" + "abcdefghijkmnopqrstuvwxyz"
  {
    hide IsBase58;
    forall i | 0 <= i < |cid|
      ensures IsBase58(cid[i]) <==> cid[i] in "123456789ABCDEFGHJKLMNPQRSTUVWXYZ" + "abcdefghijkmnopqrstuvwxyz"
    {
      Base58Alphabet(cid[i]);
    }
  }

  /** Which CIDs the program accepts, with every character spelled out. */
  lemma CidRule(cid: string)
    ensures ValidCid(cid) <==>
        && 1 <= |cid| <= 64
        && (|| (cid[0] == 'b' && forall c | c in cid :: c in "abcdefghijklmnopqrstuvwxyz234567")
            || (&& cid[0] == 'Q' && |cid| >= 2 && cid[1] == 'm'
                && forall c | c in cid :: c in "123456789ABCDEFGHJKLMNPQRSTUVWXYZ" + "abcdefghijkmnopqrstuvwxyz"))
  {
    hide IsBase32, IsBase58;
    AllBase32(cid);
    AllBase58(cid);
  }

  function CidError(cid: string): Option<ErrorCode> {
    if |cid| > MaxCidLen then Some(CidTooLong) else if ValidCid(cid) then None else Some(InvalidCidFormat)
  }

  method ValidateCidStrict(cid: string) returns (r: Option<ErrorCode>)
    ensures r == CidError(cid)
  {
    hide IsBase58;
    if |cid| > MaxCidLen { return Some(CidTooLong); }
    if cid == [] { return Some(InvalidCidFormat); }
    if cid[0] == 'b' {
      for i := 1 to |cid|
        invariant forall k | 0 <= k < i :: IsBase32(cid[k])
      {
        if !(IsLower(cid[i]) || '2' <= cid[i] <= '7') { return Some(InvalidCidFormat); }
      }
    } else if StartsWithQm(cid) {
      for i := 0 to |cid|
        invariant forall k | 0 <= k < i :: IsBase58(cid[k])
      {
        if !IsBase58(cid[i]) { return Some(InvalidCidFormat); }
      }
    } else {
      return Some(InvalidCidFormat);
    }
    return None;
  }

  /* ---- the two instructions ---- */

  predicate Published(entries: seq<RegistryEntry>, cid: string) {
    exists i | 0 <= i < |entries| :: entries[i].manifestCid == cid
  }

  function NewAccount(wallet: Pubkey, vaultId: string, now: int): Account {
    Account(1, 1, wallet, vaultId, [], now, now)
  }

  function NewRegistryEntry(cid: string, publisher: Pubkey, now: int): RegistryEntry {
    RegistryEntry(cid, Sha256Of(cid), now, publisher, 1)
  }

  /** The first rule an init breaks: the account constraints, then the handler's checks. */
  function InitError(accounts: Accounts, ix: Instruction): Option<ErrorCode>
    requires ix.Init?
  {
    if ix.target != Pda(ix.signer, ix.vaultIdHash) then Some(ConstraintSeeds)
    else if ix.target in accounts then Some(AccountInUse)
    else if ix.schemaVersion != 1 then Some(InvalidSchemaVersion)
    else if !AcceptsVaultId(ix.vaultId) then Some(InvalidVaultIdFormat)
    else if Sha256Of(Trim(ix.vaultId)) != ix.vaultIdHash then Some(InvalidVaultIdHash)
    else None
  }

  function AppendError(accounts: Accounts, ix: Instruction): Option<ErrorCode>
    requires ix.Append?
  {
    if ix.target !in accounts then Some(AccountMissing)
    else if ix.target != Pda(ix.signer, ix.vaultIdHash) then Some(ConstraintSeeds)
    else if accounts[ix.target].wallet != ix.signer then Some(ConstraintHasOne)
    else if ix.schemaVersion != 1 then Some(InvalidSchemaVersion)
    else if |accounts[ix.target].entries| >= MaxEntries then Some(RegistryFull)
    else if CidError(ix.manifestCid).Some? then CidError(ix.manifestCid)
    else if Sha256Of(accounts[ix.target].vaultId) != ix.vaultIdHash then Some(InvalidVaultIdHash)
    else if Published(accounts[ix.target].entries, ix.manifestCid) then Some(DuplicateEntry)
    else None
  }

  function Execute(accounts: Accounts, ix: Instruction, now: int): Result<Accounts, ErrorCode> {
    match ix
    case Init(target, signer, vaultId, _, _) => (
      match InitError(accounts, ix)
      case Some(e) => Err(e)
      case None => Ok(accounts[target := NewAccount(signer, Trim(vaultId), now)]))
    case Append(target, signer, _, cid, _) => (
      match AppendError(accounts, ix)
      case Some(e) => Err(e)
      case None =>
        var a := accounts[target];
        Ok(accounts[target := a.(entries := a.entries + [NewRegistryEntry(cid, signer, now)], updatedAt := now)]))
  }

  /** Exactly when an init succeeds, and the account it makes. */
  lemma InitRule(accounts: Accounts, target: Address, signer: Pubkey, vaultId: string, hash: Digest, version: int,
      now: int)
    ensures var r := Execute(accounts, Init(target, signer, vaultId, hash, version), now);
            && (r.Ok? <==>
                  && target == Pda(signer, hash) && target !in accounts && version == 1
                  && AcceptsVaultId(vaultId) && hash == Sha256Of(Trim(vaultId)))
            && (r.Ok? ==> r.value == accounts[target := Account(1, 1, signer, Trim(vaultId), [], now, now)])
  {
    hide AcceptsVaultId, Trim;
  }

  /** Exactly when an append succeeds, and the entry it adds. */
  lemma AppendRule(accounts: Accounts, target: Address, signer: Pubkey, hash: Digest, cid: string, version: int,
      now: int)
    ensures var r := Execute(accounts, Append(target, signer, hash, cid, version), now);
            && (r.Ok? <==>
                  && target in accounts && target == Pda(signer, hash) && accounts[target].wallet == signer
                  && version == 1 && |accounts[target].entries| < 32 && ValidCid(cid)
                  && hash == Sha256Of(accounts[target].vaultId)
                  && forall e | e in accounts[target].entries :: e.manifestCid != cid)
            && (r.Ok? ==>
                  var a := accounts[target];
                  r.value == accounts[target := Account(a.registryVersion, a.manifestSchemaVersion, a.wallet, a.vaultId,
                    a.entries + [RegistryEntry(cid, Sha256Of(cid), now, signer, 1)], a.createdAt, now)])
  {
    hide IsBase32, IsBase58;
    if target in accounts {
      var entries := accounts[target].entries;
      assert Published(entries, cid) <==> exists e | e in entries :: e.manifestCid == cid by {
        if Published(entries, cid) {
          var i :| 0 <= i < |entries| && entries[i].manifestCid == cid;
          assert entries[i] in entries;
        }
      }
    }
  }

  /** A transaction runs all its instructions at one clock value, or fails as a whole. */
  datatype Transaction = Transaction(instructions: seq<Instruction>, now: int)

  function ExecuteAll(accounts: Accounts, instructions: seq<Instruction>, now: int): Result<Accounts, ErrorCode>
    decreases |instructions|
  {
    if instructions == [] then Ok(accounts)
    else
      match Execute(accounts, instructions[0], now)
      case Err(e) => Err(e)
      case Ok(next) => ExecuteAll(next, instructions[1..], now)
  }

  function Process(accounts: Accounts, tx: Transaction): Accounts {
    match ExecuteAll(accounts, tx.instructions, tx.now)
    case Ok(after) => after
    case Err(_) => accounts
  }

  function RunTransactions(accounts: Accounts, txs: seq<Transaction>): Accounts {
    if txs == [] then accounts else Process(RunTransactions(accounts, txs[..|txs| - 1]), txs[|txs| - 1])
  }

  /* ---- the client ---- */

  function ClientVaultId(vaultId: string): string {
    ToLower(Trim(vaultId))
  }

  /** getRegistryAddress. */
  function GetRegistryAddress(wallet: Pubkey, vaultId: string): Address {
    Pda(wallet, Sha256Of(ClientVaultId(vaultId)))
  }

  function CreateInit(wallet: Pubkey, vaultId: string, schemaVersion: int): Instruction {
    Init(GetRegistryAddress(wallet, vaultId), wallet, vaultId, Sha256Of(ClientVaultId(vaultId)), schemaVersion)
  }

  function CreateAppend(wallet: Pubkey, vaultId: string, cid: string, schemaVersion: int): Instruction {
    Append(GetRegistryAddress(wallet, vaultId), wallet, Sha256Of(ClientVaultId(vaultId)), cid, schemaVersion)
  }

  /** publishManifest's transaction: init only if no registry was found, then append. */
  function PublishInstructions(found: bool, wallet: Pubkey, vaultId: string, cid: string): seq<Instruction> {
    (if found then [] else [CreateInit(wallet, vaultId, 1)]) + [CreateAppend(wallet, vaultId, cid, 1)]
  }

  /* ---- the program's state in place ---- */

  class RegistryProgram {
    var accounts: Accounts

    constructor ()
      ensures accounts == map[]
    {
      accounts := map[];
    }

    method InitRegistry(ix: Instruction, now: int) returns (error: Option<ErrorCode>)
      requires ix.Init?
      modifies this
      ensures error == old(InitError(accounts, ix))
      ensures error.Some? ==> accounts == old(accounts)
      ensures error.None? ==> Execute(old(accounts), ix, now) == Ok(accounts)
    {
      hide AcceptsVaultId, Trim, CidError;
      if ix.target != Pda(ix.signer, ix.vaultIdHash) { return Some(ConstraintSeeds); }
      if ix.target in accounts { return Some(AccountInUse); }
      if ix.schemaVersion != 1 { return Some(InvalidSchemaVersion); }
      var id := ValidateAndCanonicalizeVaultId(ix.vaultId);
      if id.Err? { return Some(id.error); }
      if Sha256Of(id.value) != ix.vaultIdHash { return Some(InvalidVaultIdHash); }
      accounts := accounts[ix.target := NewAccount(ix.signer, id.value, now)];
      return None;
    }

    method AppendManifest(ix: Instruction, now: int) returns (error: Option<ErrorCode>)
      requires ix.Append?
      modifies this
      ensures error == old(AppendError(accounts, ix))
      ensures error.Some? ==> accounts == old(accounts)
      ensures error.None? ==> Execute(old(accounts), ix, now) == Ok(accounts)
    {
      hide ValidCid;
      if ix.target !in accounts { return Some(AccountMissing); }
      if ix.target != Pda(ix.signer, ix.vaultIdHash) { return Some(ConstraintSeeds); }
      var registry := accounts[ix.target];
      if registry.wallet != ix.signer { return Some(ConstraintHasOne); }
      if ix.schemaVersion != 1 { return Some(InvalidSchemaVersion); }
      if |registry.entries| >= MaxEntries { return Some(RegistryFull); }
      var cidError := ValidateCidStrict(ix.manifestCid);
      if cidError.Some? { return cidError; }
      if Sha256Of(registry.vaultId) != ix.vaultIdHash { return Some(InvalidVaultIdHash); }
      for i := 0 to |registry.entries|
        invariant forall k | 0 <= k < i :: registry.entries[k].manifestCid != ix.manifestCid
      {
        if registry.entries[i].manifestCid == ix.manifestCid { return Some(DuplicateEntry); }
      }
      var entries := registry.entries + [NewRegistryEntry(ix.manifestCid, ix.signer, now)];
      accounts := accounts[ix.target := registry.(entries := entries, updatedAt := now)];
      return None;
    }

    /** The runtime: all instructions or none. */
    method Submit(tx: Transaction) returns (error: Option<ErrorCode>)
      modifies this
      ensures accounts == Process(old(accounts), tx)
      ensures match ExecuteAll(old(accounts), tx.instructions, tx.now)
              case Ok(_) => error == None
              case Err(e) => error == Some(e)
      ensures error.Some? ==> accounts == old(accounts)
    {
      hide Execute, InitError, AppendError;
      var before := accounts;
      for i := 0 to |tx.instructions|
        invariant ExecuteAll(before, tx.instructions, tx.now) == ExecuteAll(accounts, tx.instructions[i..], tx.now)
      {
        var ix := tx.instructions[i];
        assert tx.instructions[i..][0] == ix && tx.instructions[i..][1..] == tx.instructions[i + 1..];
        ExecuteErrors(accounts, ix, tx.now);
        if ix.Init? { error := InitRegistry(ix, tx.now); } else { error := AppendManifest(ix, tx.now); }
        if error.Some? {
          accounts := before;
          return error;
        }
      }
      assert tx.instructions[|tx.instructions|..] == [];
      return None;
    }
  }

  lemma ExecuteErrors(accounts: Accounts, ix: Instruction, now: int)
    ensures ix.Init? && InitError(accounts, ix).Some? ==>
        Execute(accounts, ix, now) == Err(InitError(accounts, ix).value)
    ensures ix.Append? && AppendError(accounts, ix).Some? ==>
        Execute(accounts, ix, now) == Err(AppendError(accounts, ix).value)
  {
    hide InitError, AppendError;
  }
}
