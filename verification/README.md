# SovereignJedi: a verified model of the manifest protocol

SovereignJedi keeps, for each wallet, an encrypted list of files (the manifest) in a
content-addressed store. A mutable local pointer names the current version, an append-only
on-chain registry names the published versions, and all keys are derived again in every
session from a vault-root signature. This project models that behaviour in Dafny and proves
what the parts promise together. `dafny verify dfyconfig.toml` checks everything.

| module | what it covers |
|---|---|
| `Protocol`, `ProtocolSafety`, `ProtocolMutex`, `ProtocolLinear`, `ProtocolResults`, `ProtocolOutcomes`, `ProtocolEntries`, `ProtocolDrafts`, `ProtocolSuccess`, `ProtocolInit`, `ProtocolLoss`, `ProtocolStorage` | append and load as a transition system, one step per `await` with a failure branch at each: safety, mutual exclusion, progress, linearizability, failure atomicity, snapshot loads, distinct entries, entries and manifests in terms of drafts and clock, success of answered calls, direct initialisation, the key-value store underneath |
| `ManifestService` | the same service as an object with mutable fields; each method takes exactly one step of the transition system |
| `OctetStrings`, `Terms`, `KeyDerivation`, `Hkdf`, `HkdfTerms`, `Manifest`, `ManifestCrypto`, `FileEnvelope` | symbolic cryptography and ordered JSON trees, key derivation, HKDF, the manifest and file formats with their round trips and bindings |
| `Registry`, `RegistryRuns`, `RegistryHead` | the on-chain program, its run invariants and byte size, the client's addresses, and the head selection |
| `MultiDevice`, `MultiDevicePublish`, `MultiDeviceStorage` | devices, store and chain together: publish, refresh, restore, load; publications that arrive and reach every device; the same with a key-value store on each device |
| `PointerStore`, `Session`, `Retry`, `Encodings`, `SignatureCodec` | the migrating pointer store, the session state machine, backoff, and signature decoding |

How things are represented:

- AEAD, SHA-256, HMAC, signatures and program addresses are datatype constructors; opening
  a ciphertext compares key, nonce and AAD. Equal hashes therefore mean equal inputs.
- JSON is an ordered tree. Stringifying keeps the order of members (integrity hash, manifest
  wrap AAD); canonicalizing sorts them (manifest AAD, file AADs, signed messages).
- Clock values, uuids, salts, nonces, the CID answered by the store, and whether an awaited
  operation throws are inputs of each step. The store is content-addressed: a CID that is
  already there never comes back for other bytes, and it answers trimmed, non-blank CIDs.
- Every transition function is total. A step the program could not take leaves the state
  unchanged, so "every run" means every finite sequence of actions.

Where code and expectation differ, the model follows the code:

- `encryptFile` accepts an empty `fileId`, `decryptFile` refuses it (`FileEnvelope.RoundTrip`).
- Deleting the metadata under `aad` is harmless, and so is deleting the top-level copy, but
  keeping only the alias `aad.filename` of the name is not: the header falls back to it, the
  payload AAD does not (`FileEnvelope.DeletedCopies`).
- The KEK of a file comes from the signature of an unlock message, which holds a nonce and dates:
  in the documented flow no later unlock opens an earlier file, only a signature of the same
  message does (`FileEnvelope.UnlockOpensFile`).
- An entry that was absorbed by an older one of the same file and date leaves its id free: a
  later draft with that id is added (`Manifest.SameIdCanBeAdded`).
- `loadManifestOrInit` called directly initialises outside the mutex. There is a run in which
  an append started after such a load reports success and is lost
  (`ProtocolInit.RaceLosesEntry`); entries are lost exactly if an append has committed before
  the load's upload is answered, and over whole runs nothing is ever lost precisely if that
  never happens (`ProtocolLoss.NothingLostExactly`). The fold of whole manifests
  holds whenever such uploads are answered undisturbed, which callers ensure by
  starting an initialising load only when no call of the wallet is unfinished and no append
  of the wallet before it is done (`ProtocolInit.CarefulRunsAreDisciplined`).
- `removeManifestCid` does not last when a non-blank legacy value is left behind
  (`PointerStore.RemoveThenGet`, `PointerStore.RemovalCanBeUndone`).
- The migrating read can give another wallet a pointer when a wallet name contains a colon,
  which the code accepts (`PointerStore.ReadCanAddPointer`, `PointerStore.ReadChangesExactly`).
- A wallet name with a blank inside passes the service's own checks, and every call for it then
  fails at the pointer store (`ProtocolSafety.BlankNamesOnlyFail`).
- After an upload of wallet `w`, the key-value store answers its CID also for a wallet named
  `cluster:w` (`ProtocolStorage.ColonBreaksTheJoin`); the run results hold for colon-free names.
- The client derives an address from spellings the program refuses at initialisation, such
  as one with capitals; later appends through such a spelling succeed
  (`RegistryRuns.PublishSucceedsExactly`).
- `withRetry` with negative `retries` calls nothing and throws `null` (`Retry.WithRetry`).

## Model

| member | source | states |
|---|---|---|
| ProtocolResults.Linearizable | packages/manifest/src/service.ts:594-741 | With one pointer per wallet, which the key-value store provides for colon-free names (ProtocolStorage.RunJoined): in every run without restores, with any interleaving of awaits and any failures, in which direct initialisations are answered undisturbed, the manifest behind each pointer is the fold of the successful calls of that wallet in call order |
| ProtocolStorage.RunJoined | packages/manifest/src/service.ts:358-390 | For colon-free wallet names and cluster, the protocol on the migrating key-value store and the protocol with one pointer per wallet go through the same calls, on the same store, under the same conditions on callers, and agree on every pointer at every time |
| ProtocolStorage.StoredPointersLinearizable | packages/manifest/src/service.ts:594-741 | For colon-free names, the manifest behind what getManifestCid answers from the key-value store is the fold of the calls of that wallet in call order |
| ProtocolStorage.StoredPointersLoad | packages/manifest/src/service.ts:412-741 | For colon-free names, in every honest run what getManifestCid answers for a wallet names a stored manifest that loads for that wallet, and every report is true |
| ProtocolStorage.StoredEntriesStay | packages/manifest/src/service.ts:682-741 | For colon-free names, the entry of every reported append is behind what getManifestCid answers at the end of every run |
| ProtocolStorage.ColonBreaksTheJoin | packages/manifest/src/storage.ts:57-95 | Where a colon breaks this: after an upload of wallet w is answered, the key-value store answers its CID also for the wallet cluster:w if that has no scoped value, and that wallet cannot load it |
| ProtocolResults.StepLinear | packages/manifest/src/service.ts:594-741 | One action keeps the linearization invariant and only lengthens every wallet's entry list |
| ProtocolResults.RunPrefix | packages/manifest/src/service.ts:682-687 | At any two times of a run the earlier entry list is a prefix of the later one |
| ProtocolLinear.PutReplay | packages/manifest/src/service.ts:733-738 | The step of one call changes its wallet's manifest as the fold says and leaves every other wallet's manifest alone |
| ProtocolLinear.WriteMoves | packages/manifest/src/service.ts:689-740 | Writing leaves the pointer alone until the upload answers; it then refers to the manifest that was read, with the entry of this call merged, and that is what the call reports |
| ProtocolLinear.LaterCallsIdle | packages/manifest/src/internal/mutex.ts:25-44 | While an append holds the mutex, and while its wallet has no pointer, no later call of the wallet has contributed anything |
| ProtocolInit.InitialisationLosesExactly | packages/manifest/src/service.ts:509-521 | When the upload of a direct initialisation is answered, its wallet is left with an empty manifest, and entries are lost exactly if an append of the wallet has committed before |
| ProtocolInit.RaceLosesEntry | packages/manifest/src/service.ts:469-521 | From every quiet state without a pointer for a wallet with a blank-free name there is a run of one load and one append in which the append reports success and its entry is gone |
| ProtocolInit.CarefulRunsAreDisciplined | packages/manifest/src/service.ts:441-469 | A rule for callers (start an initialising load only when no call of the wallet is unfinished, and no append before it is done) makes every run one to which the concurrency results apply |
| ProtocolInit.DisciplinedUntilFirst | packages/manifest/src/service.ts:469-521 | Without restores every run is such a run until a direct initialisation has been answered |
| ProtocolInit.EntriesExactlyIfCommitted | packages/manifest/src/service.ts:594-741 | For a wallet that started without a pointer there are entries exactly if an append has committed |
| ProtocolLoss.NothingLostExactly | packages/manifest/src/service.ts:469-741 | In a run of honest callers without restores no step ever loses an entry of any wallet, precisely if no direct initialisation is answered after an append of its wallet has committed |
| ProtocolLoss.EntriesAreGathered | packages/manifest/src/service.ts:682-741 | In those runs the entries of every wallet are what its committed appends merged, in call order |
| ProtocolLoss.CommittedEntriesStay | packages/manifest/src/service.ts:682-741 | In those runs the entry of every committed append is there at the end |
| ProtocolLoss.StepKeepsExactly | packages/manifest/src/service.ts:469-741 | After such a run the next step keeps all entries exactly if it does not answer a direct initialisation after a commit of its wallet |
| ProtocolOutcomes.NoEntryLost | packages/manifest/src/service.ts:682-741 | The manifest an append reports is the fold of the calls up to it, contains its entry (which is its draft: ProtocolDrafts.ReportedDraft), and is a prefix of the wallet's entries at the end of every run |
| ProtocolDrafts.EntriesComeFromDrafts | packages/manifest/src/service.ts:653-677 | Over every run: the entry of an append has the file CID, envelope and optional fields of its draft, the draft's date or else the clock, the draft's id or else the fresh uuid, both of one step of that call; the new date and the date of a created manifest are clock values of such steps |
| ProtocolDrafts.ReportedDraft | packages/manifest/src/service.ts:653-741 | A reported append returns the manifest before it with the draft as its last entry and a new date, unless an entry with that id, or that file and date, was there; then with the same entries; such an entry is still there at the end of the run |
| ProtocolDrafts.CommittedDraftsStay | packages/manifest/src/service.ts:653-741 | With direct initialisations answered only before any commit, every committed append's draft is there at the end, or an entry with its id, or its file and date |
| ProtocolDrafts.RedraftChangesNothing | packages/manifest/src/service.ts:682-687 | Appending a draft with the explicit id, or with the file and explicit date, of an earlier draft whose entry the manifest holds leaves all entries as they were |
| ProtocolDrafts.CreatedIsEmpty | packages/manifest/src/service.ts:470-521 | Over every run, a manifest reported as created is the calling wallet's, has no entries, and was created and updated at the clock of the step that began it |
| ProtocolDrafts.CallsBegin | packages/manifest/src/service.ts:412-594 | Without a name or an unlocked vault nothing happens; otherwise exactly one call begins under the trimmed name, an append behind the latest append of its wallet |
| ProtocolDrafts.RestoreIsDemanded | packages/manifest/src/service.ts:460-468 | With an on-chain head and no pointer an append fails with RestoreRequired and a load reports that a restore is needed, and nothing changes |
| ProtocolDrafts.UnusableDraftFails | packages/manifest/src/service.ts:674-680 | A draft with a blank file CID or no envelope is refused after the read and nothing is written; any other goes on to be written |
| ProtocolOutcomes.FailureAtomic | packages/manifest/src/service.ts:594-740 | A failed append contributes nothing to the fold, unless there was neither manifest nor on-chain head, when it may contribute a fresh empty manifest |
| ProtocolOutcomes.FailedCallAndPointer | packages/manifest/src/service.ts:594-740 | A call that ends in failure moved a pointer in no step but possibly one: it found none, had no on-chain head, and left it at its own fresh empty manifest |
| ProtocolOutcomes.RunSettled | packages/manifest/src/service.ts:594-741 | What every call did stays explained by the calls before it: it initialised only where there was nothing, and its reported manifest is the fold up to it |
| ProtocolOutcomes.PointerFollowsUpload | packages/manifest/src/service.ts:733-738 | A pointer moves only in the step that receives the CID of an upload, and then names the uploaded bytes |
| ProtocolOutcomes.ReadNeverFails | packages/manifest/src/service.ts:524-552 | Fetching, parsing, unwrapping and decrypting what a pointer named never fails by itself; a read fails only by a throwing await or an unusable draft |
| ProtocolEntries.EntriesStayDistinct | packages/manifest/src/service.ts:682-687 | Over every run of honest callers, restores and direct initialisations included, entries stay pairwise distinct in entryId and in (fileCid, addedAt) in every stored manifest and behind every pointer |
| ProtocolEntries.ReappendChangesNothing | packages/manifest/src/service.ts:682-687 | A committed append whose entry clashes with one the manifest held at any earlier time leaves the entries exactly as they were |
| ProtocolOutcomes.SnapshotLoad | packages/manifest/src/service.ts:441-552 | A load that succeeds returns the manifest its pointer named when it read it, whatever commits meanwhile |
| ProtocolOutcomes.LoadsGrow | packages/manifest/src/service.ts:441-552 | Of two loads with ordered pointer reads the first returns a prefix of the second's entries, in whichever order they finish |
| ProtocolSuccess.AnsweredAppendSucceeds | packages/manifest/src/service.ts:594-741 | In every run, an append with a usable draft, a blank-free wallet name and no restore due, whose turn has come and whose awaits are answered 18 times, has reported success, whatever all other calls do |
| ProtocolSuccess.AnsweredLoadSucceeds | packages/manifest/src/service.ts:524-552 | In every run of honest callers, a load that found a pointer and whose awaits do not throw returns a manifest once it has been answered often enough |
| ProtocolSuccess.LoadBegins | packages/manifest/src/service.ts:441-525 | A load of a blank-free name that finds a pointer is ten answers from its end |
| ProtocolSuccess.StepPromising | packages/manifest/src/service.ts:177-238 | No single step of such an append fails by itself, wrapping and encrypting included, given a blank-free wallet name at its first |
| ProtocolSafety.RunSafe | packages/manifest/src/service.ts:412-741 | With one pointer per wallet, which the key-value store provides for colon-free names (ProtocolStorage.RunJoined): in every run of honest callers every pointer names a stored manifest that loads under its wallet's vault-root key, every reported manifest is stored under the reported CID, and the store only grows |
| ProtocolSafety.BlankNamesOnlyFail | packages/manifest/src/storage.ts:46-55 | A call for a wallet name with a blank in it can only fail, and moves no pointer |
| ProtocolSafety.HeadForbidsCreation | packages/manifest/src/service.ts:441-468 | A call that was given an on-chain head never creates a manifest |
| ProtocolMutex.MutualExclusionFifo | packages/manifest/src/internal/mutex.ts:20-44 | Two appends of one wallet never run together, and a later caller starts only after the earlier one has finished |
| ProtocolMutex.WaitsForEarlierOnly | packages/manifest/src/service.ts:592-608 | An append waits for the append of its wallet made just before it, so never for itself |
| ProtocolMutex.SomeCallCanMove | packages/manifest/src/internal/mutex.ts:33-42 | No deadlock: the earliest unfinished call is enabled and its next answered step decreases the measure |
| ProtocolMutex.ThrowReleases | packages/manifest/src/internal/mutex.ts:36-41 | After a throw the pointer is unchanged, the store has gained at most the bytes being uploaded, and the next step of the call frees the mutex |
| ProtocolMutex.RunsTerminate | packages/manifest/src/internal/mutex.ts:20-44 | Without new calls at most as many effective steps are left as the measure says |
| ManifestService.Service.Advance | packages/manifest/src/service.ts:412-741 | One step of the service object on its mutable fields is the corresponding step of the transition system, and is recorded in its history |
| ManifestService.Service.Initialise | packages/manifest/src/service.ts:469-521 | The initialisation statements between two awaits equal the initialisation phase |
| ManifestService.Service.Read | packages/manifest/src/service.ts:524-552 | Fetching, parsing, unwrapping and decrypting, statement by statement, equal the read phase |
| ManifestService.Service.Write | packages/manifest/src/service.ts:699-738 | Wrapping, encrypting, uploading and then moving the pointer equal the write phase |
| ManifestService.HasEntry | packages/manifest/src/service.ts:682-684 | The scan finds an entry exactly if one clashes in id or in file and date |
| ManifestService.MergeEntry | packages/manifest/src/service.ts:653-689 | The assignments to entries and updatedAt equal the merge of the draft (Manifest.MergeMeaning, ProtocolDrafts.EntriesComeFromDrafts), or the refusal of an unusable draft |
| ManifestService.Service.InvokeAppend | packages/manifest/src/service.ts:570-594 | Starting an append changes the object as the transition system says: trim, checks, a place in the wallet's queue |
| ManifestService.Service.InvokeLoad | packages/manifest/src/service.ts:412-470 | Starting a load reads the pointer and branches to refusal of a name with blanks, fetch, restore-required or initialisation |
| ManifestService.Service.Reject | packages/manifest/src/internal/mutex.ts:36-41 | A throwing await leaves pointers alone, may leave the bytes being uploaded in the store, and ends or releases the call |
| ManifestService.Service.GetMutex | packages/manifest/src/service.ts:347-356 | One mutex object per wallet, made on first use, without changing the observable state |
| ManifestService.Service.Enqueue | packages/manifest/src/internal/mutex.ts:25-34 | The caller learns the previous tail of its wallet's mutex and becomes the tail; no other wallet's tail changes |
| ManifestService.Service.ReachableIsLinear | packages/manifest/src/service.ts:594-741 | With one pointer per wallet, which the key-value store provides for colon-free names (ProtocolStorage.RunJoined): the run results hold of every reachable state of the service object |
| ManifestCrypto.PersistThenLoad | packages/manifest/src/crypto.ts:207-387 | For every manifest, salt and nonces, loading with the same vault-root signature returns exactly the key and the manifest that were sealed |
| ManifestCrypto.OnlyTheOwnerLoads | packages/manifest/src/service.ts:243-317 | Any other wallet is refused at the envelope, any other signature at the unwrap, and nothing else is refused |
| ManifestCrypto.LoadedIsAuthentic | packages/manifest/src/crypto.ts:301-387 | Whatever bytes load: a version 1 manifest object for this wallet with a matching digest, whose key was wrapped under the root KEK of this signature and whose manifest was sealed under that key with an AAD naming this wallet |
| ManifestCrypto.SealedFormat | packages/manifest/src/crypto.ts:207-287 | The stored object member by member, with every constant, both AADs and the digest written out |
| ManifestCrypto.TamperingIsRejected | packages/manifest/src/crypto.ts:334-346 | Changing any member of the hash basis while keeping the digest is rejected, whatever key and wallet are tried |
| ManifestCrypto.BasisRebuilt | packages/manifest/src/crypto.ts:334-342 | The hash basis rebuilt at load is the one hashed at save, member order included |
| ManifestCrypto.SealSteps | packages/manifest/src/service.ts:703-734 | Wrapping and encrypting one after the other gives bytes that load back |
| Manifest.ManifestJsonRoundTrip | packages/manifest/src/crypto.ts:372-387 | Reading the JSON of a manifest gives back the manifest, entries and optional fields included |
| Manifest.MergeKeepsDistinct | packages/manifest/src/service.ts:682-687 | Merging keeps entries distinct, keeps the old list as a prefix and represents the new entry |
| Manifest.MergeAgain | packages/manifest/src/service.ts:682-687 | Appending again, at any later time, with the id, or the file and date, of an added entry changes nothing |
| Manifest.MergeMeaning | packages/manifest/src/service.ts:682-689 | A merge keeps owner and creation date, sets the new date, and appends the entry unless one has its id, or its file and date |
| Manifest.SameIdCanBeAdded | packages/manifest/src/service.ts:682-687 | An id that was only ever absorbed by an older entry of the same file and date does not stop a later entry with that id |
| Manifest.EntryFields | packages/manifest/src/service.ts:653-672 | The JSON of an entry holds each field under its own name and omits absent optional ones |
| Terms.CanonicalIgnoresOrder | packages/manifest/src/crypto.ts:107-113 | The canonical text of a tree does not depend on the order of members in any object at any depth |
| Terms.CanonicalBinds | packages/manifest/src/crypto.ts:107-113 | Equal canonical texts agree on every member |
| Terms.CanonicalAscends | packages/manifest/src/crypto.ts:107-113 | Canonical objects list their members in ascending order of the code units of their names |
| KeyDerivation.ManifestKeyBinding | packages/crypto/src/index.ts:104-125 | Two sessions derive the same manifest key exactly when wallet and vault agree |
| KeyDerivation.UnlockKekIsNeverRootKek | packages/crypto/src/index.ts:162-201 | A KEK from an unlock signature is never a vault-root KEK |
| KeyDerivation.UnlockMessageBinding | packages/crypto/src/v0_local_encryption/localEncryption.ts:111-147 | Two unlock messages are equal exactly when all their fields are |
| KeyDerivation.MessagesSpelledOut | packages/crypto/src/index.ts:104-125 | The vault-root and the unlock message, member by member; the root signature is the wallet's on the vault local-default |
| KeyDerivation.KeysSpelledOut | packages/crypto/src/v0_local_encryption/localEncryption.ts:186-194 | The file KEK, the root KEK and the manifest key as HMAC terms with their salts and info texts |
| KeyDerivation.KekBinding | packages/crypto/src/v0_local_encryption/localEncryption.ts:186-194 | For salts of one length, file KEKs are equal exactly when signature and salt are; no salt and an empty one give the root KEK |
| KeyDerivation.UnlockWindow | packages/crypto/src/index.ts:147-181 | An unlock yields the KEK of its signature and salt exactly until it expires, ten minutes after its issue for one that was built |
| Hkdf.HkdfExpand | packages/crypto/src/index.ts:341-372 | The block loop returns RFC 5869 section 2.3 for every length 1 to 8160 and refuses all others |
| Hkdf.DeriveKeyHkdf | packages/crypto/src/crypto-utils.ts:129-189 | Extract-then-expand equals sections 2.2 and 2.3 of RFC 5869 |
| Hkdf.CounterFitsAnOctet | packages/crypto/src/index.ts:346-356 | The block counter never overflows its byte |
| Hkdf.ShorterIsPrefix | packages/crypto/src/index.ts:363-371 | Shorter outputs are prefixes of longer ones |
| Hkdf.AbsentSaltIsZeroSalt | packages/crypto/src/index.ts:317-333 | Null, empty and 32 zero bytes extract the same key |
| HkdfTerms.KeyTermIsHkdf | packages/crypto/src/v0_local_encryption/localEncryption.ts:186-194 | A symbolic derived key stands for HKDF extract and expand on the bytes of its parts |
| FileEnvelope.RoundTrip | packages/crypto/src/v0_local_encryption/localEncryption.ts:266-413 | Encryption accepts exactly 32-byte keys and KEKs, 16- or 32-byte salts and non-blank wallets, and decryption then inverts it for every plaintext, name and type, exactly unless the file id is empty; what the file carries is FileEnvelope.EncryptedMetadata |
| FileEnvelope.EncryptedMetadata | packages/crypto/src/v0_local_encryption/localEncryption.ts:293-413 | An encrypted file carries the name, type, length and file id of the options and the plaintext in both copies and under both aliases, and its envelope the salt and the wallet |
| FileEnvelope.SealedUnder | packages/crypto/src/v0_local_encryption/localEncryption.ts:300-381 | The plaintext is sealed under the file key and the file key under the KEK, with both AADs written out |
| FileEnvelope.UnlockOpensFile | packages/crypto/src/v0_local_encryption/localEncryption.ts:154-160 | A file encrypted under the KEK of a signed unlock opens, with the salt of its envelope, exactly for a signature of the same unlock, field by field, and fails at the unwrap otherwise |
| FileEnvelope.DecryptsExactlyWhen | packages/crypto/src/v0_local_encryption/localEncryption.ts:423-523 | With ciphertexts untouched, the plaintext comes back exactly when KEK, salt and wallet are the caller's and the first copy found of every header and payload value is that of the options and the plaintext |
| FileEnvelope.WrapBinding | packages/crypto/src/v0_local_encryption/localEncryption.ts:449-478 | Getting past the unwrap implies the caller's salt, wallet and KEK, and that the first copies found of name, type, length and file id are those of the options and the plaintext |
| FileEnvelope.DeletedCopies | packages/crypto/src/v0_local_encryption/localEncryption.ts:449-510 | For every subset of deleted metadata copies, decryption works exactly when each payload value kept a copy |
| FileEnvelope.EitherCopySuffices | packages/crypto/src/v0_local_encryption/localEncryption.ts:449-510 | Deleting the whole top-level copy or the whole aad is harmless |
| Registry.ValidateAndCanonicalizeVaultId | programs/sj_registry_program/src/lib.rs:77-94 | Accepts exactly the spellings that trim to 1 to 32 characters, each one of the 38 listed, and hold no space and no capital anywhere, and returns the trimmed id |
| Registry.VaultIdRule | programs/sj_registry_program/src/lib.rs:77-94 | The accepted vault ids, every character listed |
| Registry.ValidateCidStrict | programs/sj_registry_program/src/lib.rs:96-118 | The scanning loops accept exactly base32 CIDs starting with b and base58 CIDs starting with Qm of at most 64 characters, with the right error otherwise |
| Registry.CidRule | programs/sj_registry_program/src/lib.rs:96-118 | The accepted CIDs, every character of both alphabets listed |
| Registry.RegistryProgram.InitRegistry | programs/sj_registry_program/src/lib.rs:14-37 | First broken rule decides the error and nothing changes; otherwise exactly a new empty account |
| Registry.RegistryProgram.AppendManifest | programs/sj_registry_program/src/lib.rs:39-74 | First broken rule decides the error and nothing changes; otherwise exactly one entry is added |
| Registry.InitRule | programs/sj_registry_program/src/lib.rs:14-37 | Exactly when an init succeeds, and the whole account it makes |
| Registry.AppendRule | programs/sj_registry_program/src/lib.rs:39-74 | Exactly when an append succeeds, and the whole entry it adds |
| Registry.RegistryProgram.Submit | apps/web/src/lib/solana/RegistryService.ts:129-167 | A transaction applies all its instructions or none |
| RegistryRuns.RegistryInvariant | programs/sj_registry_program/src/lib.rs:14-74 | Over every sequence of transactions, failed ones included: append-only, at most 32 entries, distinct valid CIDs, right hash, publisher and version, canonical vault id |
| RegistryRuns.OnlyTheOwnerPublishes | programs/sj_registry_program/src/lib.rs:120-155 | A transaction that a wallet did not sign creates, changes and removes none of its registries |
| RegistryRuns.ClientFindsAccount | packages/solana-registry/src/index.ts:28-46 | The client's address of a spelling is an account's address exactly when wallet and canonical id match; all accepted spellings match |
| RegistryRuns.CanonicalSpelling | packages/solana-registry/src/index.ts:84-100 | Program and client canonicalize every accepted spelling alike, and stored ids are exactly the fixed points |
| RegistryRuns.PublishSucceedsExactly | apps/web/src/lib/solana/RegistryService.ts:129-167 | Publishing succeeds exactly with a true picture of the chain, a valid unpublished CID and room (or an acceptable id), and then adds exactly that entry |
| RegistryRuns.PublishManifest | apps/web/src/lib/solana/RegistryService.ts:129-167 | Building and sending the transaction succeeds exactly under the condition above and adds exactly that entry; otherwise nothing changes |
| RegistryRuns.EntriesInTimeOrder | programs/sj_registry_program/src/lib.rs:57-71 | Under a clock that does not go back, entries are in time order and updated_at is the last of them |
| RegistryRuns.AccountFits | programs/sj_registry_program/src/lib.rs:157-170 | Every reachable account fits in SPACE, with equality exactly at 32 entries of 64-byte CIDs and a 32-byte vault id |
| RegistryRuns.SpaceIsReached | programs/sj_registry_program/src/lib.rs:168-170 | A sequence of publications that fills an account to the last byte |
| RegistryHead.HeadIsUnique | apps/web/src/lib/solana/RegistryService.ts:83-96 | The selected head is later than every other entry, or of the same second with a greater CID, and the same for every permutation |
| RegistryHead.HeadOfReachable | apps/web/src/lib/solana/RegistryService.ts:83-96 | In every reachable registry the head depends only on the set of entries |
| RegistryHead.HeadIsLatest | apps/web/src/lib/solana/RegistryService.ts:83-96 | Under a clock that does not go back, the head has the time of the last append, and is the last append exactly when no entry of that second has a greater CID |
| RegistryHead.LaterPublicationIsHead | apps/web/src/lib/solana/RegistryService.ts:83-96 | A strictly later publication becomes the head |
| MultiDevice.EveryCidLoads | apps/web/src/components/registry/RegistryPublishWidget.tsx:149-189 | With one pointer per wallet, which the key-value store provides for colon-free names (ProtocolStorage.RunJoined): in every run of append, load, publish, refresh and restore steps by any devices, among strangers' transactions, every pointer, cached, pending and on-chain CID of the owners names a stored manifest that loads |
| MultiDeviceStorage.EveryStoredCidLoads | apps/web/src/components/registry/RegistryPublishWidget.tsx:149-189 | For colon-free names, with a key-value store on every device: what getManifestCid answers on any device for any wallet, and every published or pending CID of the owners, names a stored manifest that loads |
| MultiDevice.HeadMeansNoCreation | packages/manifest/src/service.ts:460-468 | On every device, a call given a non-null head never creates a manifest |
| MultiDevice.CidsWerePointers | apps/web/src/components/registry/RegistryPublishWidget.tsx:149-166 | Every CID on an owner's registry, in a cache or in flight was a device's pointer of that wallet at an earlier time; that publications do arrive there is MultiDevicePublish.PublicationArrives |
| MultiDevice.DeviceLoad | packages/manifest/src/service.ts:441-552 | A load on one device is a snapshot whatever all devices do meanwhile |
| MultiDevice.RestoreSetsPointer | apps/web/src/components/registry/RegistryPublishWidget.tsx:168-180 | A restore of a blank-free wallet name sets the pointer to the head of the cached registry |
| MultiDevice.RestoreThenLoad | apps/web/src/components/registry/RegistryPublishWidget.tsx:168-189 | Restoring a head that was some device's pointer, and loading at any time while that pointer stands, returns exactly the manifest that device had |
| MultiDevice.AnsweredRestoreLoads | apps/web/src/components/registry/RegistryPublishWidget.tsx:168-189 | For a blank-free wallet name, such a load whose awaits do not throw and are answered ten times is done, with exactly that manifest |
| MultiDevice.DeviceLoadFinishes | packages/manifest/src/service.ts:524-552 | A load on a device that has a pointer, answered ten times, returns a manifest, whatever all devices do meanwhile |
| MultiDevice.RestoredIsPublished | apps/web/src/components/registry/RegistryPublishWidget.tsx:168-189 | From an empty chain, every restored head was the pointer of some device at some time, and a load while it stands returns exactly the manifest it had then; that there is a head to restore is MultiDevicePublish.PublishedReachesEveryDevice |
| MultiDevicePublish.PublicationArrives | apps/web/src/components/registry/RegistryPublishWidget.tsx:149-166 | In every run: if a device begins to publish an owned wallet's pointer, fetches the registry, and submits with no other submission for the wallet between fetch and submit, the chain has exactly one more entry with that CID and time (in a new account if there was none), precisely if the CID is valid and new there and there is room; otherwise it is unchanged |
| MultiDevicePublish.PublishedReachesEveryDevice | apps/web/src/components/registry/RegistryPublishWidget.tsx:149-189 | After such a publication under a later clock, any device that refreshes and restores points to the published CID, and behind it is exactly the manifest the publisher had |
| MultiDevicePublish.PublishedBecomesHead | apps/web/src/lib/solana/RegistryService.ts:83-96 | Under a later clock, any device that refreshes takes the published CID for the head |
| MultiDevicePublish.NothingPublishedNoHead | apps/web/src/components/registry/RegistryPublishWidget.tsx:99-147 | A device that refreshes while there is no registry knows no head |
| MultiDevicePublish.FirstPublication | apps/web/src/lib/solana/RegistryService.ts:129-167 | On an empty chain a publication under local-default succeeds exactly for a valid CID |
| MultiDevicePublish.RegistryAddress | packages/solana-registry/src/index.ts:28-46 | The application's vault id local-default is accepted by the program, and a wallet's registry is at the address of its hash |
| MultiDevice.NewWorldIsGood | apps/web/src/components/registry/RegistryPublishWidget.tsx:99-147 | Devices without pointers or caches, on an empty store and chain, are a start to which all run results apply |
| PointerStore.ManifestStorage.GetManifestCid | packages/manifest/src/storage.ts:78-104 | Returns the abstract pointer and leaves the store migrated, or the error of an unusable wallet |
| PointerStore.ManifestStorage.SetManifestCid | packages/manifest/src/storage.ts:106-131 | Writes the trimmed CID under the scoped key, or refuses a blank CID or unusable wallet and changes nothing |
| PointerStore.ManifestStorage.RemoveManifestCid | packages/manifest/src/storage.ts:133-149 | Removes the scoped key, or overwrites it with the empty text where removal is missing |
| PointerStore.ReadKeepsOwnPointer | packages/manifest/src/storage.ts:78-104 | For every wallet name, the migrating read keeps its own pointer and is idempotent |
| PointerStore.ReadChangesExactly | packages/manifest/src/storage.ts:78-104 | For all names, exactly which other pointers a read changes: those that share the scoped key written, or use it as their legacy key |
| PointerStore.ReadCanAddPointer | packages/manifest/src/storage.ts:78-104 | A concrete store where reading one wallet gives a wallet with a colon in its name a pointer |
| PointerStore.ReadChangesNoPointer | packages/manifest/src/storage.ts:78-104 | For colon-free names the migrating read changes no pointer on any cluster |
| PointerStore.SetThenGet | packages/manifest/src/storage.ts:106-114 | For all names, set then get returns the trimmed CID, and exactly which other pointers the write changes |
| PointerStore.SetChangesNoOther | packages/manifest/src/storage.ts:106-114 | For colon-free names a write changes no other pointer |
| PointerStore.RemoveThenGet | packages/manifest/src/storage.ts:133-149 | For all names, remove then get finds nothing exactly when the store overwrites or no non-blank legacy value is left |
| PointerStore.RemoveChangesNoOther | packages/manifest/src/storage.ts:133-149 | For colon-free names a removal changes no other pointer |
| PointerStore.RemovalCanBeUndone | packages/manifest/src/storage.ts:85-95 | A concrete store where a removed pointer comes back |
| PointerStore.KeysDiffer | packages/manifest/src/storage.ts:57-61 | For colon-free parts, keys coincide exactly for the same cluster and wallet, and never with a legacy key |
| PointerStore.PointerSpelledOut | packages/manifest/src/storage.ts:57-104 | With the keys written out: when a wallet has which pointer, and what a read migrates |
| AsciiText.TrimTakesBlanks | packages/manifest/src/storage.ts:46-55 | Trimming takes blanks off both ends, all of them, and nothing else |
| PointerStore.ColonsCollide | packages/manifest/src/storage.ts:57-61 | With a colon in a wallet, a scoped key is another wallet's legacy key |
| Session.SessionInvariant | apps/web/src/lib/session/SessionManager.ts:246-849 | Over every sequence of events from a fresh tab: unlocked implies a connected wallet with all four materials built for it, and getVerified answers nothing or an unexpired record of that wallet |
| Session.SessionStepKeeps | apps/web/src/lib/session/SessionManager.ts:417-513 | Every event keeps the session invariant |
| Session.StartsLocked | apps/web/src/lib/session/SessionManager.ts:322-326 | Connect, lock, disconnect and a new instance lock the vault; all but a reconnect of the same wallet leave no materials |
| Session.UnlockSucceedsExactly | apps/web/src/lib/session/SessionManager.ts:520-711 | Unlocking succeeds exactly when a wallet is connected and both messages were built and signed; a failure keeps record and storage |
| Session.UnlockedRootSignature | apps/web/src/lib/session/SessionManager.ts:672-694 | An unlocked session holds exactly the vault-root signature of the connected wallet, the one the manifest service needs |
| Session.RecordSurvives | apps/web/src/lib/session/SessionManager.ts:195-216 | After a reload over an unexpired stored record and any further reloads, reads, locks, failed unlocks and connections of its own wallet, asking before expiry answers exactly that record, and asking later answers nothing and removes it |
| Session.Connecting | apps/web/src/lib/session/SessionManager.ts:452-503 | Connecting locks and takes the given non-blank wallet and provider, keeps a record of that wallet in memory and storage, drops one of another wallet from both, adopts an unexpired stored one, and drops materials exactly on a switch |
| Session.Locking | apps/web/src/lib/session/SessionManager.ts:716-733 | Locking keeps wallet, provider and record in memory and storage, and clears the four materials |
| Session.Disconnecting | apps/web/src/lib/session/SessionManager.ts:808-849 | Disconnecting forgets wallet, provider, record, materials and the stored record |
| Session.Unlocking | apps/web/src/lib/session/SessionManager.ts:520-711 | A successful unlock leaves exactly the ten-minute unlock, the vault root, both signatures and a 24-hour record that keeps the earlier nonce and issue date |
| Session.FailedUnlock | apps/web/src/lib/session/SessionManager.ts:520-711 | A failed unlock keeps wallet, provider, record, storage, vault root and the unlocked flag |
| Session.SessionManager.constructor | apps/web/src/lib/session/SessionManager.ts:322-337 | A new instance starts locked with the unexpired record, if any |
| Session.SessionManager.ConnectWallet | apps/web/src/lib/session/SessionManager.ts:417-513 | The object changes as the session machine says (Session.Connecting) and keeps its invariant |
| Session.SessionManager.Unlock | apps/web/src/lib/session/SessionManager.ts:520-711 | As above, and reports success exactly when wallet, builders and signatures are there |
| Session.SessionManager.LockVault | apps/web/src/lib/session/SessionManager.ts:716-733 | Locks and clears all materials |
| Session.SessionManager.DisconnectWallet | apps/web/src/lib/session/SessionManager.ts:808-849 | Clears everything, the stored record included |
| Session.SessionManager.ReadVerified | apps/web/src/lib/session/SessionManager.ts:800-803 | Returns nothing or an unexpired record of the connected wallet |
| Session.LocalStorage.Load | apps/web/src/lib/session/SessionManager.ts:195-216 | Returns an unexpired record and removes an expired or misshapen one |
| Retry.WithRetry | apps/web/src/lib/utils/RetryUtils.ts:4-28 | First success or last error, the number of calls, the pauses and what onRetry was told |
| Retry.CallsDetermined | apps/web/src/lib/utils/RetryUtils.ts:15-27 | The number of calls is the index of the first success plus one, or retries + 1 |
| Retry.WaitedBeforeCall | apps/web/src/lib/utils/RetryUtils.ts:20-24 | After n failures the pauses add up to backoffMs (3^n - 1) / 2 |
| SignatureCodec.DecodeSignature | apps/web/src/components/wallet/utils.ts:60-98 | The fall-through over three formats computes the decoding function |
| SignatureCodec.DecodeInverts | apps/web/src/components/wallet/utils.ts:60-98 | Decoding inverts base58, padded base64 and hexadecimal of every 64-byte signature |
| SignatureCodec.HexIsNot64Bytes | apps/web/src/components/wallet/utils.ts:74-95 | 128 hexadecimal digits never decode to 64 bytes as base58 or base64 |
| SignatureCodec.PaddedIsNotBase58 | apps/web/src/components/wallet/utils.ts:74-89 | Padded base64 is never base58 |
| SignatureCodec.SignatureToBase58 | apps/web/src/components/wallet/utils.ts:106-110 | One text for every accepted spelling, decoding to the same signature |
| Encodings.LongTextsAreNot64 | apps/web/src/components/wallet/utils.ts:74-81 | A base58 text of 128 characters stands for more than 64 bytes |
| Encodings.Base58RoundTrip | apps/web/src/components/wallet/utils.ts:106-110 | Base58 decoding inverts encoding, leading zeros included |
| Encodings.Base64RoundTrip | apps/web/src/components/wallet/utils.ts:25-36 | atob inverts padded base64 for every byte string |
| Encodings.Alphabet58 | apps/web/src/components/wallet/utils.ts:74-81 | A character is the base58 digit k exactly if it is character k of the alphabet |
| Encodings.Alphabet64 | apps/web/src/components/wallet/utils.ts:25-36 | A character is the base64 digit k exactly if it is character k of the alphabet |
| Encodings.SameBits | apps/web/src/components/wallet/utils.ts:25-36 | Three bytes and their four base64 digits are the same 24 bits, most significant first |
| Encodings.HexWritesExactly | apps/web/src/components/wallet/utils.ts:38-44 | A text writes bytes in hexadecimal exactly if each is the digit of its high half and then that of its low half, in either case |
| Encodings.HexToBytes | apps/web/src/components/wallet/utils.ts:38-44 | The loop writes the bytes that the digits stand for |

## Left out

- Runs after a direct initialisation has been answered over a committed append: what was lost is stated, what later calls then build on is not.
- Wallet names and clusters with a colon on the key-value store, beyond the lemmas that show where keys run into each other.
- Several tabs of one browser on one local storage; the code declares them out of scope.
- An `unlockVault` interleaved with wallet events, injected builders, and an unavailable local storage; a write to it may fail, a removal does not.
- Cipher, hash, HMAC, signature and random internals: symbolic constructors or step inputs; a wrapped key term that is not one of the 32-byte forms counts as having another length.
- Base64 inside the envelopes is a constructor, so the copying loops of `toBase64` and `fromBase64` there are not modelled; the wallet helpers' encodings are, in `Encodings`.
- JSON objects with a repeated member name, number formatting, and Unicode: texts are ASCII where lengths, trimming or case matter.
- `publishedAt` is taken as the declared number type. The Anchor client yields big-number objects, which `!==` compares by reference; that is not modelled.
- `localeCompare` is a parameter assumed to be a strict total order on valid CIDs.
- Solana accounts other than registries, rent, fees and signature checks; a transaction is atomic with one clock value. Another program's account at a registry address cannot exist.
- The second copy of HKDF in `crypto-utils.ts` is the same code but for comments and quotes, so one model serves both.
- Members that `decryptFile` never reads (version, cipher, context, aadVersion) and the plain-file integrity helpers.
- Network timeouts, `fetch`, IPFS and RPC plumbing: each awaited operation answers or throws.
- React components apart from the order of capture, fetch and submit in publishing and of head and pointer in restoring.
- `toHex`, `fromHex`, AES-GCM helpers, the plain Dexie storage package, theming, logging and scripts: they add no hard property.
