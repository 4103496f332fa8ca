/**
 * Sealing and opening the manifest (packages/manifest/src/crypto.ts and the envelope
 * part of packages/manifest/src/service.ts). Opening works on an arbitrary parsed tree.
 */
module ManifestCrypto {
  import opened Wrappers
  import opened Terms
  import opened AsciiText
  import opened KeyDerivation
  import opened Manifest

  datatype ManifestError =
    | BadJson | MissingEnvelope | WalletMismatch | LegacyManifest | UnsupportedTemplate | BadSalt | BadWrap
    | UnwrapFailed | BadKey | BadObject | MissingWallet | AadMismatch | IntegrityFailed | DecryptFailed | BadPayload
    | RestoreRequired | NoPointer | StoreFailed | WalletHasBlanks | MissingFileCid | MissingEntryEnvelope | StepFailed

  function WrapContext(): Json {
    Str(Lit("manifest-wrap-aad-v1"))
  }

  function RootTemplate(): Json {
    Str(Lit(VAULT_ROOT_TEMPLATE))
  }

  function ManifestKind(): Json {
    Str(Lit("SJ_MANIFEST"))
  }

  function CipherName(): Json {
    Str(Lit("XChaCha20-Poly1305"))
  }

  predicate Truthy(j: Option<Json>) {
    j.Some? && j.value != Null && j.value != Num(0) && j.value != Str(Lit(""))
  }

  /* ---- the envelope that wraps the manifest key ---- */

  function WrapAad(version: Json, context: Json, wallet: string, template: Json): Bytes {
    Utf8(Stringify(Obj([ Member(V, version), Member(Context, context),
                         Member(WalletPubKey, Str(Lit(wallet))), Member(MessageTemplateId, template) ])))
  }

  function EnvelopeTree(wallet: string, derivation: Json, wrap: Json): Json {
    Obj([ Member(Version, Num(1)), Member(WalletPubKey, Str(Lit(wallet))),
          Member(KekDerivation, derivation), Member(Wrap, wrap) ])
  }

  function KekDerivationTree(salt: Bytes): Json {
    Obj([ Member(Method, Str(Lit("wallet-signature"))), Member(MessageTemplateId, RootTemplate()),
          Member(Salt, Str(Base64(salt))), Member(Info, Str(Lit("SJ-KEK-v1"))) ])
  }

  function WrapTree(wrapNonce: Bytes, wrapped: Bytes): Json {
    Obj([ Member(CipherN, CipherName()), Member(Nonce, Str(Base64(wrapNonce))),
         Member(Ciphertext, Str(Base64(wrapped))),
          Member(Context, WrapContext()), Member(AadVersion, Num(1)) ])
  }

  function BuildWrapEnvelope(wallet: string, kek: Bytes, manifestKey: Bytes, salt: Bytes, wrapNonce: Bytes)
    : Result<Json, ManifestError>
  {
    if Trim(wallet) == [] then Err(MissingWallet)
    else if !NonEmpty(kek) || !Is32(manifestKey) then Err(BadKey)
    else if !NonEmpty(salt) then Err(BadSalt)
    else
      Ok(EnvelopeTree(wallet, KekDerivationTree(salt),
                      WrapTree(wrapNonce, WrappedKey(wallet, kek, manifestKey, wrapNonce))))
  }

  function WrappedKey(wallet: string, kek: Bytes, manifestKey: Bytes, wrapNonce: Bytes): Bytes {
    Seal(kek, wrapNonce, WrapAad(Num(1), WrapContext(), wallet, RootTemplate()), manifestKey)
  }

  function UnwrapManifestKey(encrypted: Json, wallet: string, signature: Bytes): Result<Bytes, ManifestError> {
    var env := Field(Some(encrypted), EnvelopeN);
    if Field(env, Version) != Some(Num(1)) then Err(MissingEnvelope)
    else if Field(env, WalletPubKey) != Some(Str(Lit(wallet))) then Err(WalletMismatch)
    else
      var derivation := Field(env, KekDerivation);
      var template := Or(Field(derivation, MessageTemplateId), Some(Str(Lit("")))).value;
      if template == Str(Lit(UNLOCK_TEMPLATE)) then Err(LegacyManifest)
      else if template != RootTemplate() then Err(UnsupportedTemplate)
      else
        var salt := TextOf(Or(Field(derivation, Salt), Some(Str(Lit("")))));
        if salt == None || !NonEmpty(FromBase64(salt.value)) then Err(BadSalt)
        else UnwrapWith(Field(env, Wrap), wallet, template, DeriveVaultRootKek(signature))
  }

  function UnwrapWith(wrap: Option<Json>, wallet: string, template: Json, kek: Bytes): Result<Bytes, ManifestError> {
    var nonce, cipher := TextOf(Field(wrap, Nonce)), TextOf(Field(wrap, Ciphertext));
    if !Truthy(wrap) || nonce == None || cipher == None then Err(BadWrap)
    else
      var version := Or(Field(wrap, AadVersion), Some(Num(1))).value;
      var context := Or(Field(wrap, Context), Some(WrapContext())).value;
      match Open(FromBase64(cipher.value), FromBase64(nonce.value), WrapAad(version, context, wallet, template), kek)
      case None => Err(UnwrapFailed)
      case Some(key) => if Is32(key) then Ok(key) else Err(BadKey)
  }

  /* ---- the manifest object ---- */

  function ManifestAad(wallet: string): Json {
    Obj([ Member(WalletPubKey, Str(Lit(wallet))), Member(ManifestVersion, Num(1)),
         Member(Context, Str(Lit("manifest"))) ])
  }

  function AadBytes(aad: Json): Bytes {
    Utf8(Canonicalize(aad))
  }

  function HeaderTree(nonce: Bytes, aad: Json): Json {
    Obj([ Member(CipherN, CipherName()), Member(Nonce, Str(Base64(nonce))), Member(Aad, aad) ])
  }

  function PayloadTree(cipher: Bytes): Json {
    Obj([ Member(CiphertextB64, Str(Base64(cipher))) ])
  }

  /** SHA-256 over JSON.stringify of the hash basis, in base64. */
  function IntegrityOf(basis: seq<Member>): Json {
    Str(Base64(Sha256(Utf8(Stringify(Obj(basis))))))
  }

  function BasisMembers(header: Json, payload: Json, envelope: Json): seq<Member> {
    [ Member(Version, Num(1)), Member(Kind, ManifestKind()), Member(Header, header),
      Member(Payload, payload), Member(EnvelopeN, envelope) ]
  }

  function ObjectTree(header: Json, payload: Json, envelope: Json, integrity: Json): Json {
    Obj(BasisMembers(header, payload, envelope) + [ Member(Integrity, integrity) ])
  }

  function IntegrityTree(digest: Json): Json {
    Obj([ Member(Sha256B64, digest) ])
  }

  function EncryptManifest(m: ManifestV1, key: Bytes, wallet: string, envelope: Json, nonce: Bytes)
    : Result<Json, ManifestError>
  {
    if Trim(wallet) == [] then Err(MissingWallet)
    else if !Is32(key) then Err(BadKey)
    else if m.walletPubKey != wallet then Err(WalletMismatch)
    else if Field(Some(envelope), Version) != Some(Num(1)) then Err(MissingEnvelope)
    else if Field(Some(envelope), WalletPubKey) != Some(Str(Lit(wallet))) then Err(WalletMismatch)
    else
      var header := HeaderTree(nonce, ManifestAad(wallet));
      var payload := PayloadTree(EncryptedBytes(m, key, wallet, nonce));
      Ok(ObjectTree(header, payload, envelope, IntegrityTree(IntegrityOf(BasisMembers(header, payload, envelope)))))
  }

  function EncryptedBytes(m: ManifestV1, key: Bytes, wallet: string, nonce: Bytes): Bytes {
    Seal(key, nonce, AadBytes(ManifestAad(wallet)), Encode(ManifestToJson(m)))
  }

  /** The hash basis as decryptManifestV1 rebuilds it: five members in a fixed order. */
  function Basis(encrypted: Json): seq<Member> {
    var o := Some(encrypted);
    Opt(Version, Field(o, Version)) + Opt(Kind, Field(o, Kind)) + Opt(Header, Field(o, Header))
    + Opt(Payload, Field(o, Payload)) + Opt(EnvelopeN, Field(o, EnvelopeN))
  }

  function DecryptManifest(encrypted: Json, key: Bytes, wallet: string): Result<Json, ManifestError> {
    var o := Some(encrypted);
    var header := Field(o, Header);
    var aad := Field(header, Aad);
    if Field(o, Version) != Some(Num(1)) || Field(o, Kind) != Some(ManifestKind()) then Err(BadObject)
    else if Trim(wallet) == [] then Err(MissingWallet)
    else if !Is32(key) then Err(BadKey)
    else if || Field(aad, Context) != Some(Str(Lit("manifest")))
            || Field(aad, ManifestVersion) != Some(Num(1))
            || Field(aad, WalletPubKey) != Some(Str(Lit(wallet)))
    then Err(AadMismatch)
    else if Field(Field(o, Integrity), Sha256B64) != Some(IntegrityOf(Basis(encrypted))) then Err(IntegrityFailed)
    else
      var nonce, cipher := TextOf(Field(header, Nonce)), TextOf(Field(Field(o, Payload), CiphertextB64));
      if nonce == None || cipher == None then Err(BadObject)
      else
        match Open(FromBase64(cipher.value), FromBase64(nonce.value), AadBytes(aad.value), key)
        case None => Err(DecryptFailed)
        case Some(plaintext) =>
          var parsed := ParseJson(plaintext);
          if Field(parsed, Version) != Some(Num(1)) || Field(parsed, WalletPubKey) != Some(Str(Lit(wallet)))
          then Err(BadPayload)
          else Ok(parsed.value)
  }

  /* ---- whole writes and reads ---- */

  function Encode(tree: Json): Bytes {
    Utf8(Stringify(tree))
  }

  /** Wrap the key, encrypt the manifest and stringify the object: the bytes handed to the store. */
  function SealManifest(m: ManifestV1, key: Bytes, wallet: string, signature: Bytes,
                        salt: Bytes, wrapNonce: Bytes, nonce: Bytes): Result<Bytes, ManifestError>
  {
    match BuildWrapEnvelope(wallet, DeriveVaultRootKek(signature), key, salt, wrapNonce)
    case Err(e) => Err(e)
    case Ok(envelope) =>
      match EncryptManifest(m, key, wallet, envelope, nonce)
      case Err(e) => Err(e)
      case Ok(tree) => Ok(Encode(tree))
  }

  datatype Loaded = Loaded(key: Bytes, manifest: ManifestV1)

  /** The manifest of a tree that decryptManifestV1 accepted. */
  function ReadManifest(encrypted: Json, key: Bytes, wallet: string): Result<ManifestV1, ManifestError> {
    match DecryptManifest(encrypted, key, wallet)
    case Err(e) => Err(e)
    case Ok(tree) =>
      match ManifestFromJson(tree)
      case None => Err(BadPayload)
      case Some(m) => Ok(m)
  }

  /** Parse, unwrap, decrypt: the read half of load and of append. */
  function LoadBytes(bytes: Bytes, wallet: string, signature: Bytes): Result<Loaded, ManifestError> {
    match ParseJson(bytes)
    case None => Err(BadJson)
    case Some(tree) =>
      match UnwrapManifestKey(tree, wallet, signature)
      case Err(e) => Err(e)
      case Ok(key) =>
        match ReadManifest(tree, key, wallet)
        case Err(e) => Err(e)
        case Ok(m) => Ok(Loaded(key, m))
  }

  /* ---- lookups in the trees this module writes ---- */

  lemma EnvelopeLookups(wallet: string, derivation: Json, wrap: Json)
    ensures var e := Some(EnvelopeTree(wallet, derivation, wrap));
            && Field(e, Version) == Some(Num(1)) && Field(e, WalletPubKey) == Some(Str(Lit(wallet)))
            && Field(e, KekDerivation) == Some(derivation) && Field(e, Wrap) == Some(wrap)
  {
    hide Lookup, WrapContext, RootTemplate, ManifestKind, CipherName;
    var e := EnvelopeTree(wallet, derivation, wrap).members;
    LookupAt(e, 0); LookupAt(e, 1); LookupAt(e, 2); LookupAt(e, 3);
  }

  lemma KekDerivationLookups(salt: Bytes)
    ensures var d := Some(KekDerivationTree(salt));
            Field(d, MessageTemplateId) == Some(RootTemplate()) && Field(d, Salt) == Some(Str(Base64(salt)))
  {
    hide Lookup, WrapContext, RootTemplate, ManifestKind, CipherName;
    var d := KekDerivationTree(salt).members;
    LookupAt(d, 1); LookupAt(d, 2);
  }

  lemma WrapLookups(wrapNonce: Bytes, wrapped: Bytes)
    ensures var w := Some(WrapTree(wrapNonce, wrapped));
            && Field(w, Nonce) == Some(Str(Base64(wrapNonce))) && Field(w, Ciphertext) == Some(Str(Base64(wrapped)))
            && Field(w, Context) == Some(WrapContext()) && Field(w, AadVersion) == Some(Num(1))
  {
    hide Lookup, WrapContext, RootTemplate, ManifestKind, CipherName;
    var w := WrapTree(wrapNonce, wrapped).members;
    LookupAt(w, 1); LookupAt(w, 2); LookupAt(w, 3); LookupAt(w, 4);
  }

  lemma ObjectLookups(header: Json, payload: Json, envelope: Json, integrity: Json)
    ensures var o := Some(ObjectTree(header, payload, envelope, integrity));
            && Field(o, Version) == Some(Num(1)) && Field(o, Kind) == Some(ManifestKind())
            && Field(o, Header) == Some(header) && Field(o, Payload) == Some(payload)
            && Field(o, EnvelopeN) == Some(envelope) && Field(o, Integrity) == Some(integrity)
  {
    hide Lookup, WrapContext, RootTemplate, ManifestKind, CipherName;
    hide BasisMembers;
    var b, last := BasisMembers(header, payload, envelope), [Member(Integrity, integrity)];
    BasisMemberLookups(header, payload, envelope);
    LookupAt(last, 0);
    LookupSplit(b, last, Version); LookupSplit(b, last, Kind); LookupSplit(b, last, Header);
    LookupSplit(b, last, Payload); LookupSplit(b, last, EnvelopeN); LookupSplit(b, last, Integrity);
  }

  lemma BasisMemberLookups(header: Json, payload: Json, envelope: Json)
    ensures var b := BasisMembers(header, payload, envelope);
            && Lookup(b, Version) == Some(Num(1)) && Lookup(b, Kind) == Some(ManifestKind())
            && Lookup(b, Header) == Some(header) && Lookup(b, Payload) == Some(payload)
            && Lookup(b, EnvelopeN) == Some(envelope) && Lookup(b, Integrity) == None
  {
    hide Lookup, ManifestKind;
    var b := BasisMembers(header, payload, envelope);
    LookupAt(b, 0); LookupAt(b, 1); LookupAt(b, 2); LookupAt(b, 3); LookupAt(b, 4);
    LookupNone(b, Integrity);
  }

  lemma HeaderLookups(nonce: Bytes, aad: Json, cipher: Bytes, digest: Json)
    ensures var h := Some(HeaderTree(nonce, aad));
            Field(h, Nonce) == Some(Str(Base64(nonce))) && Field(h, Aad) == Some(aad)
    ensures Field(Some(PayloadTree(cipher)), CiphertextB64) == Some(Str(Base64(cipher)))
    ensures Field(Some(IntegrityTree(digest)), Sha256B64) == Some(digest)
  {
    hide Lookup, WrapContext, RootTemplate, ManifestKind, CipherName;
    var h := HeaderTree(nonce, aad).members;
    LookupAt(h, 1); LookupAt(h, 2);
    LookupAt(PayloadTree(cipher).members, 0);
    LookupAt(IntegrityTree(digest).members, 0);
  }

  lemma AadLookups(wallet: string)
    ensures var a := Some(ManifestAad(wallet));
            && Field(a, WalletPubKey) == Some(Str(Lit(wallet))) && Field(a, ManifestVersion) == Some(Num(1))
            && Field(a, Context) == Some(Str(Lit("manifest")))
  {
    hide Lookup, WrapContext, RootTemplate, ManifestKind, CipherName;
    var a := ManifestAad(wallet).members;
    LookupAt(a, 0); LookupAt(a, 1); LookupAt(a, 2);
  }

  /** The basis rebuilt at load is the basis hashed at save, member for member. */
  lemma BasisRebuilt(header: Json, payload: Json, envelope: Json, integrity: Json)
    ensures Basis(ObjectTree(header, payload, envelope, integrity)) == BasisMembers(header, payload, envelope)
  {
    hide Lookup, WrapContext, RootTemplate, ManifestKind, CipherName;
    ObjectLookups(header, payload, envelope, integrity);
  }

  lemma BasisLookup(encrypted: Json, name: Name)
    requires name in {Version, Kind, Header, Payload, EnvelopeN}
    ensures Lookup(Basis(encrypted), name) == Field(Some(encrypted), name)
  {
    var o := Some(encrypted);
    var a, b, c := Opt(Version, Field(o, Version)), Opt(Kind, Field(o, Kind)), Opt(Header, Field(o, Header));
    var d, e := Opt(Payload, Field(o, Payload)), Opt(EnvelopeN, Field(o, EnvelopeN));
    LookupSplit(a + b + c + d, e, name);
    LookupSplit(a + b + c, d, name);
    LookupSplit(a + b, c, name);
    LookupSplit(a, b, name);
    LookupOpt(Version, Field(o, Version), name);
    LookupOpt(Kind, Field(o, Kind), name);
    LookupOpt(Header, Field(o, Header), name);
    LookupOpt(Payload, Field(o, Payload), name);
    LookupOpt(EnvelopeN, Field(o, EnvelopeN), name);
  }

  /* ---- main results ---- */

  /** An envelope that passes every check before the wrap itself is opened. */
  lemma UnwrapReachesWrap(tree: Json, env: Json, derivation: Json, wrap: Json, salt: Bytes, wallet: string,
      signature: Bytes)
    requires Field(Some(tree), EnvelopeN) == Some(env) && NonEmpty(salt)
    requires Field(Some(env), Version) == Some(Num(1)) && Field(Some(env), WalletPubKey) == Some(Str(Lit(wallet)))
    requires Field(Some(env), KekDerivation) == Some(derivation) && Field(Some(env), Wrap) == Some(wrap)
    requires Field(Some(derivation), MessageTemplateId) == Some(RootTemplate())
    requires Field(Some(derivation), Salt) == Some(Str(Base64(salt)))
    ensures UnwrapManifestKey(tree, wallet, signature) ==
        UnwrapWith(Some(wrap), wallet, RootTemplate(), DeriveVaultRootKek(signature))
  {
    hide Lookup, UnwrapWith, DeriveVaultRootKek;
    assert |UNLOCK_TEMPLATE| != |VAULT_ROOT_TEMPLATE|;
  }

  /** An object that passes every check before the payload is opened. */
  lemma DecryptReachesPayload(tree: Json, header: Json, aad: Json, payload: Json, nonce: Bytes, aadBytes: Bytes,
      plaintext: Json, key: Bytes, wallet: string)
    requires Trim(wallet) != [] && Is32(key)
    requires Field(Some(tree), Version) == Some(Num(1)) && Field(Some(tree), Kind) == Some(ManifestKind())
    requires Field(Some(tree), Header) == Some(header) && Field(Some(tree), Payload) == Some(payload)
    requires Field(Field(Some(tree), Integrity), Sha256B64) == Some(IntegrityOf(Basis(tree)))
    requires Field(Some(header), Aad) == Some(aad) && Field(Some(header), Nonce) == Some(Str(Base64(nonce)))
    requires Field(Some(aad), Context) == Some(Str(Lit("manifest")))
    requires Field(Some(aad), ManifestVersion) == Some(Num(1))
    requires Field(Some(aad), WalletPubKey) == Some(Str(Lit(wallet)))
    requires aadBytes == AadBytes(aad)
    requires Field(Some(payload), CiphertextB64) == Some(Str(Base64(Seal(key, nonce, aadBytes, Encode(plaintext)))))
    requires Field(Some(plaintext), Version) == Some(Num(1))
    requires Field(Some(plaintext), WalletPubKey) == Some(Str(Lit(wallet)))
    ensures DecryptManifest(tree, key, wallet) == Ok(plaintext)
  {
    hide Lookup, Basis, IntegrityOf, AadBytes, Trim, Is32, WrapContext, RootTemplate, ManifestKind, CipherName;
  }

  lemma UnwrapInvertsWrap(tree: Json, wallet: string, signature: Bytes, kek: Bytes, key: Bytes, salt: Bytes,
      wrapNonce: Bytes)
    requires Is32(key) && NonEmpty(salt)
    requires Field(Some(tree), EnvelopeN) ==
             Some(EnvelopeTree(wallet, KekDerivationTree(salt),
                               WrapTree(wrapNonce, WrappedKey(wallet, kek, key, wrapNonce))))
    ensures UnwrapManifestKey(tree, wallet, signature) ==
            if DeriveVaultRootKek(signature) == kek then Ok(key) else Err(UnwrapFailed)
  {
    var derivation, wrap := KekDerivationTree(salt), WrapTree(wrapNonce, WrappedKey(wallet, kek, key, wrapNonce));
    EnvelopeLookups(wallet, derivation, wrap);
    KekDerivationLookups(salt);
    UnwrapReachesWrap(tree, EnvelopeTree(wallet, derivation, wrap), derivation, wrap, salt, wallet, signature);
    UnwrapWithInverts(wallet, DeriveVaultRootKek(signature), kek, key, wrapNonce);
  }

  lemma UnwrapWithInverts(wallet: string, kek: Bytes, wrapKek: Bytes, key: Bytes, wrapNonce: Bytes)
    requires Is32(key)
    ensures UnwrapWith(Some(WrapTree(wrapNonce, WrappedKey(wallet, wrapKek, key, wrapNonce))), wallet,
                       RootTemplate(), kek) ==
            if kek == wrapKek then Ok(key) else Err(UnwrapFailed)
  {
    hide Lookup, WrapAad, WrapContext, RootTemplate, ManifestKind, CipherName;
    WrapLookups(wrapNonce, WrappedKey(wallet, wrapKek, key, wrapNonce));
  }

  /** What encryptManifestV1 answers once its checks pass. */
  function EncryptedTree(m: ManifestV1, key: Bytes, wallet: string, envelope: Json, nonce: Bytes): Json {
    var header, payload := HeaderTree(nonce, ManifestAad(wallet)), PayloadTree(EncryptedBytes(m, key, wallet, nonce));
    ObjectTree(header, payload, envelope, IntegrityTree(IntegrityOf(BasisMembers(header, payload, envelope))))
  }

  lemma DecryptInvertsEncrypt(m: ManifestV1, key: Bytes, wallet: string, envelope: Json, nonce: Bytes)
    requires Trim(wallet) != [] && Is32(key) && m.walletPubKey == wallet
    ensures Field(Some(EncryptedTree(m, key, wallet, envelope, nonce)), EnvelopeN) == Some(envelope)
    ensures ReadManifest(EncryptedTree(m, key, wallet, envelope, nonce), key, wallet) == Ok(m)
  {
    ManifestLookups(m);
    ManifestJsonRoundTrip(m);
    TreeDecrypts(ManifestToJson(m), key, wallet, envelope, nonce);
    ReadFollows(EncryptedTree(m, key, wallet, envelope, nonce), ManifestToJson(m), m, key, wallet);
  }

  lemma ReadFollows(tree: Json, plaintext: Json, m: ManifestV1, key: Bytes, wallet: string)
    requires DecryptManifest(tree, key, wallet) == Ok(plaintext) && ManifestFromJson(plaintext) == Some(m)
    ensures ReadManifest(tree, key, wallet) == Ok(m)
  {
  }

  lemma TreeDecrypts(plaintext: Json, key: Bytes, wallet: string, envelope: Json, nonce: Bytes)
    requires Trim(wallet) != [] && Is32(key)
    requires Field(Some(plaintext), Version) == Some(Num(1))
    requires Field(Some(plaintext), WalletPubKey) == Some(Str(Lit(wallet)))
    ensures var cipher := Seal(key, nonce, AadBytes(ManifestAad(wallet)), Encode(plaintext));
            var header, payload := HeaderTree(nonce, ManifestAad(wallet)), PayloadTree(cipher);
            var tree := ObjectTree(header, payload, envelope,
                                   IntegrityTree(IntegrityOf(BasisMembers(header, payload, envelope))));
            Field(Some(tree), EnvelopeN) == Some(envelope) && DecryptManifest(tree, key, wallet) == Ok(plaintext)
  {
    var aad := ManifestAad(wallet);
    var cipher := Seal(key, nonce, AadBytes(aad), Encode(plaintext));
    var header, payload := HeaderTree(nonce, aad), PayloadTree(cipher);
    var digest := IntegrityOf(BasisMembers(header, payload, envelope));
    var tree := ObjectTree(header, payload, envelope, IntegrityTree(digest));
    ObjectLookups(header, payload, envelope, IntegrityTree(digest));
    HeaderLookups(nonce, aad, cipher, digest);
    AadLookups(wallet);
    BasisRebuilt(header, payload, envelope, IntegrityTree(digest));
    DecryptReachesPayload(tree, header, aad, payload, nonce, AadBytes(aad), plaintext, key, wallet);
  }

  /**
   * Persist, then load, is the identity: for every manifest of the wallet, every salt and
   * nonces, loading with the same vault-root signature gives back the key and the manifest.
   */
  lemma PersistThenLoad(m: ManifestV1, key: Bytes, wallet: string, signature: Bytes, salt: Bytes, wrapNonce: Bytes,
      nonce: Bytes)
    requires Trim(wallet) != [] && m.walletPubKey == wallet && Is32(key) && NonEmpty(salt)
    ensures SealManifest(m, key, wallet, signature, salt, wrapNonce, nonce).Ok?
    ensures LoadBytes(SealManifest(m, key, wallet, signature, salt, wrapNonce, nonce).value, wallet, signature) ==
        Ok(Loaded(key, m))
  {
    SealedLoad(m, key, wallet, signature, salt, wrapNonce, nonce, signature);
  }

  /** The envelope written around a manifest key. */
  function SealedEnvelope(wallet: string, signature: Bytes, key: Bytes, salt: Bytes, wrapNonce: Bytes): Json {
    EnvelopeTree(wallet, KekDerivationTree(salt),
                 WrapTree(wrapNonce, WrappedKey(wallet, DeriveVaultRootKek(signature), key, wrapNonce)))
  }

  /** What the store receives: the encoded tree of the encrypted manifest. */
  lemma SealedBytes(m: ManifestV1, key: Bytes, wallet: string, signature: Bytes, salt: Bytes, wrapNonce: Bytes,
      nonce: Bytes)
    requires Trim(wallet) != [] && m.walletPubKey == wallet && Is32(key) && NonEmpty(salt)
    ensures SealManifest(m, key, wallet, signature, salt, wrapNonce, nonce) ==
            Ok(Encode(EncryptedTree(m, key, wallet, SealedEnvelope(wallet, signature, key, salt, wrapNonce), nonce)))
  {
    hide Lookup, WrapAad, AadBytes, IntegrityOf;
    EnvelopeLookups(wallet, KekDerivationTree(salt),
                    WrapTree(wrapNonce, WrappedKey(wallet, DeriveVaultRootKek(signature), key, wrapNonce)));
  }

  /** Loading sealed bytes with any signature: the wrap decides. */
  lemma SealedLoad(m: ManifestV1, key: Bytes, wallet: string, signature: Bytes, salt: Bytes, wrapNonce: Bytes,
      nonce: Bytes, tried: Bytes)
    requires Trim(wallet) != [] && m.walletPubKey == wallet && Is32(key) && NonEmpty(salt)
    ensures SealManifest(m, key, wallet, signature, salt, wrapNonce, nonce).Ok?
    ensures LoadBytes(SealManifest(m, key, wallet, signature, salt, wrapNonce, nonce).value, wallet, tried) ==
            if DeriveVaultRootKek(tried) == DeriveVaultRootKek(signature) then Ok(Loaded(key, m)) else Err(UnwrapFailed)
  {
    var envelope := SealedEnvelope(wallet, signature, key, salt, wrapNonce);
    var tree := EncryptedTree(m, key, wallet, envelope, nonce);
    SealedBytes(m, key, wallet, signature, salt, wrapNonce, nonce);
    DecryptInvertsEncrypt(m, key, wallet, envelope, nonce);
    UnwrapInvertsWrap(tree, wallet, tried, DeriveVaultRootKek(signature), key, salt, wrapNonce);
    LoadSteps(tree, wallet, tried);
  }

  /** Reading encoded bytes is unwrapping, then reading, the tree. */
  lemma LoadSteps(tree: Json, wallet: string, signature: Bytes)
    ensures LoadBytes(Encode(tree), wallet, signature) ==
            match UnwrapManifestKey(tree, wallet, signature) {
              case Err(e) => Err(e)
              case Ok(key) =>
                match ReadManifest(tree, key, wallet) {
                  case Err(e) => Err(e)
                  case Ok(m) => Ok(Loaded(key, m))
                }
            }
  {
  }

  lemma BuildChecks(wallet: string, kek: Bytes, key: Bytes, salt: Bytes, wrapNonce: Bytes)
    requires BuildWrapEnvelope(wallet, kek, key, salt, wrapNonce).Ok?
    ensures Trim(wallet) != [] && Is32(key) && NonEmpty(salt)
  {
  }

  /** The stored object, member by member. */
  lemma SealedFormat(m: ManifestV1, key: Bytes, wallet: string, signature: Bytes, salt: Bytes, wrapNonce: Bytes,
      nonce: Bytes)
    requires SealManifest(m, key, wallet, signature, salt, wrapNonce, nonce).Ok?
    ensures var cipher, root, owner := Str(Lit("XChaCha20-Poly1305")), Str(Lit("SJ_VAULT_ROOT_V1")), Str(Lit(wallet));
            var context := Str(Lit("manifest-wrap-aad-v1"));
            var wrapAad := Obj([ Member(V, Num(1)), Member(Context, context), Member(WalletPubKey, owner),
                Member(MessageTemplateId, root) ]);
            var wrapped := Seal(DeriveVaultRootKek(signature), wrapNonce, Utf8(Stringify(wrapAad)), key);
            var derivation := Obj([ Member(Method, Str(Lit("wallet-signature"))), Member(MessageTemplateId, root),
                Member(Salt, Str(Base64(salt))), Member(Info, Str(Lit("SJ-KEK-v1"))) ]);
            var wrap := Obj([ Member(CipherN, cipher), Member(Nonce, Str(Base64(wrapNonce))),
                Member(Ciphertext, Str(Base64(wrapped))), Member(Context, context), Member(AadVersion, Num(1)) ]);
            var envelope := Obj([ Member(Version, Num(1)), Member(WalletPubKey, owner),
                Member(KekDerivation, derivation), Member(Wrap, wrap) ]);
            var aad := Obj([ Member(WalletPubKey, owner), Member(ManifestVersion, Num(1)),
                Member(Context, Str(Lit("manifest"))) ]);
            var header := Obj([ Member(CipherN, cipher), Member(Nonce, Str(Base64(nonce))), Member(Aad, aad) ]);
            var sealed := Seal(key, nonce, Utf8(Canonicalize(aad)), Utf8(Stringify(ManifestToJson(m))));
            var basis := [ Member(Version, Num(1)), Member(Kind, Str(Lit("SJ_MANIFEST"))), Member(Header, header),
                Member(Payload, Obj([Member(CiphertextB64, Str(Base64(sealed)))])), Member(EnvelopeN, envelope) ];
            var digest := Str(Base64(Sha256(Utf8(Stringify(Obj(basis))))));
            SealManifest(m, key, wallet, signature, salt, wrapNonce, nonce) ==
            Ok(Utf8(Stringify(Obj(basis + [Member(Integrity, Obj([Member(Sha256B64, digest)]))]))))
  {
    hide Canonicalize, ManifestToJson, DeriveVaultRootKek, Lookup;
  }

  /** The two halves of a write, taken one after the other, seal the manifest. */
  lemma SealSteps(m: ManifestV1, key: Bytes, wallet: string, signature: Bytes, salt: Bytes, wrapNonce: Bytes,
      nonce: Bytes, envelope: Json)
    requires BuildWrapEnvelope(wallet, DeriveVaultRootKek(signature), key, salt, wrapNonce) == Ok(envelope)
    requires EncryptManifest(m, key, wallet, envelope, nonce).Ok? && m.walletPubKey == wallet
    ensures LoadBytes(Encode(EncryptManifest(m, key, wallet, envelope, nonce).value), wallet, signature) ==
        Ok(Loaded(key, m))
  {
    hide BuildWrapEnvelope, EncryptManifest, LoadBytes;
    BuildChecks(wallet, DeriveVaultRootKek(signature), key, salt, wrapNonce);
    PersistThenLoad(m, key, wallet, signature, salt, wrapNonce, nonce);
  }

  /** An envelope that could be built is accepted by the encryption that follows. */
  lemma EncryptAccepts(m: ManifestV1, key: Bytes, wallet: string, signature: Bytes, salt: Bytes, wrapNonce: Bytes,
      nonce: Bytes, envelope: Json)
    requires BuildWrapEnvelope(wallet, DeriveVaultRootKek(signature), key, salt, wrapNonce) == Ok(envelope)
    requires m.walletPubKey == wallet
    ensures EncryptManifest(m, key, wallet, envelope, nonce).Ok?
  {
    hide BuildWrapEnvelope, EncryptManifest;
    BuildChecks(wallet, DeriveVaultRootKek(signature), key, salt, wrapNonce);
    SealedBytes(m, key, wallet, signature, salt, wrapNonce, nonce);
  }

  /** What the checks of a successful read say about the manifest and its key. */
  lemma ReadChecks(tree: Json, key: Bytes, wallet: string)
    requires ReadManifest(tree, key, wallet).Ok?
    ensures ReadManifest(tree, key, wallet).value.walletPubKey == wallet && Is32(key)
  {
    DecryptChecks(tree, key, wallet);
    ReadWallet(DecryptManifest(tree, key, wallet).value, wallet);
  }

  lemma ReadWallet(plaintext: Json, wallet: string)
    requires Field(Some(plaintext), WalletPubKey) == Some(Str(Lit(wallet))) && ManifestFromJson(plaintext).Some?
    ensures ManifestFromJson(plaintext).value.walletPubKey == wallet
  {
  }

  lemma DecryptChecks(tree: Json, key: Bytes, wallet: string)
    requires DecryptManifest(tree, key, wallet).Ok?
    ensures Is32(key) && Field(Some(DecryptManifest(tree, key, wallet).value), WalletPubKey) == Some(Str(Lit(wallet)))
  {
    hide Basis, IntegrityOf, AadBytes, Lookup, Trim, Is32, Open, TextOf, FromBase64;
  }

  lemma UnwrapChecks(tree: Json, wallet: string, signature: Bytes)
    requires UnwrapManifestKey(tree, wallet, signature).Ok?
    ensures var env := Field(Some(tree), EnvelopeN);
            var nonce, cipher := TextOf(Field(Field(env, Wrap), Nonce)), TextOf(Field(Field(env, Wrap), Ciphertext));
            && Field(env, Version) == Some(Num(1)) && Field(env, WalletPubKey) == Some(Str(Lit(wallet)))
            && Field(Field(env, KekDerivation), MessageTemplateId) == Some(Str(Lit("SJ_VAULT_ROOT_V1")))
            && nonce.Some? && cipher.Some? && FromBase64(cipher.value).Seal?
            && FromBase64(cipher.value).nonce == FromBase64(nonce.value)
            && FromBase64(cipher.value).key == DeriveVaultRootKek(signature)
            && FromBase64(cipher.value).plaintext == UnwrapManifestKey(tree, wallet, signature).value
  {
    hide Lookup, DeriveVaultRootKek, Is32, NonEmpty, TextOf, FromBase64, WrapAad;
  }

  lemma PayloadChecks(tree: Json, key: Bytes, wallet: string)
    requires DecryptManifest(tree, key, wallet).Ok?
    ensures var o := Some(tree);
            var aad, cipher := Field(Field(o, Header), Aad), TextOf(Field(Field(o, Payload), CiphertextB64));
            && Field(o, Version) == Some(Num(1)) && Field(o, Kind) == Some(Str(Lit("SJ_MANIFEST")))
            && Field(aad, Context) == Some(Str(Lit("manifest"))) && Field(aad, ManifestVersion) == Some(Num(1))
            && Field(aad, WalletPubKey) == Some(Str(Lit(wallet)))
            && Field(Field(o, Integrity), Sha256B64)
            == Some(Str(Base64(Sha256(Utf8(Stringify(Obj(Basis(tree))))))))
            && cipher.Some? && FromBase64(cipher.value).Seal? && FromBase64(cipher.value).key == key
            && FromBase64(cipher.value).aad == Utf8(Canonicalize(aad.value))
            && FromBase64(cipher.value).plaintext == Utf8(Stringify(DecryptManifest(tree, key, wallet).value))
  {
    hide Lookup, Is32, TextOf, FromBase64, Canonicalize, Basis, Trim;
  }

  /**
   * Whatever bytes load are authentic. The object is a version 1 manifest object for this
   * wallet with a matching digest; its wrapped key was sealed under the root KEK of this
   * signature; and under that key somebody sealed, for an AAD that names this wallet, exactly
   * the manifest that the load returns, which is this wallet's.
   */
  lemma LoadedIsAuthentic(bytes: Bytes, wallet: string, signature: Bytes)
    requires LoadBytes(bytes, wallet, signature).Ok?
    ensures var o, l := ParseJson(bytes), LoadBytes(bytes, wallet, signature).value;
            var env, aad := Field(o, EnvelopeN), Field(Field(o, Header), Aad);
            var wrapped := TextOf(Field(Field(env, Wrap), Ciphertext));
            var sealed := TextOf(Field(Field(o, Payload), CiphertextB64));
            && o.Some? && Field(o, Version) == Some(Num(1)) && Field(o, Kind) == Some(Str(Lit("SJ_MANIFEST")))
            && Field(env, WalletPubKey) == Field(aad, WalletPubKey) == Some(Str(Lit(wallet)))
            && Field(Field(env, KekDerivation), MessageTemplateId) == Some(Str(Lit("SJ_VAULT_ROOT_V1")))
            && Field(Field(o, Integrity), Sha256B64)
            == Some(Str(Base64(Sha256(Utf8(Stringify(Obj(Basis(o.value))))))))
            && wrapped.Some? && FromBase64(wrapped.value).Seal?
            && FromBase64(wrapped.value).key == DeriveVaultRootKek(signature)
            && FromBase64(wrapped.value).plaintext == l.key
            && sealed.Some? && FromBase64(sealed.value).Seal? && FromBase64(sealed.value).key == l.key
            && FromBase64(sealed.value).aad == Utf8(Canonicalize(aad.value))
            && (exists tree :: FromBase64(sealed.value).plaintext == Utf8(Stringify(tree))
                               && ManifestFromJson(tree) == Some(l.manifest))
            && l.manifest.walletPubKey == wallet
  {
    hide UnwrapManifestKey, DecryptManifest, Field, TextOf, FromBase64, Canonicalize, Basis, ManifestFromJson;
    var tree, l := ParseJson(bytes).value, LoadBytes(bytes, wallet, signature).value;
    UnwrapChecks(tree, wallet, signature);
    PayloadChecks(tree, l.key, wallet);
    ReadChecks(tree, l.key, wallet);
    assert ManifestFromJson(DecryptManifest(tree, l.key, wallet).value) == Some(l.manifest);
  }

  /** Any other signature fails at the unwrap, any other wallet at the envelope. */
  lemma OnlyTheOwnerLoads(m: ManifestV1, key: Bytes, wallet: string, signature: Bytes, salt: Bytes,
                          wrapNonce: Bytes, nonce: Bytes, otherWallet: string, otherSignature: Bytes)
    requires Trim(wallet) != [] && m.walletPubKey == wallet && Is32(key) && NonEmpty(salt)
    ensures SealManifest(m, key, wallet, signature, salt, wrapNonce, nonce).Ok?
    ensures LoadBytes(SealManifest(m, key, wallet, signature, salt, wrapNonce, nonce).value, otherWallet,
                      otherSignature) ==
            if otherWallet != wallet then Err(WalletMismatch)
            else if otherSignature != signature then Err(UnwrapFailed)
            else Ok(Loaded(key, m))
  {
    SealedLoad(m, key, wallet, signature, salt, wrapNonce, nonce, otherSignature);
    RootKekBinds(signature, otherSignature);
    if otherWallet != wallet {
      var envelope := SealedEnvelope(wallet, signature, key, salt, wrapNonce);
      var tree := EncryptedTree(m, key, wallet, envelope, nonce);
      SealedBytes(m, key, wallet, signature, salt, wrapNonce, nonce);
      DecryptInvertsEncrypt(m, key, wallet, envelope, nonce);
      EnvelopeLookups(wallet, KekDerivationTree(salt),
                      WrapTree(wrapNonce, WrappedKey(wallet, DeriveVaultRootKek(signature), key, wrapNonce)));
      WalletIsChecked(tree, envelope, wallet, otherWallet, otherSignature);
      LoadSteps(tree, otherWallet, otherSignature);
    }
  }

  lemma WalletIsChecked(tree: Json, env: Json, wallet: string, otherWallet: string, signature: Bytes)
    requires Field(Some(tree), EnvelopeN) == Some(env) && wallet != otherWallet
    requires Field(Some(env), Version) == Some(Num(1)) && Field(Some(env), WalletPubKey) == Some(Str(Lit(wallet)))
    ensures UnwrapManifestKey(tree, otherWallet, signature) == Err(WalletMismatch)
  {
  }

  lemma RootKekBinds(a: Bytes, b: Bytes)
    ensures DeriveVaultRootKek(a) == DeriveVaultRootKek(b) <==> a == b
  {
    PartsAgree(DeriveManifestKey(DeriveVaultRootKek(a)), DeriveManifestKey(DeriveVaultRootKek(b)), a, b);
  }

  /**
   * Two trees with the same stored digest that both decrypt agree on all five members of
   * the hash basis, including the order of members inside each of them. So changing any of
   * them while keeping the digest is rejected, whatever key and wallet are tried.
   */
  lemma TamperingIsRejected(original: Json, tampered: Json, key: Bytes, wallet: string, otherKey: Bytes,
      otherWallet: string, name: Name)
    requires DecryptManifest(original, key, wallet).Ok?
    requires Field(Field(Some(original), Integrity), Sha256B64) == Field(Field(Some(tampered), Integrity), Sha256B64)
    requires name in {Version, Kind, Header, Payload, EnvelopeN}
    requires Field(Some(tampered), name) != Field(Some(original), name)
    ensures DecryptManifest(tampered, otherKey, otherWallet).Err?
  {
    BasisLookup(original, name);
    BasisLookup(tampered, name);
    DigestBinds(Basis(original), Basis(tampered));
    if DecryptManifest(tampered, otherKey, otherWallet).Ok? {
      DecryptChecksDigest(original, key, wallet);
      DecryptChecksDigest(tampered, otherKey, otherWallet);
    }
  }

  lemma DigestBinds(a: seq<Member>, b: seq<Member>)
    ensures IntegrityOf(a) == IntegrityOf(b) <==> a == b
  {
  }

  lemma DecryptChecksDigest(encrypted: Json, key: Bytes, wallet: string)
    requires DecryptManifest(encrypted, key, wallet).Ok?
    ensures Field(Field(Some(encrypted), Integrity), Sha256B64) == Some(IntegrityOf(Basis(encrypted)))
  {
    hide Lookup, Basis, IntegrityOf, AadBytes, Trim, Is32, Open, TextOf, FromBase64, ParseJson;
  }
}
