/**
 * Per-file encryption with the wrapped file key (wrap AAD binding V3),
 * packages/crypto/src/v0_local_encryption/localEncryption.ts.
 *
 * The metadata of an encrypted file is stored twice, at the top level and inside `aad`;
 * decryption rebuilds both AADs from whichever copies it finds. Members that
 * decryptFile never reads (version, cipher, context, aadVersion, ...) are not modelled.
 */
module FileEnvelope {
  import opened Wrappers
  import opened OctetStrings
  import opened Terms
  import opened AsciiText
  import K = KeyDerivation

  /** The copy under `aad`; an absent `aad` is one with every member undefined. */
  datatype AadCopy = AadCopy(
    originalFileName: Option<Json>, mimeType: Option<Json>, fileSize: Option<Json>,
    fileId: Option<Json>, filename: Option<Json>, size: Option<Json>)

  datatype EncryptedFile = EncryptedFile(
    nonce: Text, ciphertext: Text,
    originalFileName: Option<Json>, mimeType: Option<Json>, fileSize: Option<Json>, fileId: Option<Json>,
    aad: AadCopy)

  datatype Envelope = Envelope(walletPubKey: Option<Json>, salt: Option<Json>, wrapNonce: Text, wrapCiphertext: Text)

  datatype Options = Options(
    fileKey: Option<Bytes>, kek: Bytes, salt: seq<Octet>, walletPubKey: string,
    fileId: Option<string>, filename: Option<string>, mimeType: Option<string>)

  /** What the random source hands out during one call. */
  datatype Randomness = Randomness(fileKey: Bytes, fileId: Bytes, fileNonce: Bytes, wrapNonce: Bytes)

  datatype FileError =
    | BadFileKey | MissingWallet | BadSalt | BadKek | MissingSalt | MissingFileId | UnwrapFailed | DecryptFailed

  /** The four values bound by headerHash, as found by decryptFile. */
  datatype HeaderValues = HeaderValues(originalFileName: Json, mimeType: Json, fileSize: Json, fileId: Json)

  function OrNull(a: Option<Json>): Json {
    if a.Some? then a.value else Null
  }

  function HeaderOf(f: EncryptedFile): HeaderValues {
    HeaderValues(
      OrNull(Or(f.originalFileName, Or(f.aad.originalFileName, f.aad.filename))),
      OrNull(Or(f.mimeType, f.aad.mimeType)),
      OrNull(Or(f.fileSize, Or(f.aad.fileSize, f.aad.size))),
      OrNull(Or(f.fileId, f.aad.fileId)))
  }

  function HeaderMembers(h: HeaderValues): seq<Member> {
    [ Member(OriginalFileName, h.originalFileName), Member(MimeType, h.mimeType),
      Member(FileSize, h.fileSize), Member(FileId, h.fileId) ]
  }

  function HeaderHashOf(h: HeaderValues): (hash: Json)
    ensures hash.Str?
  {
    Str(Base64(Sha256(Utf8(Canonicalize(Obj(HeaderMembers(h)))))))
  }

  function WrapMembers(salt: Json, wallet: Json, h: HeaderValues): seq<Member> {
    [ Member(V, Num(3)), Member(Salt, salt), Member(WalletPubKey, wallet),
      Member(FileId, h.fileId), Member(HeaderHash, HeaderHashOf(h)) ]
  }

  function WrapAad(salt: Json, wallet: Json, h: HeaderValues): Bytes {
    Utf8(Canonicalize(Obj(WrapMembers(salt, wallet, h))))
  }

  /** The six values of the payload AAD, as rebuilt by decryptFile. */
  datatype PayloadValues = PayloadValues(originalFileName: Json, mimeType: Json, fileSize: Json, fileId: Json,
                                         filename: Json, size: Json)

  function PayloadOf(f: EncryptedFile): PayloadValues {
    PayloadValues(
      OrNull(Or(f.originalFileName, f.aad.originalFileName)),
      OrNull(Or(f.mimeType, f.aad.mimeType)),
      OrNull(Or(f.fileSize, f.aad.fileSize)),
      OrNull(Or(f.fileId, f.aad.fileId)),
      OrNull(Or(f.aad.filename, f.originalFileName)),
      OrNull(Or(f.aad.size, f.fileSize)))
  }

  function PayloadMembers(p: PayloadValues): seq<Member> {
    [ Member(OriginalFileName, p.originalFileName), Member(MimeType, p.mimeType), Member(FileSize, p.fileSize),
      Member(FileId, p.fileId), Member(Filename, p.filename), Member(Size, p.size) ]
  }

  function PayloadAad(p: PayloadValues): Bytes {
    Utf8(Canonicalize(Obj(PayloadMembers(p))))
  }

  predicate UsableSalt(salt: seq<Octet>) {
    |salt| == 16 || |salt| == 32
  }

  function FileKeyOf(o: Options, r: Randomness): Bytes {
    if o.fileKey.Some? then o.fileKey.value else r.fileKey
  }

  function FileIdOf(o: Options, r: Randomness): Text {
    if o.fileId.Some? then Lit(o.fileId.value) else Base64(r.fileId)
  }

  function LitOr(s: Option<string>): Json {
    Str(Lit(if s.Some? then s.value else ""))
  }

  function FreshHeader(plaintext: seq<Octet>, o: Options, r: Randomness): HeaderValues {
    HeaderValues(LitOr(o.filename), LitOr(o.mimeType), Num(|plaintext|), Str(FileIdOf(o, r)))
  }

  /** The payload AAD values written by encryptFile. */
  function FreshPayload(plaintext: seq<Octet>, o: Options, r: Randomness): PayloadValues {
    var h := FreshHeader(plaintext, o, r);
    PayloadValues(h.originalFileName, h.mimeType, h.fileSize, h.fileId, h.originalFileName, h.fileSize)
  }

  function FreshFile(plaintext: seq<Octet>, o: Options, r: Randomness): EncryptedFile {
    var h := FreshHeader(plaintext, o, r);
    var cipher := Seal(FileKeyOf(o, r), r.fileNonce, PayloadAad(FreshPayload(plaintext, o, r)), Raw(plaintext));
    EncryptedFile(
      Base64(r.fileNonce), Base64(cipher),
      Some(h.originalFileName), Some(h.mimeType), Some(h.fileSize), Some(h.fileId),
      AadCopy(Some(h.originalFileName), Some(h.mimeType), Some(h.fileSize), Some(h.fileId),
              Some(h.originalFileName), Some(h.fileSize)))
  }

  function SaltMember(o: Options): Json {
    Str(Base64(Raw(o.salt)))
  }

  function WalletMember(o: Options): Json {
    Str(Lit(o.walletPubKey))
  }

  function FreshEnvelope(plaintext: seq<Octet>, o: Options, r: Randomness): Envelope {
    var wrapped := Seal(o.kek, r.wrapNonce, WrapAad(SaltMember(o), WalletMember(o), FreshHeader(plaintext, o, r)),
                        FileKeyOf(o, r));
    Envelope(Some(WalletMember(o)), Some(SaltMember(o)), Base64(r.wrapNonce), Base64(wrapped))
  }

  function EncryptFile(plaintext: seq<Octet>, o: Options, r: Randomness): Result<(EncryptedFile, Envelope), FileError> {
    if !Is32(FileKeyOf(o, r)) then Err(BadFileKey)
    else if Trim(o.walletPubKey) == [] then Err(MissingWallet)
    else if !UsableSalt(o.salt) then Err(BadSalt)
    else if !Is32(o.kek) then Err(BadKek)
    else Ok((FreshFile(plaintext, o, r), FreshEnvelope(plaintext, o, r)))
  }

  /** A member that is a string with something in it. */
  predicate NonEmptyText(j: Option<Json>) {
    j.Some? && j.value.Str? && j.value.text != Lit("")
  }

  predicate NonBlankText(j: Option<Json>) {
    NonEmptyText(j) && (j.value.text.Lit? ==> Trim(j.value.text.s) != [])
  }

  function DecryptFile(f: EncryptedFile, e: Envelope, kek: Bytes): Result<Bytes, FileError> {
    if !NonEmptyText(e.salt) then Err(MissingSalt)
    else if !NonBlankText(e.walletPubKey) then Err(MissingWallet)
    else if !NonEmptyText(Or(f.fileId, f.aad.fileId)) then Err(MissingFileId)
    else
      var wrapAad := WrapAad(e.salt.value, e.walletPubKey.value, HeaderOf(f));
      match Open(FromBase64(e.wrapCiphertext), FromBase64(e.wrapNonce), wrapAad, kek)
      case None => Err(UnwrapFailed)
      case Some(fileKey) =>
        match Open(FromBase64(f.ciphertext), FromBase64(f.nonce), PayloadAad(PayloadOf(f)), fileKey)
        case None => Err(DecryptFailed)
        case Some(plaintext) => Ok(plaintext)
  }

  /* ---- the AADs determine the values they were built from ---- */

  predicate Leaf(j: Json) {
    j.Str? || j.Num? || j.Null?
  }

  lemma LeafSort(a: Json, b: Json)
    requires Leaf(a) && SortTree(a) == SortTree(b)
    ensures a == b
  {
  }

  /** Reads every member of two objects with the same names and equal canonical texts. */
  lemma MembersAgree(a: seq<Member>, b: seq<Member>)
    requires |a| == |b| && forall i | 0 <= i < |a| :: a[i].name == b[i].name && Leaf(a[i].value)
    requires forall i, j | 0 <= i < j < |a| :: a[i].name != a[j].name
    requires Canonicalize(Obj(a)) == Canonicalize(Obj(b))
    ensures a == b
  {
    hide Lookup, SortMembers;
    forall i | 0 <= i < |a| ensures a[i] == b[i] {
      LookupAt(a, i);
      LookupAt(b, i);
      CanonicalBinds(a, b, a[i].name);
      LeafSort(a[i].value, b[i].value);
    }
  }

  predicate LeafHeader(h: HeaderValues) {
    Leaf(h.originalFileName) && Leaf(h.mimeType) && Leaf(h.fileSize) && Leaf(h.fileId)
  }

  lemma HeaderHashBinds(h1: HeaderValues, h2: HeaderValues)
    requires LeafHeader(h1) && HeaderHashOf(h1) == HeaderHashOf(h2)
    ensures h1 == h2
  {
    hide Canonicalize;
    var a, b := HeaderMembers(h1), HeaderMembers(h2);
    MembersAgree(a, b);
    assert a[0].value == b[0].value && a[1].value == b[1].value && a[2].value == b[2].value && a[3].value == b[3].value;
  }

  lemma WrapAadBinds(s1: Json, w1: Json, h1: HeaderValues, s2: Json, w2: Json, h2: HeaderValues)
    requires Leaf(s1) && Leaf(w1) && LeafHeader(h1)
    requires WrapAad(s1, w1, h1) == WrapAad(s2, w2, h2)
    ensures s1 == s2 && w1 == w2 && h1 == h2
  {
    hide Canonicalize, HeaderHashOf;
    var m1, m2 := WrapMembers(s1, w1, h1), WrapMembers(s2, w2, h2);
    MembersAgree(m1, m2);
    assert m1[1].value == m2[1].value && m1[2].value == m2[2].value && m1[4].value == m2[4].value;
    HeaderHashBinds(h1, h2);
  }

  lemma PayloadAadBinds(p: PayloadValues, q: PayloadValues)
    requires Leaf(p.originalFileName) && Leaf(p.mimeType) && Leaf(p.fileSize) && Leaf(p.fileId) && Leaf(p.filename)
    requires Leaf(p.size)
    requires PayloadAad(p) == PayloadAad(q)
    ensures p == q
  {
    hide Canonicalize;
    var a, b := PayloadMembers(p), PayloadMembers(q);
    MembersAgree(a, b);
    assert a[0].value == b[0].value && a[1].value == b[1].value && a[2].value == b[2].value;
    assert a[3].value == b[3].value && a[4].value == b[4].value && a[5].value == b[5].value;
  }

  /* ---- main results ---- */

  /**
   * What an encrypted file carries, from the options alone: the name, the type, the length of
   * the plaintext and the file id, each in two copies, the name and the length once more under
   * an alias; its envelope carries the salt and the wallet.
   */
  lemma EncryptedMetadata(plaintext: seq<Octet>, o: Options, r: Randomness)
    requires EncryptFile(plaintext, o, r).Ok?
    ensures var (file, env) := EncryptFile(plaintext, o, r).value;
            var name := Some(Str(Lit(if o.filename == None then "" else o.filename.value)));
            var mime := Some(Str(Lit(if o.mimeType == None then "" else o.mimeType.value)));
            var size := Some(Num(|plaintext|));
            var id := Some(Str(if o.fileId == None then Base64(r.fileId) else Lit(o.fileId.value)));
            && file.originalFileName == file.aad.originalFileName == file.aad.filename == name
            && file.mimeType == file.aad.mimeType == mime
            && file.fileSize == file.aad.fileSize == file.aad.size == size
            && file.fileId == file.aad.fileId == id
            && env.salt == Some(Str(Base64(Raw(o.salt)))) && env.walletPubKey == Some(Str(Lit(o.walletPubKey)))
            && file.nonce == Base64(r.fileNonce) && env.wrapNonce == Base64(r.wrapNonce)
  {
  }

  /**
   * What is sealed, and under which AADs: the file key under the KEK, bound to version 3, the
   * salt, the wallet, the file id and the hash of the four header values; the plaintext under
   * the file key, the caller's or a random one, bound to the six members that `aad` carries.
   */
  lemma SealedUnder(plaintext: seq<Octet>, o: Options, r: Randomness)
    requires EncryptFile(plaintext, o, r).Ok?
    ensures var (file, env) := EncryptFile(plaintext, o, r).value;
            var fileKey := if o.fileKey == None then r.fileKey else o.fileKey.value;
            var name, mime := file.aad.originalFileName.value, file.aad.mimeType.value;
            var size, id := file.aad.fileSize.value, file.aad.fileId.value;
            var header := [ Member(OriginalFileName, name), Member(MimeType, mime), Member(FileSize, size),
                Member(FileId, id) ];
            var hash := Str(Base64(Sha256(Utf8(Canonicalize(Obj(header))))));
            var wrapped := [ Member(V, Num(3)), Member(Salt, env.salt.value),
                Member(WalletPubKey, env.walletPubKey.value), Member(FileId, id), Member(HeaderHash, hash) ];
            var bound := header + [ Member(Filename, name), Member(Size, size) ];
            && env.wrapCiphertext == Base64(Seal(o.kek, r.wrapNonce, Utf8(Canonicalize(Obj(wrapped))), fileKey))
            && file.ciphertext == Base64(Seal(fileKey, r.fileNonce, Utf8(Canonicalize(Obj(bound))), Raw(plaintext)))
  {
    hide Canonicalize, HeaderMembers, WrapMembers, PayloadMembers;
    MembersSpelledOut(FreshHeader(plaintext, o, r), SaltMember(o), WalletMember(o), FreshPayload(plaintext, o, r));
  }

  lemma MembersSpelledOut(h: HeaderValues, salt: Json, wallet: Json, p: PayloadValues)
    ensures var header := [ Member(OriginalFileName, h.originalFileName), Member(MimeType, h.mimeType),
                Member(FileSize, h.fileSize), Member(FileId, h.fileId) ];
            && HeaderMembers(h) == header
            && WrapMembers(salt, wallet, h)
            == [ Member(V, Num(3)), Member(Salt, salt), Member(WalletPubKey, wallet), Member(FileId, h.fileId),
                 Member(HeaderHash, Str(Base64(Sha256(Utf8(Canonicalize(Obj(header))))))) ]
            && (p == PayloadValues(h.originalFileName, h.mimeType, h.fileSize, h.fileId, h.originalFileName, h.fileSize)
                ==> PayloadMembers(p)
                    == header + [ Member(Filename, h.originalFileName), Member(Size, h.fileSize) ])
  {
    hide Canonicalize;
  }

  /** The first copy that is there and not null is `v`. */
  predicate FirstGiven(copies: seq<Option<Json>>, v: Json) {
    exists i | 0 <= i < |copies| ::
      copies[i] == Some(v) && v != Null && forall j | 0 <= j < i :: copies[j] == None || copies[j] == Some(Null)
  }

  lemma FirstOfTwo(a: Option<Json>, b: Option<Json>, v: Json)
    requires v != Null
    ensures OrNull(Or(a, b)) == v <==> FirstGiven([a, b], v)
  {
    var s := [a, b];
    assert s[0] == a && s[1] == b;
    if OrNull(Or(a, b)) == v {
      var i := if a == None || a == Some(Null) then 1 else 0;
      assert s[i] == Some(v) && forall j | 0 <= j < i :: s[j] == None || s[j] == Some(Null);
    }
  }

  lemma FirstOfThree(a: Option<Json>, b: Option<Json>, c: Option<Json>, v: Json)
    requires v != Null
    ensures OrNull(Or(a, Or(b, c))) == v <==> FirstGiven([a, b, c], v)
  {
    var s := [a, b, c];
    assert s[0] == a && s[1] == b && s[2] == c;
    if OrNull(Or(a, Or(b, c))) == v {
      var i := if a != None && a != Some(Null) then 0 else if b != None && b != Some(Null) then 1 else 2;
      assert s[i] == Some(v) && forall j | 0 <= j < i :: s[j] == None || s[j] == Some(Null);
    }
  }

  /** The file still yields this name, type, length and id for the header. */
  predicate HeaderYields(f: EncryptedFile, name: Json, mime: Json, size: Json, id: Json) {
    && FirstGiven([f.originalFileName, f.aad.originalFileName, f.aad.filename], name)
    && FirstGiven([f.mimeType, f.aad.mimeType], mime)
    && FirstGiven([f.fileSize, f.aad.fileSize, f.aad.size], size)
    && FirstGiven([f.fileId, f.aad.fileId], id)
  }

  /** The file still yields them for the payload AAD, whose six members fall back differently. */
  predicate PayloadYields(f: EncryptedFile, name: Json, mime: Json, size: Json, id: Json) {
    && FirstGiven([f.originalFileName, f.aad.originalFileName], name) && FirstGiven([f.mimeType, f.aad.mimeType], mime)
    && FirstGiven([f.fileSize, f.aad.fileSize], size) && FirstGiven([f.fileId, f.aad.fileId], id)
    && FirstGiven([f.aad.filename, f.originalFileName], name) && FirstGiven([f.aad.size, f.fileSize], size)
  }

  lemma HeaderYieldsExactly(f: EncryptedFile, h: HeaderValues)
    requires h.originalFileName != Null && h.mimeType != Null && h.fileSize != Null && h.fileId != Null
    ensures HeaderOf(f) == h <==> HeaderYields(f, h.originalFileName, h.mimeType, h.fileSize, h.fileId)
  {
    hide FirstGiven, Or, OrNull;
    FirstOfThree(f.originalFileName, f.aad.originalFileName, f.aad.filename, h.originalFileName);
    FirstOfTwo(f.mimeType, f.aad.mimeType, h.mimeType);
    FirstOfThree(f.fileSize, f.aad.fileSize, f.aad.size, h.fileSize);
    FirstOfTwo(f.fileId, f.aad.fileId, h.fileId);
  }

  lemma PayloadYieldsExactly(f: EncryptedFile, name: Json, mime: Json, size: Json, id: Json)
    requires name != Null && mime != Null && size != Null && id != Null
    ensures PayloadOf(f) == PayloadValues(name, mime, size, id, name, size) <==> PayloadYields(f, name, mime, size, id)
  {
    hide FirstGiven, Or, OrNull;
    FirstOfTwo(f.originalFileName, f.aad.originalFileName, name);
    FirstOfTwo(f.mimeType, f.aad.mimeType, mime);
    FirstOfTwo(f.fileSize, f.aad.fileSize, size);
    FirstOfTwo(f.fileId, f.aad.fileId, id);
    FirstOfTwo(f.aad.filename, f.originalFileName, name);
    FirstOfTwo(f.aad.size, f.fileSize, size);
  }

  lemma WrapValues(plaintext: seq<Octet>, o: Options, r: Randomness, f: EncryptedFile, e: Envelope, kek: Bytes)
    requires EncryptFile(plaintext, o, r).Ok?
    requires var env := EncryptFile(plaintext, o, r).value.1;
             e.wrapNonce == env.wrapNonce && e.wrapCiphertext == env.wrapCiphertext
    requires DecryptFile(f, e, kek).Ok? || DecryptFile(f, e, kek) == Err(DecryptFailed)
    ensures kek == o.kek && HeaderOf(f) == FreshHeader(plaintext, o, r)
    ensures e.salt == Some(SaltMember(o)) && e.walletPubKey == Some(WalletMember(o))
  {
    hide WrapAad, PayloadAad, Trim, HeaderOf, PayloadOf, FreshPayload;
    WrapAadBinds(SaltMember(o), WalletMember(o), FreshHeader(plaintext, o, r),
                 e.salt.value, e.walletPubKey.value, HeaderOf(f));
  }

  /**
   * Take an envelope made by encryptFile, keep its wrapped key, and change anything else:
   * the file's metadata, the salt, the wallet, the KEK. If decryptFile still gets past the
   * unwrap, then KEK, salt and wallet are the caller's, and the name, type, length and id the
   * file yields are those of the options and the plaintext.
   */
  lemma WrapBinding(plaintext: seq<Octet>, o: Options, r: Randomness, f: EncryptedFile, e: Envelope, kek: Bytes)
    requires EncryptFile(plaintext, o, r).Ok?
    requires var env := EncryptFile(plaintext, o, r).value.1;
             e.wrapNonce == env.wrapNonce && e.wrapCiphertext == env.wrapCiphertext
    requires DecryptFile(f, e, kek).Ok? || DecryptFile(f, e, kek) == Err(DecryptFailed)
    ensures kek == o.kek && e.salt == Some(Str(Base64(Raw(o.salt))))
    ensures e.walletPubKey == Some(Str(Lit(o.walletPubKey)))
    ensures HeaderYields(f, Str(Lit(if o.filename == None then "" else o.filename.value)),
                         Str(Lit(if o.mimeType == None then "" else o.mimeType.value)), Num(|plaintext|),
                         Str(if o.fileId == None then Base64(r.fileId) else Lit(o.fileId.value)))
  {
    hide EncryptFile, DecryptFile, HeaderOf, HeaderYields;
    WrapValues(plaintext, o, r, f, e, kek);
    HeaderYieldsExactly(f, FreshHeader(plaintext, o, r));
  }

  /** Everything decryptFile rebuilds is what encryptFile was given. */
  predicate Originals(plaintext: seq<Octet>, o: Options, r: Randomness, f: EncryptedFile, e: Envelope, kek: Bytes) {
    var name := Str(Lit(if o.filename == None then "" else o.filename.value));
    var mime := Str(Lit(if o.mimeType == None then "" else o.mimeType.value));
    var id := Str(if o.fileId == None then Base64(r.fileId) else Lit(o.fileId.value));
    && kek == o.kek && e.salt == Some(Str(Base64(Raw(o.salt))))
    && e.walletPubKey == Some(Str(Lit(o.walletPubKey)))
    && HeaderYields(f, name, mime, Num(|plaintext|), id) && PayloadYields(f, name, mime, Num(|plaintext|), id)
  }

  lemma OriginalsMean(plaintext: seq<Octet>, o: Options, r: Randomness, f: EncryptedFile, e: Envelope, kek: Bytes)
    ensures Originals(plaintext, o, r, f, e, kek) <==>
        && kek == o.kek && e.salt == Some(SaltMember(o)) && e.walletPubKey == Some(WalletMember(o))
        && HeaderOf(f) == FreshHeader(plaintext, o, r) && PayloadOf(f) == FreshPayload(plaintext, o, r)
  {
    hide HeaderOf, PayloadOf, HeaderYields, PayloadYields;
    var h := FreshHeader(plaintext, o, r);
    HeaderYieldsExactly(f, h);
    PayloadYieldsExactly(f, h.originalFileName, h.mimeType, h.fileSize, h.fileId);
  }

  /**
   * With ciphertext and wrapped key untouched, decryptFile returns the plaintext exactly
   * when the KEK, the salt, the wallet and every rebuilt metadata value are the original
   * ones and the file id is not the empty string; otherwise it returns no plaintext at all.
   */
  lemma DecryptsExactlyWhen(plaintext: seq<Octet>, o: Options, r: Randomness, f: EncryptedFile, e: Envelope, kek: Bytes)
    requires EncryptFile(plaintext, o, r).Ok?
    requires var (file, env) := EncryptFile(plaintext, o, r).value;
             && f.nonce == file.nonce && f.ciphertext == file.ciphertext
             && e.wrapNonce == env.wrapNonce && e.wrapCiphertext == env.wrapCiphertext
    ensures DecryptFile(f, e, kek) == Ok(Raw(plaintext)) <==>
        Originals(plaintext, o, r, f, e, kek) && o.fileId != Some("")
    ensures DecryptFile(f, e, kek).Ok? ==> DecryptFile(f, e, kek) == Ok(Raw(plaintext))
  {
    hide WrapAad, PayloadAad, Trim, HeaderOf, PayloadOf, FreshHeader, Originals;
    OriginalsMean(plaintext, o, r, f, e, kek);
    if DecryptFile(f, e, kek).Ok? {
      WrapValues(plaintext, o, r, f, e, kek);
      FreshLeaves(plaintext, o, r);
      PayloadAadBinds(FreshPayload(plaintext, o, r), PayloadOf(f));
    }
    if Originals(plaintext, o, r, f, e, kek) {
      OriginalsDecrypt(plaintext, o, r, f, e, kek);
    }
  }

  lemma FreshLeaves(plaintext: seq<Octet>, o: Options, r: Randomness)
    ensures LeafHeader(FreshHeader(plaintext, o, r))
  {
  }

  /** With every original value in place, nothing is refused but an empty file id. */
  lemma OriginalsDecrypt(plaintext: seq<Octet>, o: Options, r: Randomness, f: EncryptedFile, e: Envelope, kek: Bytes)
    requires EncryptFile(plaintext, o, r).Ok? && Originals(plaintext, o, r, f, e, kek)
    requires var (file, env) := EncryptFile(plaintext, o, r).value;
             && f.nonce == file.nonce && f.ciphertext == file.ciphertext
             && e.wrapNonce == env.wrapNonce && e.wrapCiphertext == env.wrapCiphertext
    ensures DecryptFile(f, e, kek) == if o.fileId == Some("") then Err(MissingFileId) else Ok(Raw(plaintext))
  {
    hide WrapAad, PayloadAad, HeaderOf, PayloadOf, FreshPayload, Or, Trim, NonBlankText, Originals;
    OriginalsMean(plaintext, o, r, f, e, kek);
    FileIdFound(f, FileIdOf(o, r));
    WalletAccepted(o);
  }

  lemma WalletAccepted(o: Options)
    requires Trim(o.walletPubKey) != []
    ensures NonBlankText(Some(WalletMember(o)))
  {
  }

  lemma FileIdFound(f: EncryptedFile, id: Text)
    requires HeaderOf(f).fileId == Str(id)
    ensures Or(f.fileId, f.aad.fileId) == Some(Str(id))
  {
  }

  /**
   * Encryption accepts exactly 32-byte keys, a 16- or 32-byte salt and a non-blank wallet; then
   * decryption inverts it for every plaintext, name and type exactly when the caller did not
   * pass an empty file id: encryptFile accepts one, decryptFile refuses it.
   */
  lemma RoundTrip(plaintext: seq<Octet>, o: Options, r: Randomness)
    ensures EncryptFile(plaintext, o, r).Ok? <==>
              && Is32(if o.fileKey == None then r.fileKey else o.fileKey.value) && Trim(o.walletPubKey) != []
              && (|o.salt| == 16 || |o.salt| == 32) && Is32(o.kek)
    ensures EncryptFile(plaintext, o, r).Ok? ==>
              var (file, env) := EncryptFile(plaintext, o, r).value;
              DecryptFile(file, env, o.kek) == if o.fileId == Some("") then Err(MissingFileId) else Ok(Raw(plaintext))
  {
    hide WrapAad, PayloadAad, DecryptFile, Originals;
    if EncryptFile(plaintext, o, r).Ok? {
      var (file, env) := EncryptFile(plaintext, o, r).value;
      OriginalsMean(plaintext, o, r, file, env, o.kek);
      OriginalsDecrypt(plaintext, o, r, file, env, o.kek);
    }
  }

  /**
   * What a file is tied to. Take the KEK from an unlock signed at encryption, under the salt
   * that goes into the envelope; later take one from any unlock in time, under the salt of
   * the envelope. It opens the file exactly if it is the same unlock, field by field: a fresh
   * one, whose nonce differs, does not.
   */
  lemma UnlockOpensFile(plaintext: seq<Octet>, o: Options, r: Randomness, u1: K.Unlock, now1: int, u2: K.Unlock,
      now2: int)
    requires K.DeriveKekFromUnlock(K.Sign(u1.wallet, K.UnlockMessage(u1)), Some(Raw(o.salt)), u1, now1) == Ok(o.kek)
    requires EncryptFile(plaintext, o, r).Ok? && o.fileId != Some("") && now2 < u2.expiresAt
    ensures var (file, env) := EncryptFile(plaintext, o, r).value;
            var kek := K.DeriveKekFromUnlock(K.Sign(u2.wallet, K.UnlockMessage(u2)),
                Some(FromBase64(env.salt.value.text)), u2, now2);
            && kek.Ok? && (DecryptFile(file, env, kek.value) == Ok(Raw(plaintext)) <==> u1 == u2)
            && (u1 != u2 ==> DecryptFile(file, env, kek.value) == Err(UnwrapFailed))
  {
    hide EncryptFile, DecryptFile, K.UnlockMessage, K.DeriveKekFromSignature;
    var (file, env) := EncryptFile(plaintext, o, r).value;
    EncryptedMetadata(plaintext, o, r);
    RoundTrip(plaintext, o, r);
    K.UnlockMessageBinding(u1, u2);
    K.KekBinding(K.Sign(u1.wallet, K.UnlockMessage(u1)), o.salt, K.Sign(u2.wallet, K.UnlockMessage(u2)), o.salt);
    var kek := K.DeriveKekFromSignature(K.Sign(u2.wallet, K.UnlockMessage(u2)), Some(Raw(o.salt)));
    if kek != o.kek {
      OtherKeyFails(plaintext, o, r, kek);
    }
  }

  lemma OtherKeyFails(plaintext: seq<Octet>, o: Options, r: Randomness, kek: Bytes)
    requires EncryptFile(plaintext, o, r).Ok? && o.fileId != Some("") && kek != o.kek
    ensures var (file, env) := EncryptFile(plaintext, o, r).value;
            DecryptFile(file, env, kek) == Err(UnwrapFailed)
  {
    hide WrapAad, PayloadAad, HeaderOf, PayloadOf, FreshHeader, FreshPayload, Trim, NonBlankText;
    EncryptedMetadata(plaintext, o, r);
    WalletAccepted(o);
  }

  /** Which metadata copies survive. */
  datatype Keep = Keep(
    name: bool, mime: bool, size: bool, id: bool,
    aadName: bool, aadMime: bool, aadSize: bool, aadId: bool, aadFilename: bool, aadSizeAlias: bool)

  function If(keep: bool, j: Option<Json>): Option<Json> {
    if keep then j else None
  }

  function Strip(f: EncryptedFile, k: Keep): EncryptedFile {
    EncryptedFile(
      f.nonce, f.ciphertext,
      If(k.name, f.originalFileName), If(k.mime, f.mimeType), If(k.size, f.fileSize), If(k.id, f.fileId),
      AadCopy(If(k.aadName, f.aad.originalFileName), If(k.aadMime, f.aad.mimeType), If(k.aadSize, f.aad.fileSize),
              If(k.aadId, f.aad.fileId), If(k.aadFilename, f.aad.filename), If(k.aadSizeAlias, f.aad.size)))
  }

  /** Each of the six payload values has at least one surviving copy. */
  predicate Enough(k: Keep) {
    && (k.name || k.aadName) && (k.mime || k.aadMime) && (k.size || k.aadSize) && (k.id || k.aadId)
    && (k.aadFilename || k.name) && (k.aadSizeAlias || k.size)
  }

  lemma KeptValues(h: HeaderValues, f: EncryptedFile, k: Keep)
    requires h.originalFileName.Str? && h.mimeType.Str? && h.fileSize.Num? && h.fileId.Str?
    requires f.originalFileName == If(k.name, Some(h.originalFileName)) && f.mimeType == If(k.mime, Some(h.mimeType))
    requires f.fileSize == If(k.size, Some(h.fileSize)) && f.fileId == If(k.id, Some(h.fileId))
    requires f.aad.originalFileName == If(k.aadName, Some(h.originalFileName))
    requires f.aad.mimeType == If(k.aadMime, Some(h.mimeType))
    requires f.aad.fileSize == If(k.aadSize, Some(h.fileSize)) && f.aad.fileId == If(k.aadId, Some(h.fileId))
    requires f.aad.filename == If(k.aadFilename, Some(h.originalFileName))
    requires f.aad.size == If(k.aadSizeAlias, Some(h.fileSize))
    ensures PayloadOf(f) == PayloadValues(h.originalFileName, h.mimeType, h.fileSize, h.fileId,
                                          h.originalFileName, h.fileSize)
       <==> Enough(k)
    ensures Enough(k) ==> HeaderOf(f) == h
  {
    var p := PayloadOf(f);
    assert p.originalFileName == h.originalFileName <==> k.name || k.aadName;
    assert p.mimeType == h.mimeType <==> k.mime || k.aadMime;
    assert p.fileSize == h.fileSize <==> k.size || k.aadSize;
    assert p.fileId == h.fileId <==> k.id || k.aadId;
    assert p.filename == h.originalFileName <==> k.aadFilename || k.name;
    assert p.size == h.fileSize <==> k.aadSizeAlias || k.size;
  }

  /**
   * After deleting any subset of the ten metadata copies, decryption still returns the
   * plaintext exactly when every payload value kept a copy. The alias `filename` alone is
   * not enough: the header falls back to it, the payload AAD does not.
   */
  lemma DeletedCopies(plaintext: seq<Octet>, o: Options, r: Randomness, k: Keep)
    requires EncryptFile(plaintext, o, r).Ok? && o.fileId != Some("")
    ensures var (file, env) := EncryptFile(plaintext, o, r).value;
            DecryptFile(Strip(file, k), env, o.kek) == Ok(Raw(plaintext)) <==> Enough(k)
  {
    hide WrapAad, PayloadAad, DecryptFile, HeaderOf, PayloadOf, If, Enough, Trim, Is32, UsableSalt, FileKeyOf,
         Originals;
    var (file, env) := EncryptFile(plaintext, o, r).value;
    OriginalsMean(plaintext, o, r, Strip(file, k), env, o.kek);
    DecryptsExactlyWhen(plaintext, o, r, Strip(file, k), env, o.kek);
    KeptValues(FreshHeader(plaintext, o, r), Strip(file, k), k);
  }

  /** Deleting the whole top-level copy, or the whole `aad`, is harmless. */
  lemma EitherCopySuffices(plaintext: seq<Octet>, o: Options, r: Randomness)
    requires EncryptFile(plaintext, o, r).Ok? && o.fileId != Some("")
    ensures var (file, env) := EncryptFile(plaintext, o, r).value;
            && DecryptFile(Strip(file, Keep(false, false, false, false, true, true, true, true, true, true)), env,
                           o.kek) == Ok(Raw(plaintext))
            && DecryptFile(Strip(file, Keep(true, true, true, true, false, false, false, false, false, false)), env,
                           o.kek) == Ok(Raw(plaintext))
  {
    hide EncryptFile, DecryptFile, Strip;
    DeletedCopies(plaintext, o, r, Keep(false, false, false, false, true, true, true, true, true, true));
    DeletedCopies(plaintext, o, r, Keep(true, true, true, true, false, false, false, false, false, false));
  }
}
