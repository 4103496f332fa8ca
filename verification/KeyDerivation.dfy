/**
 * Messages to sign and the keys derived from their signatures
 * (packages/crypto/src/index.ts, packages/crypto/src/v0_local_encryption/localEncryption.ts).
 */
module KeyDerivation {
  import opened Wrappers
  import opened OctetStrings
  import opened Terms

  const KEK_INFO: Bytes := Utf8(Lit("SJ-KEK-v1"))
  const MANIFEST_KEY_INFO: Bytes := Utf8(Lit("SJ-MANIFEST-v1"))
  const UNLOCK_TEMPLATE := "SJ_UNLOCK_V1"
  const VAULT_ROOT_TEMPLATE := "SJ_VAULT_ROOT_V1"
  const UNLOCK_TTL_MS := 10 * 60 * 1000

  /* ---- HKDF with a 32-byte output (see HkdfTerms.KeyTermIsHkdf) ---- */

  function NormalizeSalt(salt: Option<Bytes>): Bytes {
    if salt.Some? && NonEmpty(salt.value) then salt.value else Raw(Zeros(32))
  }

  function DeriveKey32(ikm: Bytes, salt: Option<Bytes>, info: Bytes): (key: Bytes)
    ensures Is32(key)
  {
    Hmac(Hmac(NormalizeSalt(salt), [ikm]), [info, Raw([1])])
  }

  function DeriveKekFromSignature(signature: Bytes, salt: Option<Bytes>): (kek: Bytes)
    ensures Is32(kek)
  {
    DeriveKey32(Sha256(signature), salt, KEK_INFO)
  }

  function DeriveVaultRootKek(signature: Bytes): (kek: Bytes)
    ensures Is32(kek)
  {
    DeriveKekFromSignature(signature, None)
  }

  function DeriveManifestKey(kek: Bytes): (key: Bytes)
    ensures Is32(key)
  {
    DeriveKey32(kek, None, MANIFEST_KEY_INFO)
  }

  /* ---- messages ---- */

  function VaultRootObject(wallet: string, vaultId: string): seq<Member> {
    [ Member(Sj, Str(Lit("SovereignJedi"))), Member(Ver, Str(Lit("1"))), Member(Type, Str(Lit("VAULT_ROOT"))),
      Member(Wallet, Str(Lit(wallet))), Member(VaultId, Str(Lit(vaultId))) ]
  }

  function VaultRootMessage(wallet: string, vaultId: string): Text {
    Line(VAULT_ROOT_TEMPLATE, Canonicalize(Obj(VaultRootObject(wallet, vaultId))))
  }

  /** A signed unlock request; times are epoch milliseconds. */
  datatype Unlock = Unlock(origin: string, wallet: string, nonce: Bytes, issuedAt: int, expiresAt: int, vaultId: string)

  function BuildUnlock(origin: string, wallet: string, nonce: Bytes, issuedAt: int, vaultId: string): Unlock {
    Unlock(origin, wallet, nonce, issuedAt, issuedAt + UNLOCK_TTL_MS, vaultId)
  }

  function UnlockObject(u: Unlock): seq<Member> {
    [ Member(Sj, Str(Lit("SovereignJedi"))), Member(Ver, Str(Lit("1"))), Member(Type, Str(Lit("UNLOCK"))),
      Member(Origin, Str(Lit(u.origin))), Member(Wallet, Str(Lit(u.wallet))), Member(Nonce, Str(Base64(u.nonce))),
      Member(IssuedAt, Num(u.issuedAt)), Member(ExpiresAt, Num(u.expiresAt)), Member(VaultId, Str(Lit(u.vaultId))) ]
  }

  function UnlockMessage(u: Unlock): Text {
    Line(UNLOCK_TEMPLATE, Canonicalize(Obj(UnlockObject(u))))
  }

  predicate UnlockExpired(u: Unlock, now: int) {
    u.expiresAt <= now
  }

  datatype KekError = UnlockHasExpired

  /** The only public route to a file KEK: an expired unlock is refused before derivation. */
  function DeriveKekFromUnlock(signature: Bytes, salt: Option<Bytes>, u: Unlock, now: int): Result<Bytes, KekError> {
    if UnlockExpired(u, now) then Err(UnlockHasExpired) else Ok(DeriveKekFromSignature(signature, salt))
  }

  /** What a wallet (Ed25519, deterministic by section 5.1.6 of RFC 8032) returns for a message. */
  function Sign(wallet: string, message: Text): Bytes {
    Signature(wallet, Utf8(message))
  }

  const DEFAULT_VAULT := "local-default"

  /** The vault-root signature of a wallet: the same bytes in every session. */
  function RootSignature(wallet: string): Bytes {
    Sign(wallet, VaultRootMessage(wallet, DEFAULT_VAULT))
  }

  /* ---- what the keys are bound to ---- */

  /** The two messages a wallet signs, spelled out. */
  lemma MessagesSpelledOut(wallet: string, vaultId: string, u: Unlock)
    ensures VaultRootMessage(wallet, vaultId) == Line("SJ_VAULT_ROOT_V1", Canonicalize(Obj([
              Member(Sj, Str(Lit("SovereignJedi"))), Member(Ver, Str(Lit("1"))), Member(Type, Str(Lit("VAULT_ROOT"))),
              Member(Wallet, Str(Lit(wallet))), Member(VaultId, Str(Lit(vaultId))) ])))
    ensures UnlockMessage(u) == Line("SJ_UNLOCK_V1", Canonicalize(Obj([
              Member(Sj, Str(Lit("SovereignJedi"))), Member(Ver, Str(Lit("1"))), Member(Type, Str(Lit("UNLOCK"))),
              Member(Origin, Str(Lit(u.origin))), Member(Wallet, Str(Lit(u.wallet))),
              Member(Nonce, Str(Base64(u.nonce))), Member(IssuedAt, Num(u.issuedAt)),
              Member(ExpiresAt, Num(u.expiresAt)), Member(VaultId, Str(Lit(u.vaultId))) ])))
    ensures RootSignature(wallet) == Signature(wallet, Utf8(VaultRootMessage(wallet, "local-default")))
  {
    hide Canonicalize;
  }

  /** The keys spelled out: extract with the salt, or with 32 zero bytes, and expand one block. */
  lemma KeysSpelledOut(signature: Bytes, salt: seq<Octet>, key: Bytes)
    ensures var zeros := Raw(seq(32, _ => 0));
            var extracted := Hmac(if salt == [] then zeros else Raw(salt), [Sha256(signature)]);
            && DeriveKekFromSignature(signature, Some(Raw(salt))) == Hmac(extracted, [Utf8(Lit("SJ-KEK-v1")), Raw([1])])
            && DeriveVaultRootKek(signature)
            == Hmac(Hmac(zeros, [Sha256(signature)]), [Utf8(Lit("SJ-KEK-v1")), Raw([1])])
            && DeriveManifestKey(key) == Hmac(Hmac(zeros, [key]), [Utf8(Lit("SJ-MANIFEST-v1")), Raw([1])])
  {
    assert Zeros(32) == seq(32, _ => 0);
  }

  /**
   * A file KEK is bound to the signature and the salt: with salts of one length, two are equal
   * exactly when both agree. No salt and an empty one give the vault-root KEK.
   */
  lemma KekBinding(s1: Bytes, salt1: seq<Octet>, s2: Bytes, salt2: seq<Octet>)
    ensures |salt1| == |salt2| ==>
              (DeriveKekFromSignature(s1, Some(Raw(salt1))) == DeriveKekFromSignature(s2, Some(Raw(salt2))) <==>
               s1 == s2 && salt1 == salt2)
    ensures DeriveKekFromSignature(s1, None) == DeriveKekFromSignature(s1, Some(Raw([]))) == DeriveVaultRootKek(s1)
  {
    KeysSpelledOut(s1, salt1, s1);
    KeysSpelledOut(s2, salt2, s2);
    var k1, k2 := DeriveKekFromSignature(s1, Some(Raw(salt1))), DeriveKekFromSignature(s2, Some(Raw(salt2)));
    if k1 == k2 {
      assert k1.key.parts[0] == k2.key.parts[0] && k1.key.key == k2.key.key;
    }
  }

  /** An unlock is good for ten minutes: until then it yields the KEK of its signature and salt, after that nothing. */
  lemma UnlockWindow(signature: Bytes, salt: Option<Bytes>, u: Unlock, origin: string, wallet: string, nonce: Bytes,
      issuedAt: int, vaultId: string, now: int)
    ensures DeriveKekFromUnlock(signature, salt, u, now)
         == if u.expiresAt <= now then Err(UnlockHasExpired) else Ok(DeriveKekFromSignature(signature, salt))
    ensures DeriveKekFromUnlock(signature, salt, BuildUnlock(origin, wallet, nonce, issuedAt, vaultId), now).Ok? <==>
        now < issuedAt + 600_000
  {
    hide DeriveKekFromSignature;
  }

  lemma VaultRootLookups(wallet: string, vaultId: string)
    ensures var o := VaultRootObject(wallet, vaultId);
            Lookup(o, Wallet) == Some(Str(Lit(wallet))) && Lookup(o, VaultId) == Some(Str(Lit(vaultId)))
  {
    hide Lookup;
    LookupAt(VaultRootObject(wallet, vaultId), 3);
    LookupAt(VaultRootObject(wallet, vaultId), 4);
  }

  /**
   * The manifest key depends on the wallet and the vault and on nothing else of the
   * session: two sessions reach the same key exactly when both agree.
   */
  lemma ManifestKeyBinding(w1: string, v1: string, w2: string, v2: string)
    ensures DeriveManifestKey(DeriveVaultRootKek(Sign(w1, VaultRootMessage(w1, v1))))
         == DeriveManifestKey(DeriveVaultRootKek(Sign(w2, VaultRootMessage(w2, v2))))
       <==> w1 == w2 && v1 == v2
  {
    hide Lookup, SortMembers, VaultRootObject, DeriveVaultRootKek, DeriveManifestKey;
    var a, b := VaultRootObject(w1, v1), VaultRootObject(w2, v2);
    if Canonicalize(Obj(a)) == Canonicalize(Obj(b)) {
      VaultRootLookups(w1, v1);
      VaultRootLookups(w2, v2);
      CanonicalBinds(a, b, Wallet);
      CanonicalBinds(a, b, VaultId);
    }
    PartsAgree(DeriveManifestKey(DeriveVaultRootKek(Sign(w1, VaultRootMessage(w1, v1)))),
               DeriveManifestKey(DeriveVaultRootKek(Sign(w2, VaultRootMessage(w2, v2)))),
               Sign(w1, VaultRootMessage(w1, v1)), Sign(w2, VaultRootMessage(w2, v2)));
  }

  lemma PartsAgree(k1: Bytes, k2: Bytes, s1: Bytes, s2: Bytes)
    requires k1 == DeriveManifestKey(DeriveVaultRootKek(s1)) && k2 == DeriveManifestKey(DeriveVaultRootKek(s2))
    ensures k1 == k2 <==> s1 == s2
  {
    if k1 == k2 {
      assert k1.key.parts[0] == k2.key.parts[0];
      assert DeriveVaultRootKek(s1) == DeriveVaultRootKek(s2);
      assert DeriveVaultRootKek(s1).key.parts[0] == DeriveVaultRootKek(s2).key.parts[0];
    }
  }

  /**
   * Domain separation: no unlock signature, whatever its fields and salt, yields the
   * vault-root KEK of any wallet, because the signed messages start differently.
   */
  lemma UnlockKekIsNeverRootKek(u: Unlock, salt: Option<Bytes>, wallet: string, vaultId: string)
    ensures DeriveKekFromSignature(Sign(u.wallet, UnlockMessage(u)), salt)
         != DeriveVaultRootKek(Sign(wallet, VaultRootMessage(wallet, vaultId)))
  {
    var s1, s2 := Sign(u.wallet, UnlockMessage(u)), Sign(wallet, VaultRootMessage(wallet, vaultId));
    assert |UNLOCK_TEMPLATE| != |VAULT_ROOT_TEMPLATE|;
    assert s1 != s2;
    assert DeriveKekFromSignature(s1, salt).key.parts[0] != DeriveVaultRootKek(s2).key.parts[0];
  }

  lemma UnlockLookups(u: Unlock)
    ensures var o := UnlockObject(u);
            && Lookup(o, Origin) == Some(Str(Lit(u.origin))) && Lookup(o, Wallet) == Some(Str(Lit(u.wallet)))
            && Lookup(o, Nonce) == Some(Str(Base64(u.nonce))) && Lookup(o, IssuedAt) == Some(Num(u.issuedAt))
            && Lookup(o, ExpiresAt) == Some(Num(u.expiresAt)) && Lookup(o, VaultId) == Some(Str(Lit(u.vaultId)))
  {
    hide Lookup;
    var o := UnlockObject(u);
    forall i | 3 <= i <= 8 ensures Lookup(o, o[i].name) == Some(o[i].value) {
      LookupAt(o, i);
    }
    assert o[3].name == Origin && o[4].name == Wallet && o[5].name == Nonce;
    assert o[6].name == IssuedAt && o[7].name == ExpiresAt && o[8].name == VaultId;
  }

  /** The signed unlock text determines every field of the unlock. */
  lemma UnlockMessageBinding(a: Unlock, b: Unlock)
    ensures UnlockMessage(a) == UnlockMessage(b) <==> a == b
  {
    hide Lookup, SortMembers, UnlockObject;
    if UnlockMessage(a) == UnlockMessage(b) {
      UnlockLookups(a);
      UnlockLookups(b);
      var oa, ob := UnlockObject(a), UnlockObject(b);
      CanonicalBinds(oa, ob, Origin);
      CanonicalBinds(oa, ob, Wallet);
      CanonicalBinds(oa, ob, Nonce);
      CanonicalBinds(oa, ob, IssuedAt);
      CanonicalBinds(oa, ob, ExpiresAt);
      CanonicalBinds(oa, ob, VaultId);
    }
  }
}
