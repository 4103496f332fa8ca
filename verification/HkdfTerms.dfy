/**
 * The symbolic 32-byte keys of KeyDerivation are what the HKDF loop computes, whatever bytes
 * the remaining terms stand for.
 */
module HkdfTerms {
  import opened Wrappers
  import opened OctetStrings
  import opened Terms
  import H = Hkdf
  import K = KeyDerivation

  /** The bytes that a term stands for. */
  type Meaning = Bytes -> Octets

  function Joined(val: Meaning, parts: seq<Bytes>): Octets {
    if parts == [] then [] else val(parts[0]) + Joined(val, parts[1..])
  }

  /** Raw octets stand for themselves, an HMAC term for a tag, and only empty terms for nothing. */
  ghost predicate Respects(val: Meaning, h: H.Mac) {
    && (forall octets :: val(Raw(octets)) == octets)
    && (forall key, parts :: val(Hmac(key, parts)) == h(val(key), Joined(val, parts)))
    && (forall b :: NonEmpty(b) <==> val(b) != [])
  }

  function SaltBytes(val: Meaning, salt: Option<Bytes>): Option<Octets> {
    if salt.Some? then Some(val(salt.value)) else None
  }

  lemma SaltAgrees(val: Meaning, h: H.Mac, salt: Option<Bytes>)
    requires Respects(val, h)
    ensures val(K.NormalizeSalt(salt)) == H.NormalizeSalt(SaltBytes(val, salt))
  {
    hide NonEmpty;
  }

  lemma JoinTwo(val: Meaning, a: Bytes, b: Bytes)
    ensures Joined(val, [a]) == val(a) && Joined(val, [a, b]) == val(a) + val(b)
  {
    assert [a][1..] == [] && [b][1..] == [] && [a, b][1..] == [b];
    assert Joined(val, []) == [];
    assert Joined(val, [a]) == val(a) + Joined(val, []) && Joined(val, [b]) == val(b) + Joined(val, []);
  }

  /** A derived key term stands for the 32 bytes of HKDF extract and expand on its parts. */
  lemma KeyTermIsHkdf(val: Meaning, h: H.Mac, ikm: Bytes, salt: Option<Bytes>, info: Bytes)
    requires Respects(val, h)
    ensures val(K.DeriveKey32(ikm, salt, info)) ==
            H.Rfc5869Expand(h, H.HkdfExtract(h, SaltBytes(val, salt), val(ikm)), val(info), 32)
  {
    hide NonEmpty, H.NormalizeSalt, K.NormalizeSalt, H.Rfc5869Expand;
    SaltAgrees(val, h, salt);
    JoinTwo(val, ikm, ikm);
    JoinTwo(val, info, Raw([1]));
    H.OneBlockKey(h, H.HkdfExtract(h, SaltBytes(val, salt), val(ikm)), val(info));
  }
}
