/**
 * HKDF over real byte sequences (packages/crypto/src/index.ts), for any MAC with a
 * 32-byte output, against sections 2.2 and 2.3 of RFC 5869.
 */
module Hkdf {
  import opened Wrappers
  import opened OctetStrings

  const HASH_LEN := 32
  const MAX_LENGTH := 255 * 32

  /** A MAC: any function of key and data whose tags are 32 bytes long. */
  type Mac = h: (Octets, Octets) -> Octets | forall k, d :: |h(k, d)| == 32
    witness (k, d) => Zeros(32)

  datatype HkdfError = InvalidLength

  function NormalizeSalt(salt: Option<Octets>): Octets {
    if salt == None || salt.value == [] then Zeros(HASH_LEN) else salt.value
  }

  function HkdfExtract(h: Mac, salt: Option<Octets>, ikm: Octets): Octets {
    h(NormalizeSalt(salt), ikm)
  }

  function InfoOf(info: Option<Octets>): Octets {
    if info.Some? then info.value else []
  }

  /* ---- section 2.3 of RFC 5869 ---- */

  /** T(i), with T(0) the empty string and the block number as the last octet. */
  ghost function T(h: Mac, prk: Octets, info: Octets, i: nat): (t: Octets)
    requires i <= 255
    ensures |t| == if i == 0 then 0 else 32
  {
    if i == 0 then [] else h(prk, T(h, prk, info, i - 1) + info + [i])
  }

  /** T(1) | T(2) | ... | T(n) */
  ghost function Blocks(h: Mac, prk: Octets, info: Octets, n: nat): (okm: Octets)
    requires n <= 255
    ensures |okm| == n * 32
  {
    if n == 0 then [] else Blocks(h, prk, info, n - 1) + T(h, prk, info, n)
  }

  /** ceil(length / 32) */
  function BlockCount(length: nat): nat {
    (length + HASH_LEN - 1) / HASH_LEN
  }

  ghost function Rfc5869Expand(h: Mac, prk: Octets, info: Octets, length: nat): (okm: Octets)
    requires 1 <= length <= MAX_LENGTH
    ensures |okm| == length
  {
    Blocks(h, prk, info, BlockCount(length))[..length]
  }

  /** The concatenation of a list of blocks. */
  ghost function Flatten(parts: seq<Octets>): Octets {
    if parts == [] then [] else Flatten(parts[..|parts| - 1]) + parts[|parts| - 1]
  }

  lemma {:induction false} BlocksAreFlattened(h: Mac, prk: Octets, info: Octets, parts: seq<Octets>)
    requires |parts| <= 255
    requires forall j | 0 <= j < |parts| :: parts[j] == T(h, prk, info, j + 1)
    ensures Flatten(parts) == Blocks(h, prk, info, |parts|)
  {
    if parts != [] {
      BlocksAreFlattened(h, prk, info, parts[..|parts| - 1]);
    }
  }

  /**
   * The loop of the source. A Uint8Array cell keeps a number modulo 256, so the block
   * number is stored as i % 256; the length check keeps it below 256.
   */
  method HkdfExpand(h: Mac, prk: Octets, info: Option<Octets>, length: int)
    returns (r: Result<Octets, HkdfError>)
    ensures r == if 1 <= length <= MAX_LENGTH
                 then Ok(Rfc5869Expand(h, prk, InfoOf(info), length))
                 else Err(InvalidLength)
  {
    if length <= 0 || length > 255 * 32 {
      return Err(InvalidLength);
    }
    var n := BlockCount(length);
    var t: Octets := [];
    var okmParts: seq<Octets> := [];
    for i := 1 to n + 1
      invariant |okmParts| == i - 1
      invariant t == T(h, prk, InfoOf(info), i - 1)
      invariant forall j | 0 <= j < |okmParts| :: okmParts[j] == T(h, prk, InfoOf(info), j + 1)
    {
      t := h(prk, t + InfoOf(info) + [i % 256]);
      okmParts := okmParts + [t];
    }

    var okm := new Octet[n * HASH_LEN];
    var offset := 0;
    for p := 0 to |okmParts|
      invariant offset == p * HASH_LEN
      invariant okm[..offset] == Flatten(okmParts[..p])
    {
      var part := okmParts[p];
      assert |part| == 32;
      Copy(okm, offset, part);
      offset := offset + |part|;
      assert okmParts[..p + 1][..p] == okmParts[..p];
    }
    assert okmParts[..|okmParts|] == okmParts;
    BlocksAreFlattened(h, prk, InfoOf(info), okmParts);
    assert okm[..length] == okm[..offset][..length];
    return Ok(okm[..length]);
  }

  /** TypedArray.prototype.set */
  method Copy(target: array<Octet>, offset: nat, part: Octets)
    requires offset + |part| <= target.Length
    modifies target
    ensures target[..offset] == old(target[..offset])
    ensures target[offset..offset + |part|] == part
    ensures target[..offset + |part|] == old(target[..offset]) + part
  {
    for k := 0 to |part|
      invariant target[..offset] == old(target[..offset])
      invariant target[offset..offset + k] == part[..k]
    {
      target[offset + k] := part[k];
    }
    assert target[..offset + |part|] == target[..offset] + target[offset..offset + |part|];
  }

  /** Extract, then expand. */
  method DeriveKeyHkdf(h: Mac, ikm: Octets, salt: Option<Octets>, info: Option<Octets>, length: int)
    returns (r: Result<Octets, HkdfError>)
    ensures r == if 1 <= length <= MAX_LENGTH
                 then Ok(Rfc5869Expand(h, HkdfExtract(h, salt, ikm), InfoOf(info), length))
                 else Err(InvalidLength)
  {
    r := HkdfExpand(h, HkdfExtract(h, salt, ikm), info, length);
  }

  /** Every block number is an octet, so the modulo of a Uint8Array cell never bites. */
  lemma CounterFitsAnOctet(length: nat, i: nat)
    requires 1 <= length <= MAX_LENGTH && 1 <= i <= BlockCount(length)
    ensures i % 256 == i <= 255
    ensures (BlockCount(length) - 1) * HASH_LEN < length <= BlockCount(length) * HASH_LEN
  {
    assert (length + 31) / 32 <= (8160 + 31) / 32;
  }

  lemma {:induction false} BlocksPrefix(h: Mac, prk: Octets, info: Octets, m: nat, n: nat)
    requires m <= n <= 255
    ensures m * 32 <= n * 32
    ensures Blocks(h, prk, info, n)[..m * 32] == Blocks(h, prk, info, m)
  {
    if m < n {
      BlocksPrefix(h, prk, info, m, n - 1);
    }
  }

  /** A shorter output is a prefix of a longer one. */
  lemma ShorterIsPrefix(h: Mac, prk: Octets, info: Octets, short: nat, long: nat)
    requires 1 <= short <= long <= MAX_LENGTH
    ensures Rfc5869Expand(h, prk, info, long)[..short] == Rfc5869Expand(h, prk, info, short)
  {
    var m, n := BlockCount(short), BlockCount(long);
    assert m <= n <= 255;
    BlocksPrefix(h, prk, info, m, n);
    assert Blocks(h, prk, info, n)[..m * 32][..short] == Blocks(h, prk, info, n)[..short];
    assert Rfc5869Expand(h, prk, info, long)[..short] == Blocks(h, prk, info, n)[..short];
  }

  /** No salt, an empty salt and 32 zero bytes all extract the same key (section 2.2). */
  lemma AbsentSaltIsZeroSalt(h: Mac, ikm: Octets)
    ensures HkdfExtract(h, None, ikm) == HkdfExtract(h, Some([]), ikm) == HkdfExtract(h, Some(Zeros(32)), ikm)
    ensures HkdfExtract(h, None, ikm) == h(Zeros(32), ikm)
  {
    assert |Zeros(32)| == 32;
  }

  /** A 32-byte key is the single tag MAC(MAC(salt, ikm), info | 0x01). */
  lemma OneBlockKey(h: Mac, prk: Octets, info: Octets)
    ensures Rfc5869Expand(h, prk, info, 32) == h(prk, info + [1])
  {
    assert BlockCount(32) == 1;
    assert Blocks(h, prk, info, 1) == Blocks(h, prk, info, 0) + T(h, prk, info, 1);
    assert Blocks(h, prk, info, 0) == [] && T(h, prk, info, 0) == [];
    assert [] + info + [1] == info + [1];
  }
}
