/**
 * Bytes, texts and JSON trees as symbolic terms.
 *
 * A ciphertext, a digest, a MAC and a signature are constructors, so two of them are
 * equal exactly when they were made from equal parts; `Open` is the only way back out
 * of a ciphertext. JSON objects keep the order of their members, because
 * JSON.stringify does; the canonical form of RFC 8785 sorts them.
 */
module Terms {
  import opened Wrappers
  import opened OctetStrings

  /** Member names the repository uses; `Extra` stands for any other name. */
  datatype Name =
    | Version | Kind | Header | Payload | EnvelopeN | Integrity
    | CipherN | Nonce | Aad | CiphertextB64 | Ciphertext | Sha256B64
    | WalletPubKey | ManifestVersion | Context | AadVersion
    | KekDerivation | Method | MessageTemplateId | Salt | Info | Wrap
    | CreatedAt | UpdatedAt | Entries
    | EntryId | FileCid | AddedAt | OriginalFileName | MimeType | FileSize | FileIntegritySha256B64
    | FileId | Filename | Size | V | HeaderHash
    | Sj | Ver | Type | Origin | Wallet | IssuedAt | ExpiresAt | VaultId
    | Extra(text: string)

  datatype Member = Member(name: Name, value: Json)

  datatype Json =
    | Null
    | Num(n: int)
    | Str(text: Text)
    | Arr(items: seq<Json>)
    | Obj(members: seq<Member>)

  datatype Text =
    | Lit(s: string)
    | Stringify(tree: Json)
    | Base64(bytes: Bytes)
    | Line(header: string, rest: Text)

  datatype Bytes =
    | Raw(octets: seq<Octet>)
    | Utf8(text: Text)
    | Sha256(of: Bytes)
    | Hmac(key: Bytes, parts: seq<Bytes>)
    | Signature(signer: string, message: Bytes)
    | Seal(key: Bytes, nonce: Bytes, aad: Bytes, plaintext: Bytes)
    | Decoded(source: Text)

  /* ---- AEAD ---- */

  function Open(cipher: Bytes, nonce: Bytes, aad: Bytes, key: Bytes): Option<Bytes> {
    if cipher.Seal? && cipher.key == key && cipher.nonce == nonce && cipher.aad == aad
    then Some(cipher.plaintext)
    else None
  }

  /** Values the code measures: is this term 32 bytes long, is it non-empty? */
  predicate Is32(b: Bytes) {
    match b
    case Raw(octets) => |octets| == 32
    case Sha256(_) => true
    case Hmac(_, _) => true
    case _ => false
  }

  predicate NonEmpty(b: Bytes) {
    b != Raw([]) && b != Utf8(Lit("")) && b != Decoded(Lit(""))
  }

  function FromBase64(t: Text): Bytes {
    match t
    case Base64(b) => b
    case _ => Decoded(t)
  }

  function ParseJson(b: Bytes): Option<Json> {
    match b
    case Utf8(Stringify(tree)) => Some(tree)
    case _ => None
  }

  /* ---- reading members: None is JavaScript's undefined ---- */

  function Lookup(members: seq<Member>, name: Name): Option<Json> {
    if members == [] then None
    else if members[0].name == name then Some(members[0].value)
    else Lookup(members[1..], name)
  }

  /** `j?.name` */
  function Field(j: Option<Json>, name: Name): Option<Json> {
    match j
    case Some(Obj(members)) => Lookup(members, name)
    case _ => None
  }

  function TextOf(j: Option<Json>): Option<Text> {
    match j
    case Some(Str(t)) => Some(t)
    case _ => None
  }

  /** `a ?? b`: null and undefined fall through. */
  function Or(a: Option<Json>, b: Option<Json>): Option<Json> {
    if a == None || a == Some(Null) then b else a
  }

  /** One member when the value is defined, none otherwise: what JSON.stringify writes. */
  function Opt(name: Name, value: Option<Json>): seq<Member> {
    if value.Some? then [Member(name, value.value)] else []
  }

  lemma {:induction false} LookupAt(members: seq<Member>, i: nat)
    requires i < |members|
    requires forall j | 0 <= j < i :: members[j].name != members[i].name
    ensures Lookup(members, members[i].name) == Some(members[i].value)
  {
    if i > 0 {
      LookupAt(members[1..], i - 1);
    }
  }

  lemma {:induction false} LookupNone(members: seq<Member>, name: Name)
    requires forall j | 0 <= j < |members| :: members[j].name != name
    ensures Lookup(members, name) == None
  {
    if members != [] {
      LookupNone(members[1..], name);
    }
  }

  lemma {:induction false} LookupSplit(a: seq<Member>, b: seq<Member>, name: Name)
    ensures Lookup(a + b, name) == if Lookup(a, name).Some? then Lookup(a, name) else Lookup(b, name)
  {
    if a == [] {
      assert a + b == b;
    } else {
      assert (a + b)[1..] == a[1..] + b;
      LookupSplit(a[1..], b, name);
    }
  }

  /* ---- canonical form (RFC 8785) ---- */

  function Spelling(n: Name): string {
    match n
    case Version => "version" case Kind => "kind" case Header => "header"
    case Payload => "payload" case EnvelopeN => "envelope" case Integrity => "integrity"
    case CipherN => "cipher" case Nonce => "nonce" case Aad => "aad"
    case CiphertextB64 => "ciphertextB64" case Ciphertext => "ciphertext"
    case Sha256B64 => "sha256B64" case WalletPubKey => "walletPubKey"
    case ManifestVersion => "manifestVersion" case Context => "context"
    case AadVersion => "aadVersion" case KekDerivation => "kekDerivation"
    case Method => "method" case MessageTemplateId => "messageTemplateId"
    case Salt => "salt" case Info => "info" case Wrap => "wrap"
    case CreatedAt => "createdAt" case UpdatedAt => "updatedAt" case Entries => "entries"
    case EntryId => "entryId" case FileCid => "fileCid" case AddedAt => "addedAt"
    case OriginalFileName => "originalFileName" case MimeType => "mimeType"
    case FileSize => "fileSize" case FileIntegritySha256B64 => "fileIntegritySha256B64"
    case FileId => "fileId" case Filename => "filename" case Size => "size"
    case V => "v" case HeaderHash => "headerHash"
    case Sj => "sj" case Ver => "ver" case Type => "type" case Origin => "origin"
    case Wallet => "wallet" case IssuedAt => "issuedAt" case ExpiresAt => "expiresAt"
    case VaultId => "vaultId"
    case Extra(text) => text
  }

  /** Lexicographic comparison by code unit. */
  predicate AtMost(a: string, b: string) {
    a == [] || (b != [] && (a[0] < b[0] || (a[0] == b[0] && AtMost(a[1..], b[1..]))))
  }

  function Insert(m: Member, sorted: seq<Member>): seq<Member> {
    if sorted == [] || AtMost(Spelling(m.name), Spelling(sorted[0].name)) then [m] + sorted
    else [sorted[0]] + Insert(m, sorted[1..])
  }

  function SortTree(j: Json): Json
    decreases j
  {
    match j
    case Obj(members) => Obj(SortMembers(members))
    case Arr(items) => Arr(SortItems(items))
    case _ => j
  }

  function SortMembers(members: seq<Member>): seq<Member>
    decreases members
  {
    if members == [] then []
    else Insert(SortMember(members[0]), SortMembers(members[1..]))
  }

  function SortMember(m: Member): Member
    decreases m
  {
    Member(m.name, SortTree(m.value))
  }

  function SortItems(items: seq<Json>): seq<Json>
    decreases items
  {
    if items == [] then [] else [SortTree(items[0])] + SortItems(items[1..])
  }

  function Canonicalize(j: Json): Text {
    Stringify(SortTree(j))
  }

  predicate Ascending(members: seq<Member>) {
    forall i | 0 < i < |members| :: AtMost(Spelling(members[i - 1].name), Spelling(members[i].name))
  }

  lemma {:induction false} InsertAscending(m: Member, sorted: seq<Member>)
    requires Ascending(sorted)
    ensures Ascending(Insert(m, sorted))
    ensures Insert(m, sorted)[0] == m || (sorted != [] && Insert(m, sorted)[0] == sorted[0])
  {
    hide Spelling, AtMost;
    if sorted != [] && !AtMost(Spelling(m.name), Spelling(sorted[0].name)) {
      assert Ascending(sorted[1..]) by {
        assert forall i | 0 < i < |sorted| - 1 :: sorted[1..][i - 1] == sorted[i] && sorted[1..][i] == sorted[i + 1];
      }
      InsertAscending(m, sorted[1..]);
      AtMostTotal(Spelling(m.name), Spelling(sorted[0].name));
      var rest, r := Insert(m, sorted[1..]), Insert(m, sorted);
      assert r == [sorted[0]] + rest;
      forall i | 0 < i < |r| ensures AtMost(Spelling(r[i - 1].name), Spelling(r[i].name)) {
        if i == 1 {
          assert r[1] == rest[0];
        } else {
          assert r[i - 1] == rest[i - 2] && r[i] == rest[i - 1];
        }
      }
    }
  }

  /** Canonical objects list their members in ascending order of the code units of their names. */
  lemma {:induction false} CanonicalAscends(members: seq<Member>)
    ensures Ascending(SortMembers(members))
  {
    hide Spelling, AtMost, SortMember;
    if members != [] {
      CanonicalAscends(members[1..]);
      InsertAscending(SortMember(members[0]), SortMembers(members[1..]));
    }
  }

  function SortedOption(j: Option<Json>): Option<Json> {
    if j.Some? then Some(SortTree(j.value)) else None
  }

  lemma {:induction false} AtMostReflexive(a: string)
    ensures AtMost(a, a)
  {
    if a != [] { AtMostReflexive(a[1..]); }
  }

  lemma {:induction false} LookupInsert(m: Member, sorted: seq<Member>, name: Name)
    ensures Lookup(Insert(m, sorted), name) == if m.name == name then Some(m.value) else Lookup(sorted, name)
  {
    if sorted == [] || AtMost(Spelling(m.name), Spelling(sorted[0].name)) {
      assert ([m] + sorted)[1..] == sorted;
    } else {
      var rest := Insert(m, sorted[1..]);
      assert ([sorted[0]] + rest)[1..] == rest;
      AtMostReflexive(Spelling(m.name));
      LookupInsert(m, sorted[1..], name);
    }
  }

  lemma {:induction false} LookupSorted(members: seq<Member>, name: Name)
    ensures Lookup(SortMembers(members), name) == SortedOption(Lookup(members, name))
  {
    if members != [] {
      LookupInsert(SortMember(members[0]), SortMembers(members[1..]), name);
      LookupSorted(members[1..], name);
    }
  }

  /** Equal canonical texts come from objects whose members agree, whatever their order. */
  lemma CanonicalBinds(a: seq<Member>, b: seq<Member>, name: Name)
    requires Canonicalize(Obj(a)) == Canonicalize(Obj(b))
    ensures SortedOption(Lookup(a, name)) == SortedOption(Lookup(b, name))
  {
    LookupSorted(a, name);
    LookupSorted(b, name);
  }

  lemma {:induction false} AtMostTotal(a: string, b: string)
    ensures AtMost(a, b) || AtMost(b, a)
    ensures AtMost(a, b) && AtMost(b, a) ==> a == b
  {
    if a != [] && b != [] && a[0] == b[0] {
      AtMostTotal(a[1..], b[1..]);
      assert a == [a[0]] + a[1..] && b == [b[0]] + b[1..];
    }
  }

  lemma {:induction false} AtMostTransitive(a: string, b: string, c: string)
    requires AtMost(a, b) && AtMost(b, c)
    ensures AtMost(a, c)
  {
    if a != [] && b != [] && c != [] && a[0] == b[0] && b[0] == c[0] {
      AtMostTransitive(a[1..], b[1..], c[1..]);
    }
  }

  lemma {:induction false} InsertCommutes(x: Member, y: Member, sorted: seq<Member>)
    requires Spelling(x.name) != Spelling(y.name)
    ensures Insert(x, Insert(y, sorted)) == Insert(y, Insert(x, sorted))
  {
    var sx, sy := Spelling(x.name), Spelling(y.name);
    AtMostTotal(sx, sy);
    if sorted != [] {
      var s0, rest := Spelling(sorted[0].name), sorted[1..];
      AtMostTotal(sx, s0);
      AtMostTotal(sy, s0);
      if AtMost(sx, sy) && AtMost(sy, s0) { AtMostTransitive(sx, sy, s0); }
      if AtMost(sy, sx) && AtMost(sx, s0) { AtMostTransitive(sy, sx, s0); }
      InsertCommutes(x, y, rest);
      InsertStep(x, y, sorted);
      InsertStep(y, x, sorted);
    }
  }

  /** One level of the nested insertion, spelled out. */
  lemma InsertStep(x: Member, y: Member, sorted: seq<Member>)
    requires sorted != []
    ensures var s0 := Spelling(sorted[0].name);
            Insert(x, Insert(y, sorted)) ==
            if AtMost(Spelling(y.name), s0)
            then if AtMost(Spelling(x.name), Spelling(y.name)) then [x, y] + sorted else [y] + Insert(x, sorted)
            else if AtMost(Spelling(x.name), s0) then [x, sorted[0]] + Insert(y, sorted[1..])
            else [sorted[0]] + Insert(x, Insert(y, sorted[1..]))
  {
    var inner := Insert(y, sorted);
    if AtMost(Spelling(y.name), Spelling(sorted[0].name)) {
      assert inner == [y] + sorted && inner[1..] == sorted;
      assert [x] + ([y] + sorted) == [x, y] + sorted;
    } else {
      var rest := Insert(y, sorted[1..]);
      assert inner == [sorted[0]] + rest && inner[1..] == rest;
      assert [x] + ([sorted[0]] + rest) == [x, sorted[0]] + rest;
    }
  }

  /** No two members are spelled alike. */
  predicate DistinctNames(members: seq<Member>) {
    forall i, j | 0 <= i < j < |members| :: Spelling(members[i].name) != Spelling(members[j].name)
  }

  /** No object anywhere in the tree has two members that are spelled alike. */
  predicate WellNamed(j: Json) {
    match j
    case Obj(members) => DistinctNames(members) && forall i | 0 <= i < |members| :: WellNamed(members[i].value)
    case Arr(items) => forall i | 0 <= i < |items| :: WellNamed(items[i])
    case _ => true
  }

  /** The same tree but for the order of members, in any object at any depth. */
  ghost predicate Reordered(a: Json, b: Json)
    decreases a
  {
    match a
    case Obj(members) =>
      && b.Obj?
      && exists p: seq<Member> | multiset(p) == multiset(b.members) :: Alike(members, p)
    case Arr(items) => b.Arr? && |b.items| == |items| && forall i | 0 <= i < |items| :: Reordered(items[i], b.items[i])
    case _ => a == b
  }

  /** Member by member the same names, over values that are the same but for order. */
  ghost predicate Alike(a: seq<Member>, b: seq<Member>)
    decreases a
  {
    |a| == |b| && forall i | 0 <= i < |a| :: AlikeMember(a[i], b[i])
  }

  ghost predicate AlikeMember(a: Member, b: Member)
    decreases a
  {
    a.name == b.name && Reordered(a.value, b.value)
  }

  /** The canonical text of a tree does not depend on the order of members, at any depth. */
  lemma CanonicalIgnoresOrder(a: Json, b: Json)
    requires WellNamed(a) && Reordered(a, b)
    ensures Canonicalize(a) == Canonicalize(b)
  {
    ReorderedSorts(a, b);
  }

  lemma {:induction false} ReorderedSorts(a: Json, b: Json)
    requires WellNamed(a) && Reordered(a, b)
    ensures SortTree(a) == SortTree(b)
  {
    hide Spelling, SortMembers, SortItems, SortMember;
    match a
    case Obj(members) =>
      var p: seq<Member> :| multiset(p) == multiset(b.members) && Alike(members, p);
      forall i | 0 <= i < |members|
          ensures members[i].name == p[i].name && SortTree(members[i].value) == SortTree(p[i].value) {
        assert AlikeMember(members[i], p[i]);
        ReorderedSorts(members[i].value, p[i].value);
      }
      SameMembers(members, p);
      PermutationSorts(p, b.members);
    case Arr(items) =>
      forall i | 0 <= i < |items| ensures SortTree(items[i]) == SortTree(b.items[i]) {
        ReorderedSorts(items[i], b.items[i]);
      }
      SameItems(items, b.items);
    case _ =>
  }

  lemma {:induction false} SameMembers(a: seq<Member>, b: seq<Member>)
    requires |a| == |b| && forall i | 0 <= i < |a| ::
        a[i].name == b[i].name && SortTree(a[i].value) == SortTree(b[i].value)
    ensures SortMembers(a) == SortMembers(b)
  {
    hide SortTree, Insert;
    if a != [] {
      SameMembers(a[1..], b[1..]);
    }
  }

  lemma {:induction false} SameItems(a: seq<Json>, b: seq<Json>)
    requires |a| == |b| && forall i | 0 <= i < |a| :: SortTree(a[i]) == SortTree(b[i])
    ensures SortItems(a) == SortItems(b)
  {
    hide SortTree;
    if a != [] {
      SameItems(a[1..], b[1..]);
    }
  }

  /** Members with distinct names in any order sort alike. */
  lemma {:induction false} PermutationSorts(a: seq<Member>, b: seq<Member>)
    requires DistinctNames(a) && multiset(a) == multiset(b)
    ensures SortMembers(a) == SortMembers(b)
    decreases |a|
  {
    hide DistinctNames, Spelling, SortMembers, Insert, SortMember;
    assert |a| == |multiset(a)| && |b| == |multiset(b)|;
    if a != [] {
      var x := a[0];
      var i, rest := FindMember(a, b);
      OtherNames(a, b, i);
      ToFront(b[..i], x, b[i + 1..]);
      RestDistinct(a);
      PermutationSorts(a[1..], rest);
      SortFirst(x, a[1..]);
      SortFirst(x, rest);
      assert a == [x] + a[1..];
    }
  }

  lemma SortFirst(x: Member, rest: seq<Member>)
    ensures SortMembers([x] + rest) == Insert(SortMember(x), SortMembers(rest))
  {
    hide Insert, SortMember;
    assert ([x] + rest)[1..] == rest;
  }

  /** The first member of one order, found in the other. */
  lemma FindMember(a: seq<Member>, b: seq<Member>) returns (i: nat, rest: seq<Member>)
    requires a != [] && multiset(a) == multiset(b)
    ensures i < |b| && rest == b[..i] + b[i + 1..] && b == b[..i] + [a[0]] + b[i + 1..]
    ensures multiset(rest) == multiset(a[1..])
    ensures forall k | 0 <= k < i :: b[k] in multiset(a[1..])
  {
    assert a[0] in multiset(b);
    i :| 0 <= i < |b| && b[i] == a[0];
    rest := b[..i] + b[i + 1..];
    assert b == b[..i] + [a[0]] + b[i + 1..];
    RestOf(a, b[..i], b[i + 1..], b);
    FrontIn(b, i, rest);
  }

  /** What is left of both orders without that member. */
  lemma RestOf(a: seq<Member>, p: seq<Member>, q: seq<Member>, b: seq<Member>)
    requires a != [] && multiset(a) == multiset(b) && b == p + [a[0]] + q
    ensures multiset(p + q) == multiset(a[1..])
  {
    TakeOut(p, a[0], q);
    TakeOut([], a[0], a[1..]);
    assert [] + [a[0]] + a[1..] == a && [] + a[1..] == a[1..];
    Cancel(a[0], multiset(p + q), multiset(a[1..]));
  }

  lemma FrontIn(b: seq<Member>, i: nat, rest: seq<Member>)
    requires i < |b| && rest == b[..i] + b[i + 1..]
    ensures forall k | 0 <= k < i :: b[k] in multiset(rest)
  {
    forall k | 0 <= k < i ensures b[k] in multiset(rest) {
      assert rest[k] == b[k];
    }
  }

  lemma Cancel(x: Member, m: multiset<Member>, n: multiset<Member>)
    requires multiset{x} + m == multiset{x} + n
    ensures m == n
  {
    forall e ensures m[e] == n[e] {
      assert (multiset{x} + m)[e] == (multiset{x} + n)[e];
    }
  }

  lemma TakeOut(p: seq<Member>, x: Member, q: seq<Member>)
    ensures multiset(p + [x] + q) == multiset{x} + multiset(p + q)
  {
  }

  lemma OtherNames(a: seq<Member>, b: seq<Member>, i: nat)
    requires a != [] && DistinctNames(a) && i <= |b| && forall k | 0 <= k < i :: b[k] in multiset(a[1..])
    ensures forall k | 0 <= k < i :: Spelling(b[k].name) != Spelling(a[0].name)
  {
    hide Spelling;
    forall k | 0 <= k < i ensures Spelling(b[k].name) != Spelling(a[0].name) {
      assert b[k] in a[1..];
    }
  }

  lemma RestDistinct(a: seq<Member>)
    requires a != [] && DistinctNames(a)
    ensures DistinctNames(a[1..])
  {
    hide Spelling;
  }

  lemma {:induction false} ToFront(before: seq<Member>, x: Member, after: seq<Member>)
    requires forall k | 0 <= k < |before| :: Spelling(before[k].name) != Spelling(x.name)
    ensures SortMembers(before + [x] + after) == SortMembers([x] + (before + after))
    decreases |before|
  {
    hide Spelling, SortMembers;
    if before == [] {
      assert before + [x] + after == [x] + (before + after);
    } else {
      var init, y := before[..|before| - 1], before[|before| - 1];
      assert before + [x] + after == init + [y, x] + after;
      SwapSorted(init, x, y, after);
      assert init + [x, y] + after == init + [x] + ([y] + after);
      ToFront(init, x, [y] + after);
      assert init + ([y] + after) == before + after;
    }
  }

  /** Exchanging two neighbouring members changes nothing. */
  lemma {:induction false} SwapSorted(before: seq<Member>, x: Member, y: Member, after: seq<Member>)
    requires Spelling(x.name) != Spelling(y.name)
    ensures SortMembers(before + [x, y] + after) == SortMembers(before + [y, x] + after)
  {
    var p, q := before + [x, y] + after, before + [y, x] + after;
    if before == [] {
      assert p[1..] == [y] + after && q[1..] == [x] + after;
      assert p[1..][1..] == after && q[1..][1..] == after;
      InsertCommutes(SortMember(x), SortMember(y), SortMembers(after));
    } else {
      assert p[1..] == before[1..] + [x, y] + after;
      assert q[1..] == before[1..] + [y, x] + after;
      SwapSorted(before[1..], x, y, after);
    }
  }
}
