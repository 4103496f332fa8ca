/** The cleartext manifest, its JSON form and the merge of one entry (packages/manifest). */
module Manifest {
  import opened Wrappers
  import opened Terms
  import opened AsciiText

  datatype Entry = Entry(
    entryId: string, fileCid: string, addedAt: string, envelope: Json,
    originalFileName: Option<string>, mimeType: Option<string>,
    fileSize: Option<int>, fileIntegritySha256B64: Option<string>)

  datatype ManifestV1 = ManifestV1(walletPubKey: string, createdAt: string, updatedAt: string, entries: seq<Entry>)

  /** What a caller of appendEntryAndPersist supplies; the id and the date may be left out. */
  datatype Draft = Draft(
    fileCid: string, envelope: Option<Json>, entryId: Option<string>, addedAt: Option<string>,
    originalFileName: Option<string>, mimeType: Option<string>,
    fileSize: Option<int>, fileIntegritySha256B64: Option<string>)

  function EmptyManifest(wallet: string, createdAt: string): ManifestV1 {
    ManifestV1(wallet, createdAt, createdAt, [])
  }

  /* ---- JSON ---- */

  function StrOption(s: Option<string>): Option<Json> {
    if s.Some? then Some(Str(Lit(s.value))) else None
  }

  function NumOption(n: Option<int>): Option<Json> {
    if n.Some? then Some(Num(n.value)) else None
  }

  function EntryBase(e: Entry): seq<Member> {
    [ Member(EntryId, Str(Lit(e.entryId))), Member(FileCid, Str(Lit(e.fileCid))),
      Member(AddedAt, Str(Lit(e.addedAt))), Member(EnvelopeN, e.envelope) ]
  }

  function EntryMembers(e: Entry): seq<Member> {
    EntryBase(e)
    + Opt(OriginalFileName, StrOption(e.originalFileName))
    + Opt(MimeType, StrOption(e.mimeType))
    + Opt(FileSize, NumOption(e.fileSize))
    + Opt(FileIntegritySha256B64, StrOption(e.fileIntegritySha256B64))
  }

  function EntriesToJson(entries: seq<Entry>): seq<Json> {
    if entries == [] then [] else [Obj(EntryMembers(entries[0]))] + EntriesToJson(entries[1..])
  }

  function ManifestMembers(m: ManifestV1): seq<Member> {
    [ Member(Version, Num(1)), Member(WalletPubKey, Str(Lit(m.walletPubKey))),
      Member(CreatedAt, Str(Lit(m.createdAt))), Member(UpdatedAt, Str(Lit(m.updatedAt))),
      Member(Entries, Arr(EntriesToJson(m.entries))) ]
  }

  function ManifestToJson(m: ManifestV1): Json {
    Obj(ManifestMembers(m))
  }

  /** Required string, optional string and optional number of the static types. */
  function StrIn(j: Option<Json>): Option<string> {
    match j
    case Some(Str(Lit(s))) => Some(s)
    case _ => None
  }

  predicate StrOrAbsent(j: Option<Json>) {
    j == None || StrIn(j).Some?
  }

  function NumIn(j: Option<Json>): Option<int> {
    match j
    case Some(Num(n)) => Some(n)
    case _ => None
  }

  function EntryFromJson(j: Json): Option<Entry> {
    var o := Some(j);
    EntryFromValues(Field(o, EntryId), Field(o, FileCid), Field(o, AddedAt), Field(o, EnvelopeN),
                    Field(o, OriginalFileName), Field(o, MimeType), Field(o, FileSize),
                    Field(o, FileIntegritySha256B64))
  }

  function EntryFromValues(id: Option<Json>, cid: Option<Json>, at: Option<Json>, envelope: Option<Json>,
                           name: Option<Json>, mime: Option<Json>, size: Option<Json>,
                           integrity: Option<Json>): Option<Entry>
  {
    if && StrIn(id).Some? && StrIn(cid).Some? && StrIn(at).Some? && envelope.Some?
       && StrOrAbsent(name) && StrOrAbsent(mime) && (size == None || NumIn(size).Some?) && StrOrAbsent(integrity)
    then Some(Entry(StrIn(id).value, StrIn(cid).value, StrIn(at).value, envelope.value,
                    StrIn(name), StrIn(mime), NumIn(size), StrIn(integrity)))
    else None
  }

  function EntriesFromJson(items: seq<Json>): Option<seq<Entry>> {
    if items == [] then Some([])
    else
      var first, rest := EntryFromJson(items[0]), EntriesFromJson(items[1..]);
      if first.Some? && rest.Some? then Some([first.value] + rest.value) else None
  }

  /** The static type ManifestV1, read off a parsed tree. */
  function ManifestFromJson(j: Json): Option<ManifestV1> {
    var wallet, created, updated := StrIn(Field(Some(j), WalletPubKey)), StrIn(Field(Some(j), CreatedAt)),
        StrIn(Field(Some(j), UpdatedAt));
    match Field(Some(j), Entries)
    case Some(Arr(items)) =>
      var entries := EntriesFromJson(items);
      if wallet.Some? && created.Some? && updated.Some? && entries.Some?
      then Some(ManifestV1(wallet.value, created.value, updated.value, entries.value))
      else None
    case _ => None
  }

  lemma EntryBaseLookups(e: Entry, name: Name)
    ensures Lookup(EntryBase(e), EntryId) == Some(Str(Lit(e.entryId)))
    ensures Lookup(EntryBase(e), FileCid) == Some(Str(Lit(e.fileCid)))
    ensures Lookup(EntryBase(e), AddedAt) == Some(Str(Lit(e.addedAt)))
    ensures Lookup(EntryBase(e), EnvelopeN) == Some(e.envelope)
    ensures name !in {EntryId, FileCid, AddedAt, EnvelopeN} ==> Lookup(EntryBase(e), name) == None
  {
    hide Lookup;
    LookupAt(EntryBase(e), 0);
    LookupAt(EntryBase(e), 1);
    LookupAt(EntryBase(e), 2);
    LookupAt(EntryBase(e), 3);
    if name !in {EntryId, FileCid, AddedAt, EnvelopeN} {
      LookupNone(EntryBase(e), name);
    }
  }

  lemma LookupOpt(name: Name, value: Option<Json>, wanted: Name)
    ensures Lookup(Opt(name, value), wanted) == if wanted == name then value else None
  {
  }

  /** The value of each member of an entry; None is a member that was not written. */
  function EntryValue(e: Entry, name: Name): Option<Json> {
    match name
    case EntryId => Some(Str(Lit(e.entryId)))
    case FileCid => Some(Str(Lit(e.fileCid)))
    case AddedAt => Some(Str(Lit(e.addedAt)))
    case EnvelopeN => Some(e.envelope)
    case OriginalFileName => StrOption(e.originalFileName)
    case MimeType => StrOption(e.mimeType)
    case FileSize => NumOption(e.fileSize)
    case FileIntegritySha256B64 => StrOption(e.fileIntegritySha256B64)
    case _ => None
  }

  lemma EntryLookup(e: Entry, name: Name)
    ensures Lookup(EntryMembers(e), name) == EntryValue(e, name)
  {
    hide Lookup;
    hide EntryBase, Opt;
    var base := EntryBase(e);
    var a, b := Opt(OriginalFileName, StrOption(e.originalFileName)), Opt(MimeType, StrOption(e.mimeType));
    var c, d := Opt(FileSize, NumOption(e.fileSize)), Opt(FileIntegritySha256B64, StrOption(e.fileIntegritySha256B64));
    EntryBaseLookups(e, name);
    LookupSplit(base + a + b + c, d, name);
    LookupSplit(base + a + b, c, name);
    LookupSplit(base + a, b, name);
    LookupSplit(base, a, name);
    LookupOpt(OriginalFileName, StrOption(e.originalFileName), name);
    LookupOpt(MimeType, StrOption(e.mimeType), name);
    LookupOpt(FileSize, NumOption(e.fileSize), name);
    LookupOpt(FileIntegritySha256B64, StrOption(e.fileIntegritySha256B64), name);
  }

  lemma EntryValuesRoundTrip(e: Entry)
    ensures EntryFromValues(EntryValue(e, EntryId), EntryValue(e, FileCid), EntryValue(e, AddedAt),
                            EntryValue(e, EnvelopeN),
                            EntryValue(e, OriginalFileName), EntryValue(e, MimeType), EntryValue(e, FileSize),
                            EntryValue(e, FileIntegritySha256B64)) == Some(e)
  {
  }

  lemma EntryJsonRoundTrip(e: Entry)
    ensures EntryFromJson(Obj(EntryMembers(e))) == Some(e)
  {
    EntryLookup(e, EntryId);
    EntryLookup(e, FileCid);
    EntryLookup(e, AddedAt);
    EntryLookup(e, EnvelopeN);
    EntryLookup(e, OriginalFileName);
    EntryLookup(e, MimeType);
    EntryLookup(e, FileSize);
    EntryLookup(e, FileIntegritySha256B64);
    EntryValuesRoundTrip(e);
  }

  lemma EntriesReadStep(first: Json, e: Entry, items: seq<Json>, entries: seq<Entry>)
    requires EntryFromJson(first) == Some(e) && EntriesFromJson(items) == Some(entries)
    ensures EntriesFromJson([first] + items) == Some([e] + entries)
  {
    hide EntryFromJson;
    assert ([first] + items)[1..] == items;
  }

  lemma {:induction false} EntriesJsonRoundTrip(entries: seq<Entry>)
    ensures EntriesFromJson(EntriesToJson(entries)) == Some(entries)
  {
    if entries != [] {
      EntriesJsonRoundTrip(entries[1..]);
      EntryJsonRoundTrip(entries[0]);
      EntriesReadStep(Obj(EntryMembers(entries[0])), entries[0], EntriesToJson(entries[1..]), entries[1..]);
      assert [entries[0]] + entries[1..] == entries;
    }
  }

  lemma ManifestLookups(m: ManifestV1)
    ensures var o := ManifestMembers(m);
            && Lookup(o, Version) == Some(Num(1)) && Lookup(o, WalletPubKey) == Some(Str(Lit(m.walletPubKey)))
            && Lookup(o, CreatedAt) == Some(Str(Lit(m.createdAt)))
            && Lookup(o, UpdatedAt) == Some(Str(Lit(m.updatedAt)))
            && Lookup(o, Entries) == Some(Arr(EntriesToJson(m.entries)))
  {
    hide Lookup, EntriesToJson;
    var o := ManifestMembers(m);
    LookupAt(o, 0);
    LookupAt(o, 1);
    LookupAt(o, 2);
    LookupAt(o, 3);
    LookupAt(o, 4);
  }

  /** Stringify and parse keep every field, present or absent, of every entry. */
  lemma ManifestJsonRoundTrip(m: ManifestV1)
    ensures ManifestFromJson(ManifestToJson(m)) == Some(m)
  {
    hide Lookup, EntriesToJson, EntriesFromJson;
    ManifestLookups(m);
    EntriesJsonRoundTrip(m.entries);
  }

  /* ---- merge ---- */

  function NewEntry(d: Draft, entryId: string, addedAt: string): Entry
    requires d.envelope.Some?
  {
    Entry(entryId, d.fileCid, addedAt, d.envelope.value, d.originalFileName, d.mimeType, d.fileSize,
          d.fileIntegritySha256B64)
  }

  /** Two entries the merge treats as the same. */
  predicate Clash(a: Entry, b: Entry) {
    a.entryId == b.entryId || (a.fileCid == b.fileCid && a.addedAt == b.addedAt)
  }

  predicate Contains(entries: seq<Entry>, e: Entry) {
    exists i | 0 <= i < |entries| :: Clash(entries[i], e)
  }

  function MergeEntries(entries: seq<Entry>, e: Entry): seq<Entry> {
    if Contains(entries, e) then entries else entries + [e]
  }

  function Merge(m: ManifestV1, e: Entry, updatedAt: string): ManifestV1 {
    m.(entries := MergeEntries(m.entries, e), updatedAt := updatedAt)
  }

  /** Pairwise distinct both in entryId and in (fileCid, addedAt). */
  predicate PairwiseDistinct(entries: seq<Entry>) {
    forall i, j | 0 <= i < j < |entries| :: !Clash(entries[i], entries[j])
  }

  lemma MergeKeepsDistinct(entries: seq<Entry>, e: Entry)
    requires PairwiseDistinct(entries)
    ensures PairwiseDistinct(MergeEntries(entries, e))
    ensures entries <= MergeEntries(entries, e)
    ensures Contains(MergeEntries(entries, e), e)
  {
    var r := MergeEntries(entries, e);
    if !Contains(entries, e) {
      assert Clash(r[|entries|], e);
    }
  }

  /**
   * Appending again, at any later time, with the id, or with the file and date, of an entry
   * that was added changes no entry; neither does appending the very same entry again.
   */
  lemma MergeAgain(entries: seq<Entry>, e: Entry, later: seq<Entry>, again: Entry)
    requires MergeEntries(entries, e) <= later
    ensures Clash(e, again) && !Contains(entries, e) ==> MergeEntries(later, again) == later
    ensures MergeEntries(later, e) == later
  {
    var merged := MergeEntries(entries, e);
    if Contains(entries, e) {
      var i :| 0 <= i < |entries| && Clash(entries[i], e);
      assert Clash(later[i], e);
    } else {
      assert merged[|entries|] == e && later[|entries|] == e;
    }
  }

  /** Some entry has this id, or this file and this date. */
  predicate HasIdOrFile(entries: seq<Entry>, entryId: string, fileCid: string, addedAt: string) {
    exists k | 0 <= k < |entries| ::
      entries[k].entryId == entryId || (entries[k].fileCid == fileCid && entries[k].addedAt == addedAt)
  }

  /**
   * A merge keeps owner and creation date and sets the new date. It adds the entry at the end,
   * unless an entry with its id, or with its file and date, is there; then no entry changes.
   */
  lemma MergeMeaning(m: ManifestV1, e: Entry, updatedAt: string)
    ensures var r := Merge(m, e, updatedAt);
            && r.walletPubKey == m.walletPubKey && r.createdAt == m.createdAt && r.updatedAt == updatedAt
            && r.entries == if HasIdOrFile(m.entries, e.entryId, e.fileCid, e.addedAt)
                then m.entries else m.entries + [e]
  {
    if HasIdOrFile(m.entries, e.entryId, e.fileCid, e.addedAt) {
      var k :| 0 <= k < |m.entries| && (m.entries[k].entryId == e.entryId
        || (m.entries[k].fileCid == e.fileCid && m.entries[k].addedAt == e.addedAt));
      assert Clash(m.entries[k], e);
    }
  }

  /** Ids are pairwise different, and so are pairs of file and date. */
  lemma DistinctMeaning(entries: seq<Entry>)
    ensures PairwiseDistinct(entries) <==>
              forall i, j | 0 <= i < j < |entries| ::
                && entries[i].entryId != entries[j].entryId
                && (entries[i].fileCid != entries[j].fileCid || entries[i].addedAt != entries[j].addedAt)
  {
  }

  /**
   * The same id alone does not stop an entry when the first one with that id was never added:
   * here it was absorbed by an older entry of the same file and date.
   */
  lemma SameIdCanBeAdded()
    ensures var older, first := Entry("a", "cid1", "d", Null, None, None, None, None),
        Entry("x", "cid1", "d", Null, None, None, None, None);
            var again := Entry("x", "cid2", "d", Null, None, None, None, None);
            MergeEntries(MergeEntries([older], first), again) == [older, again]
  {
    var older, first := Entry("a", "cid1", "d", Null, None, None, None, None),
        Entry("x", "cid1", "d", Null, None, None, None, None);
    assert Clash([older][0], first);
    assert MergeEntries([older], first) == [older];
  }

  /** What a reader of an entry's JSON finds under each name; an absent optional field is not written. */
  lemma EntryFields(e: Entry)
    ensures var o := EntryMembers(e);
            && Lookup(o, EntryId) == Some(Str(Lit(e.entryId))) && Lookup(o, FileCid) == Some(Str(Lit(e.fileCid)))
            && Lookup(o, AddedAt) == Some(Str(Lit(e.addedAt))) && Lookup(o, EnvelopeN) == Some(e.envelope)
            && (e.originalFileName.None? ==> Lookup(o, OriginalFileName) == None)
            && (e.originalFileName.Some? ==> Lookup(o, OriginalFileName) == Some(Str(Lit(e.originalFileName.value))))
            && (e.mimeType.None? ==> Lookup(o, MimeType) == None)
            && (e.mimeType.Some? ==> Lookup(o, MimeType) == Some(Str(Lit(e.mimeType.value))))
            && (e.fileSize.None? ==> Lookup(o, FileSize) == None)
            && (e.fileSize.Some? ==> Lookup(o, FileSize) == Some(Num(e.fileSize.value)))
            && (e.fileIntegritySha256B64.None? ==> Lookup(o, FileIntegritySha256B64) == None)
            && (e.fileIntegritySha256B64.Some? ==>
                  Lookup(o, FileIntegritySha256B64) == Some(Str(Lit(e.fileIntegritySha256B64.value))))
  {
    hide Lookup, EntryMembers;
    EntryLookup(e, EntryId);
    EntryLookup(e, FileCid);
    EntryLookup(e, AddedAt);
    EntryLookup(e, EnvelopeN);
    EntryLookup(e, OriginalFileName);
    EntryLookup(e, MimeType);
    EntryLookup(e, FileSize);
    EntryLookup(e, FileIntegritySha256B64);
  }
}
