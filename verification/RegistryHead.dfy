/**
 * selectHead of apps/web/src/lib/solana/RegistryService.ts: newest first, ties broken by the
 * CID, take the first. `lt(a, b)` stands for a.localeCompare(b) < 0.
 */
module RegistryHead {
  import opened Wrappers
  import opened AsciiText
  import opened Registry
  import opened RegistryRuns

  type Collation = (string, string) -> bool

  /** A strict total order on valid CIDs. */
  ghost predicate OrdersCids(lt: Collation) {
    && (forall a | ValidCid(a) :: !lt(a, a))
    && (forall a, b, c | ValidCid(a) && ValidCid(b) && ValidCid(c) && lt(a, b) && lt(b, c) :: lt(a, c))
    && (forall a, b | ValidCid(a) && ValidCid(b) && a != b :: lt(a, b) || lt(b, a))
  }

  /** The comparator says `a` comes before `b`. */
  predicate Before(a: RegistryEntry, b: RegistryEntry, lt: Collation) {
    if a.publishedAt != b.publishedAt then a.publishedAt > b.publishedAt else lt(b.manifestCid, a.manifestCid)
  }

  function InsertSorted(e: RegistryEntry, sorted: seq<RegistryEntry>, lt: Collation): seq<RegistryEntry> {
    if sorted == [] || Before(e, sorted[0], lt) then [e] + sorted
    else [sorted[0]] + InsertSorted(e, sorted[1..], lt)
  }

  /** A stable sort by the comparator. */
  function Sorted(entries: seq<RegistryEntry>, lt: Collation): seq<RegistryEntry> {
    if entries == [] then []
    else InsertSorted(entries[|entries| - 1], Sorted(entries[..|entries| - 1], lt), lt)
  }

  function SelectHead(entries: seq<RegistryEntry>, lt: Collation): Option<RegistryEntry> {
    var sorted := Sorted(entries, lt);
    if sorted == [] then None else Some(sorted[0])
  }

  predicate ValidCids(entries: seq<RegistryEntry>) {
    forall i | 0 <= i < |entries| :: ValidCid(entries[i].manifestCid)
  }

  lemma {:induction false} InsertKeeps(e: RegistryEntry, sorted: seq<RegistryEntry>, lt: Collation)
    ensures multiset(InsertSorted(e, sorted, lt)) == multiset(sorted) + multiset{e}
    ensures InsertSorted(e, sorted, lt) != []
    ensures InsertSorted(e, sorted, lt)[0] == if sorted == [] || Before(e, sorted[0], lt) then e else sorted[0]
  {
    if sorted != [] && !Before(e, sorted[0], lt) {
      InsertKeeps(e, sorted[1..], lt);
      assert sorted == [sorted[0]] + sorted[1..];
    }
  }

  /** The head is an entry that no entry comes before; every other CID comes after it. */
  lemma {:induction false} HeadIsMaximal(entries: seq<RegistryEntry>, lt: Collation)
    requires OrdersCids(lt) && ValidCids(entries)
    ensures multiset(Sorted(entries, lt)) == multiset(entries)
    ensures SelectHead(entries, lt).None? <==> entries == []
    ensures entries != [] ==> SelectHead(entries, lt).value in entries
    ensures entries != [] ==> forall e | e in entries ::
              (e.manifestCid == SelectHead(entries, lt).value.manifestCid && e.publishedAt ==
                 SelectHead(entries, lt).value.publishedAt) || Before(SelectHead(entries, lt).value, e, lt)
  {
    hide ValidCid, Before, InsertSorted;
    if entries != [] {
      var init, last := entries[..|entries| - 1], entries[|entries| - 1];
      assert entries == init + [last];
      HeadIsMaximal(init, lt);
      InsertKeeps(last, Sorted(init, lt), lt);
      assert ValidCid(last.manifestCid);
      if init != [] {
        var h := Sorted(init, lt)[0];
        ValidMember(init, h);
        forall e | e in entries
          ensures var r := SelectHead(entries, lt).value;
                  (e.manifestCid == r.manifestCid && e.publishedAt == r.publishedAt) || Before(r, e, lt)
        {
          ValidMember(entries, e);
          HeadOfTwo(h, last, e, lt);
        }
      }
    }
  }

  lemma ValidMember(entries: seq<RegistryEntry>, e: RegistryEntry)
    requires ValidCids(entries) && e in entries
    ensures ValidCid(e.manifestCid)
  {
  }

  lemma HeadOfTwo(h: RegistryEntry, last: RegistryEntry, e: RegistryEntry, lt: Collation)
    requires OrdersCids(lt) && ValidCid(h.manifestCid) && ValidCid(last.manifestCid) && ValidCid(e.manifestCid)
    requires e == last || (e.manifestCid == h.manifestCid && e.publishedAt == h.publishedAt) || Before(h, e, lt)
    ensures var r := if Before(last, h, lt) then last else h;
            (e.manifestCid == r.manifestCid && e.publishedAt == r.publishedAt) || Before(r, e, lt)
  {
    hide ValidCid;
  }

  /** Two entries that are both ahead of all others are the same entry. */
  lemma HeadIsUnique(a: seq<RegistryEntry>, b: seq<RegistryEntry>, lt: Collation)
    requires OrdersCids(lt) && ValidCids(a) && DistinctCids(a) && multiset(a) == multiset(b)
    ensures SelectHead(a, lt) == SelectHead(b, lt)
    ensures a != [] ==> forall e | e in a :: e == SelectHead(a, lt).value || Before(SelectHead(a, lt).value, e, lt)
    ensures a != [] ==>
              var h := SelectHead(a, lt).value;
              forall e | e in a && e != h ::
                e.publishedAt < h.publishedAt || (e.publishedAt == h.publishedAt && lt(e.manifestCid, h.manifestCid))
  {
    hide ValidCid, Sorted;
    forall i | 0 <= i < |b| ensures ValidCid(b[i].manifestCid) {
      assert b[i] in multiset(b);
      ValidMember(a, b[i]);
    }
    HeadIsMaximal(a, lt);
    HeadIsMaximal(b, lt);
    assert |a| == |multiset(a)| && |b| == |multiset(b)|;
    if a != [] {
      assert a[0] in multiset(b);
      var h, k := SelectHead(a, lt).value, SelectHead(b, lt).value;
      assert k in multiset(b) && h in multiset(a);
      forall e | e in a ensures e == h || Before(h, e, lt) { SameCid(a, e, h); }
      assert h in multiset(b);
      BeforeOneWay(h, k, lt) by { ValidMember(a, h); ValidMember(a, k); }
      SameCid(a, h, k);
    }
  }

  lemma SameCid(entries: seq<RegistryEntry>, x: RegistryEntry, y: RegistryEntry)
    requires DistinctCids(entries) && x in entries && y in entries
    ensures x.manifestCid == y.manifestCid ==> x == y
  {
    var i :| 0 <= i < |entries| && entries[i] == x;
    var j :| 0 <= j < |entries| && entries[j] == y;
  }

  lemma BeforeOneWay(x: RegistryEntry, y: RegistryEntry, lt: Collation)
    requires OrdersCids(lt) && ValidCid(x.manifestCid) && ValidCid(y.manifestCid)
    ensures !(Before(x, y, lt) && Before(y, x, lt))
  {
    hide ValidCid;
  }

  /* ---- heads of reachable registries ---- */

  lemma AccountCids(address: Address, a: Account)
    requires AccountTrue(address, a)
    ensures ValidCids(a.entries) && DistinctCids(a.entries)
  {
    forall i | 0 <= i < |a.entries| ensures ValidCid(a.entries[i].manifestCid) {
      assert EntryTrue(a.entries[i], a.wallet);
    }
  }

  /** In every reachable registry the head depends on the set of entries, not on their order. */
  lemma HeadOfReachable(txs: seq<Transaction>, address: Address, shuffled: seq<RegistryEntry>, lt: Collation)
    requires OrdersCids(lt) && address in RunTransactions(map[], txs)
    requires multiset(shuffled) == multiset(RunTransactions(map[], txs)[address].entries)
    ensures var entries := RunTransactions(map[], txs)[address].entries;
            && SelectHead(shuffled, lt) == SelectHead(entries, lt)
            && (entries == [] <==> SelectHead(entries, lt) == None)
            && (entries != [] ==> forall e | e in entries ::
                  e == SelectHead(entries, lt).value || Before(SelectHead(entries, lt).value, e, lt))
  {
    hide RunTransactions, SelectHead, ValidCids, DistinctCids, AccountTrue, Before, OrdersCids;
    RegistryInvariant(map[], txs);
    var a := RunTransactions(map[], txs)[address];
    AccountCids(address, a);
    HeadIsUnique(a.entries, shuffled, lt);
    HeadIsMaximal(a.entries, lt);
  }

  /**
   * If the clock never goes back, the head's time is that of the last append, and the head
   * is the last append exactly when no entry of the same second has a greater CID.
   */
  lemma HeadIsLatest(txs: seq<Transaction>, now: int, address: Address, lt: Collation)
    requires OrdersCids(lt) && address in RunTransactions(map[], txs)
    requires RunTransactions(map[], txs)[address].entries != []
    requires ClockOrdered(txs) && forall i | 0 <= i < |txs| :: txs[i].now <= now
    ensures var entries := RunTransactions(map[], txs)[address].entries; var last := entries[|entries| - 1];
            && SelectHead(entries, lt).Some? && SelectHead(entries, lt).value.publishedAt == last.publishedAt
            && (SelectHead(entries, lt) == Some(last) <==>
                  forall e | e in entries && e.publishedAt == last.publishedAt :: !lt(last.manifestCid, e.manifestCid))
  {
    hide RunTransactions, SelectHead, ValidCids, DistinctCids, AccountTrue, OrdersCids;
    RegistryInvariant(map[], txs);
    var a := RunTransactions(map[], txs)[address];
    AccountCids(address, a);
    EntriesInTimeOrder(txs, now);
    assert TimesTrue(a, now);
    HeadIsMaximal(a.entries, lt);
    HeadAndLast(a.entries, lt);
  }

  lemma HeadAndLast(entries: seq<RegistryEntry>, lt: Collation)
    requires OrdersCids(lt) && ValidCids(entries) && DistinctCids(entries) && entries != []
    requires forall i, j | 0 <= i < j < |entries| :: entries[i].publishedAt <= entries[j].publishedAt
    ensures var last := entries[|entries| - 1];
            && SelectHead(entries, lt).value.publishedAt == last.publishedAt
            && (SelectHead(entries, lt) == Some(last) <==>
                  forall e | e in entries && e.publishedAt == last.publishedAt :: !lt(last.manifestCid, e.manifestCid))
  {
    hide Sorted, ValidCid;
    HeadIsMaximal(entries, lt);
    var last, h := entries[|entries| - 1], SelectHead(entries, lt).value;
    assert h.publishedAt <= last.publishedAt;
    SameCid(entries, h, last);
    ValidMember(entries, h);
    ValidMember(entries, last);
    forall e | e in entries && e.publishedAt == last.publishedAt && h == last
        ensures !lt(last.manifestCid, e.manifestCid) {
      ValidMember(entries, e);
    }
  }

  /** A publication strictly later than all before it becomes the head. */
  lemma LaterPublicationIsHead(entries: seq<RegistryEntry>, e: RegistryEntry, lt: Collation)
    requires OrdersCids(lt) && ValidCids(entries + [e])
    requires forall x | x in entries :: x.publishedAt < e.publishedAt
    ensures SelectHead(entries + [e], lt) == Some(e)
  {
    hide Sorted, ValidCid;
    HeadIsMaximal(entries + [e], lt);
    var h := SelectHead(entries + [e], lt).value;
    assert e in entries + [e];
  }
}
