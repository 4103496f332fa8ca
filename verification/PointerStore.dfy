/**
 * packages/manifest/src/storage.ts: the pointer of each wallet in a key-value store, with a
 * read that migrates the value an earlier version kept under an unscoped key.
 */
module PointerStore {
  import opened Wrappers
  import opened AsciiText

  const Prefix := "sj:manifestCid:"
  const DefaultCluster := "devnet"

  type Items = map<string, string>

  datatype PointerError = BlankWallet | WalletHasBlanks | BlankCid

  /* ---- keys ---- */

  function CanonicalWallet(wallet: string): Result<string, PointerError> {
    var pk := Trim(wallet);
    if pk == [] then Err(BlankWallet) else if HasSpace(pk) then Err(WalletHasBlanks) else Ok(pk)
  }

  /** `cluster` is the configured one; an empty setting counts as none. */
  function ClusterName(cluster: string): string {
    if cluster == [] then DefaultCluster else cluster
  }

  function ScopedKey(cluster: string, pk: string): string {
    Prefix + ClusterName(cluster) + ":" + pk
  }

  function LegacyKey(pk: string): string {
    Prefix + pk
  }

  predicate ColonFree(s: string) {
    forall i | 0 <= i < |s| :: s[i] != ':'
  }

  function FirstColon(s: string): nat {
    if s == [] || s[0] == ':' then 0 else 1 + FirstColon(s[1..])
  }

  lemma {:induction false} FirstColonAt(a: string, rest: string)
    requires ColonFree(a)
    ensures FirstColon(a + ":" + rest) == |a| && FirstColon(a) == |a|
  {
    var s := a + ":" + rest;
    if a != [] {
      assert s[0] == a[0] && s[1..] == a[1..] + ":" + rest;
      FirstColonAt(a[1..], rest);
    }
  }

  /** Without colons in the parts, keys of different clusters, wallets or generations differ. */
  lemma KeysDiffer(c1: string, w1: string, c2: string, w2: string)
    requires ColonFree(w1) && ColonFree(w2) && ColonFree(c1) && ColonFree(c2)
    ensures ScopedKey(c1, w1) == ScopedKey(c2, w2) <==> ClusterName(c1) == ClusterName(c2) && w1 == w2
    ensures ScopedKey(c1, w1) != LegacyKey(w2)
    ensures LegacyKey(w1) == LegacyKey(w2) <==> w1 == w2
  {
    hide FirstColon, ClusterName;
    var a, b := ClusterName(c1), ClusterName(c2);
    ClusterColonFree(c1);
    ClusterColonFree(c2);
    var s, t := a + ":" + w1, b + ":" + w2;
    var n := |Prefix|;
    assert ScopedKey(c1, w1)[n..] == s && ScopedKey(c2, w2)[n..] == t;
    assert LegacyKey(w1)[n..] == w1 && LegacyKey(w2)[n..] == w2;
    FirstColonAt(a, w1);
    FirstColonAt(b, w2);
    FirstColonAt(w2, "");
    assert s[..|a|] == a && s[|a| + 1..] == w1 && t[..|b|] == b && t[|b| + 1..] == w2;
  }

  lemma ClusterColonFree(cluster: string)
    requires ColonFree(cluster)
    ensures ColonFree(ClusterName(cluster))
  {
  }

  /* ---- the abstract map ---- */

  function Clean(raw: string): Option<string> {
    if Trim(raw) == [] then None else Some(Trim(raw))
  }

  /** The trimmed scoped value if there is one, otherwise the trimmed legacy value; blank is absent. */
  function Pointer(items: Items, cluster: string, pk: string): Option<string> {
    if ScopedKey(cluster, pk) in items then Clean(items[ScopedKey(cluster, pk)])
    else if LegacyKey(pk) in items then Clean(items[LegacyKey(pk)])
    else None
  }

  /** Keys, answers and migration with the keys written out. */
  lemma PointerSpelledOut(items: Items, cluster: string, pk: string, cid: string)
    ensures var key := "sj:manifestCid:" + (if cluster == "" then "devnet" else cluster) + ":" + pk;
            var older := "sj:manifestCid:" + pk;
            && (Pointer(items, cluster, pk) == Some(cid) <==>
                  && cid != ""
                  && if key in items then Trim(items[key]) == cid else older in items && Trim(items[older]) == cid)
            && (if key !in items && older in items && Trim(items[older]) != ""
                then Migrated(items, cluster, pk) == items[key := items[older]]
                else Migrated(items, cluster, pk) == items)
  {
    hide Trim;
  }

  /** A wallet and a cluster that cannot run into another key. */
  predicate Plain(cluster: string, pk: string) {
    ColonFree(cluster) && ColonFree(pk)
  }

  /* ---- the operations ---- */

  /** window.localStorage or an injected store; an injected one may lack removeItem. */
  class ManifestStorage {
    var items: Items
    const canRemove: bool

    constructor (items: Items, canRemove: bool)
      ensures this.items == items && this.canRemove == canRemove
    {
      this.items, this.canRemove := items, canRemove;
    }

    method GetManifestCid(cluster: string, wallet: string) returns (r: Result<Option<string>, PointerError>)
      modifies this
      ensures match CanonicalWallet(wallet)
              case Err(e) => r == Err(e) && items == old(items)
              case Ok(pk) => r == Ok(Pointer(old(items), cluster, pk)) && items == Migrated(old(items), cluster, pk)
    {
      hide Trim;
      var canonical := CanonicalWallet(wallet);
      if canonical.Err? { return Err(canonical.error); }
      var pk := canonical.value;
      var key := ScopedKey(cluster, pk);
      var raw := if key in items then Some(items[key]) else None;
      if raw.None? {
        var legacyKey := LegacyKey(pk);
        if legacyKey in items && Trim(items[legacyKey]) != [] {
          raw := Some(items[legacyKey]);
          items := items[key := raw.value];
        }
      }
      if raw.None? || Trim(raw.value) == [] { return Ok(None); }
      return Ok(Some(Trim(raw.value)));
    }

    method SetManifestCid(cluster: string, wallet: string, cid: string) returns (error: Option<PointerError>)
      modifies this
      ensures error ==
                if Trim(cid) == [] then Some(BlankCid)
                else if CanonicalWallet(wallet).Err? then Some(CanonicalWallet(wallet).error)
                else None
      ensures items ==
                if error.Some? then old(items)
                else old(items)[ScopedKey(cluster, CanonicalWallet(wallet).value) := Trim(cid)]
    {
      hide Trim;
      if Trim(cid) == [] { return Some(BlankCid); }
      var canonical := CanonicalWallet(wallet);
      if canonical.Err? { return Some(canonical.error); }
      items := items[ScopedKey(cluster, canonical.value) := Trim(cid)];
      return None;
    }

    method RemoveManifestCid(cluster: string, wallet: string) returns (error: Option<PointerError>)
      modifies this
      ensures match CanonicalWallet(wallet)
              case Err(e) => error == Some(e) && items == old(items)
              case Ok(pk) => error == None && items == Removed(old(items), cluster, pk, canRemove)
    {
      hide Trim;
      var canonical := CanonicalWallet(wallet);
      if canonical.Err? { return Some(canonical.error); }
      var key := ScopedKey(cluster, canonical.value);
      if canRemove {
        items := items - {key};
        return None;
      }
      items := items[key := ""];
      return None;
    }
  }

  /** The store after a read: a non-blank legacy value is copied to a missing scoped key. */
  function Migrated(items: Items, cluster: string, pk: string): Items {
    if Migrates(items, cluster, pk)
    then items[ScopedKey(cluster, pk) := items[LegacyKey(pk)]]
    else items
  }

  function Removed(items: Items, cluster: string, pk: string, canRemove: bool): Items {
    if canRemove then items - {ScopedKey(cluster, pk)} else items[ScopedKey(cluster, pk) := ""]
  }

  /* ---- refinement ---- */

  /** A wallet's two keys always differ, colons or not. */
  lemma OwnKeysDiffer(cluster: string, pk: string)
    ensures ScopedKey(cluster, pk) != LegacyKey(pk)
  {
    assert |ScopedKey(cluster, pk)| > |LegacyKey(pk)|;
  }

  /** The read copies a legacy value. */
  predicate Migrates(items: Items, cluster: string, pk: string) {
    ScopedKey(cluster, pk) !in items && LegacyKey(pk) in items && Trim(items[LegacyKey(pk)]) != []
  }

  /** For every wallet whatsoever, reading keeps its own pointer, and reading twice is reading once. */
  lemma ReadKeepsOwnPointer(items: Items, cluster: string, pk: string)
    ensures Pointer(Migrated(items, cluster, pk), cluster, pk) == Pointer(items, cluster, pk)
    ensures Migrated(Migrated(items, cluster, pk), cluster, pk) == Migrated(items, cluster, pk)
  {
    hide Trim, ScopedKey, LegacyKey;
    OwnKeysDiffer(cluster, pk);
  }

  /**
   * Exactly which pointers a read changes, for all names: it must migrate, and the other
   * wallet must either share the scoped key and have had another value under its own legacy
   * key, or have no scoped value and use the scoped key just written as its legacy key.
   */
  lemma ReadChangesExactly(items: Items, cluster: string, pk: string, otherCluster: string, otherPk: string)
    ensures Pointer(Migrated(items, cluster, pk), otherCluster, otherPk) != Pointer(items, otherCluster, otherPk) <==>
              && Migrates(items, cluster, pk)
              && (if ScopedKey(otherCluster, otherPk) == ScopedKey(cluster, pk)
                  then LegacyKey(otherPk) !in items || Trim(items[LegacyKey(otherPk)]) != Trim(items[LegacyKey(pk)])
                  else ScopedKey(otherCluster, otherPk) !in items && LegacyKey(otherPk) == ScopedKey(cluster, pk))
  {
    hide Trim, ScopedKey, LegacyKey;
    OwnKeysDiffer(cluster, pk);
    OwnKeysDiffer(otherCluster, otherPk);
  }

  /** Without colons, reading changes the pointer of no wallet on no cluster. */
  lemma ReadChangesNoPointer(items: Items, cluster: string, pk: string, otherCluster: string, otherPk: string)
    requires Plain(cluster, pk) && Plain(otherCluster, otherPk)
    ensures Pointer(Migrated(items, cluster, pk), otherCluster, otherPk) == Pointer(items, otherCluster, otherPk)
  {
    hide Trim, ScopedKey, LegacyKey, Pointer, Migrated;
    KeysDiffer(cluster, pk, otherCluster, otherPk);
    ReadChangesExactly(items, cluster, pk, otherCluster, otherPk);
  }

  /** With a colon it can: reading wallet `W` gives wallet `devnet:W` a pointer it did not have. */
  lemma ReadCanAddPointer()
    ensures var items: Items := map["sj:manifestCid:W" := "b"];
            && Pointer(items, "", "devnet:W") == None
            && Pointer(Migrated(items, "", "W"), "", "devnet:W") == Some("b")
  {
    hide Trim;
    var items: Items := map["sj:manifestCid:W" := "b"];
    TrimOfTrimmed("b");
    assert LegacyKey("W") == "sj:manifestCid:W";
    assert LegacyKey("devnet:W") == "sj:manifestCid:devnet:W" == ScopedKey("", "W");
    assert |ScopedKey("", "devnet:W")| > |ScopedKey("", "W")| > |LegacyKey("W")|;
  }

  /**
   * What every pointer is after a write, for all names: the trimmed CID wherever the scoped
   * key written is the wallet's scoped key or, without a scoped value, its legacy key.
   */
  lemma SetThenGet(items: Items, cluster: string, pk: string, cid: string, otherCluster: string, otherPk: string)
    requires Trim(cid) != []
    ensures var after := items[ScopedKey(cluster, pk) := Trim(cid)];
            && Pointer(after, cluster, pk) == Some(Trim(cid))
            && Pointer(after, otherCluster, otherPk) ==
                 if ScopedKey(otherCluster, otherPk) == ScopedKey(cluster, pk)
                    || (ScopedKey(otherCluster, otherPk) !in items && LegacyKey(otherPk) == ScopedKey(cluster, pk))
                 then Some(Trim(cid)) else Pointer(items, otherCluster, otherPk)
  {
    hide Trim, ScopedKey, LegacyKey;
    TrimIdempotent(cid);
    OwnKeysDiffer(otherCluster, otherPk);
  }

  /** Without colons, a write changes the pointer of its own wallet and cluster only. */
  lemma SetChangesNoOther(items: Items, cluster: string, pk: string, cid: string, otherCluster: string, otherPk: string)
    requires Plain(cluster, pk) && Plain(otherCluster, otherPk) && Trim(cid) != []
    requires ClusterName(otherCluster) != ClusterName(cluster) || otherPk != pk
    ensures Pointer(items[ScopedKey(cluster, pk) := Trim(cid)], otherCluster, otherPk) ==
        Pointer(items, otherCluster, otherPk)
  {
    hide Trim, ScopedKey, LegacyKey, Pointer;
    KeysDiffer(cluster, pk, otherCluster, otherPk);
    SetThenGet(items, cluster, pk, cid, otherCluster, otherPk);
  }

  /**
   * Removing then reading finds nothing exactly when the store cannot remove (and is
   * overwritten) or the wallet has no non-blank legacy value.
   */
  lemma RemoveThenGet(items: Items, cluster: string, pk: string, canRemove: bool)
    ensures Pointer(Removed(items, cluster, pk, canRemove), cluster, pk) == None
       <==> !canRemove || LegacyKey(pk) !in items || Trim(items[LegacyKey(pk)]) == []
  {
    hide TrimStart, TrimEnd, ScopedKey, LegacyKey;
    OwnKeysDiffer(cluster, pk);
    BlankIsAbsent();
  }

  /** Without colons, a removal keeps every other pointer. */
  lemma RemoveChangesNoOther(items: Items, cluster: string, pk: string, canRemove: bool, otherCluster: string,
      otherPk: string)
    requires Plain(cluster, pk) && Plain(otherCluster, otherPk)
    requires ClusterName(otherCluster) != ClusterName(cluster) || otherPk != pk
    ensures Pointer(Removed(items, cluster, pk, canRemove), otherCluster, otherPk) ==
        Pointer(items, otherCluster, otherPk)
  {
    hide Trim, ScopedKey, LegacyKey;
    KeysDiffer(cluster, pk, otherCluster, otherPk);
  }

  lemma BlankIsAbsent()
    ensures Clean("") == None
  {
  }

  /** After a migrating read, removing brings the old pointer back: an input where removal does not last. */
  lemma RemovalCanBeUndone()
    ensures var migrated := Migrated(map["sj:manifestCid:W" := "bOld"], "", "W");
            && Pointer(migrated, "", "W") == Some("bOld")
            && Pointer(Removed(migrated, "", "W", true), "", "W") == Some("bOld")
  {
    var items: Items := map["sj:manifestCid:W" := "bOld"];
    assert LegacyKey("W") == "sj:manifestCid:W";
    TrimOfTrimmed("bOld");
    OwnKeysDiffer("", "W");
    RemoveThenGet(Migrated(items, "", "W"), "", "W", true);
  }

  /** With a colon in a wallet name one scoped key can be another wallet's legacy key. */
  lemma ColonsCollide(cluster: string, pk: string)
    ensures ScopedKey(cluster, pk) == LegacyKey(ClusterName(cluster) + ":" + pk)
  {
    assert Prefix + ClusterName(cluster) + ":" + pk == Prefix + (ClusterName(cluster) + ":" + pk);
  }
}
