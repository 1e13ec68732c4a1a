/** The table of assets behind the API, and its failing calls. */
module AssetTable {
  import opened Common
  import ContainerImage

  type Id = nat

  /** `payload` stands for everything outside the properties that make an asset unique. */
  datatype AssetType =
    | Image(info: ContainerImage.ContainerImageInfo)
    | OtherAsset(kind: string, identity: string, payload: string)
    | Unreadable(text: string)

  datatype Asset = Asset(info: AssetType, firstSeen: Option<int>, lastSeen: Option<int>, terminatedOn: Option<int>)

  type Assets = map<Id, Asset>

  datatype Identity = ImageId(imageID: string) | KindAndName(kind: string, name: string) | Text(text: string)

  /** The properties by which the database recognises an asset. */
  function IdentityOf(a: AssetType): Identity {
    match a
    case Image(info) => ImageId(info.imageID)
    case OtherAsset(kind, identity, _) => KindAndName(kind, identity)
    case Unreadable(text) => Text(text)
  }

  /** Images are recognised by their ID, other assets by their kind and its own identifying properties. */
  lemma IdentityMeaning(a: AssetType, b: AssetType)
    ensures IdentityOf(a) == IdentityOf(b) <==>
      || (a.Image? && b.Image? && a.info.imageID == b.info.imageID)
      || (a.OtherAsset? && b.OtherAsset? && a.kind == b.kind && a.identity == b.identity)
      || (a.Unreadable? && a == b)
  {
  }

  ghost predicate Has(assets: Assets, i: Identity) {
    exists id :: id in assets && IdentityOf(assets[id].info) == i
  }

  ghost predicate UniqueIdentities(assets: Assets) {
    forall id, id' :: id in assets && id' in assets && IdentityOf(assets[id].info) == IdentityOf(assets[id'].info) ==>
      id == id'
  }

  /** A POST went through although its response did not. */
  ghost predicate CreatedUnseen(assets: Assets, assets': Assets, asset: Asset) {
    exists id :: CreatedAs(assets, assets', asset, id)
  }

  ghost predicate CreatedAs(assets: Assets, assets': Assets, asset: Asset, id: Id) {
    id !in assets && !Has(assets, IdentityOf(asset.info)) && assets' == assets[id := asset]
  }

  predicate Live(assets: Assets, id: Id) {
    id in assets && assets[id].terminatedOn.None?
  }

  datatype PostResult = Created(id: Id) | Conflict(id: Id) | PostFailed

  const SECOND: int := 1_000_000_000

  /** The instant as RFC 3339 prints it, without fractions of a second. */
  function WholeSeconds(t: int): int {
    t - t % SECOND
  }

  /** The filter of the query for assets that this discovery has not seen. */
  predicate NotSeenSince(a: Asset, now: int) {
    a.terminatedOn.None? && (a.lastSeen.None? || a.lastSeen.value < WholeSeconds(now))
  }

  /** An asset is stale when it is not terminated and was last seen in an earlier second, or never. */
  lemma StaleMeaning(a: Asset, now: int)
    ensures NotSeenSince(a, now) <==>
      a.terminatedOn.None? && (a.lastSeen.None? || a.lastSeen.value / SECOND < now / SECOND)
  {
    assert WholeSeconds(now) == SECOND * (now / SECOND);
    if a.lastSeen.Some? {
      var t := a.lastSeen.value;
      assert t == SECOND * (t / SECOND) + t % SECOND;
    }
  }

  /** A call that reports success took effect; one that reports failure may have. */
  class Backend {
    var assets: Assets
    ghost var failures: nat

    constructor (assets: Assets)
      ensures this.assets == assets && failures == 0
    {
      this.assets := assets;
      failures := 0;
    }

    method PostAsset(asset: Asset) returns (r: PostResult)
      modifies this
      ensures r.Created? ==> CreatedAs(old(assets), assets, asset, r.id)
      ensures r.Conflict? ==>
        assets == old(assets) && r.id in assets && IdentityOf(assets[r.id].info) == IdentityOf(asset.info)
      ensures r.PostFailed? ==> assets == old(assets) || CreatedUnseen(old(assets), assets, asset)
      ensures failures == old(failures) + if r.PostFailed? then 1 else 0
    {
      var trouble: bool, lost: bool, newId: Id := *, *, *;
      if trouble || newId in assets {
        failures := failures + 1;
        return PostFailed;
      }
      var todo := assets.Keys;
      while todo != {}
        invariant todo <= assets.Keys
        invariant forall id :: id in assets && IdentityOf(assets[id].info) == IdentityOf(asset.info) ==> id in todo
        decreases todo
      {
        var id :| id in todo;
        if IdentityOf(assets[id].info) == IdentityOf(asset.info) {
          return Conflict(id);
        }
        todo := todo - {id};
      }
      assets := assets[newId := asset];
      assert CreatedAs(old(assets), assets, asset, newId);
      if lost {
        failures := failures + 1;
        return PostFailed;
      }
      return Created(newId);
    }

    method PatchSeen(id: Id, info: AssetType, now: int) returns (ok: bool)
      requires id in assets
      modifies this
      ensures assets == old(assets)[id := old(assets)[id].(info := info, lastSeen := Some(now))]
        || (!ok && assets == old(assets))
      ensures failures == old(failures) + if ok then 0 else 1
    {
      ok := *;
      var arrives: bool := *;
      if ok || arrives {
        assets := assets[id := assets[id].(info := info, lastSeen := Some(now))];
      }
      if !ok {
        failures := failures + 1;
      }
    }

    method PatchTerminated(id: Id, now: int) returns (ok: bool)
      requires id in assets
      modifies this
      ensures assets == old(assets)[id := old(assets)[id].(terminatedOn := Some(now))] || (!ok && assets == old(assets))
      ensures failures == old(failures) + if ok then 0 else 1
    {
      ok := *;
      var arrives: bool := *;
      if ok || arrives {
        assets := assets[id := assets[id].(terminatedOn := Some(now))];
      }
      if !ok {
        failures := failures + 1;
      }
    }

    method GetNotSeenSince(now: int) returns (r: Option<set<Id>>)
      modifies this`failures
      ensures r.Some? ==> r.value == set id | id in assets && NotSeenSince(assets[id], now)
      ensures failures == old(failures) + if r.Some? then 0 else 1
    {
      var trouble: bool := *;
      if trouble {
        failures := failures + 1;
        return None;
      }
      return Some(set id | id in assets && NotSeenSince(assets[id], now));
    }
  }
}

/** Reconciling the table with what a provider discovers. */
module Discoverer {
  import opened Common
  import opened AssetTable
  import ContainerImage

  /** What a conflict with a stored asset is resolved to; None when the two cannot be merged. */
  function HandleAssetConflict(existing: AssetType, newAsset: AssetType): (r: Option<AssetType>)
    ensures r.Some? && IdentityOf(existing) == IdentityOf(newAsset) ==> IdentityOf(r.value) == IdentityOf(existing)
  {
    match newAsset
    case Unreadable(_) => None
    case OtherAsset(_, _, _) => Some(newAsset)
    case Image(info) =>
      if !existing.Image? then None
      else
        var merged := ContainerImage.Merge(existing.info, info);
        if merged.None? then None else Some(Image(merged.value))
  }

  /** What a conflict is resolved to: other assets give way to what was found, images are merged if they agree. */
  lemma ConflictMeaning(existing: AssetType, newAsset: AssetType)
    ensures var r := HandleAssetConflict(existing, newAsset);
            && (newAsset.OtherAsset? ==> r == Some(newAsset))
            && (existing.Image? && newAsset.Image? ==>
                 var both := [existing.info, newAsset.info];
                 && (r.Some? <==> forall f :: ContainerImage.Agree(both, f))
                 && (r.Some? ==> r.value.Image? && ContainerImage.Summarizes(r.value.info, both)))
            && (newAsset.Unreadable? || (newAsset.Image? && !existing.Image?) ==> r.None?)
  {
    if existing.Image? && newAsset.Image? {
      ContainerImage.OneSummarizes(existing.info);
      ContainerImage.NextSummary(existing.info, [existing.info], newAsset.info);
      assert [existing.info] + [newAsset.info] == [existing.info, newAsset.info];
    }
    hide ContainerImage.Merge;
    hide ContainerImage.Summarizes;
    hide ContainerImage.Agree;
  }

  // ---------- What becomes of the info of an asset ----------

  /**
   Which asset found created each new entry, and for which ones a patch took effect, whether or
   not the response arrived; which ones could not be merged with what was stored; and for which
   ones a call failed.
   */
  datatype History = History(origin: map<Id, nat>, patched: set<nat>, unmerged: set<nat>, failed: set<nat>)

  /** How many of the assets found met with a failing call. */
  function Failures(h: History): nat { |h.failed| }

  const NO_HISTORY := History(map[], {}, {}, {})

  /** `start` after the conflicts with it among found[from..] whose patch took effect. */
  function Refined(start: AssetType, found: seq<AssetType>, from: nat, patched: set<nat>): Option<AssetType> {
    if |found| <= from then Some(start)
    else
      var n := |found| - 1;
      var info := Refined(start, found[..n], from, patched);
      if info.None? || n !in patched || IdentityOf(found[n]) != IdentityOf(start) then info
      else HandleAssetConflict(info.value, found[n])
  }

  ghost predicate OldInfo(before: Assets, after: Assets, found: seq<AssetType>, h: History, id: Id) {
    id in before && id in after && Refined(before[id].info, found, 0, h.patched) == Some(after[id].info)
  }

  ghost predicate NewInfo(after: Assets, now: int, found: seq<AssetType>, h: History, id: Id) {
    && id in after && id in h.origin && h.origin[id] < |found| && after[id].firstSeen == Some(now)
    && Refined(found[h.origin[id]], found, h.origin[id] + 1, h.patched) == Some(after[id].info)
  }

  /** Where the info of every asset comes from. */
  ghost predicate Infos(before: Assets, after: Assets, now: int, found: seq<AssetType>, h: History) {
    && after.Keys == before.Keys + h.origin.Keys && before.Keys !! h.origin.Keys
    && PatchedAreFound(found, h)
    && OldInfos(before, after, found, h)
    && NewInfos(after, now, found, h)
  }

  ghost predicate PatchedAreFound(found: seq<AssetType>, h: History) {
    forall j :: j in h.patched ==> j < |found|
  }

  ghost predicate OldInfos(before: Assets, after: Assets, found: seq<AssetType>, h: History) {
    forall id :: id in before ==> OldInfo(before, after, found, h, id)
  }

  ghost predicate NewInfos(after: Assets, now: int, found: seq<AssetType>, h: History) {
    forall id :: id in h.origin ==> NewInfo(after, now, found, h, id)
  }

  /** Everything found created an asset or refreshed one. */
  ghost predicate AllUsed(found: seq<AssetType>, h: History) {
    forall j :: 0 <= j < |found| ==> j in h.patched || j in h.origin.Values
  }

  /** The asset found at j could not be merged with what `start` had become by then. */
  ghost predicate Clashes(start: AssetType, found: seq<AssetType>, from: nat, patched: set<nat>, j: nat) {
    && j < |found| && IdentityOf(found[j]) == IdentityOf(start)
    && var info := Refined(start, found[..j], from, patched);
       info.Some? && HandleAssetConflict(info.value, found[j]).None?
  }

  ghost predicate ClashesAt(before: Assets, found: seq<AssetType>, h: History, j: nat, id: Id) {
    || (id in before && Clashes(before[id].info, found, 0, h.patched, j))
    || (id in h.origin && h.origin[id] < |found|
        && Clashes(found[h.origin[id]], found, h.origin[id] + 1, h.patched, j))
  }

  ghost predicate CannotMerge(before: Assets, found: seq<AssetType>, h: History, j: nat) {
    exists id :: ClashesAt(before, found, h, j, id)
  }

  /** Everything found created an asset, refreshed one, could not be merged, or met with a failure. */
  ghost predicate AllTried(before: Assets, found: seq<AssetType>, h: History) {
    && (forall j :: 0 <= j < |found| ==> j in h.patched || j in h.origin.Values || j in h.unmerged || j in h.failed)
    && (forall j :: j in h.unmerged ==> CannotMerge(before, found, h, j))
    && (forall j :: j in h.unmerged ==> j < |found|)
    && (forall j :: j in h.failed ==> j < |found|)
  }

  lemma {:induction false} RefinedIdentity(start: AssetType, found: seq<AssetType>, from: nat, patched: set<nat>)
    ensures Refined(start, found, from, patched).Some? ==>
      IdentityOf(Refined(start, found, from, patched).value) == IdentityOf(start)
  {
    if |found| <= from {
    } else {
      var n := |found| - 1;
      RefinedIdentity(start, found[..n], from, patched);
      var info := Refined(start, found[..n], from, patched);
      if info.Some? && IdentityOf(found[n]) == IdentityOf(start) { ConflictIdentity(info.value, found[n]); }
      hide IdentityOf;
      hide HandleAssetConflict;
    }
  }

  /** Later patches do not matter for an earlier prefix. */
  lemma {:induction false} RefinedSame(start: AssetType, found: seq<AssetType>, from: nat, patched: set<nat>, n: nat)
    requires |found| <= n
    ensures Refined(start, found, from, patched + {n}) == Refined(start, found, from, patched)
  {
    hide IdentityOf;
    hide HandleAssetConflict;
    if |found| <= from {
    } else {
      RefinedSame(start, found[..|found| - 1], from, patched, n);
    }
  }

  lemma RefinedMore(start: AssetType, found: seq<AssetType>, a: AssetType, from: nat, patched: set<nat>)
    requires from <= |found| && forall j :: j in patched ==> j < |found|
    ensures Refined(start, found + [a], from, patched) == Refined(start, found, from, patched)
    ensures Refined(start, found + [a], from, patched + {|found|}) ==
      var info := Refined(start, found, from, patched);
      if info.None? || IdentityOf(a) != IdentityOf(start) then info else HandleAssetConflict(info.value, a)
  {
    var all := found + [a];
    assert all[..|found|] == found && all[|found|] == a;
    RefinedSame(start, found, from, patched, |found|);
    hide IdentityOf;
    hide HandleAssetConflict;
  }

  /** One more asset found that changes nothing. */
  lemma InfosSame(before: Assets, after: Assets, now: int, found: seq<AssetType>, a: AssetType, h: History)
    requires Infos(before, after, now, found, h)
    ensures Infos(before, after, now, found + [a], h)
  {
    var all := found + [a];
    hide Refined;
    forall id | id in before
      ensures OldInfo(before, after, all, h, id)
    {
      assert OldInfo(before, after, found, h, id);
      RefinedMore(before[id].info, found, a, 0, h.patched);
    }
    forall id | id in h.origin
      ensures NewInfo(after, now, all, h, id)
    {
      assert NewInfo(after, now, found, h, id);
      RefinedMore(found[h.origin[id]], found, a, h.origin[id] + 1, h.patched);
    }
  }

  lemma NewInfosCreated(after: Assets, now: int, found: seq<AssetType>, h: History, id: Id)
    requires NewInfos(after, now, found, h) && id !in after && found != []
    ensures var a := found[|found| - 1];
            NewInfos(after[id := Asset(a, Some(now), Some(now), None)], now, found,
              h.(origin := h.origin[id := |found| - 1]))
  {
    var n := |found| - 1;
    var after', h' := after[id := Asset(found[n], Some(now), Some(now), None)], h.(origin := h.origin[id := n]);
    forall i | i in h'.origin
      ensures NewInfo(after', now, found, h', i)
    {
      if i != id { assert NewInfo(after, now, found, h, i); }
    }
  }

  /** One more asset found that is created. */
  lemma InfosCreated(before: Assets, after: Assets, now: int, found: seq<AssetType>, a: AssetType, h: History, id: Id)
    requires Infos(before, after, now, found, h) && id !in after
    ensures var after' := after[id := Asset(a, Some(now), Some(now), None)];
            Infos(before, after', now, found + [a], h.(origin := h.origin[id := |found|]))
  {
    InfosSame(before, after, now, found, a, h);
    NewInfosCreated(after, now, found + [a], h, id);
    hide NewInfos;
    hide Refined;
    assert forall i :: i in before ==> OldInfo(before, after, found + [a], h, i);
  }

  lemma InfosApart(before: Assets, after: Assets, now: int, found: seq<AssetType>, h: History, h': History)
    requires Infos(before, after, now, found, h) && h' == h.(unmerged := h'.unmerged, failed := h'.failed)
    ensures Infos(before, after, now, found, h')
  {
    hide Refined;
    assert forall id :: OldInfo(before, after, found, h, id) == OldInfo(before, after, found, h', id);
    assert forall id :: NewInfo(after, now, found, h, id) == NewInfo(after, now, found, h', id);
  }

  lemma ClashStays(before: Assets, found: seq<AssetType>, a: AssetType, h: History, h': History, j: nat)
    requires CannotMerge(before, found, h, j)
    requires h'.patched == h.patched || h'.patched == h.patched + {|found|}
    requires forall i :: i in h.origin ==> i in h'.origin && h'.origin[i] == h.origin[i]
    ensures CannotMerge(before, found + [a], h', j)
  {
    hide IdentityOf;
    hide HandleAssetConflict;
    hide Refined;
    var id :| ClashesAt(before, found, h, j, id);
    assert (found + [a])[..j] == found[..j];
    if id in before && Clashes(before[id].info, found, 0, h.patched, j) {
      RefinedSame(before[id].info, found[..j], 0, h.patched, |found|);
    } else {
      RefinedSame(found[h.origin[id]], found[..j], h.origin[id] + 1, h.patched, |found|);
    }
    assert ClashesAt(before, found + [a], h', j, id);
  }

  /** One more asset found, with what became of it. */
  lemma TriedMore(before: Assets, found: seq<AssetType>, a: AssetType, h: History, h': History)
    requires AllTried(before, found, h)
    requires h'.patched == h.patched || h'.patched == h.patched + {|found|}
    requires forall i :: i in h.origin ==> i in h'.origin && h'.origin[i] == h.origin[i]
    requires h.unmerged <= h'.unmerged <= h.unmerged + {|found|} && h.failed <= h'.failed <= h.failed + {|found|}
    requires |found| in h'.patched || |found| in h'.origin.Values || |found| in h'.unmerged || |found| in h'.failed
    requires |found| in h'.unmerged ==> CannotMerge(before, found + [a], h', |found|)
    ensures AllTried(before, found + [a], h')
  {
    forall j | j in h.origin.Values
      ensures j in h'.origin.Values
    {
      var i :| i in h.origin && h.origin[i] == j;
      assert h'.origin[i] == j;
    }
    forall j | j in h'.unmerged
      ensures CannotMerge(before, found + [a], h', j)
    {
      if j in h.unmerged { ClashStays(before, found, a, h, h', j); }
    }
    hide CannotMerge;
  }

  /** What is stored of an asset just found, and cannot be merged with it. */
  lemma ClashNow(before: Assets, after: Assets, now: int, found: seq<AssetType>, a: AssetType, h: History, h': History,
      id: Id)
    requires Infos(before, after, now, found, h) && h'.origin == h.origin && h'.patched == h.patched
    requires id in after && IdentityOf(after[id].info) == IdentityOf(a)
    requires HandleAssetConflict(after[id].info, a).None?
    ensures CannotMerge(before, found + [a], h', |found|)
  {
    hide IdentityOf;
    hide HandleAssetConflict;
    hide Refined;
    assert (found + [a])[..|found|] == found;
    if id in before {
      assert OldInfo(before, after, found, h, id);
      RefinedIdentity(before[id].info, found, 0, h.patched);
    } else {
      assert NewInfo(after, now, found, h, id);
      RefinedIdentity(found[h.origin[id]], found, h.origin[id] + 1, h.patched);
    }
    assert ClashesAt(before, found + [a], h', |found|, id);
  }

  /** How one patch, for the asset found last, changes what the info of an asset is. */
  lemma RefinedPatched(start: AssetType, found: seq<AssetType>, a: AssetType, from: nat, patched: set<nat>,
      stored: AssetType, info: AssetType)
    requires from <= |found| && forall j :: j in patched ==> j < |found|
    requires Refined(start, found, from, patched) == Some(stored)
    requires IdentityOf(stored) == IdentityOf(a) ==> HandleAssetConflict(stored, a) == Some(info)
    ensures Refined(start, found + [a], from, patched + {|found|}) ==
      Some(if IdentityOf(stored) == IdentityOf(a) then info else stored)
  {
    RefinedMore(start, found, a, from, patched);
    RefinedIdentity(start, found, from, patched);
    hide *;
  }

  /** The patch of the one asset in the table with the identity of a. */
  ghost predicate PatchedOne(after: Assets, after': Assets, a: AssetType, info: AssetType) {
    forall i :: i in after ==>
      && i in after' && after'[i].firstSeen == after[i].firstSeen
      && (if IdentityOf(after[i].info) == IdentityOf(a)
          then HandleAssetConflict(after[i].info, a) == Some(info) && after'[i].info == info
          else after'[i].info == after[i].info)
  }

  lemma OldInfosPatched(before: Assets, after: Assets, after': Assets, found: seq<AssetType>, a: AssetType, h: History,
      info: AssetType)
    requires OldInfos(before, after, found, h) && PatchedAreFound(found, h) && PatchedOne(after, after', a, info)
    ensures OldInfos(before, after', found + [a], h.(patched := h.patched + {|found|}))
  {
    hide IdentityOf;
    hide HandleAssetConflict;
    hide Refined;
    forall i | i in before
      ensures OldInfo(before, after', found + [a], h.(patched := h.patched + {|found|}), i)
    {
      assert OldInfo(before, after, found, h, i);
      RefinedPatched(before[i].info, found, a, 0, h.patched, after[i].info, info);
    }
  }

  lemma NewInfosPatched(after: Assets, after': Assets, now: int, found: seq<AssetType>, a: AssetType, h: History,
      info: AssetType)
    requires NewInfos(after, now, found, h) && PatchedAreFound(found, h) && PatchedOne(after, after', a, info)
    ensures NewInfos(after', now, found + [a], h.(patched := h.patched + {|found|}))
  {
    hide IdentityOf;
    hide HandleAssetConflict;
    hide Refined;
    forall i | i in h.origin
      ensures NewInfo(after', now, found + [a], h.(patched := h.patched + {|found|}), i)
    {
      assert NewInfo(after, now, found, h, i);
      RefinedPatched(found[h.origin[i]], found, a, h.origin[i] + 1, h.patched, after[i].info, info);
    }
  }

  /** One more asset found with which a stored one is patched. */
  lemma InfosPatched(before: Assets, after: Assets, now: int, found: seq<AssetType>, a: AssetType, h: History, id: Id,
      info: AssetType)
    requires Infos(before, after, now, found, h) && UniqueIdentities(after)
    requires id in after && IdentityOf(after[id].info) == IdentityOf(a)
    requires HandleAssetConflict(after[id].info, a) == Some(info)
    ensures var after' := after[id := after[id].(info := info, lastSeen := Some(now))];
            Infos(before, after', now, found + [a], h.(patched := h.patched + {|found|}))
  {
    var after' := after[id := after[id].(info := info, lastSeen := Some(now))];
    assert PatchedOne(after, after', a, info) by {
      hide IdentityOf;
      hide HandleAssetConflict;
    }
    OldInfosPatched(before, after, after', found, a, h, info);
    NewInfosPatched(after, after', now, found, a, h, info);
    hide UniqueIdentities;
    hide OldInfos;
    hide NewInfos;
    assert after'.Keys == after.Keys;
  }

  lemma InfosUnmerged(before: Assets, after: Assets, now: int, found: seq<AssetType>, a: AssetType, h: History, id: Id)
      returns (h': History)
    requires Infos(before, after, now, found, h) && AllTried(before, found, h)
    requires id in after && IdentityOf(after[id].info) == IdentityOf(a)
    requires HandleAssetConflict(after[id].info, a).None?
    ensures Infos(before, after, now, found + [a], h') && AllTried(before, found + [a], h')
    ensures |h'.unmerged| == |h.unmerged| + 1 && h'.failed == h.failed
  {
    assert |found| !in h.unmerged;
    hide *;
    InfosSame(before, after, now, found, a, h);
    h' := h.(unmerged := h.unmerged + {|found|});
    InfosApart(before, after, now, found + [a], h, h');
    ClashNow(before, after, now, found, a, h, h', id);
    TriedMore(before, found, a, h, h');
  }

  lemma InfosFailed(before: Assets, after: Assets, now: int, found: seq<AssetType>, a: AssetType, h: History,
      h1: History) returns (h': History)
    requires AllTried(before, found, h) && Infos(before, after, now, found + [a], h1)
    requires h1 == h.(origin := h1.origin, patched := h1.patched)
    requires h1.patched == h.patched || h1.patched == h.patched + {|found|}
    requires forall i :: i in h.origin ==> i in h1.origin && h1.origin[i] == h.origin[i]
    ensures Infos(before, after, now, found + [a], h') && AllTried(before, found + [a], h')
    ensures |h'.failed| == |h.failed| + 1 && h'.unmerged == h.unmerged
  {
    assert |found| !in h.failed && |found| !in h.unmerged;
    hide *;
    h' := h1.(failed := h1.failed + {|found|});
    InfosApart(before, after, now, found + [a], h1, h');
    TriedMore(before, found, a, h, h');
  }

  lemma InfosAttempted(before: Assets, after: Assets, after': Assets, now: int, found: seq<AssetType>, a: AssetType,
      h: History, id: Id, info: AssetType, ok: bool) returns (h': History)
    requires Infos(before, after, now, found, h) && AllTried(before, found, h) && UniqueIdentities(after)
    requires id in after && IdentityOf(after[id].info) == IdentityOf(a)
    requires HandleAssetConflict(after[id].info, a) == Some(info)
    requires after' == after[id := after[id].(info := info, lastSeen := Some(now))] || (!ok && after' == after)
    ensures Infos(before, after', now, found + [a], h') && AllTried(before, found + [a], h')
    ensures |h'.failed| == |h.failed| + (if ok then 0 else 1) && h'.unmerged == h.unmerged
  {
    assert |found| !in h.unmerged;
    hide *;
    var h1 := h;
    if after' == after && !ok {
      InfosSame(before, after, now, found, a, h);
    } else {
      InfosPatched(before, after, now, found, a, h, id, info);
      h1 := h.(patched := h.patched + {|found|});
    }
    if ok {
      TriedMore(before, found, a, h, h1);
      h' := h1;
    } else {
      h' := InfosFailed(before, after', now, found, a, h, h1);
    }
  }

  lemma InfosPosted(before: Assets, after: Assets, now: int, found: seq<AssetType>, a: AssetType, h: History, id: Id,
      ok: bool)
      returns (h': History)
    requires Infos(before, after, now, found, h) && AllTried(before, found, h) && id !in after
    ensures Infos(before, after[id := Asset(a, Some(now), Some(now), None)], now, found + [a], h')
    ensures AllTried(before, found + [a], h')
    ensures |h'.failed| == |h.failed| + (if ok then 0 else 1) && h'.unmerged == h.unmerged
  {
    assert |found| !in h.unmerged && id !in h.origin;
    hide *;
    InfosCreated(before, after, now, found, a, h, id);
    var h1 := h.(origin := h.origin[id := |found|]);
    assert h1.origin[id] == |found|;
    if ok {
      TriedMore(before, found, a, h, h1);
      h' := h1;
    } else {
      h' := InfosFailed(before, after[id := Asset(a, Some(now), Some(now), None)], now, found, a, h, h1);
    }
  }

  lemma NoInfos(before: Assets, now: int)
    ensures Infos(before, before, now, [], NO_HISTORY) && AllTried(before, [], NO_HISTORY)
  {
  }

  lemma UsedWhenAllIsWell(before: Assets, found: seq<AssetType>, h: History)
    requires AllTried(before, found, h) && h.failed == h.unmerged == {}
    ensures AllUsed(found, h)
  {
  }

  /**
   What the first loop did: the assets created and those whose patch took effect, whether or not
   the response arrived; `failedPatch` are those whose patch was reported to have failed, and
   `failedPosts` says for which of the assets found the POST was, other than by a conflict.
   */
  datatype Ledger = Ledger(created: set<Id>, seen: set<Id>, failedPatch: set<Id>, failedPosts: set<nat>)

  ghost predicate Progress(before: Assets, after: Assets, now: int, found: seq<AssetType>, l: Ledger) {
    && AllKnown(before, after, l)
    && AllRefreshed(before, after, now, l)
    && CreatedNow(after, now, l)
    && AllFound(after, found, l)
    && UniqueIdentities(after)
  }

  ghost predicate AllKnown(before: Assets, after: Assets, l: Ledger) {
    && after.Keys == before.Keys + l.created && l.created !! before.Keys
    && l.seen <= after.Keys && l.failedPatch <= after.Keys
  }

  ghost predicate AllRefreshed(before: Assets, after: Assets, now: int, l: Ledger) {
    forall id :: id in before ==> id in after && Refreshed(before[id], after[id], now, id in l.seen)
  }

  ghost predicate CreatedNow(after: Assets, now: int, l: Ledger) {
    forall id :: id in l.created ==> id in after && after[id].terminatedOn.None? && after[id].lastSeen == Some(now)
  }

  ghost predicate AllFound(after: Assets, found: seq<AssetType>, l: Ledger) {
    forall id :: id in l.created + l.seen + l.failedPatch ==> id in after && FoundAs(found, IdentityOf(after[id].info))
  }

  predicate Refreshed(a: Asset, a': Asset, now: int, seen: bool) {
    && (if seen then a' == a.(info := a'.info, lastSeen := Some(now)) else a' == a)
    && IdentityOf(a'.info) == IdentityOf(a.info)
  }

  ghost predicate FoundAs(found: seq<AssetType>, i: Identity) {
    exists j :: 0 <= j < |found| && IdentityOf(found[j]) == i
  }

  ghost predicate HandledAs(after: Assets, handled: set<Id>, i: Identity) {
    exists id :: id in handled && id in after && IdentityOf(after[id].info) == i
  }

  /** Every asset found is in the table and was created or refreshed. */
  ghost predicate AllHandled(after: Assets, found: seq<AssetType>, l: Ledger) {
    l.failedPatch == {} && forall j :: 0 <= j < |found| ==> HandledAs(after, l.created + l.seen, IdentityOf(found[j]))
  }

  /** The asset found at j was posted without a failure, is the one stored as info, and merges with it. */
  ghost predicate RefreshedBy(info: AssetType, found: seq<AssetType>, failedPosts: set<nat>, j: int) {
    && 0 <= j < |found| && j !in failedPosts
    && IdentityOf(found[j]) == IdentityOf(info) && HandleAssetConflict(info, found[j]).Some?
  }

  ghost predicate Refreshable(info: AssetType, found: seq<AssetType>, failedPosts: set<nat>) {
    exists j :: RefreshedBy(info, found, failedPosts, j)
  }

  /**
   A patch is attempted for exactly the stored assets that something found can refresh, and
   everything posted without a failure is in the table.
   */
  ghost predicate Accounts(before: Assets, after: Assets, found: seq<AssetType>, l: Ledger) {
    && (forall j :: j in l.failedPosts ==> j < |found|)
    && (forall id :: id in before ==>
         (id in l.seen + l.failedPatch <==> Refreshable(before[id].info, found, l.failedPosts)))
    && (forall j :: 0 <= j < |found| && j !in l.failedPosts ==> Has(after, IdentityOf(found[j])))
  }

  lemma RefreshableIsFound(info: AssetType, found: seq<AssetType>, failedPosts: set<nat>)
    ensures Refreshable(info, found, failedPosts) ==> FoundAs(found, IdentityOf(info))
  {
  }

  lemma RefreshableMore(info: AssetType, found: seq<AssetType>, a: AssetType, failedPosts: set<nat>, failed: bool)
    requires forall j :: j in failedPosts ==> j < |found|
    ensures Refreshable(info, found + [a], failedPosts + (if failed then {|found|} else {})) <==>
      || Refreshable(info, found, failedPosts)
      || (!failed && IdentityOf(a) == IdentityOf(info) && HandleAssetConflict(info, a).Some?)
  {
    hide IdentityOf;
    hide HandleAssetConflict;
    var all, failedPosts' := found + [a], failedPosts + (if failed then {|found|} else {});
    assert all[|found|] == a && forall j :: 0 <= j < |found| ==> all[j] == found[j];
    if j :| RefreshedBy(info, found, failedPosts, j) {
      assert RefreshedBy(info, all, failedPosts', j);
    } else if !failed && IdentityOf(a) == IdentityOf(info) && HandleAssetConflict(info, a).Some? {
      assert RefreshedBy(info, all, failedPosts', |found|);
    }
    forall j | RefreshedBy(info, all, failedPosts', j)
      ensures j == |found| || RefreshedBy(info, found, failedPosts, j)
    {
    }
  }

  /** One more asset found; `hit` are the stored assets for which a patch is attempted because of it. */
  lemma AccountsMore(before: Assets, after: Assets, after': Assets, now: int, found: seq<AssetType>, a: AssetType,
      failed: bool, l: Ledger, l': Ledger, hit: set<Id>)
    requires Progress(before, after, now, found, l) && Accounts(before, after, found, l)
    requires l'.failedPosts == l.failedPosts + (if failed then {|found|} else {})
    requires l'.seen + l'.failedPatch == l.seen + l.failedPatch + hit
    requires forall i :: i in after ==> i in after' && IdentityOf(after'[i].info) == IdentityOf(after[i].info)
    requires !failed ==> Has(after', IdentityOf(a))
    requires forall id :: id in before ==>
      (id in hit <==>
        !failed && IdentityOf(a) == IdentityOf(before[id].info) && HandleAssetConflict(after[id].info, a).Some?)
    ensures Accounts(before, after', found + [a], l')
  {
    var all := found + [a];
    assert all[|found|] == a && forall j :: 0 <= j < |found| ==> all[j] == found[j];
    hide IdentityOf;
    hide HandleAssetConflict;
    hide FoundAs;
    hide UniqueIdentities;
    forall id | id in before
      ensures id in l'.seen + l'.failedPatch <==> Refreshable(before[id].info, all, l'.failedPosts)
    {
      assert Refreshed(before[id], after[id], now, id in l.seen);
      RefreshableMore(before[id].info, found, a, l.failedPosts, failed);
    }
    hide Refreshable;
    forall j | 0 <= j < |all| && j !in l'.failedPosts
      ensures Has(after', IdentityOf(all[j]))
    {
      if j < |found| {
        assert j !in l.failedPosts && Has(after, IdentityOf(found[j]));
        var id :| id in after && IdentityOf(after[id].info) == IdentityOf(found[j]);
        assert id in after' && IdentityOf(after'[id].info) == IdentityOf(all[j]);
      }
    }
  }

  /** A POST that creates an asset, or fails, after which one may have been created all the same. */
  lemma AccountsPosted(before: Assets, after: Assets, after': Assets, now: int, found: seq<AssetType>, a: AssetType,
      failed: bool, l: Ledger, l': Ledger)
    requires Progress(before, after, now, found, l) && Accounts(before, after, found, l)
    requires l' == l.(created := l'.created, failedPosts := l.failedPosts + (if failed then {|found|} else {}))
    requires forall i :: i in after ==> i in after' && after'[i] == after[i]
    requires !failed ==> !Has(after, IdentityOf(a)) && Has(after', IdentityOf(a))
    ensures Accounts(before, after', found + [a], l')
  {
    assert l.seen + l.failedPatch + {} == l.seen + l.failedPatch;
    hide Accounts;
    hide IdentityOf;
    hide HandleAssetConflict;
    hide FoundAs;
    forall id | id in before
      ensures id in after && IdentityOf(after[id].info) == IdentityOf(before[id].info)
    {
      assert Refreshed(before[id], after[id], now, id in l.seen);
    }
    AccountsMore(before, after, after', now, found, a, failed, l, l', {});
  }

  /** A conflict with the stored asset id, which is patched if it merges. */
  lemma AccountsConflict(before: Assets, after: Assets, after': Assets, now: int, found: seq<AssetType>, a: AssetType,
      l: Ledger, l': Ledger, id: Id)
    requires Progress(before, after, now, found, l) && Accounts(before, after, found, l)
    requires id in after && IdentityOf(after[id].info) == IdentityOf(a)
    requires l'.failedPosts == l.failedPosts
    requires l'.seen + l'.failedPatch ==
      l.seen + l.failedPatch + (if HandleAssetConflict(after[id].info, a).Some? then {id} else {})
    requires forall i :: i in after ==> i in after' && IdentityOf(after'[i].info) == IdentityOf(after[i].info)
    ensures Accounts(before, after', found + [a], l')
  {
    assert l.failedPosts + {} == l.failedPosts;
    hide Accounts;
    hide IdentityOf;
    hide HandleAssetConflict;
    hide FoundAs;
    forall i | i in before
      ensures i in after && IdentityOf(after[i].info) == IdentityOf(before[i].info)
    {
      assert Refreshed(before[i], after[i], now, i in l.seen);
    }
    var hit := if HandleAssetConflict(after[id].info, a).Some? then {id} else {};
    AccountsMore(before, after, after', now, found, a, false, l, l', hit);
  }

  lemma FoundMore(found: seq<AssetType>, a: AssetType)
    ensures forall i :: FoundAs(found + [a], i) <==> FoundAs(found, i) || i == IdentityOf(a)
  {
    var all := found + [a];
    assert all[|found|] == a && forall j :: 0 <= j < |found| ==> all[j] == found[j];
  }

  lemma CreatedOne(before: Assets, after: Assets, after': Assets, now: int, found: seq<AssetType>, a: AssetType, id: Id,
      l: Ledger)
    requires Progress(before, after, now, found, l)
    requires id !in after && !Has(after, IdentityOf(a)) && after' == after[id := Asset(a, Some(now), Some(now), None)]
    ensures Progress(before, after', now, found + [a], l.(created := l.created + {id}))
  {
    NewKnown(before, after, after', now, id, l);
    NewFound(after, after', found, a, id, l);
    NewIdentity(after, after', id);
    hide AllKnown;
    hide AllRefreshed;
    hide AllFound;
    hide CreatedNow;
    hide UniqueIdentities;
    hide IdentityOf;
  }

  lemma NewKnown(before: Assets, after: Assets, after': Assets, now: int, id: Id, l: Ledger)
    requires AllKnown(before, after, l) && CreatedNow(after, now, l) && AllRefreshed(before, after, now, l)
    requires id !in after
    requires id in after' && after' == after[id := after'[id]]
    requires after'[id].lastSeen == Some(now) && after'[id].terminatedOn == None
    ensures var l' := l.(created := l.created + {id});
            AllKnown(before, after', l') && CreatedNow(after', now, l') && AllRefreshed(before, after', now, l')
  {
    hide Refreshed;
    assert after'.Keys == after.Keys + {id};
  }

  lemma NewFound(after: Assets, after': Assets, found: seq<AssetType>, a: AssetType, id: Id, l: Ledger)
    requires AllFound(after, found, l) && id !in after
    requires id in after' && after' == after[id := after'[id]] && after'[id].info == a
    ensures AllFound(after', found + [a], l.(created := l.created + {id}))
  {
    FoundMore(found, a);
    hide FoundAs;
    hide IdentityOf;
    var l' := l.(created := l.created + {id});
    forall i | i in l'.created + l'.seen + l'.failedPatch && i != id
      ensures i in after && FoundAs(found, IdentityOf(after[i].info))
    {
      assert i in l.created + l.seen + l.failedPatch;
    }
  }

  lemma NewIdentity(after: Assets, after': Assets, id: Id)
    requires UniqueIdentities(after) && id in after' && after' == after[id := after'[id]]
    requires !Has(after, IdentityOf(after'[id].info))
    ensures UniqueIdentities(after')
  {
    hide IdentityOf;
  }

  lemma SeenOne(before: Assets, after: Assets, after': Assets, now: int, found: seq<AssetType>, a: AssetType, id: Id,
      info: AssetType, l: Ledger)
    requires Progress(before, after, now, found, l)
    requires id in after && IdentityOf(after[id].info) == IdentityOf(a) == IdentityOf(info)
    requires after' == after[id := after[id].(info := info, lastSeen := Some(now))]
    ensures Progress(before, after', now, found + [a], l.(seen := l.seen + {id}))
  {
    IdentitiesStay(after, after', id);
    RefreshedOne(before, after, after', now, id, info, l);
    FoundOne(after, after', found, a, id, l);
    KnownOne(before, after, after', now, id, l);
    hide AllKnown;
    hide AllRefreshed;
    hide AllFound;
    hide CreatedNow;
    hide UniqueIdentities;
    hide IdentityOf;
  }

  lemma KnownOne(before: Assets, after: Assets, after': Assets, now: int, id: Id, l: Ledger)
    requires AllKnown(before, after, l) && CreatedNow(after, now, l) && id in after
    requires id in after' && after' == after[id := after'[id]] && after'[id].lastSeen == Some(now)
    requires after'[id].terminatedOn == after[id].terminatedOn
    ensures AllKnown(before, after', l.(seen := l.seen + {id})) && CreatedNow(after', now, l.(seen := l.seen + {id}))
  {
    assert after'.Keys == after.Keys;
  }

  lemma RefreshedOne(before: Assets, after: Assets, after': Assets, now: int, id: Id, info: AssetType, l: Ledger)
    requires AllRefreshed(before, after, now, l) && id in after && IdentityOf(after[id].info) == IdentityOf(info)
    requires after' == after[id := after[id].(info := info, lastSeen := Some(now))]
    ensures AllRefreshed(before, after', now, l.(seen := l.seen + {id}))
  {
    if id in before { RefreshedAgain(before[id], after[id], after'[id], now, id in l.seen, info); }
    hide Refreshed;
    hide IdentityOf;
  }

  lemma FoundOne(after: Assets, after': Assets, found: seq<AssetType>, a: AssetType, id: Id, l: Ledger)
    requires AllFound(after, found, l) && id in after && id in after' && after' == after[id := after'[id]]
    requires IdentityOf(after'[id].info) == IdentityOf(a)
    ensures AllFound(after', found + [a], l.(seen := l.seen + {id}))
  {
    FoundMore(found, a);
    hide FoundAs;
    hide IdentityOf;
    var l' := l.(seen := l.seen + {id});
    forall i | i in l'.created + l'.seen + l'.failedPatch && i != id
      ensures i in after && FoundAs(found, IdentityOf(after[i].info))
    {
      assert i in l.created + l.seen + l.failedPatch;
    }
  }

  lemma IdentitiesStay(after: Assets, after': Assets, id: Id)
    requires UniqueIdentities(after) && id in after && id in after' && after' == after[id := after'[id]]
    requires IdentityOf(after'[id].info) == IdentityOf(after[id].info)
    ensures UniqueIdentities(after')
  {
    hide IdentityOf;
  }

  lemma RefreshedAgain(a: Asset, a': Asset, a'': Asset, now: int, seen: bool, info: AssetType)
    requires Refreshed(a, a', now, seen) && IdentityOf(info) == IdentityOf(a'.info)
    requires a'' == a'.(info := info, lastSeen := Some(now))
    ensures Refreshed(a, a'', now, true)
  {
  }

  lemma FailedOne(before: Assets, after: Assets, now: int, found: seq<AssetType>, a: AssetType, failed: set<Id>,
      l: Ledger)
    requires Progress(before, after, now, found, l)
    requires forall id :: id in failed ==> id in after && IdentityOf(after[id].info) == IdentityOf(a)
    ensures Progress(before, after, now, found + [a], l.(failedPatch := l.failedPatch + failed))
  {
    FoundMore(found, a);
    hide FoundAs;
    hide Refreshed;
  }

  lemma FailedAfterAll(before: Assets, after: Assets, now: int, found: seq<AssetType>, id: Id, l: Ledger)
    requires Progress(before, after, now, found, l) && id in l.seen
    ensures Progress(before, after, now, found, l.(failedPatch := l.failedPatch + {id}))
  {
    hide FoundAs;
    hide Refreshed;
    hide UniqueIdentities;
  }

  lemma CreatedHow(assets: Assets, assets': Assets, asset: Asset, id: Id)
    requires CreatedAs(assets, assets', asset, id)
    ensures id !in assets && !Has(assets, IdentityOf(asset.info)) && assets' == assets[id := asset]
  {
  }

  lemma CreatedId(assets: Assets, assets': Assets, asset: Asset) returns (id: Id)
    requires CreatedUnseen(assets, assets', asset)
    ensures id !in assets && !Has(assets, IdentityOf(asset.info)) && assets' == assets[id := asset]
  {
    id :| CreatedAs(assets, assets', asset, id);
  }

  lemma ConflictIdentity(info: AssetType, a: AssetType)
    requires IdentityOf(info) == IdentityOf(a)
    ensures HandleAssetConflict(info, a).Some? ==> IdentityOf(HandleAssetConflict(info, a).value) == IdentityOf(info)
  {
  }

  lemma NowHas(assets: Assets, a: AssetType, id: Id)
    requires id in assets && assets[id].info == a
    ensures Has(assets, IdentityOf(a))
  {
  }

  lemma PostsDoNotMatter(before: Assets, after: Assets, now: int, found: seq<AssetType>, l: Ledger, l': Ledger)
    requires Progress(before, after, now, found, l) && l' == l.(failedPosts := l'.failedPosts)
    ensures Progress(before, after, now, found, l')
  {
    hide FoundAs;
    hide Refreshed;
    hide UniqueIdentities;
  }

  lemma HandledMore(after: Assets, after': Assets, found: seq<AssetType>, a: AssetType, l: Ledger, l': Ledger, id: Id)
    requires AllHandled(after, found, l)
    requires l'.created + l'.seen == l.created + l.seen + {id} && l'.failedPatch == {}
    requires forall i :: i in after ==> i in after' && IdentityOf(after'[i].info) == IdentityOf(after[i].info)
    requires id in after' && IdentityOf(after'[id].info) == IdentityOf(a)
    ensures AllHandled(after', found + [a], l')
  {
    var all := found + [a];
    forall j | 0 <= j < |all|
      ensures HandledAs(after', l'.created + l'.seen, IdentityOf(all[j]))
    {
      if j < |found| {
        assert all[j] == found[j];
        assert HandledAs(after, l.created + l.seen, IdentityOf(found[j]));
        var i :| i in l.created + l.seen && i in after && IdentityOf(after[i].info) == IdentityOf(found[j]);
        assert i in l'.created + l'.seen && i in after';
      } else {
        assert id in l'.created + l'.seen;
      }
    }
  }

  lemma HandledOneMore(after: Assets, after': Assets, found: seq<AssetType>, a: AssetType, l: Ledger, l': Ledger,
      id: Id, asset: Asset)
    requires after' == after[id := asset] && IdentityOf(asset.info) == IdentityOf(a)
    requires id in after ==> IdentityOf(after[id].info) == IdentityOf(a)
    requires l' in {l.(created := l.created + {id}), l.(seen := l.seen + {id})}
    ensures AllHandled(after, found, l) ==> AllHandled(after', found + [a], l')
  {
    hide IdentityOf;
    if AllHandled(after, found, l) {
      assert l.failedPatch == {};
      hide AllHandled;
      assert l'.created + l'.seen == l.created + l.seen + {id};
      HandledMore(after, after', found, a, l, l', id);
    }
  }

  lemma AllDiffer(before: Assets, after: Assets, now: int, found: seq<AssetType>, l: Ledger)
    requires Progress(before, after, now, found, l)
    ensures UniqueIdentities(after)
  {
  }

  /** What the ledger says after a patch: whether it took effect, and whether it was reported to have failed. */
  lemma PatchAttempted(before: Assets, after: Assets, after': Assets, now: int, found: seq<AssetType>, a: AssetType,
      id: Id, info: AssetType, l: Ledger, ok: bool) returns (l': Ledger)
    requires Progress(before, after, now, found, l) && Accounts(before, after, found, l)
    requires id in after && IdentityOf(after[id].info) == IdentityOf(a) == IdentityOf(info)
    requires HandleAssetConflict(after[id].info, a) == Some(info)
    requires after' == after[id := after[id].(info := info, lastSeen := Some(now))] || (!ok && after' == after)
    ensures Progress(before, after', now, found + [a], l') && Accounts(before, after', found + [a], l')
    ensures l'.failedPosts == l.failedPosts && l'.failedPatch == l.failedPatch + (if ok then {} else {id})
    ensures ok && AllHandled(after, found, l) ==> AllHandled(after', found + [a], l')
  {
    hide *;
    if ok {
      SeenOne(before, after, after', now, found, a, id, info, l);
      l' := l.(seen := l.seen + {id});
      HandledOneMore(after, after', found, a, l, l', id, after'[id]);
    } else if after' == after {
      FailedOne(before, after, now, found, a, {id}, l);
      l' := l.(failedPatch := l.failedPatch + {id});
    } else {
      SeenOne(before, after, after', now, found, a, id, info, l);
      l' := l.(seen := l.seen + {id});
      FailedAfterAll(before, after', now, found + [a], id, l');
      l' := l'.(failedPatch := l'.failedPatch + {id});
    }
    assert l'.seen + l'.failedPatch == l.seen + l.failedPatch + {id};
    AccountsConflict(before, after, after', now, found, a, l, l', id);
  }

  /** The part of the first loop that follows a conflict: merge with the stored asset, then patch it. */
  method HandleConflict(backend: Backend, now: int, a: AssetType, id: Id, ghost before: Assets,
      ghost found: seq<AssetType>, ghost l: Ledger, ghost h: History)
    returns (ok: bool, failedId: Option<Id>, ghost l': Ledger, ghost h': History)
    requires Progress(before, backend.assets, now, found, l) && Accounts(before, backend.assets, found, l)
    requires Infos(before, backend.assets, now, found, h) && AllTried(before, found, h)
    requires id in backend.assets && IdentityOf(backend.assets[id].info) == IdentityOf(a)
    modifies backend
    ensures Progress(before, backend.assets, now, found + [a], l') && Accounts(before, backend.assets, found + [a], l')
    ensures l'.failedPosts == l.failedPosts
    ensures l'.failedPatch == l.failedPatch + (if failedId.Some? then {failedId.value} else {})
    ensures ok && AllHandled(old(backend.assets), found, l) ==> AllHandled(backend.assets, found + [a], l')
    ensures Infos(before, backend.assets, now, found + [a], h') && AllTried(before, found + [a], h')
    ensures |h'.failed| + |h'.unmerged| == |h.failed| + |h.unmerged| + if ok then 0 else 1
    ensures backend.failures == old(backend.failures) + |h'.failed| - |h.failed|
    ensures |h.failed| <= |h'.failed|
    ensures failedId.Some? || l'.failedPosts != l.failedPosts ==> |h'.failed| == |h.failed| + 1
  {
    ghost var assets := backend.assets;
    AllDiffer(before, assets, now, found, l);
    hide *;
    failedId := None;
    var handled := HandleAssetConflict(backend.assets[id].info, a);
    if handled.None? {
      FailedOne(before, assets, now, found, a, {}, l);
      assert l.failedPatch + {} == l.failedPatch && l.seen + l.failedPatch + {} == l.seen + l.failedPatch;
      AccountsConflict(before, assets, assets, now, found, a, l, l, id);
      h' := InfosUnmerged(before, assets, now, found, a, h, id);
      return false, None, l, h';
    }
    ConflictIdentity(assets[id].info, a);
    ok := backend.PatchSeen(id, handled.value, now);
    failedId := if ok then None else Some(id);
    l' := PatchAttempted(before, assets, backend.assets, now, found, a, id, handled.value, l, ok);
    h' := InfosAttempted(before, assets, backend.assets, now, found, a, h, id, handled.value, ok);
  }

  lemma PostCreated(before: Assets, after: Assets, after': Assets, now: int, found: seq<AssetType>, a: AssetType,
      id: Id, l: Ledger)
      returns (l': Ledger)
    requires Progress(before, after, now, found, l) && Accounts(before, after, found, l)
    requires CreatedAs(after, after', Asset(a, Some(now), Some(now), None), id)
    ensures Progress(before, after', now, found + [a], l') && Accounts(before, after', found + [a], l')
    ensures l'.failedPosts == l.failedPosts && l'.failedPatch == l.failedPatch
    ensures AllHandled(after, found, l) ==> AllHandled(after', found + [a], l')
  {
    hide *;
    CreatedHow(after, after', Asset(a, Some(now), Some(now), None), id);
    CreatedOne(before, after, after', now, found, a, id, l);
    l' := l.(created := l.created + {id});
    HandledOneMore(after, after', found, a, l, l', id, after'[id]);
    NowHas(after', a, id);
    assert l.failedPosts + {} == l.failedPosts;
    AccountsPosted(before, after, after', now, found, a, false, l, l');
  }

  lemma PostWasLost(before: Assets, after: Assets, after': Assets, now: int, found: seq<AssetType>, a: AssetType,
      l: Ledger)
      returns (l': Ledger)
    requires Progress(before, after, now, found, l) && Accounts(before, after, found, l)
    requires after' == after || CreatedUnseen(after, after', Asset(a, Some(now), Some(now), None))
    ensures Progress(before, after', now, found + [a], l') && Accounts(before, after', found + [a], l')
    ensures l'.failedPatch == l.failedPatch
  {
    hide *;
    if after' == after {
      FailedOne(before, after, now, found, a, {}, l);
      assert l.failedPatch + {} == l.failedPatch;
      l' := l;
    } else {
      var id := CreatedId(after, after', Asset(a, Some(now), Some(now), None));
      CreatedOne(before, after, after', now, found, a, id, l);
      l' := l.(created := l.created + {id});
    }
    PostsDoNotMatter(before, after', now, found + [a], l', l'.(failedPosts := l.failedPosts + {|found|}));
    l' := l'.(failedPosts := l.failedPosts + {|found|});
    AccountsPosted(before, after, after', now, found, a, true, l, l');
  }

  lemma InfosLost(before: Assets, after: Assets, after': Assets, now: int, found: seq<AssetType>, a: AssetType,
      h: History)
      returns (h': History)
    requires Infos(before, after, now, found, h) && AllTried(before, found, h)
    requires after' == after || CreatedUnseen(after, after', Asset(a, Some(now), Some(now), None))
    ensures Infos(before, after', now, found + [a], h') && AllTried(before, found + [a], h')
    ensures |h'.failed| == |h.failed| + 1 && h'.unmerged == h.unmerged
  {
    hide *;
    if after' == after {
      InfosSame(before, after, now, found, a, h);
      h' := InfosFailed(before, after, now, found, a, h, h);
    } else {
      var id := CreatedId(after, after', Asset(a, Some(now), Some(now), None));
      h' := InfosPosted(before, after, now, found, a, h, id, false);
    }
  }

  lemma NoMoreFailedPatches(l: Ledger)
    ensures l.failedPatch + {} == l.failedPatch
  {
  }

  /** What the first loop guarantees, with the errors it has counted. */
  ghost predicate Discovered(before: Assets, after: Assets, now: int, found: seq<AssetType>, l: Ledger, h: History,
      errors: nat) {
    && Progress(before, after, now, found, l) && Accounts(before, after, found, l)
    && Infos(before, after, now, found, h) && AllTried(before, found, h)
    && errors == Failures(h) + |h.unmerged|
    && (errors == 0 ==> AllHandled(after, found, l))
    && (l.failedPosts != {} || l.failedPatch != {} ==> Failures(h) > 0)
  }

  lemma NothingDiscovered(before: Assets, now: int)
    requires UniqueIdentities(before)
    ensures Discovered(before, before, now, [], Ledger({}, {}, {}, {}), NO_HISTORY, 0)
  {
    NoInfos(before, now);
    hide Infos;
    hide AllTried;
  }

  lemma DiscoveredMeaning(before: Assets, after: Assets, now: int, found: seq<AssetType>, l: Ledger, h: History,
      errors: nat)
    requires Discovered(before, after, now, found, l, h, errors)
    ensures Progress(before, after, now, found, l) && Accounts(before, after, found, l)
    ensures Infos(before, after, now, found, h) && AllTried(before, found, h)
  {
    hide Progress;
    hide Accounts;
    hide Infos;
    hide AllTried;
    hide AllHandled;
  }

  /** One more turn of the first loop, and what it may count as an error. */
  lemma DiscoveredMore(before: Assets, after: Assets, after': Assets, now: int, found: seq<AssetType>,
      found': seq<AssetType>, l: Ledger, l': Ledger, h: History, h': History, errors: nat, ok: bool)
    requires Discovered(before, after, now, found, l, h, errors)
    requires Progress(before, after', now, found', l') && Accounts(before, after', found', l')
    requires Infos(before, after', now, found', h') && AllTried(before, found', h')
    requires |h'.failed| + |h'.unmerged| == |h.failed| + |h.unmerged| + if ok then 0 else 1
    requires |h.failed| <= |h'.failed|
    requires l'.failedPosts != l.failedPosts || l'.failedPatch != l.failedPatch ==> |h'.failed| == |h.failed| + 1
    requires ok && AllHandled(after, found, l) ==> AllHandled(after', found', l')
    ensures Discovered(before, after', now, found', l', h', errors + if ok then 0 else 1)
  {
    hide Progress;
    hide Accounts;
    hide Infos;
    hide AllTried;
    hide AllHandled;
  }

  lemma PrefixMore(found: seq<AssetType>, i: nat)
    requires i < |found|
    ensures found[..i + 1] == found[..i] + [found[i]]
  {
  }

  lemma FailuresOf(h: History)
    ensures Failures(h) == |h.failed|
  {
  }

  /** The body of the first loop: the asset that the provider has found at i. */
  method HandleFound(backend: Backend, now: int, found: seq<AssetType>, i: nat, failedPatchAssets: set<Id>,
      ghost before: Assets, ghost l: Ledger, ghost h: History, ghost errors: nat)
    returns (ok: bool, failedPatchAssets': set<Id>, ghost l': Ledger, ghost h': History)
    requires i < |found| && Discovered(before, backend.assets, now, found[..i], l, h, errors)
    requires failedPatchAssets == l.failedPatch
    modifies backend
    ensures Discovered(before, backend.assets, now, found[..i + 1], l', h', errors + if ok then 0 else 1)
    ensures failedPatchAssets' == l'.failedPatch
    ensures backend.failures == old(backend.failures) + Failures(h') - Failures(h)
  {
    ghost var assets, done := backend.assets, found[..i];
    FailuresOf(h);
    DiscoveredMeaning(before, assets, now, done, l, h, errors);
    hide *;
    failedPatchAssets' := failedPatchAssets;
    var a := found[i];
    PrefixMore(found, i);
    var asset := Asset(a, Some(now), Some(now), None);
    var posted := backend.PostAsset(asset);
    match posted {
      case Created(id) =>
        ok := true;
        l' := PostCreated(before, assets, backend.assets, now, done, a, id, l);
        CreatedHow(assets, backend.assets, asset, id);
        h' := InfosPosted(before, assets, now, done, a, h, id, true);
      case Conflict(id) =>
        var failedId;
        ok, failedId, l', h' := HandleConflict(backend, now, a, id, before, done, l, h);
        if failedId.Some? {
          failedPatchAssets' := failedPatchAssets' + {failedId.value};
        } else {
          NoMoreFailedPatches(l);
        }
      case PostFailed =>
        ok := false;
        l' := PostWasLost(before, assets, backend.assets, now, done, a, l);
        h' := InfosLost(before, assets, backend.assets, now, done, a, h);
    }
    DiscoveredMore(before, assets, backend.assets, now, done, done + [a], l, l', h, h', errors, ok);
    FailuresOf(h');
  }

  /** Whom the second loop terminates when all goes well. */
  predicate ToTerminate(middle: Assets, now: int, failedPatch: set<Id>, id: Id) {
    id in middle && NotSeenSince(middle[id], now) && id !in failedPatch
  }

  function Terminated(a: Asset, now: int): Asset {
    a.(terminatedOn := Some(now))
  }

  /** Nothing but terminations of those to terminate has happened. */
  ghost predicate OnlyTerminations(middle: Assets, after: Assets, now: int, failedPatch: set<Id>) {
    && after.Keys == middle.Keys
    && forall id :: id in middle ==>
         (after[id] == middle[id] || (ToTerminate(middle, now, failedPatch, id)
           && after[id] == Terminated(middle[id], now)))
  }

  ghost predicate AllTerminated(middle: Assets, after: Assets, now: int, failedPatch: set<Id>) {
    forall id :: ToTerminate(middle, now, failedPatch, id) ==> id in after && after[id] == Terminated(middle[id], now)
  }

  /** The second loop. */
  method TerminateNotSeen(backend: Backend, now: int, stale: set<Id>, failedPatchAssets: set<Id>) returns (errors: nat)
    requires stale == set id | id in backend.assets && NotSeenSince(backend.assets[id], now)
    modifies backend
    ensures OnlyTerminations(old(backend.assets), backend.assets, now, failedPatchAssets)
    ensures errors == 0 ==> AllTerminated(old(backend.assets), backend.assets, now, failedPatchAssets)
    ensures backend.failures == old(backend.failures) + errors
  {
    ghost var middle := backend.assets;
    hide NotSeenSince;
    errors := 0;
    var todo := stale;
    while todo != {}
      invariant todo <= stale
      invariant OnlyTerminations(middle, backend.assets, now, failedPatchAssets)
      invariant forall id :: id in todo ==> backend.assets[id] == middle[id]
      invariant backend.failures == old(backend.failures) + errors
      invariant errors == 0 ==> forall id :: id in stale - todo - failedPatchAssets ==>
        backend.assets[id] == Terminated(middle[id], now)
      decreases todo
    {
      var id :| id in todo;
      todo := todo - {id};
      if id !in failedPatchAssets {
        var ok := backend.PatchTerminated(id, now);
        if !ok {
          errors := errors + 1;
        }
      }
    }
  }

  /** The first loop. */
  method CreateOrRefresh(backend: Backend, now: int, found: seq<AssetType>)
    returns (errors: nat, failedPatchAssets: set<Id>, ghost l: Ledger, ghost h: History)
    requires UniqueIdentities(backend.assets)
    modifies backend
    ensures Discovered(old(backend.assets), backend.assets, now, found, l, h, errors)
    ensures failedPatchAssets == l.failedPatch && backend.failures == old(backend.failures) + Failures(h)
  {
    ghost var before := backend.assets;
    errors, failedPatchAssets := 0, {};
    l, h := Ledger({}, {}, {}, {}), NO_HISTORY;
    NothingDiscovered(before, now);
    assert Failures(h) == 0;
    hide *;
    assert found[..0] == [];
    for i := 0 to |found|
      invariant Discovered(before, backend.assets, now, found[..i], l, h, errors)
      invariant failedPatchAssets == l.failedPatch && backend.failures == old(backend.failures) + Failures(h)
    {
      var ok;
      ok, failedPatchAssets, l, h := HandleFound(backend, now, found, i, failedPatchAssets, before, l, h, errors);
      if !ok {
        errors := errors + 1;
      }
    }
    assert found[..|found|] == found;
  }

  /**
   One discovery. `discovererFailed` says that the provider's listing ended with an error, `listed`
   that the assets to terminate could be queried; `errors` counts the other errors, and `late`
   those of the second loop among them. Every error is a call that failed, or stands for an asset
   found that could not be merged with what was stored.
   */
  method DiscoverAndCreateAssets(backend: Backend, now: int, found: seq<AssetType>, discovererFailed: bool)
    returns (errors: nat, listed: bool, ghost middle: Assets, ghost l: Ledger, ghost late: nat, ghost h: History)
    requires UniqueIdentities(backend.assets)
    modifies backend
    ensures late <= errors && Discovered(old(backend.assets), middle, now, found, l, h, errors - late)
    ensures backend.failures ==
      old(backend.failures) + Failures(h) + late + if discovererFailed || listed then 0 else 1
    ensures discovererFailed || !listed ==> backend.assets == middle
    ensures OnlyTerminations(middle, backend.assets, now, l.failedPatch)
    ensures !discovererFailed && listed && late == 0 ==> AllTerminated(middle, backend.assets, now, l.failedPatch)
  {
    late, listed := 0, false;
    var failedPatchAssets;
    errors, failedPatchAssets, l, h := CreateOrRefresh(backend, now, found);
    hide Discovered;
    middle := backend.assets;
    if discovererFailed {
      return;
    }
    var stale := backend.GetNotSeenSince(now);
    if stale.None? {
      return;
    }
    listed := true;
    var more := TerminateNotSeen(backend, now, stale.value, failedPatchAssets);
    errors, late := errors + more, more;
  }

  // ---------- What a discovery means for the set of live assets ----------

  ghost predicate SeenInEarlierSecond(assets: Assets, now: int) {
    forall id :: Live(assets, id) ==> NotSeenSince(assets[id], now)
  }

  lemma RediscoveredIsHandled(before: Assets, middle: Assets, now: int, found: seq<AssetType>, l: Ledger, id: Id)
    requires Progress(before, middle, now, found, l) && AllHandled(middle, found, l)
    requires id in before && FoundAs(found, IdentityOf(before[id].info))
    ensures id in l.seen
  {
    var j :| 0 <= j < |found| && IdentityOf(found[j]) == IdentityOf(before[id].info);
    assert HandledAs(middle, l.created + l.seen, IdentityOf(found[j]));
    var i :| i in l.created + l.seen && i in middle && IdentityOf(middle[i].info) == IdentityOf(found[j]);
    assert Refreshed(before[id], middle[id], now, id in l.seen);
    assert i == id;
  }

  /**
   After a discovery that lists the assets to terminate and terminates them without a failure,
   whatever failed before: an asset is live exactly when it is new, or was live and either
   something found could refresh it or it was last seen in the second of the discovery.
   */
  lemma LiveAfterDiscovery(before: Assets, middle: Assets, after: Assets, now: int, found: seq<AssetType>, l: Ledger,
      id: Id)
    requires Progress(before, middle, now, found, l) && Accounts(before, middle, found, l)
    requires OnlyTerminations(middle, after, now, l.failedPatch) && AllTerminated(middle, after, now, l.failedPatch)
    ensures Live(after, id) <==>
      || id in l.created
      || (Live(before, id) && (Refreshable(before[id].info, found, l.failedPosts) || !NotSeenSince(before[id], now)))
    ensures Live(before, id) && !Live(after, id) ==> id in after && after[id].terminatedOn == Some(now)
  {
    assert WholeSeconds(now) <= now;
    hide FoundAs;
    hide UniqueIdentities;
    hide Refreshable;
    if id in before { assert Refreshed(before[id], middle[id], now, id in l.seen); }
    assert ToTerminate(middle, now, l.failedPatch, id) || !ToTerminate(middle, now, l.failedPatch, id);
  }

  /**
   In particular a discovery without errors leaves live exactly the new assets and those live
   before that were found again, provided that all were last seen in an earlier second.
   */
  lemma LiveWithoutErrors(before: Assets, middle: Assets, after: Assets, now: int, found: seq<AssetType>, l: Ledger,
      id: Id)
    requires SeenInEarlierSecond(before, now)
    requires Progress(before, middle, now, found, l) && Accounts(before, middle, found, l)
    requires AllHandled(middle, found, l)
    requires OnlyTerminations(middle, after, now, l.failedPatch) && AllTerminated(middle, after, now, l.failedPatch)
    ensures Live(after, id) <==>
      id in l.created || (Live(before, id) && FoundAs(found, IdentityOf(before[id].info)))
  {
    LiveAfterDiscovery(before, middle, after, now, found, l, id);
    if id in before {
      if FoundAs(found, IdentityOf(before[id].info)) { RediscoveredIsHandled(before, middle, now, found, l, id); }
      RefreshableIsFound(before[id].info, found, l.failedPosts);
    }
    hide Progress;
    hide OnlyTerminations;
    hide AllTerminated;
  }

  /** What is created was found and is not among the assets there were. */
  lemma CreatedAreNew(before: Assets, middle: Assets, now: int, found: seq<AssetType>, l: Ledger, id: Id)
    requires Progress(before, middle, now, found, l) && id in l.created
    ensures FoundAs(found, IdentityOf(middle[id].info)) && !Has(before, IdentityOf(middle[id].info))
  {
    assert id in l.created + l.seen + l.failedPatch;
    forall i | i in before
      ensures IdentityOf(before[i].info) != IdentityOf(middle[id].info)
    {
      assert Refreshed(before[i], middle[i], now, i in l.seen);
    }
  }

  /** Everything whose POST did not fail is in the table, and live unless it was stored as terminated. */
  lemma PostedIsStored(before: Assets, middle: Assets, after: Assets, now: int, found: seq<AssetType>, l: Ledger,
      j: nat)
      returns (id: Id)
    requires Progress(before, middle, now, found, l) && Accounts(before, middle, found, l)
    requires OnlyTerminations(middle, after, now, l.failedPatch)
    requires j < |found| && j !in l.failedPosts
    ensures id in after && IdentityOf(after[id].info) == IdentityOf(found[j]) && (id in l.created || id in before)
    ensures id in l.created ==> Live(after, id)
  {
    assert WholeSeconds(now) <= now;
    hide FoundAs;
    hide UniqueIdentities;
    hide Refreshable;
    assert Has(middle, IdentityOf(found[j]));
    id :| id in middle && IdentityOf(middle[id].info) == IdentityOf(found[j]);
  }

  /**
   In every discovery, whatever fails: a stored asset that something found can refresh, or that was
   last seen in the second of the discovery, is as live as before; one already terminated stays so.
   */
  lemma FoundIsNotTerminated(before: Assets, middle: Assets, after: Assets, now: int, found: seq<AssetType>, l: Ledger,
      id: Id)
    requires Progress(before, middle, now, found, l) && Accounts(before, middle, found, l)
    requires OnlyTerminations(middle, after, now, l.failedPatch) && id in before
    ensures Refreshable(before[id].info, found, l.failedPosts) ==> (Live(after, id) <==> Live(before, id))
    ensures !NotSeenSince(before[id], now) ==> (Live(after, id) <==> Live(before, id))
    ensures !Live(before, id) ==> !Live(after, id)
  {
    assert WholeSeconds(now) <= now;
    hide FoundAs;
    hide UniqueIdentities;
    hide Refreshable;
    assert Refreshed(before[id], middle[id], now, id in l.seen);
  }

  /** An asset not found again goes exactly when it was last seen in an earlier second, or never. */
  lemma NotFoundGoesIffStale(before: Assets, middle: Assets, after: Assets, now: int, found: seq<AssetType>, l: Ledger,
      id: Id)
    requires Progress(before, middle, now, found, l) && Accounts(before, middle, found, l)
    requires OnlyTerminations(middle, after, now, l.failedPatch) && AllTerminated(middle, after, now, l.failedPatch)
    requires Live(before, id) && !FoundAs(found, IdentityOf(before[id].info))
    ensures Live(after, id) <==> !NotSeenSince(before[id], now)
  {
    LiveAfterDiscovery(before, middle, after, now, found, l, id);
    RefreshableIsFound(before[id].info, found, l.failedPosts);
    hide Progress;
    hide OnlyTerminations;
    hide AllTerminated;
  }

  // ---------- What a discovery means for the info of an asset ----------

  /** found[j] is the last of found[from..] with identity i and with a patch that took effect. */
  ghost predicate LastPatched(found: seq<AssetType>, from: nat, patched: set<nat>, i: Identity, j: int) {
    && from <= j < |found| && j in patched && IdentityOf(found[j]) == i
    && forall n :: j < n < |found| && n in patched ==> IdentityOf(found[n]) != i
  }

  /** An asset that is not an image has the info that it was last patched with, or the one it had. */
  lemma {:induction false} OtherIsLast(start: AssetType, found: seq<AssetType>, from: nat, patched: set<nat>)
    requires start.OtherAsset?
    ensures var info := Refined(start, found, from, patched);
            if exists j :: LastPatched(found, from, patched, IdentityOf(start), j)
            then exists j :: LastPatched(found, from, patched, IdentityOf(start), j) && info == Some(found[j])
            else info == Some(start)
  {
    var i := IdentityOf(start);
    if |found| <= from {
    } else {
      var n := |found| - 1;
      var init := found[..n];
      OtherIsLast(start, init, from, patched);
      if n in patched && IdentityOf(found[n]) == i {
        assert LastPatched(found, from, patched, i, n);
      } else {
        assert forall j :: LastPatched(found, from, patched, i, j) <==> LastPatched(init, from, patched, i, j);
      }
    }
  }

  /** The images among found[from..] with this identity and with a patch that took effect. */
  function PatchedImages(found: seq<AssetType>, from: nat, patched: set<nat>, i: Identity)
    : seq<ContainerImage.ContainerImageInfo>
  {
    if |found| <= from then []
    else
      var n := |found| - 1;
      PatchedImages(found[..n], from, patched, i) +
      (if n in patched && IdentityOf(found[n]) == i && found[n].Image? then [found[n].info] else [])
  }

  lemma {:induction false} ImageIsMerged(start: AssetType, found: seq<AssetType>, from: nat, patched: set<nat>)
    requires start.Image? && Refined(start, found, from, patched).Some?
    ensures var info := Refined(start, found, from, patched).value;
            && info.Image?
            && ContainerImage.MergeAll([start.info] + PatchedImages(found, from, patched, IdentityOf(start))) ==
                 Some(info.info)
  {
    if |found| <= from {
      assert [start.info] + [] == [start.info];
    } else {
      var n := |found| - 1;
      var list := [start.info] + PatchedImages(found[..n], from, patched, IdentityOf(start));
      ImageIsMerged(start, found[..n], from, patched);
      if n in patched && IdentityOf(found[n]) == IdentityOf(start) {
        var all := [start.info] + PatchedImages(found, from, patched, IdentityOf(start));
        assert all == list + [found[n].info] && all[..|list|] == list;
      } else {
        assert list == [start.info] + PatchedImages(found, from, patched, IdentityOf(start));
      }
      hide ContainerImage.Merge;
    }
  }

  /** An image sums up what was stored and what it was patched with. */
  lemma ImageSummarizes(start: AssetType, found: seq<AssetType>, from: nat, patched: set<nat>)
    requires start.Image? && Refined(start, found, from, patched).Some?
    ensures var info := Refined(start, found, from, patched).value;
            && info.Image?
            && ContainerImage.Summarizes(info.info,
                 [start.info] + PatchedImages(found, from, patched, IdentityOf(start)))
  {
    ImageIsMerged(start, found, from, patched);
    ContainerImage.MergeAllSummarizes([start.info] + PatchedImages(found, from, patched, IdentityOf(start)));
    hide *;
  }

  lemma CreatedIdentity(before: Assets, middle: Assets, now: int, found: seq<AssetType>, h: History, id: Id)
    requires Infos(before, middle, now, found, h) && id in h.origin
    ensures id in middle && id !in before && h.origin[id] < |found|
    ensures IdentityOf(middle[id].info) == IdentityOf(found[h.origin[id]])
  {
    hide Refined;
    hide IdentityOf;
    assert NewInfo(middle, now, found, h, id);
    RefinedIdentity(found[h.origin[id]], found, h.origin[id] + 1, h.patched);
  }

  /** In a discovery without errors whatever is found of a stored asset patches it. */
  lemma FoundIsPatched(before: Assets, middle: Assets, now: int, found: seq<AssetType>, l: Ledger, h: History, id: Id,
      j: nat)
    requires Progress(before, middle, now, found, l) && Infos(before, middle, now, found, h) && AllUsed(found, h)
    requires id in before && j < |found| && IdentityOf(found[j]) == IdentityOf(before[id].info)
    ensures j in h.patched
  {
    assert Refreshed(before[id], middle[id], now, id in l.seen);
    forall i | i in h.origin
      ensures h.origin[i] != j
    {
      CreatedIdentity(before, middle, now, found, h, i);
    }
    hide Infos;
    hide FoundAs;
    hide IdentityOf;
  }

  /**
   What info a stored asset ends up with. Without errors an asset that is not an image has the info
   last found for it, and an image sums up what was stored and everything found of it; with errors
   the same holds of those found whose patch took effect.
   */
  lemma InfoAfterDiscovery(before: Assets, middle: Assets, now: int, found: seq<AssetType>, l: Ledger, h: History,
      id: Id)
    requires Progress(before, middle, now, found, l) && Infos(before, middle, now, found, h) && id in before
    ensures var i, info := IdentityOf(before[id].info), middle[id].info;
            && (before[id].info.OtherAsset? ==>
                 if exists j :: LastPatched(found, 0, h.patched, i, j)
                 then exists j :: LastPatched(found, 0, h.patched, i, j) && info == found[j]
                 else info == before[id].info)
            && (before[id].info.Image? ==>
                 && info.Image?
                 && ContainerImage.Summarizes(info.info,
                      [before[id].info.info] + PatchedImages(found, 0, h.patched, i)))
            && (AllUsed(found, h) ==>
                 forall j :: 0 <= j < |found| && IdentityOf(found[j]) == i ==> j in h.patched)
  {
    assert OldInfo(before, middle, found, h, id);
    if before[id].info.OtherAsset? { OtherIsLast(before[id].info, found, 0, h.patched); }
    if before[id].info.Image? { ImageSummarizes(before[id].info, found, 0, h.patched); }
    if AllUsed(found, h) {
      forall j | 0 <= j < |found| && IdentityOf(found[j]) == IdentityOf(before[id].info)
        ensures j in h.patched
      {
        FoundIsPatched(before, middle, now, found, l, h, id, j);
      }
    }
    hide *;
  }

  // ---------- Found, and terminated all the same ----------

  function ImageWithOs(os: string): AssetType {
    Image(ContainerImage.ContainerImageInfo("sha", None, None, Some(os), None, None, None))
  }

  function StoredImage(lastSeen: int): Assets {
    map[0 := Asset(ImageWithOs("linux"), Some(lastSeen), Some(lastSeen), None)]
  }

  ghost predicate FoundButTerminated(before: Assets, after: Assets, now: int, found: seq<AssetType>, l: Ledger,
      id: Id) {
    && Progress(before, before, now, found, l) && Accounts(before, before, found, l)
    && OnlyTerminations(before, after, now, l.failedPatch) && AllTerminated(before, after, now, l.failedPatch)
    && Live(before, id) && FoundAs(found, IdentityOf(before[id].info)) && !Live(after, id)
  }

  lemma OneStoredImage(now: int, found: AssetType, l: Ledger)
    requires now >= SECOND && IdentityOf(found) == ImageId("sha")
    requires l in {Ledger({}, {}, {}, {}), Ledger({}, {}, {}, {0})}
    requires 0 in l.failedPosts || HandleAssetConflict(ImageWithOs("linux"), found).None?
    ensures var before := StoredImage(0);
            FoundButTerminated(before, map[0 := Terminated(before[0], now)], now, [found], l, 0)
  {
    var before, all := StoredImage(0), [found];
    assert WholeSeconds(now) >= SECOND;
    assert all[0] == found;
    assert Refreshed(before[0], before[0], now, false);
    forall j
      ensures !RefreshedBy(before[0].info, all, l.failedPosts, j)
    {
    }
    hide HandleAssetConflict;
  }

  /** The same image, discovered under another operating system: it cannot be merged, so it is terminated. */
  lemma UnmergeableIsTerminated(now: int)
    requires now >= SECOND
    ensures var before := StoredImage(0);
            FoundButTerminated(before, map[0 := Terminated(before[0], now)], now, [ImageWithOs("windows")],
              Ledger({}, {}, {}, {}), 0)
  {
    var a, b := ImageWithOs("linux").info, ImageWithOs("windows").info;
    ContainerImage.MergeTexts(a, b);
    assert ContainerImage.Text(a, ContainerImage.Os) == "linux";
    assert ContainerImage.Text(b, ContainerImage.Os) == "windows";
    assert "linux"[0] != "windows"[0];
    OneStoredImage(now, ImageWithOs("windows"), Ledger({}, {}, {}, {}));
  }

  /** The very image that is stored, but its POST fails: it is terminated too. */
  lemma UnpostedIsTerminated(now: int)
    requires now >= SECOND
    ensures var before := StoredImage(0);
            FoundButTerminated(before, map[0 := Terminated(before[0], now)], now, [ImageWithOs("linux")],
              Ledger({}, {}, {}, {0}), 0)
  {
    OneStoredImage(now, ImageWithOs("linux"), Ledger({}, {}, {}, {0}));
  }
}
