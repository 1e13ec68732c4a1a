/** What a scanner reports, its normal form, and the comparison of two reports. */
module Vulnerabilities {
  import opened Common
  import opened StableSort

  datatype Cvss = Cvss(version: string, rest: string)

  /**
   The arrays that sortArrays touches are spelled out (None is Go's nil slice); `rest` stands for
   every other field. `encodable` tells whether json.Marshal accepts the value: vendor metadata
   and scores can be such that it does not.
   */
  datatype Vulnerability = Vulnerability(
    id: string,
    packageName: string,
    packageVersion: string,
    cvss: Option<seq<Cvss>>,
    links: Option<seq<string>>,
    fixVersions: Option<seq<string>>,
    cpes: Option<seq<string>>,
    licenses: Option<seq<string>>,
    rest: string,
    encodable: bool)

  type VulnerabilityKey = string

  function KeyOf(v: Vulnerability): VulnerabilityKey {
    v.id + "." + v.packageName + "." + v.packageVersion
  }

  /** The same vulnerability in the same version of the same package. */
  predicate SameFinding(v: Vulnerability, w: Vulnerability) {
    v.id == w.id && v.packageName == w.packageName && v.packageVersion == w.packageVersion
  }

  /** The ID and the package name, the first two parts of the key, contain no dot. */
  predicate DotFree(v: Vulnerability) {
    '.' !in v.id && '.' !in v.packageName
  }

  /** A finding has one key, and the key tells findings apart whose IDs and package names contain no dot. */
  lemma KeyMeaning(v: Vulnerability, w: Vulnerability)
    ensures SameFinding(v, w) ==> KeyOf(v) == KeyOf(w)
    ensures DotFree(v) && DotFree(w) ==> (KeyOf(v) == KeyOf(w) <==> SameFinding(v, w))
  {
    if DotFree(v) && DotFree(w) {
      var p, q := v.packageName + "." + v.packageVersion, w.packageName + "." + w.packageVersion;
      JoinInjective(v.packageName, v.packageVersion, w.packageName, w.packageVersion, '.');
      JoinInjective(v.id, p, w.id, q, '.');
      assert KeyOf(v) == v.id + "." + p && KeyOf(w) == w.id + "." + q;
    }
  }

  /** Dots can make two packages look alike: version "9.j.1" of "log" is taken for version "1" of "log.9.j". */
  lemma DotsAreConfused(v: Vulnerability)
    ensures var a := v.(packageName := "log", packageVersion := "9.j.1");
            var b := v.(packageName := "log.9.j", packageVersion := "1");
            KeyOf(a) == KeyOf(b) && !SameFinding(a, b)
  {
    var a := v.(packageName := "log", packageVersion := "9.j.1");
    var b := v.(packageName := "log.9.j", packageVersion := "1");
    assert "log" + "." + "9.j.1" == "log.9.j" + "." + "1";
    assert KeyOf(a) == v.id + "." + ("log" + "." + "9.j.1");
    assert KeyOf(b) == v.id + "." + ("log.9.j" + "." + "1");
    assert |a.packageVersion| != |b.packageVersion|;
  }

  function VersionOf(c: Cvss): string { c.version }

  function SortSlice(s: Option<seq<string>>): Option<seq<string>> {
    if s.None? then None else Some(SortStrings(s.value))
  }

  function SortArrays(v: Vulnerability): Vulnerability {
    v.(cvss := if v.cvss.None? then None else Some(Sort(VersionOf, v.cvss.value)),
       links := SortSlice(v.links),
       fixVersions := SortSlice(v.fixVersions),
       cpes := SortSlice(v.cpes),
       licenses := SortSlice(v.licenses))
  }

  /** Equal but for the order of the string arrays and of CVSS entries with different versions. */
  ghost predicate SameUpToOrder(v: Vulnerability, w: Vulnerability) {
    && SameStrings(v.links, w.links)
    && SameStrings(v.fixVersions, w.fixVersions)
    && SameStrings(v.cpes, w.cpes)
    && SameStrings(v.licenses, w.licenses)
    && (v.cvss.None? <==> w.cvss.None?)
    && (v.cvss.Some? ==> SameBuckets(VersionOf, v.cvss.GetOr([]), w.cvss.GetOr([])))
    && (v.id, v.packageName, v.packageVersion, v.rest, v.encodable) ==
      (w.id, w.packageName, w.packageVersion, w.rest, w.encodable)
  }

  ghost predicate SameStrings(a: Option<seq<string>>, b: Option<seq<string>>) {
    (a.None? <==> b.None?) && multiset(a.GetOr([])) == multiset(b.GetOr([]))
  }

  lemma SortSliceEqualIff(a: Option<seq<string>>, b: Option<seq<string>>)
    ensures SortSlice(a) == SortSlice(b) <==> SameStrings(a, b)
  {
    SortStringsEqualIffPermutation(a.GetOr([]), b.GetOr([]));
  }

  /** What the comparison of sorted copies identifies. */
  lemma NormalFormMeaning(v: Vulnerability, w: Vulnerability)
    ensures SortArrays(v) == SortArrays(w) <==> SameUpToOrder(v, w)
  {
    SortSliceEqualIff(v.links, w.links);
    SortSliceEqualIff(v.fixVersions, w.fixVersions);
    SortSliceEqualIff(v.cpes, w.cpes);
    SortSliceEqualIff(v.licenses, w.licenses);
    SortEqualIffSameBuckets(VersionOf, v.cvss.GetOr([]), w.cvss.GetOr([]));
  }

  lemma SortArraysIdempotent(v: Vulnerability)
    ensures SortArrays(SortArrays(v)) == SortArrays(v)
  {
    SortIdempotent(VersionOf, v.cvss.GetOr([]));
    SortIdempotent(Self, v.links.GetOr([]));
    SortIdempotent(Self, v.fixVersions.GetOr([]));
    SortIdempotent(Self, v.cpes.GetOr([]));
    SortIdempotent(Self, v.licenses.GetOr([]));
  }

  /** The uuid drawn for a merged vulnerability: which Merge call drew it, for which key. */
  datatype Id = Id(call: nat, key: VulnerabilityKey)

  datatype Diff = Diff(compareToId: Id, from: Vulnerability, to: Vulnerability)

  datatype DiffResult = Failed | NoDiff | Found(diff: Diff)

  function GetDiff(v: Vulnerability, compareTo: Vulnerability, compareToId: Id): DiffResult {
    if !compareTo.encodable || !v.encodable then Failed
    else if SortArrays(compareTo) == SortArrays(v) then NoDiff
    else Found(Diff(compareToId, SortArrays(compareTo), SortArrays(v)))
  }

  predicate Same(v: Vulnerability, w: Vulnerability) {
    v.encodable && w.encodable && SortArrays(v) == SortArrays(w)
  }
}

/** The fold of scanner reports into one list of distinct variants per vulnerability and package. */
module VulnerabilityMerge {
  import opened Gathering
  import opened Vulnerabilities

  type Info = string

  datatype MergedVulnerability = MergedVulnerability(id: Id, vulnerability: Vulnerability, scanners: seq<Info>,
    diffs: seq<Diff>)

  datatype Source = Source(kind: string, name: string, hash: string)

  datatype Results = Results(matches: seq<Vulnerability>, scanner: Info, source: Source)

  type ByKey = map<VulnerabilityKey, seq<MergedVulnerability>>

  // ---------- toVulnerabilityByKey ----------

  ghost predicate IsLastWithKey(matches: seq<Vulnerability>, v: Vulnerability, k: VulnerabilityKey) {
    exists i :: 0 <= i < |matches| && matches[i] == v && KeyOf(v) == k && NoLaterWithKey(matches, i, k)
  }

  ghost predicate NoLaterWithKey(matches: seq<Vulnerability>, i: int, k: VulnerabilityKey) {
    forall j :: 0 <= j < |matches| && i < j ==> KeyOf(matches[j]) != k
  }

  lemma LastWithKeyExtends(matches: seq<Vulnerability>, v: Vulnerability, k: VulnerabilityKey)
    requires matches != []
    requires if KeyOf(matches[|matches| - 1]) == k then v == matches[|matches| - 1]
             else IsLastWithKey(matches[..|matches| - 1], v, k)
    ensures IsLastWithKey(matches, v, k)
  {
    var n := |matches| - 1;
    if KeyOf(matches[n]) == k {
      assert NoLaterWithKey(matches, n, k);
    } else {
      var init := matches[..n];
      var i :| 0 <= i < |init| && init[i] == v && KeyOf(v) == k && NoLaterWithKey(init, i, k);
      assert forall j :: 0 <= j < n ==> init[j] == matches[j];
      assert NoLaterWithKey(matches, i, k);
    }
  }

  /** Of several matches with one key, the last one counts. */
  function LastByKey(matches: seq<Vulnerability>): map<VulnerabilityKey, Vulnerability> {
    if matches == [] then map[]
    else
      var n := |matches| - 1;
      LastByKey(matches[..n])[KeyOf(matches[n]) := matches[n]]
  }

  lemma {:induction false} LastByKeyMeaning(matches: seq<Vulnerability>, k: VulnerabilityKey)
    ensures k in LastByKey(matches) <==> exists i :: 0 <= i < |matches| && KeyOf(matches[i]) == k
    ensures k in LastByKey(matches) ==> IsLastWithKey(matches, LastByKey(matches)[k], k)
  {
    if matches == [] {
    } else {
      var n := |matches| - 1;
      LastByKeyMeaning(matches[..n], k);
      if k in LastByKey(matches) { LastWithKeyExtends(matches, LastByKey(matches)[k], k); }
    }
  }

  /** Match j is the last one in the report for the same finding as v. */
  ghost predicate LastFinding(matches: seq<Vulnerability>, v: Vulnerability, j: int) {
    && 0 <= j < |matches| && SameFinding(v, matches[j])
    && forall n :: j < n < |matches| ==> !SameFinding(v, matches[n])
  }

  /**
   By fields: match i of a report is in the result under its key, as the report's last word on
   that vulnerability in that version of that package; matches that differ in ID, package name or
   package version are in it under different keys.
   */
  lemma FindingIsKept(matches: seq<Vulnerability>, i: nat)
    requires i < |matches| && forall n :: 0 <= n < |matches| ==> DotFree(matches[n])
    ensures var k := KeyOf(matches[i]);
            && k in LastByKey(matches)
            && (exists j :: i <= j && LastFinding(matches, matches[i], j) && LastByKey(matches)[k] == matches[j])
            && forall n :: 0 <= n < |matches| ==> (KeyOf(matches[n]) == k <==> SameFinding(matches[i], matches[n]))
  {
    var k := KeyOf(matches[i]);
    LastByKeyMeaning(matches, k);
    forall n | 0 <= n < |matches|
      ensures KeyOf(matches[n]) == k <==> SameFinding(matches[i], matches[n])
    {
      KeyMeaning(matches[i], matches[n]);
    }
    hide KeyOf;
    hide SameFinding;
    var v := LastByKey(matches)[k];
    var j :| 0 <= j < |matches| && matches[j] == v && KeyOf(v) == k && NoLaterWithKey(matches, j, k);
    assert LastFinding(matches, matches[i], j);
  }

  /** No two keys of the result stand for the same finding, and every finding has one. */
  lemma OneKeyPerFinding(matches: seq<Vulnerability>, k: VulnerabilityKey, l: VulnerabilityKey)
    requires k in LastByKey(matches) && l in LastByKey(matches)
    requires SameFinding(LastByKey(matches)[k], LastByKey(matches)[l])
    ensures k == l
  {
    LastByKeyMeaning(matches, k);
    LastByKeyMeaning(matches, l);
    KeyMeaning(LastByKey(matches)[k], LastByKey(matches)[l]);
    hide KeyOf;
  }

  method ToVulnerabilityByKey(matches: seq<Vulnerability>) returns (ret: map<VulnerabilityKey, Vulnerability>)
    ensures ret == LastByKey(matches)
  {
    ret := map[];
    for i := 0 to |matches|
      invariant ret == LastByKey(matches[..i])
    {
      assert matches[..i + 1][..i] == matches[..i];
      ret := ret[KeyOf(matches[i]) := matches[i]];
    }
    assert matches[..|matches|] == matches;
  }

  // ---------- handleVulnerabilityWithExistingKey ----------

  /** The index of the first variant that equals v in normal form; the length when none does. */
  function FirstSame(list: seq<MergedVulnerability>, v: Vulnerability): (j: nat)
    ensures j <= |list|
    ensures forall i :: 0 <= i < j ==> !Same(list[i].vulnerability, v)
    ensures j < |list| ==> Same(list[j].vulnerability, v)
  {
    if list == [] then 0
    else if Same(list[0].vulnerability, v) then 0
    else 1 + FirstSame(list[1..], v)
  }

  /** The diffs collected against the variants of `list`, in order. */
  function DiffsAgainst(list: seq<MergedVulnerability>, v: Vulnerability): (r: seq<Diff>) {
    if list == [] then []
    else
      var n := |list| - 1;
      var d := GetDiff(v, list[n].vulnerability, list[n].id);
      DiffsAgainst(list[..n], v) + (if d.Found? then [d.diff] else [])
  }

  /** Comparing sorts the arrays of the stored variant in place. */
  function Compared(list: seq<MergedVulnerability>): (r: seq<MergedVulnerability>) {
    seq(|list|, i requires 0 <= i < |list| => list[i].(vulnerability := SortArrays(list[i].vulnerability)))
  }

  /** The candidate shares its arrays with the report, which is sorted once a stored variant encodes. */
  function SharedArrays(list: seq<MergedVulnerability>, v: Vulnerability): Vulnerability {
    if exists i :: 0 <= i < |list| && list[i].vulnerability.encodable then SortArrays(v) else v
  }

  function Handle(list: seq<MergedVulnerability>, v: Vulnerability, info: Info, id: Id): seq<MergedVulnerability> {
    var j := FirstSame(list, v);
    if j < |list| then
      Compared(list[..j])
      + [list[j].(vulnerability := SortArrays(list[j].vulnerability), scanners := list[j].scanners + [info])]
      + list[j + 1..]
    else
      Compared(list) + [MergedVulnerability(id, SharedArrays(list, v), [info], DiffsAgainst(list, v))]
  }

  lemma FirstSameAt(list: seq<MergedVulnerability>, v: Vulnerability, i: nat)
    requires i < |list| && i <= FirstSame(list, v)
    ensures FirstSame(list, v) == i <==> Same(list[i].vulnerability, v)
  {
  }

  lemma SortedDiff(v: Vulnerability, w: Vulnerability, id: Id)
    ensures GetDiff(SortArrays(v), w, id) == GetDiff(v, w, id)
    ensures GetDiff(v, w, id).NoDiff? <==> Same(w, v)
  {
    SortArraysIdempotent(v);
    assert SortArrays(v).encodable == v.encodable;
    hide SortArrays;
  }

  lemma SharedStep(list: seq<MergedVulnerability>, v: Vulnerability, i: nat)
    requires i < |list|
    ensures SharedArrays(list[..i + 1], v) ==
      (if list[i].vulnerability.encodable then SortArrays(SharedArrays(list[..i], v)) else SharedArrays(list[..i], v))
  {
    SortArraysIdempotent(v);
    hide SortArrays;
    var seen, seen' := list[..i], list[..i + 1];
    assert forall j :: 0 <= j < i ==> seen'[j] == seen[j];
    assert seen'[i] == list[i];
  }

  lemma SharedDiff(list: seq<MergedVulnerability>, v: Vulnerability, w: Vulnerability, id: Id)
    ensures GetDiff(SharedArrays(list, v), w, id) == GetDiff(v, w, id)
    ensures GetDiff(v, w, id).NoDiff? <==> Same(w, v)
  {
    SortedDiff(v, w, id);
    hide SortArrays;
    hide GetDiff;
    hide Same;
  }

  lemma ComparedStep(list: seq<MergedVulnerability>, i: nat)
    requires i < |list|
    ensures Compared(list[..i + 1]) ==
      Compared(list[..i]) + [list[i].(vulnerability := SortArrays(list[i].vulnerability))]
  {
    hide SortArrays;
    assert list[..i + 1] == list[..i] + [list[i]];
  }

  lemma DiffsStep(list: seq<MergedVulnerability>, v: Vulnerability, i: nat)
    requires i < |list|
    ensures var diff := GetDiff(v, list[i].vulnerability, list[i].id);
            DiffsAgainst(list[..i + 1], v) == DiffsAgainst(list[..i], v) + (if diff.Found? then [diff.diff] else [])
  {
    hide GetDiff;
    assert list[..i + 1][..i] == list[..i] && list[..i + 1][i] == list[i];
  }

  /** One more variant compared, none equal so far. */
  lemma CompareStep(list: seq<MergedVulnerability>, v: Vulnerability, i: nat)
    requires i < |list| && i <= FirstSame(list, v)
    ensures var seen, seen', m := list[..i], list[..i + 1], list[i];
            var diff := GetDiff(SharedArrays(seen, v), m.vulnerability, m.id);
            && (diff.NoDiff? <==> FirstSame(list, v) == i)
            && Compared(seen') == Compared(seen) + [m.(vulnerability := SortArrays(m.vulnerability))]
            && DiffsAgainst(seen', v) == DiffsAgainst(seen, v) + (if diff.Found? then [diff.diff] else [])
  {
    hide *;
    SharedDiff(list[..i], v, list[i].vulnerability, list[i].id);
    FirstSameAt(list, v, i);
    ComparedStep(list, i);
    DiffsStep(list, v, i);
  }

  lemma HandleFound(list: seq<MergedVulnerability>, v: Vulnerability, info: Info, id: Id, i: nat)
    requires i < |list| && FirstSame(list, v) == i
    ensures Handle(list, v, info, id) ==
      Compared(list[..i])
      + [list[i].(vulnerability := SortArrays(list[i].vulnerability), scanners := list[i].scanners + [info])]
      + list[i + 1..]
  {
  }

  lemma HandleNew(list: seq<MergedVulnerability>, v: Vulnerability, info: Info, id: Id)
    requires FirstSame(list, v) == |list|
    ensures Handle(list, v, info, id) ==
      Compared(list) + [MergedVulnerability(id, SharedArrays(list, v), [info], DiffsAgainst(list, v))]
  {
  }

  lemma UpdateInPlace(merged: seq<MergedVulnerability>, list: seq<MergedVulnerability>, i: nat, m: MergedVulnerability)
    requires i < |merged| && list == Compared(merged[..i]) + merged[i..]
    ensures |list| == |merged| && list[i] == merged[i]
    ensures list[i := m] == Compared(merged[..i]) + [m] + merged[i + 1..]
  {
  }

  lemma NothingCompared(merged: seq<MergedVulnerability>, v: Vulnerability)
    ensures Compared(merged[..0]) + merged[0..] == merged
    ensures SharedArrays(merged[..0], v) == v && DiffsAgainst(merged[..0], v) == []
  {
  }

  method HandleVulnerabilityWithExistingKey(merged: seq<MergedVulnerability>, v: Vulnerability, info: Info, id: Id)
    returns (list: seq<MergedVulnerability>)
    ensures list == Handle(merged, v, info, id)
  {
    hide *;
    list := merged;
    var other, diffs := v, [];
    var shouldAppend := true;
    var i := 0;
    NothingCompared(merged, v);
    while i < |list|
      invariant 0 <= i <= |list| == |merged|
      invariant list == Compared(merged[..i]) + merged[i..]
      invariant other == SharedArrays(merged[..i], v)
      invariant diffs == DiffsAgainst(merged[..i], v)
      invariant i <= FirstSame(merged, v)
      invariant shouldAppend
    {
      CompareStep(merged, v, i);
      SharedStep(merged, v, i);
      UpdateInPlace(merged, list, i, merged[i].(vulnerability := SortArrays(merged[i].vulnerability)));
      var m := list[i];
      var diff := GetDiff(other, m.vulnerability, m.id);
      if m.vulnerability.encodable {
        other := SortArrays(other);
      }
      m := m.(vulnerability := SortArrays(m.vulnerability));
      list := list[i := m];
      if diff.Found? {
        diffs := diffs + [diff.diff];
      } else if diff.NoDiff? {
        HandleFound(merged, v, info, id, i);
        m := m.(scanners := m.scanners + [info]);
        assert list[i := m] == Compared(merged[..i]) + [m] + merged[i + 1..];
        list := list[i := m];
        shouldAppend := false;
        break;
      }
      i := i + 1;
    }
    if shouldAppend {
      HandleNew(merged, v, info, id);
      assert merged[..i] == merged;
      list := list + [MergedVulnerability(id, other, [info], diffs)];
    }
  }

  // ---------- Merge ----------

  /** What one Merge call makes of the list of key k. */
  function HandleKey(m: ByKey, report: Results, call: nat, k: VulnerabilityKey): seq<MergedVulnerability>
    requires k in m || k in LastByKey(report.matches)
  {
    var other := LastByKey(report.matches);
    if k !in other then m[k]
    else Handle(if k in m then m[k] else [], other[k], report.scanner, Id(call, k))
  }

  function MergeReport(m: ByKey, report: Results, call: nat): ByKey {
    map k | k in m.Keys + LastByKey(report.matches).Keys :: HandleKey(m, report, call, k)
  }

  class MergedResults {
    var mergedVulnerabilitiesByKey: ByKey
    var source: Source
    var calls: nat

    constructor ()
      ensures mergedVulnerabilitiesByKey == map[] && source == Source("", "", "") && calls == 0
    {
      mergedVulnerabilitiesByKey, source, calls := map[], Source("", "", ""), 0;
    }

    /** The keys are visited in an arbitrary order, as Go visits a map; the outcome does not depend on it. */
    method Merge(other: Results)
      modifies this
      ensures mergedVulnerabilitiesByKey == MergeReport(old(mergedVulnerabilitiesByKey), other, old(calls))
      ensures source == (if old(source).kind == "" then other.source else old(source))
      ensures calls == old(calls) + 1
    {
      hide Handle;
      hide SortArrays;
      var byKey := ToVulnerabilityByKey(other.matches);
      ghost var before := mergedVulnerabilitiesByKey;
      var todo := byKey.Keys;
      while todo != {}
        invariant todo <= byKey.Keys
        invariant forall k :: k in mergedVulnerabilitiesByKey <==> k in before || (k in byKey && k !in todo)
        invariant forall k :: k in before && (k in todo || k !in byKey) ==> mergedVulnerabilitiesByKey[k] == before[k]
        invariant forall k :: k in byKey && k !in todo ==>
          mergedVulnerabilitiesByKey[k] == HandleKey(before, other, calls, k)
        invariant calls == old(calls) && source == old(source)
        decreases todo
      {
        var key :| key in todo;
        if key !in mergedVulnerabilitiesByKey {
          var newVulnerability := MergedVulnerability(Id(calls, key), byKey[key], [other.scanner], []);
          HandleNew([], byKey[key], other.scanner, Id(calls, key));
          mergedVulnerabilitiesByKey := mergedVulnerabilitiesByKey[key := [newVulnerability]];
        } else {
          var list := HandleVulnerabilityWithExistingKey(mergedVulnerabilitiesByKey[key], byKey[key], other.scanner,
            Id(calls, key));
          mergedVulnerabilitiesByKey := mergedVulnerabilitiesByKey[key := list];
        }
        todo := todo - {key};
      }
      assert mergedVulnerabilitiesByKey == MergeReport(before, other, calls);
      calls := calls + 1;
      if source.kind == "" {
        source := other.source;
      }
    }
  }

  // ---------- The group-by that a sequence of merges amounts to ----------

  function MergeAll(results: seq<Results>): ByKey {
    if results == [] then map[]
    else
      var n := |results| - 1;
      MergeReport(MergeAll(results[..n]), results[n], n)
  }

  datatype Report = Report(call: nat, info: Info, vulnerability: Vulnerability)

  /** The reports about one key, in merge order. */
  function Reports(results: seq<Results>, k: VulnerabilityKey): seq<Report> {
    if results == [] then []
    else
      var n := |results| - 1;
      var other := LastByKey(results[n].matches);
      Reports(results[..n], k) + (if k in other then [Report(n, results[n].scanner, other[k])] else [])
  }

  /** The indices of the reports that equal no earlier one: the distinct variants, first seen first. */
  function Leaders(reports: seq<Report>): (r: seq<nat>)
    ensures forall i :: 0 <= i < |r| ==> r[i] < |reports|
  {
    if reports == [] then []
    else
      var n := |reports| - 1;
      var init := Leaders(reports[..n]);
      if exists i :: 0 <= i < n && Same(reports[i].vulnerability, reports[n].vulnerability) then init else init + [n]
  }

  /** The scanners of reports l, l + 1, ... that reported what report l did, in order. */
  function ScannersOf(reports: seq<Report>, l: nat): (r: seq<Info>)
    requires l < |reports|
  {
    var n := |reports| - 1;
    if n == l then [reports[l].info]
    else
      ScannersOf(reports[..n], l) +
      (if Same(reports[l].vulnerability, reports[n].vulnerability) then [reports[n].info] else [])
  }

  /** The diffs of variant `v` against the first `i` leaders that both sides could be encoded for. */
  function DiffsOf(reports: seq<Report>, k: VulnerabilityKey, leaders: seq<nat>, v: Vulnerability): (r: seq<Diff>)
    requires forall j :: 0 <= j < |leaders| ==> leaders[j] < |reports|
  {
    if leaders == [] then []
    else
      var n := |leaders| - 1;
      var w := reports[leaders[n]];
      DiffsOf(reports, k, leaders[..n], v) +
      (if v.encodable && w.vulnerability.encodable
       then [Diff(Id(w.call, k), SortArrays(w.vulnerability), SortArrays(v))] else [])
  }

  ghost predicate Variant(m: MergedVulnerability, reports: seq<Report>, k: VulnerabilityKey, leaders: seq<nat>, i: nat)
    requires i < |leaders| && forall j :: 0 <= j < |leaders| ==> leaders[j] < |reports|
  {
    var first := reports[leaders[i]];
    && m.id == Id(first.call, k)
    && SortArrays(m.vulnerability) == SortArrays(first.vulnerability)
    && m.scanners == ScannersOf(reports, leaders[i])
    && m.diffs == DiffsOf(reports, k, leaders[..i], first.vulnerability)
  }

  /** `list` is the group-by of `reports`: one entry per distinct variant, in first-seen order. */
  ghost predicate GroupedBy(list: seq<MergedVulnerability>, reports: seq<Report>, k: VulnerabilityKey) {
    var leaders := Leaders(reports);
    && |list| == |leaders|
    && forall i :: 0 <= i < |list| ==> Variant(list[i], reports, k, leaders, i)
  }

  // ---------- One more report ----------

  lemma SortedFacts()
    ensures forall v :: SortArrays(SortArrays(v)) == SortArrays(v)
    ensures forall v, w :: SortArrays(v) == SortArrays(w) ==> v.encodable == w.encodable
  {
    forall v { SortArraysIdempotent(v); }
  }

  lemma SameIsEquivalence()
    ensures forall v, w :: Same(v, w) <==> Same(w, v)
    ensures forall v, w, u :: Same(v, w) && Same(w, u) ==> Same(v, u)
    ensures forall v, w, u :: SortArrays(v) == SortArrays(w) ==> (Same(v, u) <==> Same(w, u))
  {
    SortedFacts();
    hide SortArrays;
  }

  ghost predicate NoEarlierSame(reports: seq<Report>, n: nat)
    requires n < |reports|
  {
    forall i :: 0 <= i < n ==> !Same(reports[i].vulnerability, reports[n].vulnerability)
  }

  /** Leaders are in increasing order and exactly the reports without an equal predecessor. */
  lemma {:induction false} LeadersMeaning(reports: seq<Report>)
    ensures var ls := Leaders(reports);
            && (forall i, j :: 0 <= i < j < |ls| ==> ls[i] < ls[j])
            && (forall n :: 0 <= n < |reports| ==> (n in ls <==> NoEarlierSame(reports, n)))
  {
    hide Same;
    if reports == [] {
    } else {
      var n := |reports| - 1;
      LeadersMeaning(reports[..n]);
      assert forall m :: 0 <= m < n ==> (NoEarlierSame(reports[..n], m) <==> NoEarlierSame(reports, m));
    }
  }

  /** Two variants of one key differ. */
  lemma LeadersDiffer(reports: seq<Report>, i: nat, j: nat)
    requires i < |Leaders(reports)| && j < |Leaders(reports)| && i != j
    ensures !Same(reports[Leaders(reports)[i]].vulnerability, reports[Leaders(reports)[j]].vulnerability)
  {
    LeadersMeaning(reports);
    SameIsEquivalence();
    hide Same;
    var ls := Leaders(reports);
    assert ls[i] in ls && ls[j] in ls;
    assert NoEarlierSame(reports, ls[i]) && NoEarlierSame(reports, ls[j]);
  }

  /** A report that has an equal has an equal leader. */
  lemma {:induction false} SameHasLeader(reports: seq<Report>, v: Vulnerability, n: nat) returns (l: nat)
    requires n < |reports| && Same(reports[n].vulnerability, v)
    ensures l < |Leaders(reports)| && Same(reports[Leaders(reports)[l]].vulnerability, v)
  {
    LeadersMeaning(reports);
    SameIsEquivalence();
    hide Same;
    if NoEarlierSame(reports, n) {
      assert n in Leaders(reports);
      l :| 0 <= l < |Leaders(reports)| && Leaders(reports)[l] == n;
    } else {
      var i :| 0 <= i < n && Same(reports[i].vulnerability, reports[n].vulnerability);
      l := SameHasLeader(reports, v, i);
    }
  }

  lemma {:induction false} DiffsOfPrefix(reports: seq<Report>, r: Report, k: VulnerabilityKey, leaders: seq<nat>,
      v: Vulnerability)
    requires forall j :: 0 <= j < |leaders| ==> leaders[j] < |reports|
    ensures DiffsOf(reports + [r], k, leaders, v) == DiffsOf(reports, k, leaders, v)
  {
    if leaders == [] {
    } else {
      DiffsOfPrefix(reports, r, k, leaders[..|leaders| - 1], v);
    }
  }

  lemma ScannersOfExtend(reports: seq<Report>, r: Report, l: nat)
    requires l < |reports|
    ensures ScannersOf(reports + [r], l) ==
      ScannersOf(reports, l) + (if Same(reports[l].vulnerability, r.vulnerability) then [r.info] else [])
  {
    hide Same;
    assert (reports + [r])[..|reports|] == reports;
  }

  lemma LeadersExtend(reports: seq<Report>, r: Report)
    ensures Leaders(reports + [r]) ==
      Leaders(reports) +
      (if exists i :: 0 <= i < |reports| && Same(reports[i].vulnerability, r.vulnerability) then [] else [|reports|])
  {
    hide Same;
    var all := reports + [r];
    assert all[..|reports|] == reports;
    if exists i :: 0 <= i < |reports| && Same(reports[i].vulnerability, r.vulnerability) {
      var i :| 0 <= i < |reports| && Same(reports[i].vulnerability, r.vulnerability);
      assert Same(all[i].vulnerability, all[|reports|].vulnerability);
    }
  }

  /** The diffs against the stored variants are the diffs against the leaders. */
  lemma {:induction false} DiffsAgainstLeaders(list: seq<MergedVulnerability>, reports: seq<Report>,
      k: VulnerabilityKey, v: Vulnerability, n: nat)
    requires GroupedBy(list, reports, k) && n <= |list|
    requires forall i :: 0 <= i < n ==> !Same(list[i].vulnerability, v)
    ensures DiffsAgainst(list[..n], v) == DiffsOf(reports, k, Leaders(reports)[..n], v)
  {
    SortedFacts();
    hide SortArrays;
    if n == 0 {
    } else {
      DiffsAgainstLeaders(list, reports, k, v, n - 1);
      assert list[..n][..n - 1] == list[..n - 1];
      var ls := Leaders(reports)[..n];
      assert ls[..n - 1] == Leaders(reports)[..n - 1];
      assert Variant(list[n - 1], reports, k, Leaders(reports), n - 1);
    }
  }

  /** The first variant that equals the report, and the leader it comes from. */
  lemma FoundLeader(list: seq<MergedVulnerability>, reports: seq<Report>, v: Vulnerability, k: VulnerabilityKey)
    requires GroupedBy(list, reports, k) && FirstSame(list, v) < |list|
    ensures Same(reports[Leaders(reports)[FirstSame(list, v)]].vulnerability, v)
    ensures exists i :: 0 <= i < |reports| && Same(reports[i].vulnerability, v)
  {
    SameIsEquivalence();
    hide SortArrays;
    hide Same;
    var j := FirstSame(list, v);
    assert Variant(list[j], reports, k, Leaders(reports), j);
    assert Same(reports[Leaders(reports)[j]].vulnerability, v);
  }

  /** What Handle leaves of variant i when variant j equals the report. */
  lemma FoundAt(list: seq<MergedVulnerability>, v: Vulnerability, info: Info, id: Id, i: nat)
    requires FirstSame(list, v) < |list| && i < |list|
    ensures var j, list' := FirstSame(list, v), Handle(list, v, info, id);
            && |list'| == |list|
            && list'[i] == list[i].(vulnerability := list'[i].vulnerability, scanners := list'[i].scanners)
            && SortArrays(list'[i].vulnerability) == SortArrays(list[i].vulnerability)
            && list'[i].scanners == (if i == j then list[i].scanners + [info] else list[i].scanners)
  {
    hide *;
    var j := FirstSame(list, v);
    HandleFound(list, v, info, id, j);
    SortArraysIdempotent(list[i].vulnerability);
    ComparedAt(list[..j], if i < j then i else 0);
  }

  lemma ComparedAt(list: seq<MergedVulnerability>, i: nat)
    ensures |Compared(list)| == |list|
    ensures i < |list| ==> Compared(list)[i] == list[i].(vulnerability := SortArrays(list[i].vulnerability))
  {
    hide SortArrays;
  }

  /** Variant i after the report has been added to the scanners of variant j, which equals it. */
  lemma FoundVariant(list: seq<MergedVulnerability>, reports: seq<Report>, r: Report, k: VulnerabilityKey, i: nat,
      j: nat, m: MergedVulnerability)
    requires GroupedBy(list, reports, k) && i < |list| && j < |list|
    requires Same(reports[Leaders(reports)[j]].vulnerability, r.vulnerability)
    requires m == list[i].(vulnerability := m.vulnerability, scanners := m.scanners)
    requires SortArrays(m.vulnerability) == SortArrays(list[i].vulnerability)
    requires m.scanners == if i == j then list[i].scanners + [r.info] else list[i].scanners
    ensures Variant(m, reports + [r], k, Leaders(reports), i)
  {
    var ls := Leaders(reports);
    SameIsEquivalence();
    if i != j { LeadersDiffer(reports, i, j); }
    hide SortArrays;
    hide Same;
    assert Variant(list[i], reports, k, ls, i);
    ScannersOfExtend(reports, r, ls[i]);
    DiffsOfPrefix(reports, r, k, ls[..i], reports[ls[i]].vulnerability);
    hide Leaders;
    hide ScannersOf;
    hide DiffsOf;
  }

  lemma GroupStepFound(list: seq<MergedVulnerability>, reports: seq<Report>, r: Report, k: VulnerabilityKey)
    requires GroupedBy(list, reports, k) && FirstSame(list, r.vulnerability) < |list|
    ensures GroupedBy(Handle(list, r.vulnerability, r.info, Id(r.call, k)), reports + [r], k)
  {
    var v, ls, id := r.vulnerability, Leaders(reports), Id(r.call, k);
    var all, list' := reports + [r], Handle(list, v, r.info, id);
    FoundLeader(list, reports, v, k);
    LeadersExtend(reports, r);
    hide Same;
    hide SortArrays;
    hide Handle;
    hide FirstSame;
    hide Variant;
    assert Leaders(all) == ls;
    FoundAt(list, v, r.info, id, FirstSame(list, v));
    forall i | 0 <= i < |list'|
      ensures Variant(list'[i], all, k, ls, i)
    {
      FoundAt(list, v, r.info, id, i);
      FoundVariant(list, reports, r, k, i, FirstSame(list, v), list'[i]);
    }
  }

  lemma NewVariant(list: seq<MergedVulnerability>, reports: seq<Report>, v: Vulnerability, k: VulnerabilityKey, i: nat)
    requires GroupedBy(list, reports, k) && FirstSame(list, v) == |list| && i < |reports|
    ensures !Same(reports[i].vulnerability, v)
  {
    SameIsEquivalence();
    hide SortArrays;
    hide Same;
    forall l | 0 <= l < |list|
      ensures !Same(reports[Leaders(reports)[l]].vulnerability, v)
    {
      assert Variant(list[l], reports, k, Leaders(reports), l);
    }
    if Same(reports[i].vulnerability, v) {
      var l := SameHasLeader(reports, v, i);
    }
  }

  lemma OldVariantStays(list: seq<MergedVulnerability>, reports: seq<Report>, r: Report, k: VulnerabilityKey, i: nat)
    requires GroupedBy(list, reports, k) && i < |list|
    requires !Same(reports[Leaders(reports)[i]].vulnerability, r.vulnerability)
    requires Leaders(reports + [r]) == Leaders(reports) + [|reports|]
    ensures Variant(Compared(list)[i], reports + [r], k, Leaders(reports + [r]), i)
  {
    SortedFacts();
    hide SortArrays;
    hide Same;
    var ls := Leaders(reports);
    assert Variant(list[i], reports, k, ls, i);
    ScannersOfExtend(reports, r, ls[i]);
    DiffsOfPrefix(reports, r, k, ls[..i], reports[ls[i]].vulnerability);
    assert (ls + [|reports|])[..i] == ls[..i];
  }

  lemma NewVariantAppended(list: seq<MergedVulnerability>, reports: seq<Report>, r: Report, k: VulnerabilityKey)
    requires GroupedBy(list, reports, k) && FirstSame(list, r.vulnerability) == |list|
    requires Leaders(reports + [r]) == Leaders(reports) + [|reports|]
    ensures Variant(MergedVulnerability(Id(r.call, k), SharedArrays(list, r.vulnerability), [r.info],
      DiffsAgainst(list, r.vulnerability)),
                    reports + [r], k, Leaders(reports + [r]), |list|)
  {
    SortedFacts();
    var v, ls := r.vulnerability, Leaders(reports);
    DiffsAgainstLeaders(list, reports, k, v, |list|);
    hide SortArrays;
    hide Same;
    DiffsOfPrefix(reports, r, k, ls, v);
    assert list[..|list|] == list && ls[..|list|] == ls && (ls + [|reports|])[..|list|] == ls;
  }

  lemma GroupStepNew(list: seq<MergedVulnerability>, reports: seq<Report>, r: Report, k: VulnerabilityKey)
    requires GroupedBy(list, reports, k) && FirstSame(list, r.vulnerability) == |list|
    ensures GroupedBy(Handle(list, r.vulnerability, r.info, Id(r.call, k)), reports + [r], k)
  {
    HandleNew(list, r.vulnerability, r.info, Id(r.call, k));
    LeadersExtend(reports, r);
    hide Same;
    hide Handle;
    hide SharedArrays;
    hide Compared;
    hide Variant;
    forall i | 0 <= i < |reports|
      ensures !Same(reports[i].vulnerability, r.vulnerability)
    {
      NewVariant(list, reports, r.vulnerability, k, i);
    }
    forall i | 0 <= i < |list|
      ensures Variant(Compared(list)[i], reports + [r], k, Leaders(reports + [r]), i)
    {
      OldVariantStays(list, reports, r, k, i);
    }
    NewVariantAppended(list, reports, r, k);
  }

  // ---------- Every sequence of merges ----------

  /**
   After any sequence of Merge calls, each key's list is the group-by of the reports about that
   key: the distinct variants in first-seen order, each with exactly the scanners that reported
   it in merge order, and with one diff per earlier variant, pointing at its ID.
   */
  lemma {:induction false} MergeAllIsGroupBy(results: seq<Results>, k: VulnerabilityKey)
    ensures k in MergeAll(results) <==> Reports(results, k) != []
    ensures k in MergeAll(results) ==> GroupedBy(MergeAll(results)[k], Reports(results, k), k)
  {
    hide Same;
    hide SortArrays;
    hide Handle;
    if results == [] {
    } else {
      var n := |results| - 1;
      MergeAllIsGroupBy(results[..n], k);
      var m, other := MergeAll(results[..n]), LastByKey(results[n].matches);
      if k in other {
        var list := if k in m then m[k] else [];
        var r := Report(n, results[n].scanner, other[k]);
        var reports := Reports(results[..n], k);
        assert Reports(results, k) == reports + [r];
        assert GroupedBy(list, reports, k);
        assert MergeAll(results)[k] == Handle(list, r.vulnerability, r.info, Id(r.call, k));
        if FirstSame(list, r.vulnerability) < |list| {
          GroupStepFound(list, reports, r, k);
        } else {
          GroupStepNew(list, reports, r, k);
        }
      } else {
        assert Reports(results, k) == Reports(results[..n], k);
      }
    }
  }

  /** Two entries of one key never describe the same vulnerability, up to the order of arrays, if it can be encoded. */
  lemma VariantsDiffer(results: seq<Results>, k: VulnerabilityKey, i: nat, j: nat)
    requires k in MergeAll(results) && i < j < |MergeAll(results)[k]|
    ensures var v, w := MergeAll(results)[k][i].vulnerability, MergeAll(results)[k][j].vulnerability;
            v.encodable ==> !SameUpToOrder(v, w)
  {
    MergeAllIsGroupBy(results, k);
    var list, reports := MergeAll(results)[k], Reports(results, k);
    assert Variant(list[i], reports, k, Leaders(reports), i) && Variant(list[j], reports, k, Leaders(reports), j);
    LeadersDiffer(reports, i, j);
    SortedFacts();
    NormalFormMeaning(list[i].vulnerability, list[j].vulnerability);
    hide SortArrays;
    hide SameUpToOrder;
    hide MergeAll;
    hide Reports;
  }

  lemma {:induction false} DiffsOfEncodable(reports: seq<Report>, k: VulnerabilityKey, leaders: seq<nat>,
      v: Vulnerability)
    requires forall j :: 0 <= j < |leaders| ==> leaders[j] < |reports|
    requires v.encodable && forall n :: 0 <= n < |reports| ==> reports[n].vulnerability.encodable
    ensures |DiffsOf(reports, k, leaders, v)| == |leaders|
    ensures forall j :: 0 <= j < |leaders| ==>
      DiffsOf(reports, k, leaders, v)[j] ==
      Diff(Id(reports[leaders[j]].call, k), SortArrays(reports[leaders[j]].vulnerability), SortArrays(v))
  {
    hide SortArrays;
    if leaders == [] {
    } else {
      DiffsOfEncodable(reports, k, leaders[..|leaders| - 1], v);
    }
  }

  /** Entry i carries exactly i diffs, against entries 0 .. i - 1 in that order, when nothing fails to encode. */
  lemma DiffsPointAtEarlierVariants(results: seq<Results>, k: VulnerabilityKey, i: nat)
    requires k in MergeAll(results) && i < |MergeAll(results)[k]|
    requires forall n :: 0 <= n < |Reports(results, k)| ==> Reports(results, k)[n].vulnerability.encodable
    ensures var list := MergeAll(results)[k];
            && |list[i].diffs| == i
            && forall j :: 0 <= j < i ==>
              list[i].diffs[j] ==
              Diff(list[j].id, SortArrays(list[j].vulnerability), SortArrays(list[i].vulnerability))
  {
    MergeAllIsGroupBy(results, k);
    hide SortArrays;
    hide MergeAll;
    hide Reports;
    var list, reports := MergeAll(results)[k], Reports(results, k);
    var ls := Leaders(reports);
    assert Variant(list[i], reports, k, ls, i);
    DiffsOfEncodable(reports, k, ls[..i], reports[ls[i]].vulnerability);
    forall j | 0 <= j < i
      ensures list[i].diffs[j] ==
        Diff(list[j].id, SortArrays(list[j].vulnerability), SortArrays(list[i].vulnerability))
    {
      assert Variant(list[j], reports, k, ls, j);
    }
  }

  // ---------- Provenance is conserved ----------

  function ScannerCount(list: seq<MergedVulnerability>): nat {
    if list == [] then 0 else |list[0].scanners| + ScannerCount(list[1..])
  }

  lemma {:induction false} ScannerCountConcat(a: seq<MergedVulnerability>, b: seq<MergedVulnerability>)
    ensures ScannerCount(a + b) == ScannerCount(a) + ScannerCount(b)
  {
    if a == [] {
      assert a + b == b;
    } else {
      ScannerCountConcat(a[1..], b);
      assert (a + b)[1..] == a[1..] + b;
    }
  }

  lemma {:induction false} ScannerCountCompared(list: seq<MergedVulnerability>)
    ensures ScannerCount(Compared(list)) == ScannerCount(list)
  {
    hide SortArrays;
    if list == [] {
    } else {
      ScannerCountCompared(list[1..]);
      assert Compared(list)[1..] == Compared(list[1..]);
    }
  }

  lemma HandleAddsOneScanner(list: seq<MergedVulnerability>, v: Vulnerability, info: Info, id: Id)
    ensures ScannerCount(Handle(list, v, info, id)) == ScannerCount(list) + 1
  {
    hide SortArrays;
    hide SharedArrays;
    hide DiffsAgainst;
    hide Same;
    hide Compared;
    var j := FirstSame(list, v);
    if j < |list| {
      var m := list[j].(vulnerability := SortArrays(list[j].vulnerability), scanners := list[j].scanners + [info]);
      ScannerCountConcat(Compared(list[..j]) + [m], list[j + 1..]);
      ScannerCountConcat(Compared(list[..j]), [m]);
      ScannerCountCompared(list[..j]);
      ScannerCountConcat(list[..j] + [list[j]], list[j + 1..]);
      ScannerCountConcat(list[..j], [list[j]]);
      assert list == list[..j] + [list[j]] + list[j + 1..];
      assert Handle(list, v, info, id) == Compared(list[..j]) + [m] + list[j + 1..];
    } else {
      HandleNew(list, v, info, id);
      var m := MergedVulnerability(id, SharedArrays(list, v), [info], DiffsAgainst(list, v));
      ScannerCountConcat(Compared(list), [m]);
      ScannerCountCompared(list);
    }
  }

  /** The scanner entries of a key add up to the number of results that contain the key. */
  lemma {:induction false} ScannersConserved(results: seq<Results>, k: VulnerabilityKey)
    ensures (if k in MergeAll(results) then ScannerCount(MergeAll(results)[k]) else 0) == |Reports(results, k)|
  {
    hide Handle;
    hide SortArrays;
    if results == [] {
    } else {
      var n := |results| - 1;
      ScannersConserved(results[..n], k);
      var m, other := MergeAll(results[..n]), LastByKey(results[n].matches);
      if k in other {
        HandleAddsOneScanner(if k in m then m[k] else [], other[k], results[n].scanner, Id(n, k));
      }
    }
  }

  /** The source is that of the first results that name one, if any do. */
  ghost predicate FirstSource(source: Source, results: seq<Results>) {
    if source.kind == "" then forall i :: 0 <= i < |results| ==> results[i].source.kind == ""
    else exists i ::
      0 <= i < |results| && results[i].source == source && forall j :: 0 <= j < i ==> results[j].source.kind == ""
  }

  lemma NextSource(source: Source, results: seq<Results>, i: nat)
    requires i < |results| && FirstSource(source, results[..i])
    ensures FirstSource(if source.kind == "" then results[i].source else source, results[..i + 1])
  {
    var prefix := results[..i];
    assert results[..i + 1] == prefix + [results[i]];
    assert forall j :: 0 <= j < i ==> results[j] == prefix[j];
  }

  lemma MergeAllStep(results: seq<Results>, i: nat)
    requires i < |results|
    ensures MergeAll(results[..i + 1]) == MergeReport(MergeAll(results[..i]), results[i], i)
  {
    assert results[..i + 1][..i] == results[..i];
    hide MergeReport;
  }

  /** The loop that merges the scanners' results into a new object. */
  method MergeEach(results: seq<Results>) returns (merged: MergedResults)
    ensures merged.mergedVulnerabilitiesByKey == MergeAll(results)
    ensures FirstSource(merged.source, results)
    ensures fresh(merged)
  {
    merged := new MergedResults();
    assert results[..0] == [] && FirstSource(merged.source, []);
    assert MergeAll([]) == map[];
    hide *;
    for i := 0 to |results|
      invariant fresh(merged) && merged.calls == i
      invariant FirstSource(merged.source, results[..i])
      invariant merged.mergedVulnerabilitiesByKey == MergeAll(results[..i])
    {
      NextSource(merged.source, results, i);
      MergeAllStep(results, i);
      merged.Merge(results[i]);
    }
    assert results[..|results|] == results;
  }

  // ---------- The order of merging ----------

  /** Who reported, under key k, what v says; with multiplicity, in no order. */
  function ReportersOf(results: seq<Results>, k: VulnerabilityKey, v: Vulnerability): multiset<Info> {
    Gather(results, ReporterOf(k, v))
  }

  function ReporterOf(k: VulnerabilityKey, v: Vulnerability): Results -> multiset<Info> {
    (r: Results) =>
      if k in LastByKey(r.matches) && Same(LastByKey(r.matches)[k], v) then multiset{r.scanner} else multiset{}
  }

  function ReportersIn(reports: seq<Report>, v: Vulnerability): multiset<Info> {
    if reports == [] then multiset{}
    else
      var n := |reports| - 1;
      ReportersIn(reports[..n], v)
        + (if Same(reports[n].vulnerability, v) then multiset{reports[n].info} else multiset{})
  }

  lemma {:induction false} ReportersOfReports(results: seq<Results>, k: VulnerabilityKey, v: Vulnerability)
    ensures ReportersIn(Reports(results, k), v) == ReportersOf(results, k, v)
  {
    hide Same;
    if results == [] {
    } else {
      var n := |results| - 1;
      ReportersOfReports(results[..n], k, v);
      var init := Reports(results[..n], k);
      if k in LastByKey(results[n].matches) {
        var r := Report(n, results[n].scanner, LastByKey(results[n].matches)[k]);
        assert Reports(results, k) == init + [r] && (init + [r])[..|init|] == init;
      } else {
        assert Reports(results, k) == init;
      }
    }
  }

  lemma {:induction false} NoReporters(reports: seq<Report>, v: Vulnerability)
    ensures ReportersIn(reports, v) == multiset{} <==>
      forall i :: 0 <= i < |reports| ==> !Same(reports[i].vulnerability, v)
  {
    hide Same;
    if reports == [] {
    } else {
      var n := |reports| - 1;
      NoReporters(reports[..n], v);
      assert forall i :: 0 <= i < n ==> reports[..n][i] == reports[i];
    }
  }

  lemma {:induction false} ScannersAreReporters(reports: seq<Report>, l: nat, v: Vulnerability)
    requires l < |reports| && NoEarlierSame(reports, l) && Same(reports[l].vulnerability, v)
    ensures multiset(ScannersOf(reports, l)) == ReportersIn(reports, v)
  {
    SameIsEquivalence();
    hide Same;
    var n := |reports| - 1;
    if n > l {
      ScannersAreReporters(reports[..n], l, v);
    } else {
      forall i | 0 <= i < |reports[..n]|
        ensures !Same(reports[..n][i].vulnerability, v)
      {
        assert !Same(reports[i].vulnerability, reports[l].vulnerability);
      }
      NoReporters(reports[..n], v);
    }
  }

  /** The scanners of an entry are all that reported its vulnerability. */
  lemma EntryHasItsReporters(results: seq<Results>, k: VulnerabilityKey, i: nat)
    requires k in MergeAll(results) && i < |MergeAll(results)[k]| && MergeAll(results)[k][i].vulnerability.encodable
    ensures var m := MergeAll(results)[k][i]; multiset(m.scanners) == ReportersOf(results, k, m.vulnerability)
  {
    MergeAllIsGroupBy(results, k);
    var m, reports := MergeAll(results)[k][i], Reports(results, k);
    var ls := Leaders(reports);
    assert Variant(m, reports, k, ls, i);
    LeadersMeaning(reports);
    assert ls[i] in ls;
    SortedFacts();
    assert Same(reports[ls[i]].vulnerability, m.vulnerability);
    ScannersAreReporters(reports, ls[i], m.vulnerability);
    ReportersOfReports(results, k, m.vulnerability);
  }

  // ---------- What cannot be encoded ----------

  lemma {:induction false} ScannersOfUnencodable(reports: seq<Report>, l: nat)
    requires l < |reports| && !reports[l].vulnerability.encodable
    ensures ScannersOf(reports, l) == [reports[l].info]
  {
    var n := |reports| - 1;
    if n == l {
    } else {
      ScannersOfUnencodable(reports[..n], l);
    }
  }

  /** A report that cannot be encoded has an entry of its own, with exactly its scanner. */
  lemma UnencodableHasOwnEntry(results: seq<Results>, k: VulnerabilityKey, n: nat) returns (i: nat)
    requires n < |Reports(results, k)| && !Reports(results, k)[n].vulnerability.encodable
    ensures k in MergeAll(results) && i < |MergeAll(results)[k]|
    ensures var m, report := MergeAll(results)[k][i], Reports(results, k)[n];
            && m.id == Id(report.call, k) && m.scanners == [report.info]
            && SortArrays(m.vulnerability) == SortArrays(report.vulnerability)
  {
    MergeAllIsGroupBy(results, k);
    var reports := Reports(results, k);
    LeadersMeaning(reports);
    ScannersOfUnencodable(reports, n);
    assert NoEarlierSame(reports, n);
    hide MergeAll;
    hide Reports;
    hide SortArrays;
    i :| 0 <= i < |Leaders(reports)| && Leaders(reports)[i] == n;
    assert Variant(MergeAll(results)[k][i], reports, k, Leaders(reports), i);
  }

  /** And an entry that cannot be encoded comes from one report, with exactly its scanner. */
  lemma UnencodableEntryIsReport(results: seq<Results>, k: VulnerabilityKey, i: nat) returns (n: nat)
    requires k in MergeAll(results) && i < |MergeAll(results)[k]| && !MergeAll(results)[k][i].vulnerability.encodable
    ensures n < |Reports(results, k)| && !Reports(results, k)[n].vulnerability.encodable
    ensures var m, report := MergeAll(results)[k][i], Reports(results, k)[n];
            && m.id == Id(report.call, k) && m.scanners == [report.info]
            && SortArrays(m.vulnerability) == SortArrays(report.vulnerability)
  {
    MergeAllIsGroupBy(results, k);
    var reports := Reports(results, k);
    n := Leaders(reports)[i];
    assert Variant(MergeAll(results)[k][i], reports, k, Leaders(reports), i);
    SortedFacts();
    hide MergeAll;
    hide Reports;
    hide SortArrays;
    ScannersOfUnencodable(reports, n);
  }

  /** The results that a report comes from. */
  lemma {:induction false} ReportOrigin(results: seq<Results>, k: VulnerabilityKey, n: nat)
    requires n < |Reports(results, k)|
    ensures var r := Reports(results, k)[n];
            && r.call < |results| && k in LastByKey(results[r.call].matches)
            && r == Report(r.call, results[r.call].scanner, LastByKey(results[r.call].matches)[k])
  {
    hide LastByKey;
    var m := |results| - 1;
    var init := Reports(results[..m], k);
    if n < |init| {
      ReportOrigin(results[..m], k, n);
    }
  }

  lemma {:induction false} OriginReported(results: seq<Results>, k: VulnerabilityKey, c: nat) returns (n: nat)
    requires c < |results| && k in LastByKey(results[c].matches)
    ensures n < |Reports(results, k)|
    ensures Reports(results, k)[n] == Report(c, results[c].scanner, LastByKey(results[c].matches)[k])
    decreases |results|
  {
    hide LastByKey;
    var m := |results| - 1;
    if c == m {
      n := |Reports(results[..m], k)|;
    } else {
      n := OriginReported(results[..m], k, c);
    }
  }

  ghost predicate AllDotFree(results: seq<Results>) {
    forall i, j :: 0 <= i < |results| && 0 <= j < |results[i].matches| ==> DotFree(results[i].matches[j])
  }

  /** By fields, over any sequence of merges: every match has its list, and the list is about that finding only. */
  lemma MatchIsMerged(results: seq<Results>, i: nat, j: nat)
    requires i < |results| && j < |results[i].matches| && AllDotFree(results)
    ensures var v := results[i].matches[j];
            && KeyOf(v) in MergeAll(results)
            && MergeAll(results)[KeyOf(v)] != []
            && forall m :: m in MergeAll(results)[KeyOf(v)] ==> SameFinding(m.vulnerability, v)
  {
    var v := results[i].matches[j];
    var k := KeyOf(v);
    assert DotFree(v);
    FindingIsKept(results[i].matches, j);
    var n := OriginReported(results, k, i);
    MergeAllIsGroupBy(results, k);
    hide *;
    assert k in MergeAll(results);
    forall e | 0 <= e < |MergeAll(results)[k]|
      ensures SameFinding(MergeAll(results)[k][e].vulnerability, v)
    {
      EntryIsAbout(results, k, e, v);
    }
    SomeEntry(results, k);
  }

  lemma SomeEntry(results: seq<Results>, k: VulnerabilityKey)
    requires k in MergeAll(results)
    ensures MergeAll(results)[k] != []
  {
    MergeAllIsGroupBy(results, k);
    var reports := Reports(results, k);
    LeadersMeaning(reports);
    hide MergeAll;
    hide Reports;
    assert NoEarlierSame(reports, 0);
  }

  lemma EntryIsAbout(results: seq<Results>, k: VulnerabilityKey, e: nat, v: Vulnerability)
    requires k in MergeAll(results) && e < |MergeAll(results)[k]|
    requires AllDotFree(results) && DotFree(v) && k == KeyOf(v)
    ensures SameFinding(MergeAll(results)[k][e].vulnerability, v)
  {
    MergeAllIsGroupBy(results, k);
    var reports := Reports(results, k);
    ReportIsAbout(results, k, Leaders(reports)[e], v);
    hide MergeAll;
    hide Reports;
    hide AllDotFree;
    hide Leaders;
    hide ScannersOf;
    hide DiffsOf;
    hide KeyOf;
    assert Variant(MergeAll(results)[k][e], reports, k, Leaders(reports), e);
  }

  lemma ReportIsAbout(results: seq<Results>, k: VulnerabilityKey, n: nat, v: Vulnerability)
    requires n < |Reports(results, k)| && AllDotFree(results) && DotFree(v) && k == KeyOf(v)
    ensures SameFinding(Reports(results, k)[n].vulnerability, v)
  {
    ReportOrigin(results, k, n);
    var r := Reports(results, k)[n];
    LastByKeyMeaning(results[r.call].matches, k);
    KeyMeaning(r.vulnerability, v);
    hide LastByKey;
    hide KeyOf;
    hide SameFinding;
  }

  // ---------- Any order ----------

  ghost predicate SameEntry(m: MergedVulnerability, m': MergedVulnerability) {
    SortArrays(m.vulnerability) == SortArrays(m'.vulnerability) && multiset(m.scanners) == multiset(m'.scanners)
  }

  lemma OrderOfEncodable(results: seq<Results>, results': seq<Results>, k: VulnerabilityKey, i: nat) returns (j: nat)
    requires multiset(results) == multiset(results')
    requires k in MergeAll(results) && i < |MergeAll(results)[k]| && MergeAll(results)[k][i].vulnerability.encodable
    ensures k in MergeAll(results') && j < |MergeAll(results')[k]|
    ensures SameEntry(MergeAll(results)[k][i], MergeAll(results')[k][j])
  {
    var v := MergeAll(results)[k][i].vulnerability;
    EntryHasItsReporters(results, k, i);
    GatherPermute(results, results', ReporterOf(k, v));
    j := FindVariant(results', k, v, results, i);
    EntryHasItsReporters(results', k, j);
    ReportersSame(results', k, v, MergeAll(results')[k][j].vulnerability);
  }

  /** What there is to say of an entry whatever the order: its normal form, and its scanners with multiplicity. */
  datatype Entry = Entry(normal: Vulnerability, scanners: multiset<Info>)

  function EntryOf(m: MergedVulnerability): Entry {
    Entry(SortArrays(m.vulnerability), multiset(m.scanners))
  }

  /** The entries that can be encoded, or those that cannot. */
  function EntriesIf(list: seq<MergedVulnerability>, encodable: bool): multiset<Entry> {
    Gather(list, EntryIf(encodable))
  }

  function EntryIf(encodable: bool): MergedVulnerability -> multiset<Entry> {
    (m: MergedVulnerability) => if m.vulnerability.encodable == encodable then multiset{EntryOf(m)} else multiset{}
  }

  function Entries(list: seq<MergedVulnerability>): multiset<Entry> {
    EntriesIf(list, true) + EntriesIf(list, false)
  }

  lemma EntriesAppend(list: seq<MergedVulnerability>, m: MergedVulnerability, encodable: bool)
    ensures EntriesIf(list + [m], encodable) ==
      EntriesIf(list, encodable) + (if m.vulnerability.encodable == encodable then multiset{EntryOf(m)} else multiset{})
  {
    assert (list + [m])[..|list|] == list;
    hide EntryOf;
  }

  lemma {:induction false} EntriesCount(list: seq<MergedVulnerability>)
    ensures |Entries(list)| == |list|
  {
    if list == [] {
    } else {
      var n := |list| - 1;
      EntriesCount(list[..n]);
      EntriesAppend(list[..n], list[n], true);
      EntriesAppend(list[..n], list[n], false);
      assert list == list[..n] + [list[n]];
      hide EntriesIf;
      hide EntryOf;
    }
  }

  lemma {:induction false} EntriesCompared(list: seq<MergedVulnerability>, encodable: bool)
    ensures EntriesIf(Compared(list), encodable) == EntriesIf(list, encodable)
  {
    if list == [] {
    } else {
      var n := |list| - 1;
      var m := list[n].(vulnerability := SortArrays(list[n].vulnerability));
      EntriesCompared(list[..n], encodable);
      SortArraysIdempotent(list[n].vulnerability);
      assert m.vulnerability.encodable == list[n].vulnerability.encodable && EntryOf(m) == EntryOf(list[n]);
      assert list == list[..n] + [list[n]] && Compared(list) == Compared(list[..n]) + [m];
      EntriesAppend(list[..n], list[n], encodable);
      EntriesAppend(Compared(list[..n]), m, encodable);
      hide SortArrays;
      hide EntriesIf;
      hide EntryOf;
      hide Compared;
    }
  }

  /** An equal variant was found: it can be encoded, so nothing that cannot be changes. */
  lemma UnencodableStay(list: seq<MergedVulnerability>, j: nat, m: MergedVulnerability)
    requires j < |list| && list[j].vulnerability.encodable && m.vulnerability.encodable
    ensures EntriesIf(Compared(list[..j]) + [m] + list[j + 1..], false) == EntriesIf(list, false)
  {
    hide *;
    EntriesCompared(list[..j], false);
    EntriesAppend(Compared(list[..j]), m, false);
    EntriesAppend(list[..j], list[j], false);
    EntriesConcat(Compared(list[..j]) + [m], list[j + 1..], false);
    EntriesConcat(list[..j] + [list[j]], list[j + 1..], false);
    assert list == list[..j] + [list[j]] + list[j + 1..];
  }

  lemma EntriesConcat(a: seq<MergedVulnerability>, b: seq<MergedVulnerability>, encodable: bool)
    ensures EntriesIf(a + b, encodable) == EntriesIf(a, encodable) + EntriesIf(b, encodable)
  {
    GatherSplit(a, b, EntryIf(encodable));
    hide Gather;
    hide EntryIf;
  }

  /** Each report that cannot be encoded adds one entry that cannot, and no other report changes any of those. */
  lemma HandleUnencodable(list: seq<MergedVulnerability>, v: Vulnerability, info: Info, id: Id)
    ensures EntriesIf(Handle(list, v, info, id), false) ==
      EntriesIf(list, false) + (if v.encodable then multiset{} else multiset{Entry(SortArrays(v), multiset{info})})
  {
    var j := FirstSame(list, v);
    if j < |list| {
      var m := list[j].(vulnerability := SortArrays(list[j].vulnerability), scanners := list[j].scanners + [info]);
      HandleFound(list, v, info, id, j);
      UnencodableStay(list, j, m);
      assert v.encodable;
    } else {
      var m := MergedVulnerability(id, SharedArrays(list, v), [info], DiffsAgainst(list, v));
      HandleNew(list, v, info, id);
      EntriesCompared(list, false);
      EntriesAppend(Compared(list), m, false);
      SortArraysIdempotent(v);
      assert m.vulnerability.encodable == v.encodable && EntryOf(m) == Entry(SortArrays(v), multiset{info});
    }
    hide EntriesIf;
    hide Handle;
    hide EntryOf;
    hide SharedArrays;
    hide SortArrays;
    hide DiffsAgainst;
    hide Compared;
  }

  /** The entry that a result adds under key k if it cannot be encoded. */
  function UnencodableIn(k: VulnerabilityKey): Results -> multiset<Entry> {
    (r: Results) =>
      if k in LastByKey(r.matches) && !LastByKey(r.matches)[k].encodable
      then multiset{Entry(SortArrays(LastByKey(r.matches)[k]), multiset{r.scanner})} else multiset{}
  }

  lemma {:induction false} UnencodableGathered(results: seq<Results>, k: VulnerabilityKey)
    ensures (if k in MergeAll(results) then EntriesIf(MergeAll(results)[k], false) else multiset{}) ==
      Gather(results, UnencodableIn(k))
  {
    hide Handle;
    hide SortArrays;
    if results == [] {
    } else {
      var n := |results| - 1;
      UnencodableGathered(results[..n], k);
      var m, other := MergeAll(results[..n]), LastByKey(results[n].matches);
      if k in other {
        HandleUnencodable(if k in m then m[k] else [], other[k], results[n].scanner, Id(n, k));
      }
    }
  }

  ghost predicate DistinctNormals(list: seq<MergedVulnerability>) {
    forall i, j :: 0 <= i < j < |list| && list[i].vulnerability.encodable ==>
      SortArrays(list[i].vulnerability) != SortArrays(list[j].vulnerability)
  }

  lemma MergedAreDistinct(results: seq<Results>, k: VulnerabilityKey)
    requires k in MergeAll(results)
    ensures DistinctNormals(MergeAll(results)[k])
  {
    var list := MergeAll(results)[k];
    forall i, j | 0 <= i < j < |list| && list[i].vulnerability.encodable
      ensures SortArrays(list[i].vulnerability) != SortArrays(list[j].vulnerability)
    {
      VariantsDiffer(results, k, i, j);
      NormalFormMeaning(list[i].vulnerability, list[j].vulnerability);
    }
  }

  /** Distinct entries that can be encoded are each there once. */
  lemma {:induction false} DistinctEntries(list: seq<MergedVulnerability>, e: Entry)
    requires DistinctNormals(list)
    ensures EntriesIf(list, true)[e] == if HasEntry(list, e) then 1 else 0
  {
    if list == [] {
    } else {
      var n := |list| - 1;
      DistinctEntries(list[..n], e);
      assert list == list[..n] + [list[n]];
      EntriesAppend(list[..n], list[n], true);
      HasEntryMore(list, e);
      hide EntriesIf;
      hide EntryOf;
      hide HasEntry;
      hide DistinctNormals;
    }
  }

  lemma HasEntryMore(list: seq<MergedVulnerability>, e: Entry)
    requires list != [] && DistinctNormals(list)
    ensures var n := |list| - 1;
            && (HasEntry(list, e) <==> HasEntry(list[..n], e) || IsEntry(list, e, n))
            && !(HasEntry(list[..n], e) && IsEntry(list, e, n))
  {
    hide SortArrays;
    var n := |list| - 1;
    forall i
      ensures IsEntry(list[..n], e, i) <==> IsEntry(list, e, i) && i != n
    {
    }
  }

  ghost predicate IsEntry(list: seq<MergedVulnerability>, e: Entry, i: int) {
    0 <= i < |list| && list[i].vulnerability.encodable && EntryOf(list[i]) == e
  }

  ghost predicate HasEntry(list: seq<MergedVulnerability>, e: Entry) {
    exists i :: IsEntry(list, e, i)
  }

  lemma SameEncodable(results: seq<Results>, results': seq<Results>, k: VulnerabilityKey, e: Entry)
    requires multiset(results) == multiset(results') && k in MergeAll(results) && HasEntry(MergeAll(results)[k], e)
    ensures k in MergeAll(results') && HasEntry(MergeAll(results')[k], e)
  {
    hide MergeAll;
    hide SortArrays;
    var i :| IsEntry(MergeAll(results)[k], e, i);
    var j := OrderOfEncodable(results, results', k, i);
    SortedFacts();
    assert IsEntry(MergeAll(results')[k], e, j);
  }

  lemma SameKeys(results: seq<Results>, results': seq<Results>, k: VulnerabilityKey)
    requires multiset(results) == multiset(results') && k in MergeAll(results)
    ensures k in MergeAll(results')
  {
    MergeAllIsGroupBy(results, k);
    ReportOrigin(results, k, 0);
    var r := results[Reports(results, k)[0].call];
    assert r in multiset(results');
    var c :| 0 <= c < |results'| && results'[c] == r;
    var n := OriginReported(results', k, c);
    MergeAllIsGroupBy(results', k);
  }

  /**
   The results of one input come out of a map in random order; it does not matter: whatever the
   order, the same keys have the same entries, each as often and with the same scanners.
   */
  lemma MergeOrderDoesNotMatter(results: seq<Results>, results': seq<Results>, k: VulnerabilityKey)
    requires multiset(results) == multiset(results')
    ensures k in MergeAll(results) <==> k in MergeAll(results')
    ensures k in MergeAll(results) ==>
      var list, list' := MergeAll(results)[k], MergeAll(results')[k];
      Entries(list) == Entries(list') && |list| == |list'|
  {
    hide *;
    if k in MergeAll(results) { SameKeys(results, results', k); }
    if k in MergeAll(results') { SameKeys(results', results, k); }
    if k in MergeAll(results) {
      var list, list' := MergeAll(results)[k], MergeAll(results')[k];
      UnencodableGathered(results, k);
      UnencodableGathered(results', k);
      GatherPermute(results, results', UnencodableIn(k));
      MergedAreDistinct(results, k);
      MergedAreDistinct(results', k);
      forall e: Entry
        ensures EntriesIf(list, true)[e] == EntriesIf(list', true)[e]
      {
        DistinctEntries(list, e);
        DistinctEntries(list', e);
        if HasEntry(list, e) { SameEncodable(results, results', k, e); }
        if HasEntry(list', e) { SameEncodable(results', results, k, e); }
      }
      assert EntriesIf(list, true) == EntriesIf(list', true);
      EntriesAgree(list, list');
      EntriesCount(list);
      EntriesCount(list');
    }
  }

  lemma EntriesAgree(list: seq<MergedVulnerability>, list': seq<MergedVulnerability>)
    requires EntriesIf(list, true) == EntriesIf(list', true) && EntriesIf(list, false) == EntriesIf(list', false)
    ensures Entries(list) == Entries(list')
  {
    hide EntriesIf;
  }

  lemma {:induction false} ReportersSame(results: seq<Results>, k: VulnerabilityKey, v: Vulnerability, w: Vulnerability)
    requires Same(v, w)
    ensures ReportersOf(results, k, v) == ReportersOf(results, k, w)
  {
    SameIsEquivalence();
    hide Same;
    if results == [] {
    } else {
      ReportersSame(results[..|results| - 1], k, v, w);
    }
  }

  lemma FindVariant(results: seq<Results>, k: VulnerabilityKey, v: Vulnerability, origin: seq<Results>, i: nat)
      returns (j: nat)
    requires k in MergeAll(origin) && i < |MergeAll(origin)[k]| && v == MergeAll(origin)[k][i].vulnerability
    requires v.encodable
    requires ReportersOf(origin, k, v) == ReportersOf(results, k, v)
    ensures k in MergeAll(results) && j < |MergeAll(results)[k]| && Same(v, MergeAll(results)[k][j].vulnerability)
  {
    SomeoneReported(origin, k, i);
    MergeAllIsGroupBy(results, k);
    var reports := Reports(results, k);
    ReportersOfReports(results, k, v);
    NoReporters(reports, v);
    SameIsEquivalence();
    SortedFacts();
    hide MergeAll;
    hide ReportersOf;
    hide SortArrays;
    hide Same;
    var n :| 0 <= n < |reports| && Same(reports[n].vulnerability, v);
    j := SameHasLeader(reports, v, n);
    assert Variant(MergeAll(results)[k][j], reports, k, Leaders(reports), j);
  }

  lemma SomeoneReported(results: seq<Results>, k: VulnerabilityKey, i: nat)
    requires k in MergeAll(results) && i < |MergeAll(results)[k]| && MergeAll(results)[k][i].vulnerability.encodable
    ensures ReportersOf(results, k, MergeAll(results)[k][i].vulnerability) != multiset{}
  {
    MergeAllIsGroupBy(results, k);
    var m, reports := MergeAll(results)[k][i], Reports(results, k);
    assert Variant(m, reports, k, Leaders(reports), i);
    SortedFacts();
    assert Same(reports[Leaders(reports)[i]].vulnerability, m.vulnerability);
    NoReporters(reports, m.vulnerability);
    ReportersOfReports(results, k, m.vulnerability);
  }
}
