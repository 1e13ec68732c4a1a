/** CycloneDX documents as far as the merge looks at them, and the merge of two components. */
module Sbom {
  import opened Common
  import Purl

  type Ref = string

  datatype Property = Property(name: string, value: string)

  datatype Component = Component(
    name: string,
    version: string,
    bomRef: Ref,
    cpe: string,
    author: string,
    copyright: string,
    description: string,
    publisher: string,
    group: string,
    scope: string,
    evidence: Option<string>,
    externalReferences: Option<string>,
    swid: Option<string>,
    supplier: Option<string>,
    hashes: Option<seq<string>>,
    licenses: Option<seq<string>>,
    properties: Option<seq<Property>>,
    packageUrl: string,
    rest: string)

  datatype Metadata = Metadata(component: Option<Component>, rest: string)

  datatype Dependency = Dependency(ref: Ref, dependsOn: Option<seq<Ref>>)

  datatype Bom = Bom(
    metadata: Option<Metadata>,
    components: Option<seq<Component>>,
    dependencies: Option<seq<Dependency>>)

  datatype Results = Results(sbom: Option<Bom>, analyzerInfo: string, sourceHash: string)

  type ComponentKey = string

  function KeyOf(c: Component): ComponentKey {
    c.name + "." + c.version
  }

  /** The name of d continues that of c into its version. */
  ghost predicate Shifted(c: Component, d: Component) {
    exists middle :: ShiftedBy(c, d, middle)
  }

  ghost predicate ShiftedBy(c: Component, d: Component, middle: string) {
    d.name == c.name + "." + middle && c.version == middle + "." + d.version
  }

  lemma ShiftedKey(c: Component, d: Component, middle: string)
    requires ShiftedBy(c, d, middle)
    ensures KeyOf(c) == KeyOf(d)
  {
    calc {
      KeyOf(d);
      c.name + "." + middle + "." + d.version;
      c.name + "." + (middle + "." + d.version);
      KeyOf(c);
    }
  }

  lemma SameKeyIsShifted(c: Component, d: Component)
    requires KeyOf(c) == KeyOf(d) && |c.name| < |d.name|
    ensures Shifted(c, d)
  {
    var key, m := KeyOf(c), d.name[|c.name| + 1..];
    assert key == d.name + "." + d.version && key == c.name + "." + c.version;
    assert c.name == key[..|c.name|] == d.name[..|c.name|] && key[|c.name|] == '.' == d.name[|c.name|];
    assert d.name == c.name + "." + m;
    assert c.version == key[|c.name| + 1..] == m + "." + d.version;
    assert ShiftedBy(c, d, m);
  }

  /**
   What the key tells apart: two components share it when name and version agree, and else only
   when part of one's name is part of the other's version.
   */
  lemma SameKeyIff(c: Component, d: Component)
    ensures KeyOf(c) == KeyOf(d) <==>
      (c.name == d.name && c.version == d.version) || Shifted(c, d) || Shifted(d, c)
  {
    if KeyOf(c) == KeyOf(d) {
      if |c.name| < |d.name| {
        SameKeyIsShifted(c, d);
      } else if |d.name| < |c.name| {
        SameKeyIsShifted(d, c);
      } else {
        assert c.name == KeyOf(c)[..|c.name|] && d.name == KeyOf(d)[..|d.name|];
        assert c.version == KeyOf(c)[|c.name| + 1..] && d.version == KeyOf(d)[|d.name| + 1..];
      }
    }
    if middle :| ShiftedBy(c, d, middle) { ShiftedKey(c, d, middle); }
    if middle :| ShiftedBy(d, c, middle) { ShiftedKey(d, c, middle); }
  }

  /** Names without a dot are told apart, with their versions. */
  lemma DotFreeKeys(c: Component, d: Component)
    requires '.' !in c.name && '.' !in d.name
    ensures KeyOf(c) == KeyOf(d) <==> c.name == d.name && c.version == d.version
  {
    JoinInjective(c.name, c.version, d.name, d.version, '.');
  }

  function IfEmpty(a: string, b: string): string {
    if a == "" then b else a
  }

  function IfNil<T>(a: Option<T>, b: Option<T>): Option<T> {
    if a.None? then b else a
  }

  predicate IsPath(name: string) {
    name != "" && (name[0] == '/' || name[0] == '.')
  }

  function CheckMainComponentName(merged: string, other: string): string {
    if !IsPath(other) && IsPath(merged) && other != "" then other else merged
  }

  function MergeLicenses(a: Option<seq<string>>, b: Option<seq<string>>): Option<seq<string>> {
    if b.None? then a else Some(a.GetOr([]) + b.value)
  }

  function MergeProperties(a: Option<seq<Property>>, b: Option<seq<Property>>): Option<seq<Property>> {
    if b.None? then a else Some(a.GetOr([]) + b.value)
  }

  function MergeComponents(codec: Purl.Codec, m: Component, o: Component, main: bool): Component {
    Component(
      if main && m.name != o.name then CheckMainComponentName(m.name, o.name) else m.name,
      if main then IfEmpty(m.version, o.version) else m.version,
      IfEmpty(m.bomRef, o.bomRef),
      IfEmpty(m.cpe, o.cpe),
      IfEmpty(m.author, o.author),
      IfEmpty(m.copyright, o.copyright),
      IfEmpty(m.description, o.description),
      IfEmpty(m.publisher, o.publisher),
      IfEmpty(m.group, o.group),
      IfEmpty(m.scope, o.scope),
      IfNil(m.evidence, o.evidence),
      IfNil(m.externalReferences, o.externalReferences),
      IfNil(m.swid, o.swid),
      IfNil(m.supplier, o.supplier),
      IfNil(m.hashes, o.hashes),
      MergeLicenses(m.licenses, o.licenses),
      MergeProperties(m.properties, o.properties),
      Purl.MergePurlStrings(codec, m.packageUrl, o.packageUrl),
      m.rest)
  }

  // ---------- Edges of a dependency list ----------

  /** The list has an entry for `from` that is not nil, and it names `to`. */
  ghost predicate HasEdge(deps: seq<Dependency>, from: Ref, to: Ref) {
    exists i :: 0 <= i < |deps| && deps[i].ref == from && deps[i].dependsOn.Some? && to in deps[i].dependsOn.value
  }

  ghost predicate HasNode(deps: seq<Dependency>, from: Ref) {
    exists i :: 0 <= i < |deps| && deps[i].ref == from && deps[i].dependsOn.Some?
  }
}

/** The union of two dependency lists. */
module DependencyUnion {
  import opened Common
  import opened StableSort
  import opened Sbom

  type Graph = map<Ref, set<Ref>>

  /** g is g0 plus the nodes and edges of deps. */
  ghost predicate Extended(g0: Graph, deps: seq<Dependency>, g: Graph) {
    && (forall a :: a in g <==> a in g0 || HasNode(deps, a))
    && (forall a, b :: a in g && b in g[a] <==> (a in g0 && b in g0[a]) || HasEdge(deps, a, b))
  }

  method AddDependsOn(existing: set<Ref>, dependsOn: seq<Ref>) returns (r: set<Ref>)
    ensures forall x :: x in r <==> x in existing || x in dependsOn
  {
    r := existing;
    for i := 0 to |dependsOn|
      invariant forall x :: x in r <==> x in existing || x in dependsOn[..i]
    {
      r := r + {dependsOn[i]};
      assert dependsOn[..i + 1] == dependsOn[..i] + [dependsOn[i]];
    }
    assert dependsOn[..|dependsOn|] == dependsOn;
  }

  lemma EdgesAppend(deps: seq<Dependency>, d: Dependency)
    ensures forall a, b :: HasEdge(deps + [d], a, b) <==>
      HasEdge(deps, a, b) || (d.ref == a && d.dependsOn.Some? && b in d.dependsOn.value)
    ensures forall a :: HasNode(deps + [d], a) <==> HasNode(deps, a) || (d.ref == a && d.dependsOn.Some?)
  {
    var all := deps + [d];
    assert forall i :: 0 <= i < |deps| ==> all[i] == deps[i];
    assert all[|deps|] == d;
  }

  method AddDependencies(g0: Graph, deps: seq<Dependency>) returns (g: Graph)
    ensures Extended(g0, deps, g)
  {
    g := g0;
    for i := 0 to |deps|
      invariant Extended(g0, deps[..i], g)
    {
      var d := deps[i];
      EdgesAppend(deps[..i], d);
      assert deps[..i + 1] == deps[..i] + [d];
      if d.dependsOn.Some? {
        var existing := if d.ref in g then g[d.ref] else {};
        var extended := AddDependsOn(existing, d.dependsOn.value);
        g := g[d.ref := extended];
      }
    }
    assert deps[..|deps|] == deps;
  }

  method SortedRefs(refs: set<Ref>) returns (r: seq<Ref>)
    ensures Sorted(Self, r) && multiset(r) == multiset(refs)
  {
    var s: seq<Ref> := [];
    var todo := refs;
    while todo != {}
      invariant todo <= refs && multiset(s) == multiset(refs - todo)
      decreases todo
    {
      var x :| x in todo;
      assert refs - (todo - {x}) == (refs - todo) + {x};
      s := s + [x];
      todo := todo - {x};
    }
    assert refs - todo == refs;
    SortSorted(Self, s);
    r := SortStrings(s);
  }

  /** One entry per node, each with a sorted list of distinct refs. */
  ghost predicate Canonical(deps: seq<Dependency>) {
    && (forall i, j :: 0 <= i < j < |deps| ==> deps[i].ref != deps[j].ref)
    && (forall i :: 0 <= i < |deps| ==> deps[i].dependsOn.Some? && StrictlySorted(deps[i].dependsOn.value))
  }

  ghost predicate StrictlySorted(s: seq<Ref>) {
    forall i, j :: 0 <= i < j < |s| ==> s[i] != s[j] && StringLe(s[i], s[j])
  }

  lemma SetOrderIsStrict(refs: set<Ref>, r: seq<Ref>)
    requires Sorted(Self, r) && multiset(r) == multiset(refs)
    ensures StrictlySorted(r) && forall x :: x in r <==> x in refs
  {
    forall x
      ensures x in r <==> x in refs
    {
      assert x in r <==> x in multiset(r);
      assert x in refs <==> x in multiset(refs);
    }
    forall i, j | 0 <= i < j < |r|
      ensures r[i] != r[j] && StringLe(r[i], r[j])
    {
      assert StringLe(Self(r[i]), Self(r[j]));
      assert r == r[..j] + [r[j]] + r[j + 1..] && r[i] in r[..j];
      assert multiset(refs)[r[i]] <= 1;
    }
  }

  /** The map that mergeDependencies builds is written out one node at a time, in any order. */
  method WriteOut(g: Graph) returns (output: seq<Dependency>)
    ensures Extended(map[], output, g) && Canonical(output)
  {
    output := [];
    var todo := g.Keys;
    ghost var written: Graph := map[];
    while todo != {}
      invariant todo <= g.Keys
      invariant written == map a | a in g && a !in todo :: g[a]
      invariant Extended(map[], output, written) && Canonical(output)
      decreases todo
    {
      var ref :| ref in todo;
      var dependsOn := SortedRefs(g[ref]);
      SetOrderIsStrict(g[ref], dependsOn);
      assert forall i :: 0 <= i < |output| ==> HasNode(output, output[i].ref);
      EdgesAppend(output, Dependency(ref, Some(dependsOn)));
      output := output + [Dependency(ref, Some(dependsOn))];
      written := written[ref := g[ref]];
      todo := todo - {ref};
    }
    assert written == g;
  }

  method MergeDependencies(depsA: Option<seq<Dependency>>, depsB: Option<seq<Dependency>>)
      returns (output: seq<Dependency>)
    ensures Canonical(output)
    ensures forall a, b :: HasEdge(output, a, b) <==> HasEdge(depsA.GetOr([]), a, b) || HasEdge(depsB.GetOr([]), a, b)
    ensures forall a :: HasNode(output, a) <==> HasNode(depsA.GetOr([]), a) || HasNode(depsB.GetOr([]), a)
  {
    var g := AddDependencies(map[], depsA.GetOr([]));
    var g' := AddDependencies(g, depsB.GetOr([]));
    output := WriteOut(g');
    assert forall a, b :: HasEdge(output, a, b) <==> a in g' && b in g'[a];
    assert forall a, b :: a in g' && b in g'[a] <==> (a in g && b in g[a]) || HasEdge(depsB.GetOr([]), a, b);
  }
}

/** What one Merge does to the accumulated SBOM. */
module SbomMergeSpec {
  import opened Common
  import opened Sbom
  import DependencyUnion
  import Purl

  datatype MergedComponent = MergedComponent(component: Component, analyzerInfo: seq<string>, bomRefs: seq<Ref>)

  type ByKey = map<ComponentKey, MergedComponent>

  datatype State = State(
    components: ByKey,
    srcMetadata: Option<Metadata>,
    srcRefs: seq<Ref>,
    dependencies: Option<seq<Dependency>>)

  const INITIAL := State(map[], None, [], None)

  // ---------- The main component ----------

  function MainOf(bom: Bom): Option<Component> {
    if bom.metadata.None? then None else bom.metadata.value.component
  }

  function MergeMain(codec: Purl.Codec, s: State, bom: Bom): State
    requires MainSafe(s, bom)
  {
    var s' :=
      if MainOf(bom).Some? && MainOf(bom).value.bomRef != ""
      then s.(srcRefs := s.srcRefs + [MainOf(bom).value.bomRef]) else s;
    if s.srcMetadata.None? then s'.(srcMetadata := bom.metadata)
    else
      var merged := MergeComponents(codec, s.srcMetadata.value.component.value, MainOf(bom).value, true);
      s'.(srcMetadata := Some(s.srcMetadata.value.(component := Some(merged))))
  }

  /** The dereferences of mergeMainComponent: once there is metadata, it must hold a component on both sides. */
  predicate MainSafe(s: State, bom: Bom) {
    s.srcMetadata.Some? ==> s.srcMetadata.value.component.Some? && MainOf(bom).Some?
  }

  function AddSourceHash(s: State, hash: string): State
    requires s.srcMetadata.Some? && s.srcMetadata.value.component.Some?
  {
    var c := s.srcMetadata.value.component.value;
    if hash == "" || c.hashes.GetOr([]) != [] then s
    else s.(srcMetadata := Some(s.srcMetadata.value.(component := Some(c.(hashes := Some([hash]))))))
  }

  /** No nil pointer is dereferenced when r is merged into s. */
  predicate Safe(codec: Purl.Codec, s: State, r: Results) {
    r.sbom.Some? ==>
      && MainSafe(s, r.sbom.value)
      && (r.sourceHash != "" ==>
        var m := MergeMain(codec, s, r.sbom.value).srcMetadata;
        m.Some? && m.value.component.Some?)
  }

  function MergeHeader(codec: Purl.Codec, s: State, r: Results): State
    requires r.sbom.Some? && Safe(codec, s, r)
  {
    var m := MergeMain(codec, s, r.sbom.value);
    if r.sourceHash != "" then AddSourceHash(m, r.sourceHash) else m
  }

  // ---------- The components ----------

  function ToComponentByKey(components: seq<Component>): map<ComponentKey, Component> {
    if components == [] then map[]
    else
      var n := |components| - 1;
      ToComponentByKey(components[..n])[KeyOf(components[n]) := components[n]]
  }

  /** Component i is the last one in the list with key k. */
  ghost predicate LastWithKey(components: seq<Component>, i: int, k: ComponentKey) {
    && 0 <= i < |components| && KeyOf(components[i]) == k
    && forall j :: i < j < |components| ==> KeyOf(components[j]) != k
  }

  /** Every component is found under its key, and of several with one key the last. */
  lemma {:induction false} ToComponentByKeyMeaning(components: seq<Component>, k: ComponentKey)
    ensures k in ToComponentByKey(components) <==> exists i :: 0 <= i < |components| && KeyOf(components[i]) == k
    ensures k in ToComponentByKey(components) ==>
      exists i :: LastWithKey(components, i, k) && ToComponentByKey(components)[k] == components[i]
  {
    hide KeyOf;
    if components == [] {
    } else {
      var n := |components| - 1;
      var init := components[..n];
      ToComponentByKeyMeaning(init, k);
      if KeyOf(components[n]) == k {
        assert LastWithKey(components, n, k);
      } else if k in ToComponentByKey(init) {
        var i :| LastWithKey(init, i, k) && ToComponentByKey(init)[k] == init[i];
        assert LastWithKey(components, i, k);
      }
    }
  }

  /** The components that a document lists, none without a document. */
  function Listed(r: Results): seq<Component> {
    if r.sbom.Some? && r.sbom.value.components.Some? then r.sbom.value.components.value else []
  }

  lemma ComponentsOfMeaning(r: Results, k: ComponentKey)
    ensures k in ComponentsOf(r) <==> exists i :: 0 <= i < |Listed(r)| && KeyOf(Listed(r)[i]) == k
    ensures k in ComponentsOf(r) ==> exists i :: LastWithKey(Listed(r), i, k) && ComponentsOf(r)[k] == Listed(r)[i]
  {
    ToComponentByKeyMeaning(Listed(r), k);
    hide KeyOf;
    if r.sbom.Some? { assert r.sbom.value.components.GetOr([]) == Listed(r); }
  }

  function ComponentsOf(r: Results): map<ComponentKey, Component> {
    if r.sbom.None? then map[] else ToComponentByKey(r.sbom.value.components.GetOr([]))
  }

  function AppendAnalyzerInfo(m: MergedComponent, info: string): MergedComponent {
    m.(component := m.component.(properties := Some(m.component.properties.GetOr([]) + [Property("analyzers", info)])),
       analyzerInfo := m.analyzerInfo + [info])
  }

  function AppendRef(m: MergedComponent, ref: Ref): MergedComponent {
    if ref == "" then m else m.(bomRefs := m.bomRefs + [ref])
  }

  function NewMergedComponent(c: Component, info: string): MergedComponent {
    AppendRef(AppendAnalyzerInfo(MergedComponent(c, [], []), info), c.bomRef)
  }

  function HandleExisting(codec: Purl.Codec, m: MergedComponent, c: Component, info: string): MergedComponent {
    AppendRef(AppendAnalyzerInfo(m.(component := MergeComponents(codec, m.component, c, false)), info), c.bomRef)
  }

  function MergeKey(codec: Purl.Codec, m: ByKey, r: Results, k: ComponentKey): MergedComponent
    requires k in m || k in ComponentsOf(r)
  {
    if k !in ComponentsOf(r) then m[k]
    else if k !in m then NewMergedComponent(ComponentsOf(r)[k], r.analyzerInfo)
    else HandleExisting(codec, m[k], ComponentsOf(r)[k], r.analyzerInfo)
  }

  function MergeByKey(codec: Purl.Codec, m: ByKey, r: Results): ByKey {
    map k | k in m.Keys + ComponentsOf(r).Keys :: MergeKey(codec, m, r, k)
  }

  // ---------- Canonical refs ----------

  predicate RefOf(s: State, k: ComponentKey, ref: Ref) {
    k in s.components && ref in s.components[k].bomRefs
  }

  function MainRef(s: State): Ref {
    if s.srcMetadata.Some? && s.srcMetadata.value.component.Some? then s.srcMetadata.value.component.value.bomRef
      else ""
  }

  /**
   What getRealBomRefFromPreviousBomRef may return: components are searched in no particular
   order, so a ref recorded for two of them has two answers.
   */
  ghost predicate Resolves(s: State, ref: Ref, result: Ref) {
    if exists k :: RefOf(s, k, ref) then exists k :: RefOf(s, k, ref) && result == s.components[k].component.bomRef
    else if ref in s.srcRefs then result == MainRef(s)
    else result == ref
  }

  ghost predicate ResolvesAll(s: State, refs: seq<Ref>, results: seq<Ref>) {
    |results| == |refs| && forall i :: 0 <= i < |refs| ==> Resolves(s, refs[i], results[i])
  }

  ghost predicate Normalizes(s: State, d: Dependency, result: Dependency) {
    && Resolves(s, d.ref, result.ref)
    && (d.dependsOn.None? <==> result.dependsOn.None?)
    && (d.dependsOn.Some? ==> ResolvesAll(s, d.dependsOn.value, result.dependsOn.value))
  }

  ghost predicate NormalizesAll(s: State, deps: seq<Dependency>, results: seq<Dependency>) {
    |results| == |deps| && forall i :: 0 <= i < |deps| ==> Normalizes(s, deps[i], results[i])
  }

  // ---------- One Merge ----------

  /** The new dependency list: the old one united with a normalization of the BOM's. */
  ghost predicate DependenciesMerged(s: State, bom: Bom, before: Option<seq<Dependency>>) {
    if bom.dependencies.None? then s.dependencies == before
    else
      && s.dependencies.Some?
      && DependencyUnion.Canonical(s.dependencies.value)
      && exists normalized ::
        && NormalizesAll(s, bom.dependencies.value, normalized)
        && IsUnion(s.dependencies.value, before.GetOr([]), normalized)
  }

  ghost predicate IsUnion(output: seq<Dependency>, a: seq<Dependency>, b: seq<Dependency>) {
    && (forall x, y :: HasEdge(output, x, y) <==> HasEdge(a, x, y) || HasEdge(b, x, y))
    && (forall x :: HasNode(output, x) <==> HasNode(a, x) || HasNode(b, x))
  }

  ghost predicate Merged(codec: Purl.Codec, s: State, r: Results, s': State)
    requires Safe(codec, s, r)
  {
    if r.sbom.None? then s' == s
    else
      var header := MergeHeader(codec, s, r);
      && s'.srcMetadata == header.srcMetadata && s'.srcRefs == header.srcRefs
      && s'.components == MergeByKey(codec, s.components, r)
      && DependenciesMerged(s', r.sbom.value, s.dependencies)
  }

  /** Refs are recorded for the main component only when there is one. */
  ghost predicate Valid(s: State) {
    s.srcRefs != [] ==> s.srcMetadata.Some? && s.srcMetadata.value.component.Some?
  }

  lemma MergeKeepsValid(codec: Purl.Codec, s: State, r: Results, s': State)
    requires Valid(s) && Safe(codec, s, r) && Merged(codec, s, r, s')
    ensures Valid(s')
  {
  }

  lemma MergeKeyOf(codec: Purl.Codec, m: ByKey, r: Results, k: ComponentKey)
    requires k in m || k in ComponentsOf(r)
    ensures MergeKey(codec, m, r, k) ==
      (if k !in ComponentsOf(r) then m[k]
       else if k !in m then NewMergedComponent(ComponentsOf(r)[k], r.analyzerInfo)
       else HandleExisting(codec, m[k], ComponentsOf(r)[k], r.analyzerInfo))
  {
  }

  lemma NoComponents(codec: Purl.Codec, m: ByKey, r: Results)
    requires r.sbom.Some? && r.sbom.value.components.None?
    ensures MergeByKey(codec, m, r) == m
  {
    hide MergeComponents;
    assert ComponentsOf(r) == map[];
  }

  lemma ResolveIgnoresDependencies(s: State, s': State, deps: seq<Dependency>, results: seq<Dependency>)
    requires NormalizesAll(s, deps, results) && s' == s.(dependencies := s'.dependencies)
    ensures NormalizesAll(s', deps, results)
  {
    assert forall k, ref :: RefOf(s', k, ref) <==> RefOf(s, k, ref);
    forall ref, result | Resolves(s, ref, result)
      ensures Resolves(s', ref, result)
    {
      if exists k :: RefOf(s, k, ref) {
        var k :| RefOf(s, k, ref) && result == s.components[k].component.bomRef;
        assert RefOf(s', k, ref);
      }
    }
  }
}

/** The object that accumulates the merged SBOM. */
module SbomMerge {
  import opened Common
  import opened Sbom
  import opened SbomMergeSpec
  import DependencyUnion
  import Purl

  class MergedResults {
    const codec: Purl.Codec
    var mergedComponentByKey: ByKey
    var srcMetadata: Option<Metadata>
    var srcMetadataBomRefs: seq<Ref>
    var dependencies: Option<seq<Dependency>>

    ghost function View(): State
      reads this
    {
      State(mergedComponentByKey, srcMetadata, srcMetadataBomRefs, dependencies)
    }

    constructor (codec: Purl.Codec)
      ensures View() == INITIAL && this.codec == codec
    {
      this.codec := codec;
      mergedComponentByKey, srcMetadata, srcMetadataBomRefs, dependencies := map[], None, [], None;
    }

    method MergeMainComponent(bom: Bom)
      requires MainSafe(View(), bom)
      modifies this`srcMetadata, this`srcMetadataBomRefs
      ensures View() == MergeMain(codec, old(View()), bom)
    {
      if bom.metadata.Some? && bom.metadata.value.component.Some? && bom.metadata.value.component.value.bomRef != "" {
        srcMetadataBomRefs := srcMetadataBomRefs + [bom.metadata.value.component.value.bomRef];
      }
      if srcMetadata.None? {
        srcMetadata := bom.metadata;
      } else {
        var component := MergeComponents(codec, srcMetadata.value.component.value, bom.metadata.value.component.value,
          true);
        srcMetadata := Some(srcMetadata.value.(component := Some(component)));
      }
    }

    method AddSourceHash(hash: string)
      requires srcMetadata.Some? && srcMetadata.value.component.Some?
      modifies this`srcMetadata
      ensures View() == SbomMergeSpec.AddSourceHash(old(View()), hash)
    {
      if hash == "" {
        return;
      }
      var component := srcMetadata.value.component.value;
      if component.hashes.Some? && component.hashes.value != [] {
        return;
      }
      srcMetadata := Some(srcMetadata.value.(component := Some(component.(hashes := Some([hash])))));
    }

    method MergeComponentsOf(r: Results)
      requires r.sbom.Some? && r.sbom.value.components.Some?
      modifies this`mergedComponentByKey
      ensures mergedComponentByKey == MergeByKey(codec, old(mergedComponentByKey), r)
    {
      hide MergeKey;
      ghost var before := mergedComponentByKey;
      var other := ToComponentByKey(r.sbom.value.components.value);
      assert other == ComponentsOf(r);
      var todo := other.Keys;
      while todo != {}
        invariant todo <= other.Keys
        invariant forall k :: k in mergedComponentByKey <==> k in before || (k in other && k !in todo)
        invariant forall k :: k in before && (k in todo || k !in other) ==> mergedComponentByKey[k] == before[k]
        invariant forall k :: k in other && k !in todo ==> mergedComponentByKey[k] == MergeKey(codec, before, r, k)
        decreases todo
      {
        var key :| key in todo;
        MergeKeyOf(codec, before, r, key);
        if key !in mergedComponentByKey {
          mergedComponentByKey := mergedComponentByKey[key := NewMergedComponent(other[key], r.analyzerInfo)];
        } else {
          var merged := HandleExisting(codec, mergedComponentByKey[key], other[key], r.analyzerInfo);
          mergedComponentByKey := mergedComponentByKey[key := merged];
        }
        todo := todo - {key};
      }
      forall k | k in before && k !in other
        ensures MergeKey(codec, before, r, k) == before[k]
      {
        MergeKeyOf(codec, before, r, k);
      }
      assert mergedComponentByKey == MergeByKey(codec, before, r);
    }

    method GetRealBomRefFromPreviousBomRef(bomRef: Ref) returns (realRef: Ref)
      requires Valid(View())
      ensures Resolves(View(), bomRef, realRef)
    {
      var todo := mergedComponentByKey.Keys;
      while todo != {}
        invariant todo <= mergedComponentByKey.Keys
        invariant forall k :: RefOf(View(), k, bomRef) ==> k in todo
        decreases todo
      {
        var key :| key in todo;
        if bomRef in mergedComponentByKey[key].bomRefs {
          assert RefOf(View(), key, bomRef);
          return mergedComponentByKey[key].component.bomRef;
        }
        todo := todo - {key};
      }
      if bomRef in srcMetadataBomRefs {
        return srcMetadata.value.component.value.bomRef;
      }
      return bomRef;
    }

    method NormalizeDependencies(deps: seq<Dependency>) returns (output: seq<Dependency>)
      requires Valid(View())
      ensures NormalizesAll(View(), deps, output)
    {
      hide Resolves;
      output := [];
      for i := 0 to |deps|
        invariant NormalizesAll(View(), deps[..i], output)
      {
        var ref := GetRealBomRefFromPreviousBomRef(deps[i].ref);
        var dependsOn: Option<seq<Ref>> := None;
        if deps[i].dependsOn.Some? {
          var refs := deps[i].dependsOn.value;
          var newDependsOn: seq<Ref> := [];
          for j := 0 to |refs|
            invariant ResolvesAll(View(), refs[..j], newDependsOn)
          {
            var realRef := GetRealBomRefFromPreviousBomRef(refs[j]);
            newDependsOn := newDependsOn + [realRef];
          }
          assert refs[..|refs|] == refs;
          dependsOn := Some(newDependsOn);
        }
        output := output + [Dependency(ref, dependsOn)];
      }
      assert deps[..|deps|] == deps;
    }

    method MergeDependenciesOf(bom: Bom)
      requires Valid(View()) && bom.dependencies.Some?
      modifies this`dependencies
      ensures View() == old(View()).(dependencies := dependencies)
      ensures DependenciesMerged(View(), bom, old(dependencies))
    {
      var newDependencies := NormalizeDependencies(bom.dependencies.value);
      var merged := DependencyUnion.MergeDependencies(dependencies, Some(newDependencies));
      assert IsUnion(merged, dependencies.GetOr([]), newDependencies);
      ghost var before := View();
      dependencies := Some(merged);
      ResolveIgnoresDependencies(before, View(), bom.dependencies.value, newDependencies);
    }

    method Merge(other: Results)
      requires Valid(View()) && Safe(codec, View(), other)
      modifies this
      ensures Valid(View()) && Merged(codec, old(View()), other, View())
    {
      hide MergeByKey;
      hide MergeComponents;
      if other.sbom.None? {
        return;
      }
      var bom := other.sbom.value;
      MergeMainComponent(bom);
      if other.sourceHash != "" {
        AddSourceHash(other.sourceHash);
      }
      if bom.components.Some? {
        MergeComponentsOf(other);
      } else {
        NoComponents(codec, mergedComponentByKey, other);
      }
      if bom.dependencies.Some? {
        MergeDependenciesOf(bom);
        hide DependenciesMerged;
      }
    }
  }
}
