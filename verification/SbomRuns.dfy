/** Sequences of Merge calls: what the refs and the dependency graph of the merged SBOM mean. */
module SbomRuns {
  import opened Common
  import opened Sbom
  import opened SbomMergeSpec
  import SbomMerge
  import Purl

  /** states[i] is the object after the first i results have been merged. */
  ghost predicate IsRun(codec: Purl.Codec, states: seq<State>, results: seq<Results>) {
    && |states| == |results| + 1
    && states[0] == INITIAL
    && forall i :: 0 <= i < |results| ==> IsStep(codec, states[i], results[i], states[i + 1])
  }

  ghost predicate IsStep(codec: Purl.Codec, s: State, r: Results, s': State) {
    Safe(codec, s, r) && Merged(codec, s, r, s')
  }

  // ---------- What the results declare ----------

  predicate Declares(r: Results, k: ComponentKey, ref: Ref) {
    ref != "" && k in ComponentsOf(r) && ComponentsOf(r)[k].bomRef == ref
  }

  predicate DeclaresMain(r: Results, ref: Ref) {
    ref != "" && r.sbom.Some? && MainOf(r.sbom.value).Some? && MainOf(r.sbom.value).value.bomRef == ref
  }

  ghost predicate DeclaredAs(results: seq<Results>, k: ComponentKey, ref: Ref) {
    exists i :: 0 <= i < |results| && Declares(results[i], k, ref)
  }

  ghost predicate DeclaredMain(results: seq<Results>, ref: Ref) {
    exists i :: 0 <= i < |results| && DeclaresMain(results[i], ref)
  }

  ghost predicate Known(results: seq<Results>, ref: Ref) {
    DeclaredMain(results, ref) || exists k :: DeclaredAs(results, k, ref)
  }

  /** A ref names one component, across all documents. */
  ghost predicate RefsUnique(results: seq<Results>) {
    && (forall k, k', ref :: DeclaredAs(results, k, ref) && DeclaredAs(results, k', ref) ==> k == k')
    && (forall k, ref :: DeclaredAs(results, k, ref) ==> !DeclaredMain(results, ref))
  }

  ghost predicate EdgeIn(r: Results, a: Ref, b: Ref) {
    r.sbom.Some? && HasEdge(r.sbom.value.dependencies.GetOr([]), a, b)
  }

  /** Both ends of every edge are declared in the same document or an earlier one. */
  ghost predicate EdgesDeclared(results: seq<Results>) {
    forall i, a, b :: 0 <= i < |results| && EdgeIn(results[i], a, b) ==>
      Known(results[..i + 1], a) && Known(results[..i + 1], b)
  }

  // ---------- What the state records ----------

  function First(refs: seq<Ref>): Ref {
    if refs == [] then "" else refs[0]
  }

  /** The recorded refs are the declared ones, and every component goes by the first of its refs. */
  ghost predicate Records(s: State, results: seq<Results>) {
    RecordsComponents(s.components, results) && RecordsMain(s, results)
  }

  ghost predicate RecordsComponents(m: ByKey, results: seq<Results>) {
    && (forall k, ref :: k in m && ref in m[k].bomRefs <==> DeclaredAs(results, k, ref))
    && (forall k :: k in m ==> FirstRefRules(m[k]))
  }

  ghost predicate FirstRefRules(c: MergedComponent) {
    c.component.bomRef == First(c.bomRefs) && "" !in c.bomRefs
  }

  ghost predicate RecordsMain(s: State, results: seq<Results>) {
    && (forall ref :: ref in s.srcRefs <==> DeclaredMain(results, ref))
    && MainRef(s) == First(s.srcRefs) && "" !in s.srcRefs
  }

  lemma DeclaredExtend(results: seq<Results>, r: Results)
    ensures forall k, ref :: DeclaredAs(results + [r], k, ref) <==> DeclaredAs(results, k, ref) || Declares(r, k, ref)
    ensures forall ref :: DeclaredMain(results + [r], ref) <==> DeclaredMain(results, ref) || DeclaresMain(r, ref)
  {
    var all := results + [r];
    assert all[|results|] == r && forall i :: 0 <= i < |results| ==> all[i] == results[i];
    hide Declares;
    hide DeclaresMain;
    forall k, ref
      ensures DeclaredAs(all, k, ref) <==> DeclaredAs(results, k, ref) || Declares(r, k, ref)
    {
      if Declares(r, k, ref) { assert Declares(all[|results|], k, ref); }
      if DeclaredAs(results, k, ref) {
        var i :| 0 <= i < |results| && Declares(results[i], k, ref);
        assert Declares(all[i], k, ref);
      }
    }
    forall ref
      ensures DeclaredMain(all, ref) <==> DeclaredMain(results, ref) || DeclaresMain(r, ref)
    {
      if DeclaresMain(r, ref) { assert DeclaresMain(all[|results|], ref); }
      if DeclaredMain(results, ref) {
        var i :| 0 <= i < |results| && DeclaresMain(results[i], ref);
        assert DeclaresMain(all[i], ref);
      }
    }
  }

  /** How one Merge changes the refs of one component. */
  ghost predicate RefsGrow(m: ByKey, r: Results, k: ComponentKey, c: MergedComponent) {
    && (k in m ==> m[k].bomRefs <= c.bomRefs)
    && forall ref :: ref in c.bomRefs <==> (k in m && ref in m[k].bomRefs) || Declares(r, k, ref)
  }

  lemma MergeKeyRefs(codec: Purl.Codec, m: ByKey, r: Results, k: ComponentKey)
    requires k in m || k in ComponentsOf(r)
    requires k in m ==> FirstRefRules(m[k])
    ensures FirstRefRules(MergeKey(codec, m, r, k)) && RefsGrow(m, r, k, MergeKey(codec, m, r, k))
  {
    hide Purl.MergePurlStrings;
  }

  lemma ComponentsStep(codec: Purl.Codec, m: ByKey, r: Results, results: seq<Results>)
    requires RecordsComponents(m, results)
    ensures var m' := MergeByKey(codec, m, r);
            && RecordsComponents(m', results + [r])
            && forall k :: k in m ==> k in m' && m[k].bomRefs <= m'[k].bomRefs
  {
    var m' := MergeByKey(codec, m, r);
    DeclaredExtend(results, r);
    forall k | k in m'
      ensures FirstRefRules(m'[k]) && RefsGrow(m, r, k, m'[k])
    {
      MergeKeyRefs(codec, m, r, k);
    }
    assert forall k :: k in m' <==> k in m || k in ComponentsOf(r);
    hide MergeKey;
    hide MergeByKey;
    hide DeclaredAs;
    hide FirstRefRules;
    forall k, ref
      ensures k in m' && ref in m'[k].bomRefs <==> DeclaredAs(results + [r], k, ref)
    {
      assert k in m' ==> RefsGrow(m, r, k, m'[k]);
    }
  }

  lemma MergedBomRef(codec: Purl.Codec)
    ensures forall m, o, main :: MergeComponents(codec, m, o, main).bomRef == IfEmpty(m.bomRef, o.bomRef)
  {
    hide Purl.MergePurlStrings;
  }

  lemma HashKeepsRefs(s: State, hash: string)
    requires s.srcMetadata.Some? && s.srcMetadata.value.component.Some?
    ensures var h := AddSourceHash(s, hash);
            MainRef(h) == MainRef(s) && h == s.(srcMetadata := h.srcMetadata) && h.srcMetadata.Some?
              && h.srcMetadata.value.component.Some?
  {
  }

  lemma MergeMainRefs(codec: Purl.Codec, s: State, r: Results)
    requires r.sbom.Some? && Safe(codec, s, r) && MainRef(s) == First(s.srcRefs) && "" !in s.srcRefs
    requires Valid(s)
    ensures var h := MergeHeader(codec, s, r);
            && MainRef(h) == First(h.srcRefs) && "" !in h.srcRefs && s.srcRefs <= h.srcRefs
            && forall ref :: ref in h.srcRefs <==> ref in s.srcRefs || DeclaresMain(r, ref)
  {
    MergedBomRef(codec);
    hide MergeComponents;
    hide AddSourceHash;
    var m := MergeMain(codec, s, r.sbom.value);
    if r.sourceHash != "" { HashKeepsRefs(m, r.sourceHash); }
  }

  lemma MainStep(codec: Purl.Codec, s: State, r: Results, s': State, results: seq<Results>)
    requires RecordsMain(s, results) && Valid(s) && IsStep(codec, s, r, s')
    ensures RecordsMain(s', results + [r]) && s.srcRefs <= s'.srcRefs
  {
    DeclaredExtend(results, r);
    if r.sbom.Some? {
      MergeMainRefs(codec, s, r);
      var h := MergeHeader(codec, s, r);
      assert h.srcRefs == s'.srcRefs && MainRef(h) == MainRef(s');
      hide MergeHeader;
      hide DependenciesMerged;
      hide MergeByKey;
      hide Safe;
    }
  }

  lemma StepRecords(codec: Purl.Codec, s: State, r: Results, s': State, results: seq<Results>)
    requires Records(s, results) && Valid(s) && IsStep(codec, s, r, s')
    ensures Records(s', results + [r]) && Valid(s') && Grows(s, s')
  {
    MergeKeepsValid(codec, s, r, s');
    MainStep(codec, s, r, s', results);
    ComponentsStep(codec, s.components, r, results);
    hide RecordsComponents;
    hide RecordsMain;
    hide Safe;
    hide MergeHeader;
    hide DependenciesMerged;
    if r.sbom.None? {
      assert s.components == MergeByKey(codec, s.components, r);
    }
    hide MergeByKey;
  }

  /** Refs are only ever appended. */
  ghost predicate Grows(s: State, s': State) {
    && s.srcRefs <= s'.srcRefs
    && forall k :: k in s.components ==> k in s'.components && s.components[k].bomRefs <= s'.components[k].bomRefs
  }

  lemma {:induction false} RunRecords(codec: Purl.Codec, states: seq<State>, results: seq<Results>)
    requires IsRun(codec, states, results)
    ensures Records(states[|results|], results) && Valid(states[|results|])
  {
    hide IsStep;
    if results != [] {
      var n := |results| - 1;
      RunRecords(codec, states[..n + 1], results[..n]);
      assert results == results[..n] + [results[n]];
      assert IsStep(codec, states[n], results[n], states[n + 1]);
      StepRecords(codec, states[n], results[n], states[n + 1], results[..n]);
    } else {
      hide Declares;
      hide DeclaresMain;
    }
  }

  // ---------- Canonical refs ----------

  /** The ref by which the component that `ref` names goes in state s. */
  ghost function Canon(s: State, ref: Ref): Ref {
    if exists k :: RefOf(s, k, ref) then
      var k :| RefOf(s, k, ref);
      s.components[k].component.bomRef
    else if ref in s.srcRefs then MainRef(s)
    else ref
  }

  lemma PrefixKnows(results: seq<Results>, i: nat)
    requires i <= |results|
    ensures forall k, ref :: DeclaredAs(results[..i], k, ref) ==> DeclaredAs(results, k, ref)
    ensures forall ref :: DeclaredMain(results[..i], ref) ==> DeclaredMain(results, ref)
    ensures RefsUnique(results) ==> RefsUnique(results[..i])
  {
    hide Declares;
    hide DeclaresMain;
    forall k, ref | DeclaredAs(results[..i], k, ref)
      ensures DeclaredAs(results, k, ref)
    {
      var j :| 0 <= j < |results[..i]| && Declares(results[..i][j], k, ref);
      assert Declares(results[j], k, ref);
    }
    forall ref | DeclaredMain(results[..i], ref)
      ensures DeclaredMain(results, ref)
    {
      var j :| 0 <= j < |results[..i]| && DeclaresMain(results[..i][j], ref);
      assert DeclaresMain(results[j], ref);
    }
  }

  /** With unique refs the search has one answer: the first ref of the component that was named. */
  lemma CanonMeaning(s: State, results: seq<Results>, ref: Ref)
    requires Records(s, results) && RefsUnique(results)
    ensures forall k :: RefOf(s, k, ref) ==> Canon(s, ref) == First(s.components[k].bomRefs)
    ensures ref in s.srcRefs ==> Canon(s, ref) == First(s.srcRefs)
    ensures !Known(results, ref) ==> Canon(s, ref) == ref
    ensures forall result :: Resolves(s, ref, result) <==> result == Canon(s, ref)
  {
    hide DeclaredAs;
    hide DeclaredMain;
    forall k, k' | RefOf(s, k, ref) && RefOf(s, k', ref)
      ensures k == k'
    {
      assert DeclaredAs(results, k, ref) && DeclaredAs(results, k', ref);
    }
    if ref in s.srcRefs {
      forall k
        ensures !RefOf(s, k, ref)
      {
        assert DeclaredMain(results, ref);
        assert RefOf(s, k, ref) ==> DeclaredAs(results, k, ref);
      }
    }
    if !Known(results, ref) {
      forall k
        ensures !RefOf(s, k, ref)
      {
        assert !DeclaredAs(results, k, ref);
      }
    }
  }

  lemma {:induction false} RunGrows(codec: Purl.Codec, states: seq<State>, results: seq<Results>, i: nat)
    requires IsRun(codec, states, results) && i <= |results|
    ensures IsRun(codec, states[..i + 1], results[..i])
    ensures Grows(states[i], states[|results|])
  {
    hide IsStep;
    if i < |results| {
      var n := |results| - 1;
      RunGrows(codec, states[..n + 1], results[..n], i);
      assert states[..n + 1][..i + 1] == states[..i + 1] && results[..n][..i] == results[..i];
      RunRecords(codec, states[..n + 1], results[..n]);
      assert IsStep(codec, states[n], results[n], states[n + 1]);
      StepRecords(codec, states[n], results[n], states[n + 1], results[..n]);
    } else {
      assert states[..i + 1] == states && results[..i] == results;
    }
  }

  // ---------- The first ref a component is declared with ----------

  /** Document i is the first to declare a ref for component k, and the ref is ref. */
  ghost predicate FirstAs(results: seq<Results>, k: ComponentKey, ref: Ref, i: int) {
    && 0 <= i < |results| && Declares(results[i], k, ref)
    && forall j, x :: 0 <= j < i ==> !Declares(results[j], k, x)
  }

  ghost predicate FirstAsMain(results: seq<Results>, ref: Ref, i: int) {
    && 0 <= i < |results| && DeclaresMain(results[i], ref)
    && forall j, x :: 0 <= j < i ==> !DeclaresMain(results[j], x)
  }

  /** Whatever the documents declare with this ref, they declare with it first. Undeclared refs qualify. */
  ghost predicate FirstDeclared(results: seq<Results>, ref: Ref) {
    && (forall k :: DeclaredAs(results, k, ref) ==> exists i :: FirstAs(results, k, ref, i))
    && (DeclaredMain(results, ref) ==> exists i :: FirstAsMain(results, ref, i))
  }

  lemma {:induction false} FirstDeclaration(results: seq<Results>, k: ComponentKey, ref: Ref, i: nat)
      returns (first: Ref, n: nat)
    requires i < |results| && Declares(results[i], k, ref)
    ensures FirstAs(results, k, first, n)
    decreases i
  {
    hide Declares;
    if j, x :| 0 <= j < i && Declares(results[j], k, x) {
      first, n := FirstDeclaration(results, k, x, j);
    } else {
      first, n := ref, i;
    }
  }

  lemma {:induction false} FirstMainDeclaration(results: seq<Results>, ref: Ref, i: nat) returns (first: Ref, n: nat)
    requires i < |results| && DeclaresMain(results[i], ref)
    ensures FirstAsMain(results, first, n)
    decreases i
  {
    hide DeclaresMain;
    if j, x :| 0 <= j < i && DeclaresMain(results[j], x) {
      first, n := FirstMainDeclaration(results, x, j);
    } else {
      first, n := ref, i;
    }
  }

  /** Up to document i, the first to declare a ref for component k, there is only that ref. */
  lemma OnlyOneYet(results: seq<Results>, k: ComponentKey, ref: Ref, i: nat)
    requires FirstAs(results, k, ref, i)
    ensures var prefix := results[..i + 1]; forall x :: DeclaredAs(prefix, k, x) <==> x == ref
  {
    var prefix := results[..i + 1];
    forall x
      ensures DeclaredAs(prefix, k, x) <==> x == ref
    {
      assert Declares(prefix[i], k, ref);
      if DeclaredAs(prefix, k, x) {
        var j :| 0 <= j < |prefix| && Declares(prefix[j], k, x);
        assert Declares(results[j], k, x);
      }
    }
  }

  lemma OnlyOneMainYet(results: seq<Results>, ref: Ref, i: nat)
    requires FirstAsMain(results, ref, i)
    ensures var prefix := results[..i + 1]; forall x :: DeclaredMain(prefix, x) <==> x == ref
  {
    var prefix := results[..i + 1];
    forall x
      ensures DeclaredMain(prefix, x) <==> x == ref
    {
      assert DeclaresMain(prefix[i], ref);
      if DeclaredMain(prefix, x) {
        var j :| 0 <= j < |prefix| && DeclaresMain(prefix[j], x);
        assert DeclaresMain(results[j], x);
      }
    }
  }

  /** The first ref declared for a component is the first recorded, and the one it goes by in the end. */
  lemma FirstIsRecorded(codec: Purl.Codec, states: seq<State>, results: seq<Results>, k: ComponentKey, ref: Ref, i: nat)
    requires IsRun(codec, states, results) && FirstAs(results, k, ref, i)
    ensures RefOf(states[|results|], k, ref) && First(states[|results|].components[k].bomRefs) == ref
  {
    RunGrows(codec, states, results, i + 1);
    RunRecords(codec, states[..i + 2], results[..i + 1]);
    OnlyOneYet(results, k, ref, i);
    hide IsStep;
    hide DeclaredAs;
    hide DeclaredMain;
    hide Declares;
    hide FirstAs;
    hide FirstRefRules;
    var s := states[i + 1];
    assert RefOf(s, k, ref);
    var refs := s.components[k].bomRefs;
    assert refs[0] in refs;
  }

  lemma FirstIsRecordedMain(codec: Purl.Codec, states: seq<State>, results: seq<Results>, ref: Ref, i: nat)
    requires IsRun(codec, states, results) && FirstAsMain(results, ref, i)
    ensures ref in states[|results|].srcRefs && First(states[|results|].srcRefs) == ref
  {
    RunGrows(codec, states, results, i + 1);
    RunRecords(codec, states[..i + 2], results[..i + 1]);
    OnlyOneMainYet(results, ref, i);
    hide IsStep;
    hide DeclaredAs;
    hide DeclaredMain;
    hide DeclaresMain;
    hide FirstAsMain;
    hide RecordsComponents;
    var refs := states[i + 1].srcRefs;
    assert ref in refs;
    assert refs[0] in refs;
  }

  lemma FirstOfComponent(codec: Purl.Codec, states: seq<State>, results: seq<Results>, k: ComponentKey, ref: Ref)
    requires IsRun(codec, states, results) && DeclaredAs(results, k, ref)
    ensures RefOf(states[|results|], k, ref)
    ensures First(states[|results|].components[k].bomRefs) == ref <==> exists i :: FirstAs(results, k, ref, i)
  {
    RunRecords(codec, states, results);
    var i :| 0 <= i < |results| && Declares(results[i], k, ref);
    var first, n := FirstDeclaration(results, k, ref, i);
    FirstIsRecorded(codec, states, results, k, first, n);
    forall j | FirstAs(results, k, ref, j)
      ensures ref == first
    {
      FirstIsRecorded(codec, states, results, k, ref, j);
    }
    hide IsStep;
    hide Declares;
    hide FirstAs;
  }

  lemma FirstOfMain(codec: Purl.Codec, states: seq<State>, results: seq<Results>, ref: Ref)
    requires IsRun(codec, states, results) && DeclaredMain(results, ref)
    ensures ref in states[|results|].srcRefs
    ensures First(states[|results|].srcRefs) == ref <==> exists i :: FirstAsMain(results, ref, i)
  {
    RunRecords(codec, states, results);
    var i :| 0 <= i < |results| && DeclaresMain(results[i], ref);
    var first, n := FirstMainDeclaration(results, ref, i);
    FirstIsRecordedMain(codec, states, results, first, n);
    forall j | FirstAsMain(results, ref, j)
      ensures ref == first
    {
      FirstIsRecordedMain(codec, states, results, ref, j);
    }
    hide IsStep;
    hide DeclaresMain;
    hide FirstAsMain;
  }

  /** The first ref that the documents declare for some component which they declare under ref. */
  ghost predicate FirstOfDeclared(results: seq<Results>, ref: Ref, result: Ref) {
    exists k, i :: DeclaredAs(results, k, ref) && FirstAs(results, k, result, i)
  }

  /**
   What a ref is replaced by, in terms of the documents, even if they use it for several things:
   components come before the main component, and either goes by the ref it was first declared with.
   */
  lemma ResolvedRef(codec: Purl.Codec, states: seq<State>, results: seq<Results>, ref: Ref, result: Ref)
    requires IsRun(codec, states, results) && Resolves(states[|results|], ref, result)
    ensures
      if exists k :: DeclaredAs(results, k, ref) then FirstOfDeclared(results, ref, result)
      else if DeclaredMain(results, ref) then exists i :: FirstAsMain(results, result, i)
      else result == ref
  {
    var s := states[|results|];
    RunRecords(codec, states, results);
    hide IsStep;
    hide FirstAs;
    hide FirstAsMain;
    if k0 :| DeclaredAs(results, k0, ref) {
      assert RefOf(s, k0, ref);
      var k :| RefOf(s, k, ref) && result == s.components[k].component.bomRef;
      ResolvedComponent(codec, states, results, k, ref);
    } else {
      forall k
        ensures !RefOf(s, k, ref)
      {
        assert !DeclaredAs(results, k, ref);
      }
      if DeclaredMain(results, ref) {
        var i :| 0 <= i < |results| && DeclaresMain(results[i], ref);
        var first, n := FirstMainDeclaration(results, ref, i);
        FirstIsRecordedMain(codec, states, results, first, n);
        assert result == first;
      }
    }
  }

  lemma ResolvedComponent(codec: Purl.Codec, states: seq<State>, results: seq<Results>, k: ComponentKey, ref: Ref)
    requires IsRun(codec, states, results) && RefOf(states[|results|], k, ref)
    ensures FirstOfDeclared(results, ref, states[|results|].components[k].component.bomRef)
  {
    RunRecords(codec, states, results);
    hide IsStep;
    hide FirstAs;
    hide Declares;
    assert DeclaredAs(results, k, ref);
    var i :| 0 <= i < |results| && Declares(results[i], k, ref);
    var first, n := FirstDeclaration(results, k, ref, i);
    FirstIsRecorded(codec, states, results, k, first, n);
    assert FirstRefRules(states[|results|].components[k]);
  }

  /** In the end a ref stands for itself exactly when the documents declare what it names with it first. */
  lemma CanonIsItselfIffFirst(codec: Purl.Codec, states: seq<State>, results: seq<Results>, ref: Ref)
    requires IsRun(codec, states, results) && RefsUnique(results)
    ensures Canon(states[|results|], ref) == ref <==> FirstDeclared(results, ref)
  {
    var s := states[|results|];
    RunRecords(codec, states, results);
    CanonMeaning(s, results, ref);
    hide IsStep;
    hide Canon;
    hide FirstAs;
    hide FirstAsMain;
    hide Declares;
    hide DeclaresMain;
    forall k | DeclaredAs(results, k, ref)
      ensures RefOf(s, k, ref) && (First(s.components[k].bomRefs) == ref <==> exists i :: FirstAs(results, k, ref, i))
    {
      FirstOfComponent(codec, states, results, k, ref);
    }
    hide DeclaredAs;
    if DeclaredMain(results, ref) { FirstOfMain(codec, states, results, ref); }
    hide DeclaredMain;
    hide RecordsMain;
  }

  /** When the first i documents have been merged, ref stands for what it stands for in the end. */
  ghost predicate Settled(results: seq<Results>, i: nat, ref: Ref)
    requires i <= |results|
  {
    Known(results[..i], ref) || FirstDeclared(results, ref)
  }

  /**
   Once a ref has been declared, the ref it stands for never changes in later merges. A ref used
   before its declaration is stable exactly when what it names is declared with it first.
   */
  lemma CanonStableIffSettled(codec: Purl.Codec, states: seq<State>, results: seq<Results>, i: nat, ref: Ref)
    requires IsRun(codec, states, results) && RefsUnique(results) && i <= |results|
    ensures Canon(states[i], ref) == Canon(states[|results|], ref) <==> Settled(results, i, ref)
    ensures !Known(results[..i], ref) ==> Canon(states[i], ref) == ref
  {
    var s, s' := states[i], states[|results|];
    RunGrows(codec, states, results, i);
    PrefixKnows(results, i);
    RunRecords(codec, states[..i + 1], results[..i]);
    RunRecords(codec, states, results);
    CanonMeaning(s, results[..i], ref);
    CanonMeaning(s', results, ref);
    CanonIsItselfIffFirst(codec, states, results, ref);
    hide IsStep;
    hide Canon;
    hide RefsUnique;
    hide DeclaredAs;
    hide DeclaredMain;
    hide FirstDeclared;
    if Known(results[..i], ref) {
      if DeclaredMain(results[..i], ref) {
        assert ref in s.srcRefs && ref in s'.srcRefs;
      } else {
        var k :| DeclaredAs(results[..i], k, ref);
        assert RefOf(s, k, ref) && RefOf(s', k, ref);
      }
    }
  }

  /** Looking a ref up twice is looking it up once; a known ref leads to a merged component's BOMRef. */
  lemma CanonIdempotent(codec: Purl.Codec, states: seq<State>, results: seq<Results>, ref: Ref)
    requires IsRun(codec, states, results) && RefsUnique(results)
    ensures var s := states[|results|];
            && Canon(s, Canon(s, ref)) == Canon(s, ref)
            && (Known(results, ref) ==>
                 || Canon(s, ref) == MainRef(s)
                 || exists k :: k in s.components && Canon(s, ref) == s.components[k].component.bomRef)
  {
    var s := states[|results|];
    RunRecords(codec, states, results);
    CanonMeaning(s, results, ref);
    CanonMeaning(s, results, Canon(s, ref));
    hide IsStep;
    hide RefsUnique;
    hide DeclaredAs;
    hide DeclaredMain;
    if k :| RefOf(s, k, ref) {
      assert RefOf(s, k, Canon(s, ref)) && FirstRefRules(s.components[k]);
    } else if ref in s.srcRefs {
      assert Canon(s, ref) in s.srcRefs;
    }
  }

  // ---------- The dependency graph ----------

  /** Some edge of deps resolves to (x, y). */
  ghost predicate ComesFrom(s: State, deps: seq<Dependency>, x: Ref, y: Ref) {
    exists a, b :: HasEdge(deps, a, b) && Resolves(s, a, x) && Resolves(s, b, y)
  }

  /** Edge (a, b) resolves to some edge of output. */
  ghost predicate Survives(s: State, output: seq<Dependency>, a: Ref, b: Ref) {
    exists x, y :: HasEdge(output, x, y) && Resolves(s, a, x) && Resolves(s, b, y)
  }

  lemma NormalizedEdges(s: State, deps: seq<Dependency>, normalized: seq<Dependency>)
    requires NormalizesAll(s, deps, normalized)
    ensures forall x, y :: HasEdge(normalized, x, y) ==> ComesFrom(s, deps, x, y)
    ensures forall a, b :: HasEdge(deps, a, b) ==> Survives(s, normalized, a, b)
  {
    hide Resolves;
    forall x, y | HasEdge(normalized, x, y)
      ensures ComesFrom(s, deps, x, y)
    {
      var i :| 0 <= i < |normalized| && normalized[i].ref == x && normalized[i].dependsOn.Some?
        && y in normalized[i].dependsOn.value;
      assert Normalizes(s, deps[i], normalized[i]);
      var j :| 0 <= j < |normalized[i].dependsOn.value| && normalized[i].dependsOn.value[j] == y;
      assert HasEdge(deps, deps[i].ref, deps[i].dependsOn.value[j]);
    }
    forall a, b | HasEdge(deps, a, b)
      ensures Survives(s, normalized, a, b)
    {
      var i :| 0 <= i < |deps| && deps[i].ref == a && deps[i].dependsOn.Some? && b in deps[i].dependsOn.value;
      assert Normalizes(s, deps[i], normalized[i]);
      var j :| 0 <= j < |deps[i].dependsOn.value| && deps[i].dependsOn.value[j] == b;
      assert HasEdge(normalized, normalized[i].ref, normalized[i].dependsOn.value[j]);
    }
  }

  lemma SurvivesInUnion(s: State, output: seq<Dependency>, before: seq<Dependency>, normalized: seq<Dependency>, a: Ref,
      b: Ref)
    requires IsUnion(output, before, normalized) && Survives(s, normalized, a, b)
    ensures Survives(s, output, a, b)
  {
    hide Resolves;
    hide HasEdge;
    var x, y :| HasEdge(normalized, x, y) && Resolves(s, a, x) && Resolves(s, b, y);
    assert HasEdge(output, x, y);
  }

  function DepsOf(r: Results): seq<Dependency> {
    if r.sbom.None? then [] else r.sbom.value.dependencies.GetOr([])
  }

  lemma StepEdges(codec: Purl.Codec, s: State, r: Results, s': State)
    requires IsStep(codec, s, r, s')
    ensures var before, after := s.dependencies.GetOr([]), s'.dependencies.GetOr([]);
            && (forall x, y :: HasEdge(after, x, y) ==> HasEdge(before, x, y) || ComesFrom(s', DepsOf(r), x, y))
            && (forall x, y :: HasEdge(before, x, y) ==> HasEdge(after, x, y))
            && (forall a, b :: HasEdge(DepsOf(r), a, b) ==> Survives(s', after, a, b))
  {
    hide Safe;
    hide MergeHeader;
    hide MergeByKey;
    hide ComesFrom;
    hide Survives;
    if r.sbom.Some? && r.sbom.value.dependencies.Some? {
      var deps, before, after := r.sbom.value.dependencies.value, s.dependencies.GetOr([]), s'.dependencies.value;
      var normalized :| NormalizesAll(s', deps, normalized) && IsUnion(after, before, normalized);
      NormalizedEdges(s', deps, normalized);
      hide HasEdge;
      hide NormalizesAll;
      forall a, b | HasEdge(deps, a, b)
        ensures Survives(s', after, a, b)
      {
        SurvivesInUnion(s', after, before, normalized, a, b);
      }
    } else {
      assert DepsOf(r) == [];
    }
  }

  /** (x, y) is edge (a, b) of document i as it was resolved when that document was merged. */
  ghost predicate Origin(states: seq<State>, results: seq<Results>, i: int, a: Ref, b: Ref, x: Ref, y: Ref)
    requires |states| == |results| + 1
  {
    0 <= i < |results| && EdgeIn(results[i], a, b) && Resolves(states[i + 1], a, x) && Resolves(states[i + 1], b, y)
  }

  ghost predicate HasOrigin(states: seq<State>, results: seq<Results>, x: Ref, y: Ref)
    requires |states| == |results| + 1
  {
    exists i, a, b :: Origin(states, results, i, a, b, x, y)
  }

  ghost predicate HasImage(states: seq<State>, results: seq<Results>, deps: seq<Dependency>, i: int, a: Ref, b: Ref)
    requires |states| == |results| + 1
  {
    exists x, y :: HasEdge(deps, x, y) && Origin(states, results, i, a, b, x, y)
  }

  ghost predicate EdgesAccountedFor(states: seq<State>, results: seq<Results>)
    requires |states| == |results| + 1
  {
    var deps := states[|results|].dependencies.GetOr([]);
    && (forall x, y :: HasEdge(deps, x, y) ==> HasOrigin(states, results, x, y))
    && (forall i, a, b :: 0 <= i < |results| && EdgeIn(results[i], a, b) ==> HasImage(states, results, deps, i, a, b))
  }

  lemma EarlierOrigin(states: seq<State>, results: seq<Results>, n: nat, x: Ref, y: Ref)
    requires n + 1 == |results| && |states| == |results| + 1 && HasOrigin(states[..n + 1], results[..n], x, y)
    ensures HasOrigin(states, results, x, y)
  {
    hide EdgeIn;
    hide Resolves;
    var i, a, b :| Origin(states[..n + 1], results[..n], i, a, b, x, y);
    assert Origin(states, results, i, a, b, x, y);
  }

  lemma NewOrigin(states: seq<State>, results: seq<Results>, n: nat, x: Ref, y: Ref)
    requires n + 1 == |results| && |states| == |results| + 1 && ComesFrom(states[n + 1], DepsOf(results[n]), x, y)
    ensures HasOrigin(states, results, x, y)
  {
    hide Resolves;
    var a, b :| HasEdge(DepsOf(results[n]), a, b) && Resolves(states[n + 1], a, x) && Resolves(states[n + 1], b, y);
    assert Origin(states, results, n, a, b, x, y);
  }

  lemma EarlierImage(states: seq<State>, results: seq<Results>, n: nat, deps0: seq<Dependency>, deps: seq<Dependency>,
      i: int, a: Ref, b: Ref)
    requires n + 1 == |results| && |states| == |results| + 1 && HasImage(states[..n + 1], results[..n], deps0, i, a, b)
    requires forall x, y :: HasEdge(deps0, x, y) ==> HasEdge(deps, x, y)
    ensures HasImage(states, results, deps, i, a, b)
  {
    hide EdgeIn;
    hide Resolves;
    hide HasEdge;
    var x, y :| HasEdge(deps0, x, y) && Origin(states[..n + 1], results[..n], i, a, b, x, y);
    assert HasEdge(deps, x, y) && Origin(states, results, i, a, b, x, y);
  }

  lemma NewImage(states: seq<State>, results: seq<Results>, n: nat, deps: seq<Dependency>, a: Ref, b: Ref)
    requires n + 1 == |results| && |states| == |results| + 1
    requires EdgeIn(results[n], a, b) && Survives(states[n + 1], deps, a, b)
    ensures HasImage(states, results, deps, n, a, b)
  {
    hide EdgeIn;
    hide Resolves;
    hide HasEdge;
    var x, y :| HasEdge(deps, x, y) && Resolves(states[n + 1], a, x) && Resolves(states[n + 1], b, y);
    assert Origin(states, results, n, a, b, x, y);
  }

  /**
   Without any assumption on the documents: every edge of the merged SBOM is an edge of one of
   them under the refs of that moment, and every edge of a document is still there.
   */
  lemma {:induction false} NoEdgeLostOrInvented(codec: Purl.Codec, states: seq<State>, results: seq<Results>)
    requires IsRun(codec, states, results)
    ensures EdgesAccountedFor(states, results)
  {
    if results == [] {
      assert states[0].dependencies.GetOr([]) == [];
    } else {
      var n := |results| - 1;
      hide IsStep;
      hide HasOrigin;
      hide HasImage;
      hide ComesFrom;
      hide Survives;
      NoEdgeLostOrInvented(codec, states[..n + 1], results[..n]);
      assert IsStep(codec, states[n], results[n], states[n + 1]);
      StepEdges(codec, states[n], results[n], states[n + 1]);
      assert forall a, b :: EdgeIn(results[n], a, b) <==> HasEdge(DepsOf(results[n]), a, b);
      hide HasEdge;
      hide EdgeIn;
      hide DepsOf;
      var deps0, deps := states[n].dependencies.GetOr([]), states[n + 1].dependencies.GetOr([]);
      forall x, y | HasEdge(deps, x, y)
        ensures HasOrigin(states, results, x, y)
      {
        if HasEdge(deps0, x, y) {
          EarlierOrigin(states, results, n, x, y);
        } else {
          NewOrigin(states, results, n, x, y);
        }
      }
      forall i, a, b | 0 <= i < |results| && EdgeIn(results[i], a, b)
        ensures HasImage(states, results, deps, i, a, b)
      {
        if i < n {
          assert EdgeIn(results[..n][i], a, b);
          EarlierImage(states, results, n, deps0, deps, i, a, b);
        } else {
          NewImage(states, results, n, deps, a, b);
        }
      }
    }
  }

  /** Both ends of every edge are settled when its document has been merged. */
  ghost predicate EdgesSettled(results: seq<Results>) {
    forall i, a, b :: 0 <= i < |results| && EdgeIn(results[i], a, b) ==>
      Settled(results, i + 1, a) && Settled(results, i + 1, b)
  }

  /** What edge (a, b) of document i became is its image under the final refs exactly when both ends are settled. */
  lemma FinalImageIffSettled(codec: Purl.Codec, states: seq<State>, results: seq<Results>, i: int, a: Ref, b: Ref,
      x: Ref, y: Ref)
    requires IsRun(codec, states, results) && RefsUnique(results) && Origin(states, results, i, a, b, x, y)
    ensures var s := states[|results|];
            x == Canon(s, a) && y == Canon(s, b) <==> Settled(results, i + 1, a) && Settled(results, i + 1, b)
  {
    RunGrows(codec, states, results, i + 1);
    PrefixKnows(results, i + 1);
    RunRecords(codec, states[..i + 2], results[..i + 1]);
    CanonMeaning(states[i + 1], results[..i + 1], a);
    CanonMeaning(states[i + 1], results[..i + 1], b);
    CanonStableIffSettled(codec, states, results, i + 1, a);
    CanonStableIffSettled(codec, states, results, i + 1, b);
    hide IsStep;
    hide Canon;
    hide Resolves;
    hide Settled;
    hide RefsUnique;
  }

  lemma DeclaredEdgesAreSettled(results: seq<Results>)
    requires EdgesDeclared(results)
    ensures EdgesSettled(results)
  {
    hide Known;
    hide EdgeIn;
    hide FirstDeclared;
  }

  /** (x, y) is the image of an edge of one of the documents under the refs of state s. */
  ghost predicate IsImage(s: State, results: seq<Results>, x: Ref, y: Ref) {
    exists i, a, b :: 0 <= i < |results| && EdgeIn(results[i], a, b) && x == Canon(s, a) && y == Canon(s, b)
  }

  lemma EdgeHasPreimage(codec: Purl.Codec, states: seq<State>, results: seq<Results>, x: Ref, y: Ref)
    requires IsRun(codec, states, results) && RefsUnique(results) && EdgesSettled(results)
    requires HasOrigin(states, results, x, y)
    ensures IsImage(states[|results|], results, x, y)
  {
    hide Canon;
    hide EdgeIn;
    hide Resolves;
    hide RefsUnique;
    hide Settled;
    var i, a, b :| Origin(states, results, i, a, b, x, y);
    FinalImageIffSettled(codec, states, results, i, a, b, x, y);
    hide IsRun;
    assert 0 <= i < |results| && EdgeIn(results[i], a, b) && x == Canon(states[|results|], a);
    assert y == Canon(states[|results|], b);
  }

  lemma ImageIsEdge(codec: Purl.Codec, states: seq<State>, results: seq<Results>, deps: seq<Dependency>, i: int, a: Ref,
      b: Ref)
    requires IsRun(codec, states, results) && RefsUnique(results) && EdgesSettled(results)
    requires HasImage(states, results, deps, i, a, b)
    ensures HasEdge(deps, Canon(states[|results|], a), Canon(states[|results|], b))
  {
    hide Canon;
    hide EdgeIn;
    hide Resolves;
    hide HasEdge;
    hide RefsUnique;
    hide Settled;
    var x, y :| HasEdge(deps, x, y) && Origin(states, results, i, a, b, x, y);
    FinalImageIffSettled(codec, states, results, i, a, b, x, y);
  }

  /** An end that is not settled was recorded under a ref that nothing goes by in the end. */
  lemma UnsettledIsNoImage(codec: Purl.Codec, states: seq<State>, results: seq<Results>, i: int, ref: Ref, result: Ref)
    requires IsRun(codec, states, results) && RefsUnique(results) && 0 <= i < |results|
    requires Resolves(states[i + 1], ref, result) && !Settled(results, i + 1, ref)
    ensures forall r :: Canon(states[|results|], r) != result
  {
    RunGrows(codec, states, results, i + 1);
    PrefixKnows(results, i + 1);
    RunRecords(codec, states[..i + 2], results[..i + 1]);
    CanonMeaning(states[i + 1], results[..i + 1], ref);
    CanonStableIffSettled(codec, states, results, i + 1, ref);
    hide IsStep;
    hide Canon;
    hide Resolves;
    assert result == ref && Canon(states[|results|], ref) != ref;
    hide *;
    forall r
      ensures Canon(states[|results|], r) != result
    {
      CanonIdempotent(codec, states, results, r);
    }
  }

  lemma UnsettledEdgeIsNoImage(codec: Purl.Codec, states: seq<State>, results: seq<Results>, deps: seq<Dependency>,
      i: int, a: Ref, b: Ref)
      returns (x: Ref, y: Ref)
    requires IsRun(codec, states, results) && RefsUnique(results) && HasImage(states, results, deps, i, a, b)
    requires !(Settled(results, i + 1, a) && Settled(results, i + 1, b))
    ensures HasEdge(deps, x, y) && !IsImage(states[|results|], results, x, y)
  {
    hide Canon;
    hide EdgeIn;
    hide Resolves;
    hide HasEdge;
    hide RefsUnique;
    hide Settled;
    x, y :| HasEdge(deps, x, y) && Origin(states, results, i, a, b, x, y);
    if !Settled(results, i + 1, a) {
      UnsettledIsNoImage(codec, states, results, i, a, x);
    } else {
      UnsettledIsNoImage(codec, states, results, i, b, y);
    }
  }

  /** The edges of the merged SBOM are the image, under the final refs, of the edges of all documents. */
  ghost predicate GraphIsImage(s: State, results: seq<Results>) {
    forall x, y :: HasEdge(s.dependencies.GetOr([]), x, y) <==> IsImage(s, results, x, y)
  }

  lemma SettledGraphIsImage(codec: Purl.Codec, states: seq<State>, results: seq<Results>, x: Ref, y: Ref)
    requires IsRun(codec, states, results) && RefsUnique(results) && EdgesSettled(results)
    ensures HasEdge(states[|results|].dependencies.GetOr([]), x, y) <==> IsImage(states[|results|], results, x, y)
  {
    NoEdgeLostOrInvented(codec, states, results);
    var s := states[|results|];
    var deps := s.dependencies.GetOr([]);
    hide Canon;
    hide HasEdge;
    hide EdgeIn;
    hide HasOrigin;
    hide HasImage;
    hide RefsUnique;
    hide EdgesSettled;
    if HasEdge(deps, x, y) {
      EdgeHasPreimage(codec, states, results, x, y);
    } else if IsImage(s, results, x, y) {
      var i, a, b :| 0 <= i < |results| && EdgeIn(results[i], a, b) && x == Canon(s, a) && y == Canon(s, b);
      ImageIsEdge(codec, states, results, deps, i, a, b);
    }
  }

  /**
   After any sequence of Merge calls, the edges of the merged SBOM are exactly the image, under
   the final canonical refs, of the edges of all merged documents, if and only if the documents
   settle all their edges: as they do when each declares the refs it uses, or an earlier one does.
   */
  lemma MergedGraphIsImage(codec: Purl.Codec, states: seq<State>, results: seq<Results>)
    requires IsRun(codec, states, results) && RefsUnique(results)
    ensures GraphIsImage(states[|results|], results) <==> EdgesSettled(results)
  {
    var s := states[|results|];
    if EdgesSettled(results) {
      forall x, y
        ensures HasEdge(s.dependencies.GetOr([]), x, y) <==> IsImage(s, results, x, y)
      {
        SettledGraphIsImage(codec, states, results, x, y);
      }
    } else {
      NoEdgeLostOrInvented(codec, states, results);
      hide HasImage;
      hide EdgeIn;
      hide Settled;
      hide HasEdge;
      hide IsImage;
      hide RefsUnique;
      var i, a, b :| 0 <= i < |results| && EdgeIn(results[i], a, b)
        && !(Settled(results, i + 1, a) && Settled(results, i + 1, b));
      var x, y := UnsettledEdgeIsNoImage(codec, states, results, s.dependencies.GetOr([]), i, a, b);
    }
  }

  // ---------- A ref used before its declaration ----------

  const LIBRARY: ComponentKey := "library" + "." + ""

  function Plain(name: string, ref: Ref): Component {
    Component(name, "", ref, "", "", "", "", "", "", "", None, None, None, None, None, None, None, "", "")
  }

  /** A document with a main component, one other component and possibly one edge from the main component. */
  function Document(main: Ref, ref: Ref, edge: Option<Ref>): Results {
    Results(
      Some(Bom(
        Some(Metadata(Some(Plain("main", main)), "")),
        Some([Plain("library", ref)]),
        if edge.None? then None else Some([Dependency(main, Some([edge.value]))]))),
      "", "")
  }

  lemma DocumentComponents(main: Ref, ref: Ref, edge: Option<Ref>)
    ensures ComponentsOf(Document(main, ref, edge)) == map[KeyOf(Plain("library", ref)) := Plain("library", ref)]
    ensures KeyOf(Plain("library", ref)) == LIBRARY
  {
    var c := Plain("library", ref);
    assert [c][..0] == [];
    assert ToComponentByKey([c]) == ToComponentByKey([])[KeyOf(c) := c];
    assert Document(main, ref, edge).sbom.value.components.GetOr([]) == [c];
  }

  lemma FirstDocument(codec: Purl.Codec, main: Ref, ref: Ref, edge: Ref) returns (s: State)
    requires main != "" && ref != "" && main != ref && edge != ref && edge != main
    ensures IsStep(codec, INITIAL, Document(main, ref, Some(edge)), s)
    ensures s.dependencies == Some([Dependency(main, Some([edge]))])
    ensures s.srcMetadata.Some? && s.srcMetadata.value.component.Some?
    ensures LIBRARY in s.components && s.components[LIBRARY].bomRefs == [ref]
  {
    var r := Document(main, ref, Some(edge));
    var deps := [Dependency(main, Some([edge]))];
    DocumentComponents(main, ref, Some(edge));
    s := State(MergeByKey(codec, map[], r), r.sbom.value.metadata, [main], Some(deps));
    assert s.components.Keys == {LIBRARY};
    assert s.components[LIBRARY] == NewMergedComponent(Plain("library", ref), "");
    assert forall key, x :: RefOf(s, key, x) ==> x == ref;
    assert MainRef(s) == main;
    hide MergeByKey;
    hide NewMergedComponent;
    assert Resolves(s, main, main) && Resolves(s, edge, edge);
    hide Resolves;
    assert Normalizes(s, deps[0], deps[0]);
    assert NormalizesAll(s, deps, deps);
    assert forall x, y :: !HasEdge([], x, y);
    assert IsUnion(deps, [], deps);
    assert DependenciesMerged(s, r.sbom.value, None);
  }

  lemma SecondDocument(codec: Purl.Codec, s: State, main: Ref, ref: Ref, edge: Ref) returns (s': State)
    requires s.srcMetadata.Some? && s.srcMetadata.value.component.Some? && edge != ""
    requires LIBRARY in s.components && s.components[LIBRARY].bomRefs == [ref]
    ensures IsStep(codec, s, Document(main, edge, None), s') && s'.dependencies == s.dependencies
    ensures LIBRARY in s'.components && s'.components[LIBRARY].bomRefs == [ref, edge]
  {
    var r := Document(main, edge, None);
    DocumentComponents(main, edge, None);
    hide MergeComponents;
    var header := MergeHeader(codec, s, r);
    s' := State(MergeByKey(codec, s.components, r), header.srcMetadata, header.srcRefs, s.dependencies);
    assert s'.components[LIBRARY] == HandleExisting(codec, s.components[LIBRARY], Plain("library", edge), "");
  }

  lemma UniqueDocuments(main: Ref, ref: Ref, edge: Ref)
    requires main != "" && ref != "" && edge != "" && main != ref && edge != ref && edge != main
    ensures RefsUnique([Document(main, ref, Some(edge)), Document(main, edge, None)])
  {
    var results := [Document(main, ref, Some(edge)), Document(main, edge, None)];
    DocumentComponents(main, ref, Some(edge));
    DocumentComponents(main, edge, None);
    forall i, k, x | 0 <= i < |results| && Declares(results[i], k, x)
      ensures k == LIBRARY && x != main
    {
    }
    forall i, x | 0 <= i < |results| && DeclaresMain(results[i], x)
      ensures x == main
    {
    }
    hide Declares;
    hide DeclaresMain;
  }

  /**
   Why an edge must not be used before its ends are declared: the library's first document calls
   it `ref`, the second `edge`; the edge to `edge` stays, although `edge` now stands for `ref`.
   */
  lemma LateDeclarationIsMissed(codec: Purl.Codec, main: Ref, ref: Ref, edge: Ref)
      returns (states: seq<State>, results: seq<Results>)
    requires main != "" && ref != "" && edge != "" && main != ref && edge != ref && edge != main
    ensures IsRun(codec, states, results) && RefsUnique(results)
    ensures HasEdge(states[|results|].dependencies.GetOr([]), main, edge)
    ensures !IsImage(states[|results|], results, main, edge)
  {
    var s1 := FirstDocument(codec, main, ref, edge);
    var s2 := SecondDocument(codec, s1, main, ref, edge);
    UniqueDocuments(main, ref, edge);
    results := [Document(main, ref, Some(edge)), Document(main, edge, None)];
    states := [INITIAL, s1, s2];
    TwoSteps(codec, INITIAL, s1, s2, results[0], results[1]);
    hide *;
    RunRecords(codec, states, results);
    CanonOfEdge(s2, results, ref, edge);
    StaleEdge(main, ref, edge, s2, results);
  }

  lemma TwoSteps(codec: Purl.Codec, s0: State, s1: State, s2: State, r1: Results, r2: Results)
    requires s0 == INITIAL && IsStep(codec, s0, r1, s1) && IsStep(codec, s1, r2, s2)
    ensures IsRun(codec, [s0, s1, s2], [r1, r2])
  {
    hide IsStep;
  }

  lemma CanonOfEdge(s: State, results: seq<Results>, ref: Ref, edge: Ref)
    requires Records(s, results) && RefsUnique(results)
    requires LIBRARY in s.components && s.components[LIBRARY].bomRefs == [ref, edge]
    ensures Canon(s, edge) == ref
  {
    CanonMeaning(s, results, edge);
    hide Records;
    hide RefsUnique;
    hide Canon;
    assert RefOf(s, LIBRARY, edge);
  }

  lemma StaleEdge(main: Ref, ref: Ref, edge: Ref, s: State, results: seq<Results>)
    requires results == [Document(main, ref, Some(edge)), Document(main, edge, None)]
    requires s.dependencies == Some([Dependency(main, Some([edge]))]) && Canon(s, edge) == ref != edge
    ensures HasEdge(s.dependencies.GetOr([]), main, edge) && !IsImage(s, results, main, edge)
  {
    hide Canon;
    var deps := [Dependency(main, Some([edge]))];
    assert deps[0].ref == main && edge in deps[0].dependsOn.value;
    forall i, a, b | 0 <= i < |results| && EdgeIn(results[i], a, b)
      ensures b == edge
    {
      assert !HasEdge([], a, b);
    }
    hide EdgeIn;
  }

  // ---------- Running the merges ----------

  predicate HasMetadata(r: Results) {
    r.sbom.Some? && r.sbom.value.metadata.Some?
  }

  predicate HasMain(r: Results) {
    r.sbom.Some? && MainOf(r.sbom.value).Some?
  }

  /**
   A document with a source hash has a main component; and once a document with metadata has been
   merged, it and all later ones have one.
   */
  ghost predicate Mergeable(results: seq<Results>) {
    && (forall i :: 0 <= i < |results| && results[i].sbom.Some? && results[i].sourceHash != "" ==> HasMain(results[i]))
    && (forall i, j :: 0 <= i < j < |results| && HasMetadata(results[i]) && results[j].sbom.Some? ==>
         HasMain(results[i]) && HasMain(results[j]))
  }

  ghost predicate SomeMetadata(results: seq<Results>) {
    exists i :: 0 <= i < |results| && HasMetadata(results[i])
  }

  ghost predicate SomeMetadataWithoutMain(results: seq<Results>) {
    exists i :: 0 <= i < |results| && HasMetadata(results[i]) && !HasMain(results[i])
  }

  ghost predicate HeaderOf(s: State, results: seq<Results>) {
    && (s.srcMetadata.Some? <==> SomeMetadata(results))
    && (s.srcMetadata.Some? && s.srcMetadata.value.component.None? <==> SomeMetadataWithoutMain(results))
  }

  lemma OneMoreResult(results: seq<Results>, r: Results)
    ensures SomeMetadata(results + [r]) <==> SomeMetadata(results) || HasMetadata(r)
    ensures SomeMetadataWithoutMain(results + [r]) <==>
      SomeMetadataWithoutMain(results) || (HasMetadata(r) && !HasMain(r))
    ensures Mergeable(results + [r]) <==>
      && Mergeable(results)
      && (r.sbom.Some? && r.sourceHash != "" ==> HasMain(r))
      && (r.sbom.Some? && SomeMetadata(results) ==> !SomeMetadataWithoutMain(results) && HasMain(r))
  {
    hide HasMain;
    hide HasMetadata;
    var all := results + [r];
    assert all[|results|] == r && forall i :: 0 <= i < |results| ==> all[i] == results[i];
    if SomeMetadata(results) { var i :| 0 <= i < |results| && HasMetadata(results[i]); assert HasMetadata(all[i]); }
    if SomeMetadataWithoutMain(results) {
      var i :| 0 <= i < |results| && HasMetadata(results[i]) && !HasMain(results[i]);
      assert HasMetadata(all[i]) && !HasMain(all[i]);
    }
  }

  /** Without a nil dereference so far, the next Merge has none exactly when the results with it are mergeable. */
  lemma SafeIffMergeable(codec: Purl.Codec, s: State, results: seq<Results>, r: Results)
    requires HeaderOf(s, results) && Mergeable(results)
    ensures Safe(codec, s, r) <==> Mergeable(results + [r])
  {
    OneMoreResult(results, r);
    hide MergeComponents;
    hide Mergeable;
    hide SomeMetadata;
    hide SomeMetadataWithoutMain;
  }

  lemma StepKeepsHeader(codec: Purl.Codec, s: State, results: seq<Results>, r: Results, s': State)
    requires HeaderOf(s, results) && IsStep(codec, s, r, s')
    ensures HeaderOf(s', results + [r])
  {
    OneMoreResult(results, r);
    hide MergeComponents;
    hide Mergeable;
    hide SomeMetadata;
    hide SomeMetadataWithoutMain;
    hide DependenciesMerged;
    hide MergeByKey;
  }

  /** Exactly the mergeable sequences of results have a run: the others end in a nil dereference. */
  lemma {:induction false} RunsAreMergeable(codec: Purl.Codec, states: seq<State>, results: seq<Results>)
    requires IsRun(codec, states, results)
    ensures HeaderOf(states[|results|], results) && Mergeable(results)
  {
    hide IsStep;
    if results == [] {
    } else {
      var n := |results| - 1;
      RunsAreMergeable(codec, states[..n + 1], results[..n]);
      var s, r := states[n], results[n];
      assert IsStep(codec, s, r, states[n + 1]);
      assert results == results[..n] + [r];
      StepKeepsHeader(codec, s, results[..n], r, states[n + 1]);
      SafeIffMergeable(codec, s, results[..n], r);
      StepIsSafe(codec, s, r, states[n + 1]);
    }
  }

  lemma StepIsSafe(codec: Purl.Codec, s: State, r: Results, s': State)
    requires IsStep(codec, s, r, s')
    ensures Safe(codec, s, r)
  {
    hide Safe;
  }

  /** A document without metadata, as an analyzer that knows nothing of its input returns it. */
  const NO_METADATA := Results(Some(Bom(None, None, None)), "", "")

  /** It merges first, but after a document with a main component it is dereferenced through nil. */
  lemma SecondWithoutMetadata(codec: Purl.Codec, main: Ref, ref: Ref, edge: Ref)
      returns (states: seq<State>, results: seq<Results>)
    requires main != "" && ref != "" && main != ref && edge != ref && edge != main
    ensures Mergeable([NO_METADATA])
    ensures IsRun(codec, states, results) && |results| == 1
    ensures !Safe(codec, states[1], NO_METADATA) && !Mergeable(results + [NO_METADATA])
  {
    var s := FirstDocument(codec, main, ref, edge);
    states, results := [INITIAL, s], [Document(main, ref, Some(edge))];
    hide IsStep;
    assert HasMetadata(results[0]) && !HasMain(NO_METADATA);
    assert (results + [NO_METADATA])[0] == results[0] && (results + [NO_METADATA])[1] == NO_METADATA;
  }

  lemma MergeablePrefix(results: seq<Results>, n: nat)
    requires n <= |results| && Mergeable(results)
    ensures Mergeable(results[..n])
  {
  }

  /** The loop that merges the analyzers' results into a new object; the run it makes is a ghost result. */
  method MergeEach(codec: Purl.Codec, results: seq<Results>)
      returns (merged: SbomMerge.MergedResults, ghost states: seq<State>)
    requires Mergeable(results)
    ensures IsRun(codec, states, results) && merged.View() == states[|results|]
  {
    merged := new SbomMerge.MergedResults(codec);
    states := [merged.View()];
    for n := 0 to |results|
      invariant fresh(merged) && merged.codec == codec && Valid(merged.View())
      invariant IsRun(codec, states, results[..n]) && merged.View() == states[n]
    {
      hide IsStep;
      hide Safe;
      ghost var before := merged.View();
      RunsAreMergeable(codec, states, results[..n]);
      MergeablePrefix(results, n + 1);
      assert results[..n + 1] == results[..n] + [results[n]];
      SafeIffMergeable(codec, before, results[..n], results[n]);
      hide Mergeable;
      hide HeaderOf;
      merged.Merge(results[n]);
      StepOf(codec, before, results[n], merged.View());
      hide Merged;
      assert results[..n + 1][..n] == results[..n];
      states := states + [merged.View()];
    }
    assert results[..|results|] == results;
  }

  lemma StepOf(codec: Purl.Codec, s: State, r: Results, s': State)
    requires Safe(codec, s, r) && Merged(codec, s, r, s')
    ensures IsStep(codec, s, r, s')
  {
    hide Safe;
    hide Merged;
  }
}
