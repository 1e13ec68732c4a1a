/** What the fields of a merged component are made of, over any sequence of Merge calls. */
module SbomFields {
  import opened Common
  import opened Sbom
  import opened SbomMergeSpec
  import opened SbomRuns
  import Purl

  // ---------- The first value given ----------

  /** v is the first value that is not empty, or empty if all are. */
  ghost predicate FirstGiven(v: string, values: seq<string>) {
    if forall i :: 0 <= i < |values| ==> values[i] == "" then v == ""
    else exists i :: FirstGivenAt(values, i) && v == values[i]
  }

  ghost predicate FirstGivenAt(values: seq<string>, i: int) {
    0 <= i < |values| && values[i] != "" && forall j :: 0 <= j < i ==> values[j] == ""
  }

  lemma NextGiven(v: string, values: seq<string>, x: string)
    requires FirstGiven(v, values)
    ensures FirstGiven(if v == "" then x else v, values + [x])
  {
    var all := values + [x];
    if i :| FirstGivenAt(values, i) && v == values[i] {
      assert FirstGivenAt(all, i) && all[i] == v;
    } else if x != "" {
      assert FirstGivenAt(all, |values|);
    }
  }

  lemma OneGiven(x: string)
    ensures FirstGiven(x, [x])
  {
    assert x != "" ==> FirstGivenAt([x], 0);
  }

  /** The same for parts that may be nil. */
  ghost predicate FirstPart<T>(v: Option<T>, values: seq<Option<T>>) {
    if forall i :: 0 <= i < |values| ==> values[i].None? then v.None?
    else exists i :: FirstPartAt(values, i) && v == values[i]
  }

  ghost predicate FirstPartAt<T>(values: seq<Option<T>>, i: int) {
    0 <= i < |values| && values[i].Some? && forall j :: 0 <= j < i ==> values[j].None?
  }

  lemma NextPart<T>(v: Option<T>, values: seq<Option<T>>, x: Option<T>)
    requires FirstPart(v, values)
    ensures FirstPart(IfNil(v, x), values + [x])
  {
    var all := values + [x];
    if i :| FirstPartAt(values, i) && v == values[i] {
      assert FirstPartAt(all, i) && all[i] == v;
    } else if x.Some? {
      assert FirstPartAt(all, |values|);
    }
  }

  lemma OnePart<T>(x: Option<T>)
    ensures FirstPart(x, [x])
  {
    assert x.Some? ==> FirstPartAt([x], 0);
  }

  // ---------- Fields, parts and lists ----------

  datatype Field = BomRef | Cpe | Author | Copyright | Description | Publisher | Group | Scope

  function Text(c: Component, f: Field): string {
    match f
    case BomRef => c.bomRef
    case Cpe => c.cpe
    case Author => c.author
    case Copyright => c.copyright
    case Description => c.description
    case Publisher => c.publisher
    case Group => c.group
    case Scope => c.scope
  }

  datatype Part = Evidence | ExternalReferences | Swid | Supplier

  function PartOf(c: Component, p: Part): Option<string> {
    match p
    case Evidence => c.evidence
    case ExternalReferences => c.externalReferences
    case Swid => c.swid
    case Supplier => c.supplier
  }

  function Texts(cs: seq<Component>, f: Field): seq<string> {
    seq(|cs|, i requires 0 <= i < |cs| => Text(cs[i], f))
  }

  function Parts(cs: seq<Component>, p: Part): seq<Option<string>> {
    seq(|cs|, i requires 0 <= i < |cs| => PartOf(cs[i], p))
  }

  /** All licenses, in order, duplicates kept. */
  function Licenses(cs: seq<Component>): seq<string> {
    if cs == [] then [] else Licenses(cs[..|cs| - 1]) + cs[|cs| - 1].licenses.GetOr([])
  }

  function Hashes(cs: seq<Component>): seq<Option<seq<string>>> {
    seq(|cs|, i requires 0 <= i < |cs| => cs[i].hashes)
  }

  /** No component has a list of licenses, be it an empty one. */
  ghost predicate NoLicenses(cs: seq<Component>) {
    forall i :: 0 <= i < |cs| ==> cs[i].licenses.None?
  }

  /** What a merged component takes from the components it is made of: first values, and all licenses. */
  ghost predicate TakesFirst(c: Component, cs: seq<Component>) {
    && (forall f :: FirstGiven(Text(c, f), Texts(cs, f)))
    && (forall p :: FirstPart(PartOf(c, p), Parts(cs, p)))
    && c.licenses.GetOr([]) == Licenses(cs)
    && (c.licenses.None? <==> NoLicenses(cs))
  }

  /** Two components that differ at most in what TakesFirst does not look at. */
  ghost predicate Alike(c: Component, d: Component) {
    && (forall f :: Text(c, f) == Text(d, f)) && (forall p :: PartOf(c, p) == PartOf(d, p))
    && c.licenses == d.licenses && c.packageUrl == d.packageUrl && c.name == d.name && c.version == d.version
  }

  lemma OneTakesFirst(c: Component)
    ensures TakesFirst(c, [c])
  {
    assert [c][..0] == [];
    assert Licenses([c]) == c.licenses.GetOr([]);
    hide Text;
    hide PartOf;
    forall f
      ensures FirstGiven(Text(c, f), Texts([c], f))
    {
      OneGiven(Text(c, f));
      assert Texts([c], f) == [Text(c, f)];
    }
    forall p
      ensures FirstPart(PartOf(c, p), Parts([c], p))
    {
      OnePart(PartOf(c, p));
      assert Parts([c], p) == [PartOf(c, p)];
    }
  }

  lemma MergedFields(codec: Purl.Codec, m: Component, o: Component, main: bool)
    ensures var m' := MergeComponents(codec, m, o, main);
            && (forall f :: Text(m', f) == if Text(m, f) == "" then Text(o, f) else Text(m, f))
            && (forall p :: PartOf(m', p) == IfNil(PartOf(m, p), PartOf(o, p)))
            && m'.licenses.GetOr([]) == m.licenses.GetOr([]) + o.licenses.GetOr([])
            && (m'.licenses.None? <==> m.licenses.None? && o.licenses.None?)
  {
    hide Purl.MergePurlStrings;
    hide MergeProperties;
    hide IfNil;
  }

  lemma NextTakesFirst(codec: Purl.Codec, m: Component, o: Component, main: bool, cs: seq<Component>)
    requires TakesFirst(m, cs)
    ensures TakesFirst(MergeComponents(codec, m, o, main), cs + [o])
  {
    MergedFields(codec, m, o, main);
    hide Text;
    hide PartOf;
    hide MergeComponents;
    var m' := MergeComponents(codec, m, o, main);
    assert (cs + [o])[..|cs|] == cs;
    assert NoLicenses(cs + [o]) <==> NoLicenses(cs) && o.licenses.None? by {
      assert (cs + [o])[|cs|] == o && forall i :: 0 <= i < |cs| ==> (cs + [o])[i] == cs[i];
    }
    hide NoLicenses;
    forall f
      ensures FirstGiven(Text(m', f), Texts(cs + [o], f))
    {
      NextGiven(Text(m, f), Texts(cs, f), Text(o, f));
      assert Texts(cs + [o], f) == Texts(cs, f) + [Text(o, f)];
    }
    forall p
      ensures FirstPart(PartOf(m', p), Parts(cs + [o], p))
    {
      NextPart(PartOf(m, p), Parts(cs, p), PartOf(o, p));
      assert Parts(cs + [o], p) == Parts(cs, p) + [PartOf(o, p)];
    }
  }

  lemma AlikeTakesFirst(c: Component, d: Component, cs: seq<Component>)
    requires TakesFirst(c, cs) && Alike(c, d)
    ensures TakesFirst(d, cs)
  {
    hide Text;
    hide PartOf;
  }

  // ---------- Package URLs ----------

  datatype PurlField = Scheme | Type | Namespace | Name | Version | Subpath

  function PurlText(p: Purl.Purl, f: PurlField): string {
    match f
    case Scheme => p.scheme
    case Type => p.typ
    case Namespace => p.namespace
    case Name => p.name
    case Version => p.version
    case Subpath => p.subpath
  }

  function PurlTexts(ps: seq<Purl.Purl>, f: PurlField): seq<string> {
    seq(|ps|, i requires 0 <= i < |ps| => PurlText(ps[i], f))
  }

  ghost predicate FirstWithKey(ps: seq<Purl.Purl>, k: string, i: int) {
    0 <= i < |ps| && k in ps[i].qualifiers && forall j :: 0 <= j < i ==> k !in ps[j].qualifiers
  }

  /** The values that purl i, the first to have qualifier k, contributes: beyond the first purl, only one. */
  ghost predicate QualifierFrom(ps: seq<Purl.Purl>, k: string, values: seq<string>, i: int) {
    && FirstWithKey(ps, k, i)
    && var given := ps[i].qualifiers[k];
       values == if i == 0 then given else if given == [] then [""] else given[..1]
  }

  ghost predicate QualifierMerged(p: Purl.Purl, ps: seq<Purl.Purl>, k: string) {
    if k in p.qualifiers then exists i :: QualifierFrom(ps, k, p.qualifiers[k], i)
    else forall i :: 0 <= i < |ps| ==> k !in ps[i].qualifiers
  }

  /** Every part of p is the first one given by ps, qualifier by qualifier. */
  ghost predicate PurlTakesFirst(p: Purl.Purl, ps: seq<Purl.Purl>) {
    && (forall f :: FirstGiven(PurlText(p, f), PurlTexts(ps, f)))
    && (forall k :: QualifierMerged(p, ps, k))
  }

  lemma OnePurl(p: Purl.Purl)
    ensures PurlTakesFirst(p, [p])
  {
    hide PurlText;
    forall f
      ensures FirstGiven(PurlText(p, f), PurlTexts([p], f))
    {
      OneGiven(PurlText(p, f));
      assert PurlTexts([p], f) == [PurlText(p, f)];
    }
    forall k
      ensures QualifierMerged(p, [p], k)
    {
      assert k in p.qualifiers ==> QualifierFrom([p], k, p.qualifiers[k], 0);
    }
  }

  lemma NextQualifier(p: Purl.Purl, ps: seq<Purl.Purl>, o: Purl.Purl, k: string)
    requires QualifierMerged(p, ps, k) && ps != []
    ensures QualifierMerged(Purl.MergedPurl(p, o), ps + [o], k)
  {
    var all, m := ps + [o], Purl.MergedPurl(p, o);
    if k in p.qualifiers {
      var i :| QualifierFrom(ps, k, p.qualifiers[k], i);
      assert forall j :: 0 <= j <= i ==> all[j] == ps[j];
      assert QualifierFrom(all, k, m.qualifiers[k], i);
    } else if k in o.qualifiers {
      assert QualifierFrom(all, k, m.qualifiers[k], |ps|);
    }
  }

  lemma MergedPurlText(p: Purl.Purl, o: Purl.Purl)
    ensures forall f :: PurlText(Purl.MergedPurl(p, o), f) == if PurlText(p, f) == "" then PurlText(o, f)
      else PurlText(p, f)
  {
    hide Purl.MergeQualifiers;
  }

  lemma NextPurl(p: Purl.Purl, ps: seq<Purl.Purl>, o: Purl.Purl)
    requires PurlTakesFirst(p, ps) && ps != []
    ensures PurlTakesFirst(Purl.MergedPurl(p, o), ps + [o])
  {
    MergedPurlText(p, o);
    hide PurlText;
    hide Purl.MergedPurl;
    forall f
      ensures FirstGiven(PurlText(Purl.MergedPurl(p, o), f), PurlTexts(ps + [o], f))
    {
      NextGiven(PurlText(p, f), PurlTexts(ps, f), PurlText(o, f));
      assert PurlTexts(ps + [o], f) == PurlTexts(ps, f) + [PurlText(o, f)];
    }
    hide QualifierMerged;
    forall k
      ensures QualifierMerged(Purl.MergedPurl(p, o), ps + [o], k)
    {
      NextQualifier(p, ps, o, k);
    }
  }

  function Purls(codec: Purl.Codec, cs: seq<Component>): seq<Purl.Purl> {
    seq(|cs|, i requires 0 <= i < |cs| => Purl.FromString(codec, cs[i].packageUrl))
  }

  /** The merge of all purls, as if none were printed in between. */
  function FirstOf(ps: seq<Purl.Purl>): Purl.Purl
    requires ps != []
  {
    var n := |ps| - 1;
    if n == 0 then ps[0] else Purl.MergedPurl(FirstOf(ps[..n]), ps[n])
  }

  /** The same with every merge printed and read back. */
  ghost function ReadFold(ps: seq<Purl.Purl>): Purl.Purl
    requires ps != []
  {
    var n := |ps| - 1;
    if n == 0 then ps[0] else Purl.Reread(Purl.MergedPurl(ReadFold(ps[..n]), ps[n]))
  }

  lemma {:induction false} FirstOfTakesFirst(ps: seq<Purl.Purl>)
    requires ps != []
    ensures PurlTakesFirst(FirstOf(ps), ps)
  {
    hide PurlTakesFirst;
    var n := |ps| - 1;
    assert ps == ps[..n] + [ps[n]];
    if n == 0 {
      OnePurl(ps[0]);
    } else {
      FirstOfTakesFirst(ps[..n]);
      NextPurl(FirstOf(ps[..n]), ps[..n], ps[n]);
    }
  }

  /** The merges of the first 2, 3, ... purls are empty, or have a namespace or a valid type. */
  ghost predicate MergesSurvive(ps: seq<Purl.Purl>) {
    forall n :: 2 <= n <= |ps| ==> Purl.Survives(FirstOf(ps[..n]))
  }

  /** Reading back is harmless at every stage exactly when all merges survive it. */
  lemma {:induction false} ReadFoldIsFirstOf(ps: seq<Purl.Purl>)
    requires ps != []
    ensures (forall n :: 1 <= n <= |ps| ==> ReadFold(ps[..n]) == FirstOf(ps[..n])) <==> MergesSurvive(ps)
  {
    var n := |ps| - 1;
    hide Purl.MergedPurl;
    hide Purl.Survives;
    assert ps[..n + 1] == ps;
    if n == 0 {
    } else {
      var init := ps[..n];
      ReadFoldIsFirstOf(init);
      assert forall m :: 1 <= m <= n ==> init[..m] == ps[..m];
      assert init[..n] == init;
      RereadIsItself(FirstOf(ps));
      hide FirstOf;
      hide ReadFold;
      hide Purl.Reread;
      assert (forall m :: 1 <= m <= n ==> ReadFold(ps[..m]) == FirstOf(ps[..m])) <==>
        forall m :: 2 <= m <= n ==> Purl.Survives(FirstOf(ps[..m]));
    }
  }

  lemma RereadIsItself(p: Purl.Purl)
    ensures Purl.Reread(p) == p <==> Purl.Survives(p)
  {
    if p.typ == "alpine" { assert p.(typ := "apk", namespace := "alpine").typ != p.typ; }
  }

  lemma FoldOne(p: Purl.Purl)
    ensures ReadFold([p]) == p && FirstOf([p]) == p
  {
    hide Purl.MergedPurl;
    hide Purl.Reread;
  }

  lemma FoldStep(init: seq<Purl.Purl>, last: Purl.Purl)
    requires init != []
    ensures ReadFold(init + [last]) == Purl.Reread(Purl.MergedPurl(ReadFold(init), last))
    ensures FirstOf(init + [last]) == Purl.MergedPurl(FirstOf(init), last)
  {
    assert (init + [last])[..|init|] == init;
    hide Purl.MergedPurl;
    hide Purl.Reread;
  }

  /** Once a merge has been lost, the fold goes on as if the purls so far had been the empty one. */
  lemma {:induction false} ReadFoldRestarts(lost: seq<Purl.Purl>, rest: seq<Purl.Purl>)
    requires lost != [] && ReadFold(lost) == Purl.NEW_PURL
    ensures ReadFold(lost + rest) == ReadFold([Purl.NEW_PURL] + rest)
  {
    hide *;
    if rest == [] {
      FoldOne(Purl.NEW_PURL);
      assert lost + rest == lost && [Purl.NEW_PURL] + rest == [Purl.NEW_PURL];
    } else {
      var n := |rest| - 1;
      ReadFoldRestarts(lost, rest[..n]);
      FoldStep(lost + rest[..n], rest[n]);
      FoldStep([Purl.NEW_PURL] + rest[..n], rest[n]);
      assert lost + rest == (lost + rest[..n]) + [rest[n]];
      assert [Purl.NEW_PURL] + rest == ([Purl.NEW_PURL] + rest[..n]) + [rest[n]];
    }
  }

  /**
   So after a loss the final purl is the first of what came later, if all later merges survive;
   it is then the first of everything exactly when the two agree.
   */
  lemma FinalAfterLoss(lost: seq<Purl.Purl>, rest: seq<Purl.Purl>)
    requires lost != [] && ReadFold(lost) == Purl.NEW_PURL && MergesSurvive([Purl.NEW_PURL] + rest)
    ensures ReadFold(lost + rest) == FirstOf([Purl.NEW_PURL] + rest)
    ensures ReadFold(lost + rest) == FirstOf(lost + rest) <==> FirstOf([Purl.NEW_PURL] + rest) == FirstOf(lost + rest)
  {
    var restarted := [Purl.NEW_PURL] + rest;
    hide *;
    ReadFoldRestarts(lost, rest);
    ReadFoldIsFirstOf(restarted);
    assert restarted[..|restarted|] == restarted;
  }

  /** "pkg:foo//n@1" given twice is lost; given a third time with a namespace, what was lost comes back. */
  lemma LostAndFound()
    ensures var p := Purl.Purl("pkg", "foo", "", "n", "1", map[], "");
            var q := p.(namespace := "ns");
            && ReadFold([p, p]) == Purl.NEW_PURL != FirstOf([p, p])
            && ReadFold([p, p, q]) == q == FirstOf([p, p, q])
  {
    var p := Purl.Purl("pkg", "foo", "", "n", "1", map[], "");
    var q := p.(namespace := "ns");
    SomeMerges(p, q);
    SomeReread(p, q);
    hide *;
    FoldOne(p);
    FoldStep([p], p);
    FoldStep([p, p], q);
    assert [p] + [p] == [p, p] && [p, p] + [q] == [p, p, q];
  }

  lemma SomeMerges(p: Purl.Purl, q: Purl.Purl)
    requires p == Purl.Purl("pkg", "foo", "", "n", "1", map[], "") && q == p.(namespace := "ns")
    ensures Purl.MergedPurl(p, p) == p && Purl.MergedPurl(p, q) == q && Purl.MergedPurl(Purl.NEW_PURL, q) == q
  {
  }

  lemma SomeReread(p: Purl.Purl, q: Purl.Purl)
    requires p == Purl.Purl("pkg", "foo", "", "n", "1", map[], "") && q == p.(namespace := "ns")
    ensures Purl.Reread(p) == Purl.NEW_PURL && Purl.Reread(q) == q
  {
    assert !Purl.IsValidPurlType("foo") && p.typ != "alpine" by { assert |"alpine"| != |"foo"|; }
    assert Purl.ToLower("pkg") == "pkg";
  }

  /** What the merged package URL means: the fold of those given, each merge printed and read back. */
  ghost predicate PurlMerged(codec: Purl.Codec, c: Component, cs: seq<Component>)
    requires cs != []
  {
    Purl.Lawful(codec) ==> Purl.FromString(codec, c.packageUrl) == ReadFold(Purls(codec, cs))
  }

  lemma OnePurlMerged(codec: Purl.Codec, c: Component)
    ensures PurlMerged(codec, c, [c])
  {
    hide Purl.FromString;
    hide Purl.Lawful;
  }

  lemma NextPurlMerged(codec: Purl.Codec, m: Component, o: Component, m': Component, cs: seq<Component>)
    requires cs != [] && PurlMerged(codec, m, cs)
    requires m'.packageUrl == Purl.MergePurlStrings(codec, m.packageUrl, o.packageUrl)
    ensures PurlMerged(codec, m', cs + [o])
  {
    var ps, q := Purls(codec, cs), Purl.FromString(codec, o.packageUrl);
    assert Purls(codec, cs + [o]) == ps + [q];
    assert (ps + [q])[..|ps|] == ps;
    if Purl.Lawful(codec) { Purl.MergedPurlMeaning(codec, m.packageUrl, o.packageUrl); }
    hide Purls;
    hide Purl.Lawful;
    hide Purl.Reread;
    hide Purl.FromString;
    hide Purl.MergedPurl;
    hide Purl.MergePurlStrings;
  }

  /** When all merges survive, the merged package URL has the first of everything given. */
  lemma PurlHasFirst(codec: Purl.Codec, c: Component, cs: seq<Component>)
    requires Purl.Lawful(codec) && cs != [] && PurlMerged(codec, c, cs) && MergesSurvive(Purls(codec, cs))
    ensures PurlTakesFirst(Purl.FromString(codec, c.packageUrl), Purls(codec, cs))
  {
    var ps := Purls(codec, cs);
    ReadFoldIsFirstOf(ps);
    FirstOfTakesFirst(ps);
    assert ps[..|ps|] == ps;
    hide PurlTakesFirst;
    hide FirstOf;
    hide ReadFold;
    hide Purl.Lawful;
    hide Purl.FromString;
    hide MergesSurvive;
  }

  // ---------- Components ----------

  datatype Contribution = Contribution(component: Component, info: string)

  /** What the documents say about component k, in merge order. */
  function Contributions(results: seq<Results>, k: ComponentKey): seq<Contribution> {
    if results == [] then []
    else
      var n := |results| - 1;
      Contributions(results[..n], k) +
      (if k in ComponentsOf(results[n]) then [Contribution(ComponentsOf(results[n])[k], results[n].analyzerInfo)]
        else [])
  }

  function Components(cs: seq<Contribution>): seq<Component> {
    seq(|cs|, i requires 0 <= i < |cs| => cs[i].component)
  }

  function Infos(cs: seq<Contribution>): seq<string> {
    seq(|cs|, i requires 0 <= i < |cs| => cs[i].info)
  }

  /** All properties, each contribution's followed by the name of the analyzer it came from. */
  function AllProperties(cs: seq<Contribution>): seq<Property> {
    if cs == [] then []
    else
      var last := cs[|cs| - 1];
      AllProperties(cs[..|cs| - 1]) + last.component.properties.GetOr([]) + [Property("analyzers", last.info)]
  }

  ghost predicate Summarizes(codec: Purl.Codec, m: MergedComponent, cs: seq<Contribution>) {
    && cs != []
    && (m.component.name, m.component.version, m.component.rest) ==
      (cs[0].component.name, cs[0].component.version, cs[0].component.rest)
    && TakesFirst(m.component, Components(cs))
    && PurlMerged(codec, m.component, Components(cs))
    && FirstPart(m.component.hashes, Hashes(Components(cs)))
    && m.component.properties == Some(AllProperties(cs))
    && m.analyzerInfo == Infos(cs)
  }

  lemma FirstContribution(codec: Purl.Codec, c: Component, info: string)
    ensures Summarizes(codec, NewMergedComponent(c, info), [Contribution(c, info)])
  {
    var cs := [Contribution(c, info)];
    var m := NewMergedComponent(c, info);
    assert cs[..0] == [];
    assert AllProperties(cs) == c.properties.GetOr([]) + [Property("analyzers", info)];
    assert Components(cs) == [c];
    assert Alike(c, m.component);
    OneTakesFirst(c);
    AlikeTakesFirst(c, m.component, [c]);
    OnePurlMerged(codec, c);
    OnePart(c.hashes);
    assert Hashes([c]) == [c.hashes];
    hide TakesFirst;
    hide FirstPart;
    assert PurlMerged(codec, m.component, [c]) by { hide Purl.FromString; hide Purl.Lawful; }
  }

  /** What HandleExisting adds to the merge of the two components. */
  lemma HandledParts(codec: Purl.Codec, m: MergedComponent, c: Component, info: string)
    ensures var m' := HandleExisting(codec, m, c, info);
            && Alike(MergeComponents(codec, m.component, c, false), m'.component)
            && (m'.component.name, m'.component.version, m'.component.rest) ==
                 (m.component.name, m.component.version, m.component.rest)
            && m'.component.packageUrl == Purl.MergePurlStrings(codec, m.component.packageUrl, c.packageUrl)
            && m'.component.hashes == IfNil(m.component.hashes, c.hashes)
            && m'.component.properties ==
                 Some(m.component.properties.GetOr([]) + c.properties.GetOr([]) + [Property("analyzers", info)])
            && m'.analyzerInfo == m.analyzerInfo + [info]
  {
    hide Purl.MergePurlStrings;
    assert MergeProperties(m.component.properties, c.properties).GetOr([]) ==
      m.component.properties.GetOr([]) + c.properties.GetOr([]);
    hide MergeProperties;
    hide MergeLicenses;
    hide IfEmpty;
    hide IfNil;
  }

  lemma NextContribution(codec: Purl.Codec, m: MergedComponent, cs: seq<Contribution>, c: Component, info: string)
    requires Summarizes(codec, m, cs)
    ensures Summarizes(codec, HandleExisting(codec, m, c, info), cs + [Contribution(c, info)])
  {
    var o := Contribution(c, info);
    var m' := HandleExisting(codec, m, c, info);
    HandledParts(codec, m, c, info);
    ContributionLists(cs, o);
    NextTakesFirst(codec, m.component, c, false, Components(cs));
    hide *;
    AlikeTakesFirst(MergeComponents(codec, m.component, c, false), m'.component, Components(cs + [o]));
    NextPurlMerged(codec, m.component, c, m'.component, Components(cs));
    NextPart(m.component.hashes, Hashes(Components(cs)), c.hashes);
  }

  lemma ContributionLists(cs: seq<Contribution>, o: Contribution)
    ensures Components(cs + [o]) == Components(cs) + [o.component]
    ensures Hashes(Components(cs) + [o.component]) == Hashes(Components(cs)) + [o.component.hashes]
    ensures AllProperties(cs + [o]) ==
      AllProperties(cs) + o.component.properties.GetOr([]) + [Property("analyzers", o.info)]
    ensures Infos(cs + [o]) == Infos(cs) + [o.info]
  {
    assert (cs + [o])[..|cs|] == cs;
  }

  /**
   After any sequence of merges a component is in the result exactly when some document has it;
   each text field and part and the hashes are the first given, licenses and properties are
   concatenated, and the package URL is the fold of those given.
   */
  lemma {:induction false} ComponentsSummarize(codec: Purl.Codec, states: seq<State>, results: seq<Results>,
      k: ComponentKey)
    requires IsRun(codec, states, results)
    ensures var m := states[|results|].components;
            && (k in m <==> Contributions(results, k) != [])
            && (k in m ==> Summarizes(codec, m[k], Contributions(results, k)))
  {
    hide IsStep;
    hide Summarizes;
    hide HandleExisting;
    hide NewMergedComponent;
    if results == [] {
    } else {
      var n := |results| - 1;
      ComponentsSummarize(codec, states[..n + 1], results[..n], k);
      assert IsStep(codec, states[n], results[n], states[n + 1]);
      StepComponents(codec, states[n], results[n], states[n + 1]);
      var cs := Contributions(results[..n], k);
      if k in ComponentsOf(results[n]) {
        var c := ComponentsOf(results[n])[k];
        if k in states[n].components {
          NextContribution(codec, states[n].components[k], cs, c, results[n].analyzerInfo);
        } else {
          FirstContribution(codec, c, results[n].analyzerInfo);
          assert Contributions(results, k) == [Contribution(c, results[n].analyzerInfo)];
        }
      } else {
        assert Contributions(results, k) == cs;
      }
    }
  }

  lemma StepComponents(codec: Purl.Codec, s: State, r: Results, s': State)
    requires IsStep(codec, s, r, s')
    ensures s'.components == MergeByKey(codec, s.components, r)
  {
    hide HandleExisting;
    hide NewMergedComponent;
    if r.sbom.None? {
      assert ComponentsOf(r) == map[];
      assert MergeByKey(codec, s.components, r) == s.components;
    }
  }

  /** Document i lists component j under key k. */
  ghost predicate ListedAt(results: seq<Results>, i: int, j: int, k: ComponentKey) {
    0 <= i < |results| && 0 <= j < |Listed(results[i])| && KeyOf(Listed(results[i])[j]) == k
  }

  lemma ListedStep(results: seq<Results>, k: ComponentKey)
    requires results != []
    ensures var n := |results| - 1;
            (exists i, j :: ListedAt(results, i, j, k)) <==>
            (exists i, j :: ListedAt(results[..n], i, j, k)) ||
            exists j :: 0 <= j < |Listed(results[n])| && KeyOf(Listed(results[n])[j]) == k
  {
    hide KeyOf;
    hide Listed;
    var n := |results| - 1;
    if i, j :| ListedAt(results[..n], i, j, k) { assert ListedAt(results, i, j, k); }
    if j :| 0 <= j < |Listed(results[n])| && KeyOf(Listed(results[n])[j]) == k { assert ListedAt(results, n, j, k); }
    if i, j :| ListedAt(results, i, j, k) { assert i < n ==> ListedAt(results[..n], i, j, k); }
  }

  /** A document contributes to k when it lists k, and then the last component it lists under k. */
  lemma {:induction false} ContributionsAreListed(results: seq<Results>, k: ComponentKey)
    ensures Contributions(results, k) != [] <==> exists i, j :: ListedAt(results, i, j, k)
    ensures forall c :: 0 <= c < |Contributions(results, k)| ==> KeyOf(Contributions(results, k)[c].component) == k
  {
    if results == [] {
    } else {
      var n := |results| - 1;
      ContributionsAreListed(results[..n], k);
      ComponentsOfMeaning(results[n], k);
      ListedStep(results, k);
      hide KeyOf;
      hide ComponentsOf;
      hide Listed;
      hide ListedAt;
    }
  }

  /** No component of any document is dropped, none is made up, and each stays under its name and version. */
  lemma NothingDropped(codec: Purl.Codec, states: seq<State>, results: seq<Results>, k: ComponentKey)
    requires IsRun(codec, states, results)
    ensures var m := states[|results|].components;
            && (k in m <==> exists i, j :: ListedAt(results, i, j, k))
            && (k in m ==> KeyOf(m[k].component) == k)
  {
    ComponentsSummarize(codec, states, results, k);
    ContributionsAreListed(results, k);
    hide IsStep;
    hide TakesFirst;
    hide PurlMerged;
    hide FirstPart;
    var m := states[|results|].components;
    if k in m {
      assert KeyOf(Contributions(results, k)[0].component) == k;
    }
  }

  // ---------- The main component ----------

  /** A main component, and the source hash that comes with the document. */
  datatype Described = Described(component: Component, sourceHash: string)

  function MainIn(r: Results): seq<Described> {
    if r.sbom.Some? && MainOf(r.sbom.value).Some? then [Described(MainOf(r.sbom.value).value, r.sourceHash)] else []
  }

  /** What the documents say about the main component, in merge order. */
  function Mains(results: seq<Results>): seq<Described> {
    if results == [] then [] else Mains(results[..|results| - 1]) + MainIn(results[|results| - 1])
  }

  function MainComponents(ds: seq<Described>): seq<Component> {
    seq(|ds|, i requires 0 <= i < |ds| => ds[i].component)
  }

  function MainState(s: State): Option<Component> {
    if s.srcMetadata.None? then None else s.srcMetadata.value.component
  }

  function VersionsOf(cs: seq<Component>): seq<string> {
    seq(|cs|, i requires 0 <= i < |cs| => cs[i].version)
  }

  /** All properties, in order; no analyzers' names here. */
  function Properties(cs: seq<Component>): seq<Property> {
    if cs == [] then [] else Properties(cs[..|cs| - 1]) + cs[|cs| - 1].properties.GetOr([])
  }

  ghost predicate NoProperties(cs: seq<Component>) {
    forall i :: 0 <= i < |cs| ==> cs[i].properties.None?
  }

  ghost predicate FirstHashes(ds: seq<Described>, i: int) {
    0 <= i < |ds| && ds[i].component.hashes.Some? && forall j :: 0 <= j < i ==> ds[j].component.hashes.None?
  }

  ghost predicate FirstSource(ds: seq<Described>, i: int) {
    0 <= i < |ds| && ds[i].sourceHash != "" && forall j :: 0 <= j < i ==> ds[j].sourceHash == ""
  }

  /** The first hashes given are not an empty list, and no source hash comes with an earlier document. */
  ghost predicate HashesCount(ds: seq<Described>, i: int) {
    FirstHashes(ds, i) && ds[i].component.hashes.value != [] && forall j :: 0 <= j < i ==> ds[j].sourceHash == ""
  }

  /** The first hashes given if they count, else the first source hash, else whatever was given first. */
  ghost predicate IsMainHashes(hashes: Option<seq<string>>, ds: seq<Described>) {
    if exists i :: HashesCount(ds, i) then exists i :: HashesCount(ds, i) && hashes == ds[i].component.hashes
    else if exists i :: FirstSource(ds, i) then exists i :: FirstSource(ds, i) && hashes == Some([ds[i].sourceHash])
    else FirstPart(hashes, Hashes(MainComponents(ds)))
  }

  ghost predicate FirstPackageName(cs: seq<Component>, i: int) {
    0 < i < |cs| && IsPackageName(cs[i].name) && forall j :: 0 < j < i ==> !IsPackageName(cs[j].name)
  }

  /** Names like "./app" and "/src"; a package name is one that is given and is no path. */
  predicate LooksLikePath(name: string) {
    name != "" && name[0] in "./"
  }

  predicate IsPackageName(name: string) {
    name != "" && !LooksLikePath(name)
  }

  /** The first name, unless that is a path and a later one is a package name: then the first of those. */
  ghost predicate IsMainName(name: string, cs: seq<Component>)
    requires cs != []
  {
    if LooksLikePath(cs[0].name) && exists i :: FirstPackageName(cs, i) then
      exists i :: FirstPackageName(cs, i) && name == cs[i].name
    else name == cs[0].name
  }

  /** What a main component says, its hashes apart. */
  ghost predicate MainFields(codec: Purl.Codec, c: Component, cs: seq<Component>) {
    && cs != []
    && IsMainName(c.name, cs)
    && FirstGiven(c.version, VersionsOf(cs))
    && TakesFirst(c, cs)
    && PurlMerged(codec, c, cs)
    && c.properties.GetOr([]) == Properties(cs)
    && (c.properties.None? <==> NoProperties(cs))
    && c.rest == cs[0].rest
  }

  lemma {:induction false} LeastPackageName(cs: seq<Component>, i: nat) returns (n: nat)
    requires 0 < i < |cs| && IsPackageName(cs[i].name)
    ensures FirstPackageName(cs, n)
  {
    hide IsPackageName;
    if j :| 0 < j < i && IsPackageName(cs[j].name) {
      n := LeastPackageName(cs, j);
    } else {
      n := i;
    }
  }

  lemma NextMainName(name: string, cs: seq<Component>, o: Component)
    requires cs != [] && IsMainName(name, cs)
    ensures IsMainName(if name != o.name then CheckMainComponentName(name, o.name) else name, cs + [o])
  {
    var all := cs + [o];
    assert forall i :: 0 <= i < |cs| ==> all[i] == cs[i];
    if i :| FirstPackageName(cs, i) && name == cs[i].name {
      assert FirstPackageName(all, i);
    } else {
      if i :| 0 < i < |cs| && IsPackageName(cs[i].name) {
        var n := LeastPackageName(cs, i);
      }
      assert IsPackageName(o.name) && LooksLikePath(cs[0].name) ==> FirstPackageName(all, |cs|);
    }
  }

  lemma OneMain(codec: Purl.Codec, c: Component)
    ensures MainFields(codec, c, [c])
  {
    OneTakesFirst(c);
    OnePurlMerged(codec, c);
    OneGiven(c.version);
    assert VersionsOf([c]) == [c.version];
    assert [c][..0] == [];
    assert Properties([c]) == c.properties.GetOr([]);
    hide TakesFirst;
    hide PurlMerged;
    hide FirstGiven;
  }

  lemma MergedMain(codec: Purl.Codec, m: Component, o: Component)
    ensures var m' := MergeComponents(codec, m, o, true);
            && m'.name == (if m.name != o.name then CheckMainComponentName(m.name, o.name) else m.name)
            && m'.version == (if m.version == "" then o.version else m.version)
            && m'.packageUrl == Purl.MergePurlStrings(codec, m.packageUrl, o.packageUrl)
            && m'.properties.GetOr([]) == m.properties.GetOr([]) + o.properties.GetOr([])
            && m'.hashes == IfNil(m.hashes, o.hashes)
            && (m'.properties.None? <==> m.properties.None? && o.properties.None?)
            && m'.rest == m.rest
  {
    hide Purl.MergePurlStrings;
    hide CheckMainComponentName;
    hide MergeLicenses;
    hide IfNil;
  }

  lemma MainLists(cs: seq<Component>, o: Component)
    ensures VersionsOf(cs + [o]) == VersionsOf(cs) + [o.version]
    ensures Properties(cs + [o]) == Properties(cs) + o.properties.GetOr([])
    ensures NoProperties(cs + [o]) <==> NoProperties(cs) && o.properties.None?
  {
    assert (cs + [o])[..|cs|] == cs;
    assert (cs + [o])[|cs|] == o && forall i :: 0 <= i < |cs| ==> (cs + [o])[i] == cs[i];
  }

  lemma NextMain(codec: Purl.Codec, m: Component, o: Component, cs: seq<Component>)
    requires MainFields(codec, m, cs)
    ensures MainFields(codec, MergeComponents(codec, m, o, true), cs + [o])
  {
    var m' := MergeComponents(codec, m, o, true);
    MergedMain(codec, m, o);
    MainLists(cs, o);
    NextMainName(m.name, cs, o);
    NextTakesFirst(codec, m, o, true, cs);
    hide *;
    NextGiven(m.version, VersionsOf(cs), o.version);
    NextPurlMerged(codec, m, o, m', cs);
  }

  lemma HashedMain(codec: Purl.Codec, c: Component, d: Component, cs: seq<Component>)
    requires MainFields(codec, c, cs) && d == c.(hashes := d.hashes)
    ensures MainFields(codec, d, cs)
  {
    hide NoProperties;
    hide TakesFirst;
    hide IsMainName;
    hide FirstGiven;
    hide Properties;
    hide ReadFold;
    hide Purls;
    hide Purl.FromString;
    hide Purl.Lawful;
    assert Alike(c, d);
    hide Alike;
    AlikeTakesFirst(c, d, cs);
  }

  // ---------- Its hashes ----------

  function NextHashes(hashes: Option<seq<string>>, o: Described): Option<seq<string>> {
    var given := IfNil(hashes, o.component.hashes);
    if o.sourceHash != "" && given.GetOr([]) == [] then Some([o.sourceHash]) else given
  }

  lemma OldHashes(ds: seq<Described>, o: Described, i: int)
    requires 0 <= i < |ds|
    ensures FirstHashes(ds + [o], i) <==> FirstHashes(ds, i)
    ensures HashesCount(ds + [o], i) <==> HashesCount(ds, i)
    ensures FirstSource(ds + [o], i) <==> FirstSource(ds, i)
  {
    var all := ds + [o];
    assert forall j :: 0 <= j <= i ==> all[j] == ds[j];
  }

  lemma NewHashes(ds: seq<Described>, o: Described)
    ensures FirstHashes(ds + [o], |ds|) <==>
      o.component.hashes.Some? && forall j :: 0 <= j < |ds| ==> ds[j].component.hashes.None?
    ensures FirstSource(ds + [o], |ds|) <==> o.sourceHash != "" && forall j :: 0 <= j < |ds| ==> ds[j].sourceHash == ""
  {
    var all := ds + [o];
    assert all[|ds|] == o && forall j :: 0 <= j < |ds| ==> all[j] == ds[j];
  }

  lemma NextMainHashes(hashes: Option<seq<string>>, ds: seq<Described>, o: Described)
    requires IsMainHashes(hashes, ds)
    ensures IsMainHashes(NextHashes(hashes, o), ds + [o])
  {
    var all := ds + [o];
    var n := |ds|;
    assert Hashes(MainComponents(all)) == Hashes(MainComponents(ds)) + [o.component.hashes];
    if i :| HashesCount(ds, i) && hashes == ds[i].component.hashes {
      OldHashes(ds, o, i);
      assert all[i] == ds[i];
    } else {
      NoOldHashes(ds, o);
      NewHashes(ds, o);
      if i :| FirstSource(ds, i) && hashes == Some([ds[i].sourceHash]) {
        OldHashes(ds, o, i);
        assert all[i] == ds[i];
        assert !HashesCount(all, n);
      } else {
        NoSourceYet(ds);
        NextPart(hashes, Hashes(MainComponents(ds)), o.component.hashes);
        NextMainHashesFirst(hashes, ds, o);
      }
    }
  }

  /** The step in which hashes or a source hash may come for the first time. */
  lemma NextMainHashesFirst(hashes: Option<seq<string>>, ds: seq<Described>, o: Described)
    requires FirstPart(hashes, Hashes(MainComponents(ds)))
    requires forall j :: 0 <= j < |ds| ==> ds[j].sourceHash == ""
    requires forall i :: !HashesCount(ds, i)
    requires FirstPart(IfNil(hashes, o.component.hashes), Hashes(MainComponents(ds + [o])))
    ensures IsMainHashes(NextHashes(hashes, o), ds + [o])
  {
    var all := ds + [o];
    var n := |ds|;
    assert all[n] == o && forall j :: 0 <= j < n ==> all[j] == ds[j];
    NoOldHashes(ds, o);
    NewHashes(ds, o);
    EmptySoFar(hashes, ds);
    assert FirstHashes(all, n) && o.component.hashes.value != [] ==> HashesCount(all, n);
    hide FirstPart;
  }

  lemma NoOldHashes(ds: seq<Described>, o: Described)
    requires forall i :: !HashesCount(ds, i)
    ensures forall i :: HashesCount(ds + [o], i) ==> i == |ds|
    ensures forall i :: FirstSource(ds + [o], i) ==> FirstSource(ds, i) || i == |ds|
  {
    forall i | 0 <= i < |ds|
      ensures !HashesCount(ds + [o], i) && (FirstSource(ds + [o], i) ==> FirstSource(ds, i))
    {
      OldHashes(ds, o, i);
    }
  }

  lemma NoSourceYet(ds: seq<Described>)
    requires forall i :: !FirstSource(ds, i)
    ensures forall j :: 0 <= j < |ds| ==> ds[j].sourceHash == ""
  {
    var j := 0;
    while j < |ds|
      invariant 0 <= j <= |ds| && forall i :: 0 <= i < j ==> ds[i].sourceHash == ""
    {
      assert !FirstSource(ds, j);
      j := j + 1;
    }
  }

  /** Without hashes that count and without source hashes, what was given is nil or an empty list. */
  lemma EmptySoFar(hashes: Option<seq<string>>, ds: seq<Described>)
    requires FirstPart(hashes, Hashes(MainComponents(ds)))
    requires forall j :: 0 <= j < |ds| ==> ds[j].sourceHash == ""
    requires forall i :: !HashesCount(ds, i)
    ensures hashes.GetOr([]) == []
    ensures hashes.None? <==> forall j :: 0 <= j < |ds| ==> ds[j].component.hashes.None?
  {
    var hs := Hashes(MainComponents(ds));
    assert forall j :: 0 <= j < |ds| ==> hs[j] == ds[j].component.hashes;
    if i :| FirstPartAt(hs, i) && hashes == hs[i] {
      assert FirstHashes(ds, i) && !HashesCount(ds, i);
    }
  }

  // ---------- The main component over a run ----------

  /** The main component so far, if any document has described one. */
  ghost predicate MainSoFar(codec: Purl.Codec, main: Option<Component>, ds: seq<Described>) {
    && (main.Some? <==> ds != [])
    && (main.Some? ==> MainFields(codec, main.value, MainComponents(ds)) && IsMainHashes(main.value.hashes, ds))
  }

  lemma HeaderMain(codec: Purl.Codec, s: State, r: Results)
    requires r.sbom.Some? && Safe(codec, s, r)
    ensures var h := MainState(MergeHeader(codec, s, r));
            && (h.Some? <==> MainOf(r.sbom.value).Some?)
            && (h.Some? ==>
                 var o := MainOf(r.sbom.value).value;
                 var m := if s.srcMetadata.None? then o else MergeComponents(codec, MainState(s).value, o, true);
                 var given := m.hashes;
                 h.value == m.(hashes :=
                   if r.sourceHash != "" && given.GetOr([]) == [] then Some([r.sourceHash]) else given))
  {
    hide MergeComponents;
  }

  lemma FirstMainStep(codec: Purl.Codec, o: Described, h: Component)
    requires h == o.component.(hashes := NextHashes(None, o))
    ensures MainSoFar(codec, Some(h), [o])
  {
    OneMain(codec, o.component);
    HashedMain(codec, o.component, h, [o.component]);
    assert MainComponents([o]) == [o.component];
    hide MainFields;
    assert IsMainHashes(None, []);
    NextMainHashes(None, [], o);
    assert [] + [o] == [o];
    hide IsMainHashes;
  }

  lemma NextMainStep(codec: Purl.Codec, m: Component, ds: seq<Described>, o: Described, h: Component)
    requires MainSoFar(codec, Some(m), ds)
    requires h == MergeComponents(codec, m, o.component, true).(hashes := NextHashes(m.hashes, o))
    ensures MainSoFar(codec, Some(h), ds + [o])
  {
    NextMain(codec, m, o.component, MainComponents(ds));
    assert MainComponents(ds + [o]) == MainComponents(ds) + [o.component];
    HashedMain(codec, MergeComponents(codec, m, o.component, true), h, MainComponents(ds + [o]));
    NextMainHashes(m.hashes, ds, o);
    hide MainFields;
    hide IsMainHashes;
    hide MergeComponents;
  }

  lemma MainStep(codec: Purl.Codec, s: State, r: Results, s': State, ds: seq<Described>)
    requires IsStep(codec, s, r, s') && MainSoFar(codec, MainState(s), ds)
    ensures MainSoFar(codec, MainState(s'), ds + MainIn(r))
  {
    if r.sbom.None? {
      assert ds + MainIn(r) == ds;
    } else {
      HeaderMain(codec, s, r);
      var main := MainOf(r.sbom.value);
      assert MainState(s') == MainState(MergeHeader(codec, s, r));
      assert s.srcMetadata.Some? ==> MainState(s).Some? && main.Some?;
      hide MergeHeader;
      hide IsStep;
      if main.None? {
        hide MainFields;
        assert ds + MainIn(r) == ds;
      } else {
        var o := Described(main.value, r.sourceHash);
        assert MainIn(r) == [o];
        if s.srcMetadata.None? {
          assert ds + [o] == [o];
          FirstMainStep(codec, o, MainState(s').value);
        } else {
          MergedMain(codec, MainState(s).value, main.value);
          NextMainStep(codec, MainState(s).value, ds, o, MainState(s').value);
        }
      }
    }
  }

  /**
   After any sequence of merges there is a main component exactly when some document describes
   one. It goes by the first name given, but a path gives way to the first package name; its
   version, text fields and parts are the first given, its licenses and properties all of them,
   its hashes the first that count or the first source hash.
   */
  lemma {:induction false} MainSummarizes(codec: Purl.Codec, states: seq<State>, results: seq<Results>)
    requires IsRun(codec, states, results)
    ensures MainSoFar(codec, MainState(states[|results|]), Mains(results))
  {
    hide IsStep;
    hide MainSoFar;
    if results == [] {
      NoMain(codec);
    } else {
      var n := |results| - 1;
      MainSummarizes(codec, states[..n + 1], results[..n]);
      assert IsStep(codec, states[n], results[n], states[n + 1]);
      MainStep(codec, states[n], results[n], states[n + 1], Mains(results[..n]));
    }
  }

  lemma NoMain(codec: Purl.Codec)
    ensures MainSoFar(codec, MainState(INITIAL), [])
  {
  }

  // ---------- The metadata around it ----------

  /** Document i is the first with metadata. */
  ghost predicate FirstMetadata(results: seq<Results>, i: int) {
    0 <= i < |results| && HasMetadata(results[i]) && forall j :: 0 <= j < i ==> !HasMetadata(results[j])
  }

  /** The merged metadata is that of the first document with any, its main component apart. */
  lemma {:induction false} FirstMetadataStays(codec: Purl.Codec, states: seq<State>, results: seq<Results>)
    requires IsRun(codec, states, results)
    ensures var m := states[|results|].srcMetadata;
            if m.None? then forall i :: 0 <= i < |results| ==> !HasMetadata(results[i])
            else exists i :: FirstMetadata(results, i) && m.value.rest == results[i].sbom.value.metadata.value.rest
  {
    hide IsStep;
    if results == [] {
    } else {
      var n := |results| - 1;
      FirstMetadataStays(codec, states[..n + 1], results[..n]);
      assert IsStep(codec, states[n], results[n], states[n + 1]);
      StepMetadata(codec, states[n], results[n], states[n + 1]);
      if states[n].srcMetadata.None? {
        assert HasMetadata(results[n]) ==> FirstMetadata(results, n);
      } else {
        var i :| FirstMetadata(results[..n], i) &&
          states[n].srcMetadata.value.rest == results[..n][i].sbom.value.metadata.value.rest;
        assert FirstMetadata(results, i);
      }
    }
  }

  lemma StepMetadata(codec: Purl.Codec, s: State, r: Results, s': State)
    requires IsStep(codec, s, r, s')
    ensures s'.srcMetadata.Some? <==> s.srcMetadata.Some? || HasMetadata(r)
    ensures s'.srcMetadata.Some? ==>
      s'.srcMetadata.value.rest ==
      if s.srcMetadata.Some? then s.srcMetadata.value.rest else r.sbom.value.metadata.value.rest
  {
    hide MergeComponents;
    hide DependenciesMerged;
    hide MergeByKey;
  }
}
