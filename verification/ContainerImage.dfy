/** The slice and value helpers of the API types. */
module TypeUtils {
  import opened Common

  /** The distinct elements, in order of first occurrence. */
  function Dedup<T(==)>(s: seq<T>): seq<T> {
    if s == [] then []
    else
      var n := |s| - 1;
      if s[n] in s[..n] then Dedup(s[..n]) else Dedup(s[..n]) + [s[n]]
  }

  function Flatten<T>(inputs: seq<seq<T>>): seq<T> {
    if inputs == [] then [] else Flatten(inputs[..|inputs| - 1]) + inputs[|inputs| - 1]
  }

  lemma {:induction false} DedupMembers<T>(s: seq<T>, x: T)
    ensures x in Dedup(s) <==> x in s
  {
    if s == [] {
    } else {
      var n := |s| - 1;
      DedupMembers(s[..n], x);
      assert s == s[..n] + [s[n]];
    }
  }

  /** No element twice. */
  lemma {:induction false} DedupDistinct<T>(s: seq<T>)
    ensures forall i, j :: 0 <= i < j < |Dedup(s)| ==> Dedup(s)[i] != Dedup(s)[j]
  {
    if s == [] {
    } else {
      var n := |s| - 1;
      DedupDistinct(s[..n]);
      DedupMembers(s[..n], s[n]);
    }
  }

  /** Elements stay in the order in which they first occur. */
  lemma {:induction false} DedupFirstSeen<T>(s: seq<T>, i: nat, j: nat, n: nat)
    requires i < j < |Dedup(s)| && n < |s| && s[n] == Dedup(s)[j]
    ensures exists m :: 0 <= m < n && s[m] == Dedup(s)[i]
  {
    var last := |s| - 1;
    var init := s[..last];
    assert i < |Dedup(init)| && Dedup(init)[i] == Dedup(s)[i];
    if j < |Dedup(init)| && n < last {
      DedupFirstSeen(init, i, j, n);
      var m :| 0 <= m < n && init[m] == Dedup(init)[i];
      assert s[m] == Dedup(s)[i];
    } else {
      assert n == last;
      DedupMembers(init, Dedup(init)[i]);
      var m :| 0 <= m < last && init[m] == Dedup(init)[i];
      assert s[m] == Dedup(s)[i];
    }
  }

  lemma DedupStep<T>(a: seq<T>, x: T)
    ensures Dedup(a + [x]) == if x in a then Dedup(a) else Dedup(a) + [x]
  {
    assert (a + [x])[..|a|] == a;
  }

  lemma {:induction false} DedupLeft<T>(a: seq<T>, b: seq<T>)
    ensures Dedup(Dedup(a) + b) == Dedup(a + b)
  {
    hide Dedup;
    if b == [] {
      assert a + b == a && Dedup(a) + b == Dedup(a);
      DedupTwice(a);
    } else {
      var n := |b| - 1;
      DedupLeft(a, b[..n]);
      DedupStep(a + b[..n], b[n]);
      DedupStep(Dedup(a) + b[..n], b[n]);
      DedupMembers(a, b[n]);
      assert a + b == (a + b[..n]) + [b[n]];
      assert Dedup(a) + b == (Dedup(a) + b[..n]) + [b[n]];
    }
  }

  lemma {:induction false} DedupTwice<T>(a: seq<T>)
    ensures Dedup(Dedup(a)) == Dedup(a)
  {
    if a == [] {
    } else {
      var n := |a| - 1;
      DedupTwice(a[..n]);
      if a[n] !in a[..n] {
        DedupStep(Dedup(a[..n]), a[n]);
        DedupMembers(a[..n], a[n]);
      }
    }
  }

  lemma {:induction false} DedupRight<T>(a: seq<T>, b: seq<T>)
    ensures Dedup(a + Dedup(b)) == Dedup(a + b)
  {
    if b == [] {
      assert Dedup(b) == b;
    } else {
      hide Dedup;
      var n := |b| - 1;
      DedupRight(a, b[..n]);
      assert a + b == (a + b[..n]) + [b[n]];
      assert b == b[..n] + [b[n]];
      DedupStep(b[..n], b[n]);
      DedupStep(a + b[..n], b[n]);
      if b[n] !in b[..n] {
        assert a + (Dedup(b[..n]) + [b[n]]) == (a + Dedup(b[..n])) + [b[n]];
        DedupStep(a + Dedup(b[..n]), b[n]);
        DedupMembers(b[..n], b[n]);
      }
    }
  }

  function Union<T(==)>(a: seq<T>, b: seq<T>): seq<T> {
    Dedup(a + b)
  }

  /** Union is associative, exactly: the same elements in the same order. */
  lemma UnionAssociative<T>(a: seq<T>, b: seq<T>, c: seq<T>)
    ensures Union(Union(a, b), c) == Union(a, Union(b, c)) == Dedup(a + b + c)
  {
    DedupLeft(a + b, c);
    DedupRight(a, b + c);
    hide Dedup;
    assert a + (b + c) == a + b + c;
  }

  lemma FlattenStep<T>(inputs: seq<seq<T>>, i: nat)
    requires i < |inputs|
    ensures Flatten(inputs[..i + 1]) == Flatten(inputs[..i]) + inputs[i]
  {
    assert inputs[..i + 1][..i] == inputs[..i];
  }

  lemma NothingSeen<T>(inputs: seq<seq<T>>)
    ensures Flatten(inputs[..0]) == [] && Dedup<T>([]) == []
  {
  }

  method UnionSlices<T(==)>(inputs: seq<seq<T>>) returns (result: seq<T>)
    ensures result == Dedup(Flatten(inputs))
  {
    hide Dedup;
    hide Flatten;
    NothingSeen(inputs);
    var seen: set<T> := {};
    result := [];
    for i := 0 to |inputs|
      invariant result == Dedup(Flatten(inputs[..i]))
      invariant forall x :: x in seen <==> x in Flatten(inputs[..i])
    {
      ghost var before := Flatten(inputs[..i]);
      var input := inputs[i];
      assert before + input[..0] == before;
      for j := 0 to |input|
        invariant result == Dedup(before + input[..j])
        invariant forall x :: x in seen <==> x in before + input[..j]
      {
        DedupStep(before + input[..j], input[j]);
        assert before + input[..j + 1] == (before + input[..j]) + [input[j]];
        if input[j] !in seen {
          seen := seen + {input[j]};
          result := result + [input[j]];
        }
      }
      assert input[..|input|] == input;
      FlattenStep(inputs, i);
    }
    assert inputs[..|inputs|] == inputs;
  }

  /** What UnionSlices makes of two slices. */
  lemma UnionOfTwo<T>(a: seq<T>, b: seq<T>)
    ensures Dedup(Flatten([a, b])) == Union(a, b)
  {
    hide Dedup;
    assert [a, b][..1] == [a] && [a][..0] == [];
    assert Flatten([a]) == [] + a == a;
    assert Flatten([a, b]) == a + b;
  }

  /** The first value that is set; two different ones conflict. */
  function CoalesceComparable<T(==)>(original: T, target: T, zero: T): (r: Option<T>)
  {
    if original != zero && target != zero && original != target then None
    else if original != zero then Some(original)
    else Some(target)
  }
}

/** Merging what several discoveries know about one container image. */
module ContainerImage {
  import opened Common
  import opened TypeUtils

  datatype Tag = Tag(key: string, value: string)

  datatype ContainerImageInfo = ContainerImageInfo(
    imageID: string,
    size: Option<int>,
    labels: Option<seq<Tag>>,
    os: Option<string>,
    architecture: Option<string>,
    repoDigests: Option<seq<string>>,
    repoTags: Option<seq<string>>)

  function MergeSize(a: int, b: int): int {
    var coalesced := CoalesceComparable(a, b, 0);
    if coalesced.Some? then coalesced.value else if a > b then a else b
  }

  function Merge(c: ContainerImageInfo, target: ContainerImageInfo): Option<ContainerImageInfo> {
    var id := CoalesceComparable(c.imageID, target.imageID, "");
    var os := CoalesceComparable(c.os.GetOr(""), target.os.GetOr(""), "");
    var architecture := CoalesceComparable(c.architecture.GetOr(""), target.architecture.GetOr(""), "");
    if id.None? || os.None? || architecture.None? then None
    else Some(ContainerImageInfo(
      id.value,
      Some(MergeSize(c.size.GetOr(0), target.size.GetOr(0))),
      Some(Union(c.labels.GetOr([]), target.labels.GetOr([]))),
      os,
      architecture,
      Some(Union(c.repoDigests.GetOr([]), target.repoDigests.GetOr([]))),
      Some(Union(c.repoTags.GetOr([]), target.repoTags.GetOr([])))))
  }

  // ---------- Folding Merge over a list ----------

  function MergeAll(list: seq<ContainerImageInfo>): Option<ContainerImageInfo>
    requires list != []
  {
    var n := |list| - 1;
    if n == 0 then Some(list[0])
    else
      var init := MergeAll(list[..n]);
      if init.None? then None else Merge(init.value, list[n])
  }

  datatype Field = ImageId | Os | Architecture

  function Text(c: ContainerImageInfo, f: Field): string {
    match f
    case ImageId => c.imageID
    case Os => c.os.GetOr("")
    case Architecture => c.architecture.GetOr("")
  }

  /** All values of f that are given are the same. */
  ghost predicate Agree(list: seq<ContainerImageInfo>, f: Field) {
    forall c, d :: c in list && d in list && Text(c, f) != "" && Text(d, f) != "" ==> Text(c, f) == Text(d, f)
  }

  /** v is the value given for f, or empty if none is. */
  ghost predicate IsText(v: string, list: seq<ContainerImageInfo>, f: Field) {
    if v == "" then forall c :: c in list ==> Text(c, f) == ""
    else exists c :: c in list && Text(c, f) == v
  }

  /** n is the largest size other than zero, or zero if there is none. */
  ghost predicate IsSize(n: int, list: seq<ContainerImageInfo>) {
    && (forall c :: c in list && c.size.GetOr(0) != 0 ==> n != 0 && c.size.GetOr(0) <= n)
    && (n != 0 ==> exists c :: c in list && c.size.GetOr(0) == n)
  }

  ghost predicate IsUnion(m: ContainerImageInfo, list: seq<ContainerImageInfo>) {
    && (forall x :: x in m.labels.GetOr([]) <==> exists c :: c in list && x in c.labels.GetOr([]))
    && (forall x :: x in m.repoDigests.GetOr([]) <==> exists c :: c in list && x in c.repoDigests.GetOr([]))
    && (forall x :: x in m.repoTags.GetOr([]) <==> exists c :: c in list && x in c.repoTags.GetOr([]))
  }

  ghost predicate Summarizes(m: ContainerImageInfo, list: seq<ContainerImageInfo>) {
    (forall f :: IsText(Text(m, f), list, f)) && IsSize(m.size.GetOr(0), list) && IsUnion(m, list)
  }

  lemma MergeTexts(c: ContainerImageInfo, d: ContainerImageInfo)
    ensures Merge(c, d).Some? <==> forall f :: Text(c, f) == "" || Text(d, f) == "" || Text(c, f) == Text(d, f)
    ensures Merge(c, d).Some? ==>
      forall f :: Text(Merge(c, d).value, f) == if Text(c, f) != "" then Text(c, f) else Text(d, f)
  {
    hide Dedup;
    var g := f => Text(c, f) == "" || Text(d, f) == "" || Text(c, f) == Text(d, f);
    assert (forall f :: g(f)) <==> g(ImageId) && g(Os) && g(Architecture);
  }

  lemma MergeLists(c: ContainerImageInfo, d: ContainerImageInfo)
    requires Merge(c, d).Some?
    ensures var m := Merge(c, d).value;
            && m.size == Some(MergeSize(c.size.GetOr(0), d.size.GetOr(0)))
            && (forall x :: x in m.labels.GetOr([]) <==> x in c.labels.GetOr([]) || x in d.labels.GetOr([]))
            && (forall x :: x in m.repoDigests.GetOr([]) <==>
              x in c.repoDigests.GetOr([]) || x in d.repoDigests.GetOr([]))
            && (forall x :: x in m.repoTags.GetOr([]) <==> x in c.repoTags.GetOr([]) || x in d.repoTags.GetOr([]))
  {
    UnionMembers(c.labels.GetOr([]), d.labels.GetOr([]));
    UnionMembers(c.repoDigests.GetOr([]), d.repoDigests.GetOr([]));
    UnionMembers(c.repoTags.GetOr([]), d.repoTags.GetOr([]));
    hide Union;
  }

  lemma UnionMembers<T>(a: seq<T>, b: seq<T>)
    ensures forall x :: x in Union(a, b) <==> x in a || x in b
  {
    forall x
      ensures x in Union(a, b) <==> x in a || x in b
    {
      DedupMembers(a + b, x);
    }
  }

  lemma NextText(v: string, init: seq<ContainerImageInfo>, d: ContainerImageInfo, f: Field)
    requires IsText(v, init, f) && init != []
    ensures Agree(init + [d], f) <==> Agree(init, f) && (v == "" || Text(d, f) == "" || v == Text(d, f))
    ensures v == "" || Text(d, f) == "" || v == Text(d, f) ==> IsText(if v != "" then v else Text(d, f), init + [d], f)
  {
    hide Text;
    var all := init + [d];
    assert forall c :: c in all <==> c in init || c == d;
    if v != "" {
      var c :| c in init && Text(c, f) == v;
      assert c in all;
    } else {
      assert d in all;
    }
  }

  lemma NextSize(n: int, init: seq<ContainerImageInfo>, d: ContainerImageInfo)
    requires IsSize(n, init)
    ensures IsSize(MergeSize(n, d.size.GetOr(0)), init + [d])
  {
    var all := init + [d];
    assert forall c :: c in all <==> c in init || c == d;
    var m := MergeSize(n, d.size.GetOr(0));
    if m != 0 {
      if m == n {
        var c :| c in init && c.size.GetOr(0) == n;
        assert c in all && c.size.GetOr(0) == m;
      } else {
        assert d in all && d.size.GetOr(0) == m;
      }
    }
  }

  lemma NextUnion(m: ContainerImageInfo, init: seq<ContainerImageInfo>, d: ContainerImageInfo)
    requires IsUnion(m, init) && Merge(m, d).Some?
    ensures IsUnion(Merge(m, d).value, init + [d])
  {
    MergeLists(m, d);
    hide Merge;
    assert forall c :: c in init + [d] <==> c in init || c == d;
  }

  lemma OneSummarizes(c: ContainerImageInfo)
    ensures Summarizes(c, [c]) && forall f :: Agree([c], f)
  {
    hide Text;
    assert c in [c] && forall d :: d in [c] ==> d == c;
    forall f
      ensures IsText(Text(c, f), [c], f)
    {
    }
  }

  lemma DisagreementStays(init: seq<ContainerImageInfo>, d: ContainerImageInfo, f: Field)
    requires !Agree(init, f)
    ensures !Agree(init + [d], f)
  {
    hide Text;
    var c, e :| c in init && e in init && Text(c, f) != "" && Text(e, f) != "" && Text(c, f) != Text(e, f);
    assert c in init + [d] && e in init + [d];
  }

  lemma NextSummary(m: ContainerImageInfo, init: seq<ContainerImageInfo>, d: ContainerImageInfo)
    requires Summarizes(m, init) && init != [] && forall f :: Agree(init, f)
    ensures Merge(m, d).Some? <==> forall f :: Agree(init + [d], f)
    ensures Merge(m, d).Some? ==> Summarizes(Merge(m, d).value, init + [d])
  {
    MergeTexts(m, d);
    forall f
      ensures Agree(init + [d], f) <==> Text(m, f) == "" || Text(d, f) == "" || Text(m, f) == Text(d, f)
      ensures (Text(m, f) == "" || Text(d, f) == "" || Text(m, f) == Text(d, f)) ==>
        IsText(if Text(m, f) != "" then Text(m, f) else Text(d, f), init + [d], f)
    {
      NextText(Text(m, f), init, d, f);
    }
    if Merge(m, d).Some? {
      MergeLists(m, d);
      NextSize(m.size.GetOr(0), init, d);
      NextUnion(m, init, d);
    }
    hide Merge;
    hide Text;
    hide Agree;
    hide IsText;
    hide IsSize;
    hide IsUnion;
  }

  /** A list merges exactly when all of its members agree, and then into what they say together. */
  lemma {:induction false} MergeAllSummarizes(list: seq<ContainerImageInfo>)
    requires list != []
    ensures MergeAll(list).Some? <==> forall f :: Agree(list, f)
    ensures MergeAll(list).Some? ==> Summarizes(MergeAll(list).value, list)
  {
    var n := |list| - 1;
    hide Merge;
    hide Summarizes;
    hide Agree;
    if n == 0 {
      assert list == [list[0]];
      OneSummarizes(list[0]);
    } else {
      var init, d := list[..n], list[n];
      assert list == init + [d];
      MergeAllSummarizes(init);
      if MergeAll(init).Some? {
        NextSummary(MergeAll(init).value, init, d);
      } else {
        var f :| !Agree(init, f);
        DisagreementStays(init, d, f);
      }
    }
  }

  function Labels(c: ContainerImageInfo): Option<seq<Tag>> { c.labels }

  function Digests(c: ContainerImageInfo): Option<seq<string>> { c.repoDigests }

  function Tags(c: ContainerImageInfo): Option<seq<string>> { c.repoTags }

  function Lists<T>(list: seq<ContainerImageInfo>, f: ContainerImageInfo -> Option<seq<T>>): seq<seq<T>> {
    seq(|list|, i requires 0 <= i < |list| => f(list[i]).GetOr([]))
  }

  ghost predicate MergesByUnion<T(!new)>(f: ContainerImageInfo -> Option<seq<T>>) {
    forall c, d :: Merge(c, d).Some? ==> f(Merge(c, d).value) == Some(Union(f(c).GetOr([]), f(d).GetOr([])))
  }

  lemma NextDedup<T>(v: seq<T>, lists: seq<seq<T>>, x: seq<T>)
    requires Dedup(v) == Dedup(Flatten(lists))
    ensures Union(v, x) == Dedup(Flatten(lists + [x]))
  {
    assert (lists + [x])[..|lists|] == lists;
    assert Flatten(lists + [x]) == Flatten(lists) + x;
    DedupLeft(v, x);
    DedupLeft(Flatten(lists), x);
    hide Dedup;
    hide Flatten;
  }

  lemma OneList<T>(v: seq<T>)
    ensures Flatten([v]) == v
  {
    assert [v][..0] == [];
    assert [] + v == v;
  }

  lemma {:induction false} MergedList<T(!new)>(list: seq<ContainerImageInfo>, f: ContainerImageInfo -> Option<seq<T>>)
    requires list != [] && MergeAll(list).Some? && MergesByUnion(f)
    ensures var v := f(MergeAll(list).value);
            && Dedup(v.GetOr([])) == Dedup(Flatten(Lists(list, f)))
            && (|list| > 1 ==> v == Some(Dedup(Flatten(Lists(list, f)))))
  {
    hide Merge;
    hide Dedup;
    hide Flatten;
    var n := |list| - 1;
    if n == 0 {
      OneList(f(list[0]).GetOr([]));
      assert Lists(list, f) == [f(list[0]).GetOr([])];
    } else {
      var init, d := list[..n], list[n];
      MergedList(init, f);
      assert Lists(list, f) == Lists(init, f) + [f(d).GetOr([])];
      NextDedup(f(MergeAll(init).value).GetOr([]), Lists(init, f), f(d).GetOr([]));
      DedupTwice(Flatten(Lists(list, f)));
    }
  }

  /** What comes of merging at least two: the labels, digests and tags of all, each once, as first seen. */
  lemma MergedLists(list: seq<ContainerImageInfo>)
    requires |list| > 1 && MergeAll(list).Some?
    ensures var m := MergeAll(list).value;
            && m.labels == Some(Dedup(Flatten(Lists(list, Labels))))
            && m.repoDigests == Some(Dedup(Flatten(Lists(list, Digests))))
            && m.repoTags == Some(Dedup(Flatten(Lists(list, Tags))))
  {
    assert MergesByUnion(Labels) && MergesByUnion(Digests) && MergesByUnion(Tags) by { hide Union; }
    MergedList(list, Labels);
    MergedList(list, Digests);
    MergedList(list, Tags);
    hide MergeAll;
    hide Dedup;
  }

  /**
   The order of discoveries does not matter: a list merges in one order if and only if it does
   in every other, with the same ID, OS, architecture and size and the same sets of labels,
   digests and tags, also when sizes are negative.
   */
  lemma OrderDoesNotMatter(list: seq<ContainerImageInfo>, list': seq<ContainerImageInfo>)
    requires list != [] && list' != [] && forall c :: c in list <==> c in list'
    ensures MergeAll(list).Some? <==> MergeAll(list').Some?
    ensures MergeAll(list).Some? ==>
      var m, m' := MergeAll(list).value, MergeAll(list').value;
      && (forall f :: Text(m, f) == Text(m', f))
      && m.size.GetOr(0) == m'.size.GetOr(0)
      && SameLists(m, m')
  {
    MergeAllSummarizes(list);
    MergeAllSummarizes(list');
    forall f
      ensures Agree(list, f) <==> Agree(list', f)
    {
      SameAgreement(list, list', f);
    }
    hide MergeAll;
    if MergeAll(list).Some? {
      SameSummary(MergeAll(list).value, MergeAll(list').value, list, list');
    }
  }

  lemma SameAgreement(list: seq<ContainerImageInfo>, list': seq<ContainerImageInfo>, f: Field)
    requires forall c :: c in list <==> c in list'
    ensures Agree(list, f) <==> Agree(list', f)
  {
    hide Text;
  }

  lemma SameSummary(m: ContainerImageInfo, m': ContainerImageInfo, list: seq<ContainerImageInfo>,
      list': seq<ContainerImageInfo>)
    requires forall c :: c in list <==> c in list'
    requires Summarizes(m, list) && Summarizes(m', list') && forall f :: Agree(list, f)
    ensures forall f :: Text(m, f) == Text(m', f)
    ensures m.size.GetOr(0) == m'.size.GetOr(0)
    ensures SameLists(m, m')
  {
    hide Text;
    forall f
      ensures Text(m, f) == Text(m', f)
    {
      assert IsText(Text(m, f), list, f) && IsText(Text(m', f), list', f) && Agree(list, f);
    }
  }

  ghost predicate SameLists(m: ContainerImageInfo, m': ContainerImageInfo) {
    && (forall x :: x in m.labels.GetOr([]) <==> x in m'.labels.GetOr([]))
    && (forall x :: x in m.repoDigests.GetOr([]) <==> x in m'.repoDigests.GetOr([]))
    && (forall x :: x in m.repoTags.GetOr([]) <==> x in m'.repoTags.GetOr([]))
  }
}
