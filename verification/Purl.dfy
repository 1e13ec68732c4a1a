/**
 Package URLs: printing, parsing with the corrections for sloppy analyzers, and merging.
 `net/url` is modelled down to the characters that delimit scheme, opaque part, query and
 fragment; its percent-encoding is a `Codec` whose laws the theorems assume.
 */
module Purl {
  import opened Common

  type Qualifiers = map<string, seq<string>>

  datatype Purl = Purl(
    scheme: string,
    typ: string,
    namespace: string,
    name: string,
    version: string,
    qualifiers: Qualifiers,
    subpath: string)

  const NEW_PURL := Purl("", "", "", "", "", map[], "")

  datatype Codec = Codec(
    encodeQuery: Qualifiers -> string,
    parseQuery: string -> Qualifiers,
    escapeFragment: string -> string,
    unescapeFragment: string -> Option<string>)

  const VALID_PURL_TYPES: set<string> := {
    "alpm", "apk", "bitbucket", "cocoapods", "cargo", "composer", "conan", "conda", "cran", "deb",
    "docker", "gem", "generic", "github", "golang", "hackage", "hex", "huggingface", "maven",
    "mlflow", "npm", "nuget", "qpkg", "oci", "pub", "pypi", "rpm", "swid", "swift"
  }

  predicate IsValidPurlType(t: string) {
    t in VALID_PURL_TYPES
  }

  // ---------- Splitting strings ----------

  /** `strings.Cut` at the first c. */
  function Cut(s: string, c: char): (string, Option<string>) {
    if s == [] then ([], None)
    else if s[0] == c then ([], Some(s[1..]))
    else
      var (before, after) := Cut(s[1..], c);
      ([s[0]] + before, after)
  }

  /** `strings.Split` on c. */
  function Split(s: string, c: char): (parts: seq<string>)
    ensures parts != []
  {
    if s == [] then [[]]
    else
      var rest := Split(s[1..], c);
      if s[0] == c then [[]] + rest else [[s[0]] + rest[0]] + rest[1..]
  }

  lemma {:induction false} CutMeaning(s: string, c: char)
    ensures c !in Cut(s, c).0
    ensures s == Cut(s, c).0 + (if Cut(s, c).1.Some? then [c] + Cut(s, c).1.value else [])
  {
    if s != [] && s[0] != c {
      CutMeaning(s[1..], c);
      assert s == [s[0]] + s[1..];
    }
  }

  lemma {:induction false} CutAbsent(s: string, c: char)
    requires c !in s
    ensures Cut(s, c) == (s, None)
  {
    if s == [] {
    } else {
      CutAbsent(s[1..], c);
      assert s == [s[0]] + s[1..];
    }
  }

  lemma {:induction false} CutPresent(a: string, b: string, c: char)
    requires c !in a
    ensures Cut(a + [c] + b, c) == (a, Some(b))
  {
    if a == [] {
      assert (a + [c] + b)[1..] == b;
    } else {
      CutPresent(a[1..], b, c);
      assert (a + [c] + b)[1..] == a[1..] + [c] + b;
      assert a == [a[0]] + a[1..];
    }
  }

  lemma {:induction false} SplitParts(s: string, c: char)
    ensures forall i :: 0 <= i < |Split(s, c)| ==> c !in Split(s, c)[i] && Within(Split(s, c)[i], s)
    ensures s != [] && s[0] != c ==> Split(s, c)[0] != []
  {
    if s == [] {
    } else {
      var rest := Split(s[1..], c);
      SplitParts(s[1..], c);
      forall i | 0 <= i < |Split(s, c)|
        ensures Within(Split(s, c)[i], s)
      {
        assert Within(s[1..], s);
        if s[0] == c && i > 0 { assert Split(s, c)[i] == rest[i - 1]; }
        if s[0] != c && i > 0 { assert Split(s, c)[i] == rest[i]; }
      }
    }
  }

  /** Every character of s occurs in t. */
  ghost predicate Within(s: string, t: string) {
    forall c :: c in s ==> c in t
  }

  lemma {:induction false} SplitAbsent(s: string, c: char)
    requires c !in s
    ensures Split(s, c) == [s]
  {
    if s == [] {
    } else {
      SplitAbsent(s[1..], c);
      assert s == [s[0]] + s[1..];
    }
  }

  lemma {:induction false} SplitFirst(a: string, b: string, c: char)
    requires c !in a
    ensures Split(a + [c] + b, c) == [a] + Split(b, c)
  {
    if a == [] {
      assert (a + [c] + b)[1..] == b;
    } else {
      SplitFirst(a[1..], b, c);
      assert (a + [c] + b)[1..] == a[1..] + [c] + b;
      assert a == [a[0]] + a[1..];
    }
  }

  // ---------- net/url ----------

  predicate IsLetter(c: char) {
    'a' <= c <= 'z' || 'A' <= c <= 'Z'
  }

  predicate IsSchemeChar(c: char) {
    IsLetter(c) || '0' <= c <= '9' || c in {'+', '-', '.'}
  }

  predicate HasControl(s: string) {
    exists c :: c in s && (c < ' ' || c == '\U{7f}')
  }

  function LowerChar(c: char): char {
    if 'A' <= c <= 'Z' then c + 32 as char else c
  }

  function ToLower(s: string): (r: string)
    ensures |r| == |s|
    ensures forall i :: 0 <= i < |s| ==> r[i] == LowerChar(s[i])
  {
    if s == [] then [] else [LowerChar(s[0])] + ToLower(s[1..])
  }

  predicate IsScheme(s: string) {
    s != [] && IsLetter(s[0]) && forall c :: c in s ==> IsSchemeChar(c)
  }

  datatype Url = Url(scheme: string, opaquePart: string, rawQuery: string, fragment: string)

  /**
   What `url.Parse` reports about a URL with an opaque part. Every other outcome, an error
   included, makes purlStringToStruct return the empty purl.
   */
  function ParseOpaqueUrl(codec: Codec, s: string): Option<Url> {
    var (u, frag) := Cut(s, '#');
    if HasControl(u) then None
    else
      var (scheme, rest) := Cut(u, ':');
      if rest.None? || !IsScheme(scheme) then None
      else
        var (opaquePart, query) := Cut(rest.value, '?');
        if opaquePart == [] || opaquePart[0] == '/' then None
        else
          var fragment := codec.unescapeFragment(frag.GetOr(""));
          if fragment.None? then None
          else Some(Url(ToLower(scheme), opaquePart, query.GetOr(""), fragment.value))
  }

  // ---------- String and purlStringToStruct ----------

  function OpaqueOf(p: Purl): string {
    p.typ + (if p.namespace != "" then "/" + p.namespace else "") + "/" + p.name + "@" + p.version
  }

  /** `URL.String` of a URL with an opaque part. */
  function Render(codec: Codec, scheme: string, opaquePart: string, q: Qualifiers, subpath: string): string {
    var query, fragment := codec.encodeQuery(q), codec.escapeFragment(subpath);
    (if scheme != "" then scheme + ":" else "")
    + opaquePart
    + (if query != "" then "?" + query else "")
    + (if subpath != "" then "#" + fragment else "")
  }

  function ToString(codec: Codec, p: Purl): string {
    Render(codec, p.scheme, OpaqueOf(p), p.qualifiers, p.subpath)
  }

  function FromString(codec: Codec, input: string): Purl {
    var url := ParseOpaqueUrl(codec, input);
    if url.None? then NEW_PURL
    else
      var parts := Split(url.value.opaquePart, '/');
      var (name, version) := Cut(parts[|parts| - 1], '@');
      var p := Purl(url.value.scheme, "", "", name, version.GetOr(""), codec.parseQuery(url.value.rawQuery),
        url.value.fragment);
      if |parts| == 3 then p.(typ := parts[0], namespace := parts[1])
      else if |parts| == 2 && IsValidPurlType(parts[0]) then p.(typ := parts[0])
      else if |parts| == 2 && parts[0] == "alpine" then p.(typ := "apk", namespace := "alpine")
      else NEW_PURL
  }

  // ---------- Round trip ----------

  /** What net/url and url.Values guarantee about their encodings. */
  ghost predicate Lawful(codec: Codec) {
    && codec.encodeQuery(map[]) == "" && codec.parseQuery("") == map[]
    && codec.escapeFragment("") == "" && codec.unescapeFragment("") == Some("")
    && (forall q :: NoEmptyLists(q) ==> codec.parseQuery(codec.encodeQuery(q)) == q)
    && (forall q :: '#' !in codec.encodeQuery(q) && !HasControl(codec.encodeQuery(q)))
    && (forall s :: NoEmptyLists(codec.parseQuery(s)))
    && (forall f :: codec.unescapeFragment(codec.escapeFragment(f)) == Some(f))
  }

  ghost predicate NoEmptyLists(q: Qualifiers) {
    forall k :: k in q ==> q[k] != []
  }

  predicate Plain(s: string) {
    '/' !in s && '?' !in s && '#' !in s && !HasControl(s)
  }

  /** What every purl read from a string satisfies, unless it is the empty one. */
  ghost predicate Readable(p: Purl) {
    && IsScheme(p.scheme) && ToLower(p.scheme) == p.scheme
    && p.typ != "" && Plain(p.typ) && Plain(p.namespace)
    && Plain(p.name) && '@' !in p.name && Plain(p.version)
    && NoEmptyLists(p.qualifiers)
  }

  /** The purls that survive being printed and parsed: an unknown type needs a namespace. */
  ghost predicate WellFormed(p: Purl) {
    Readable(p) && (p.namespace != "" || IsValidPurlType(p.typ))
  }

  ghost predicate Survives(p: Purl) {
    p == NEW_PURL || WellFormed(p)
  }

  lemma SchemeHasNoDelimiter(s: string)
    requires IsScheme(s)
    ensures ':' !in s && '#' !in s && !HasControl(s)
  {
  }

  /** Nothing that ends the opaque part, or makes net/url refuse it. */
  predicate Undelimited(s: string) {
    '?' !in s && '#' !in s && !HasControl(s)
  }

  lemma UndelimitedConcat(s: string, t: string)
    ensures Undelimited(s + t) <==> Undelimited(s) && Undelimited(t)
    ensures Undelimited("") && Undelimited("/") && Undelimited("@")
  {
    assert forall c :: c in s + t <==> c in s || c in t;
  }

  lemma OpaqueIsUndelimited(p: Purl)
    requires Readable(p)
    ensures OpaqueOf(p) != "" && OpaqueOf(p)[0] != '/' && Undelimited(OpaqueOf(p))
  {
    var space := if p.namespace != "" then "/" + p.namespace else "";
    assert Undelimited(p.typ) && Undelimited(p.namespace) && Undelimited(p.name) && Undelimited(p.version);
    assert p.typ[0] != '/';
    assert OpaqueOf(p) == p.typ + space + "/" + p.name + "@" + p.version;
    assert OpaqueOf(p)[0] == p.typ[0];
    UndelimitedConcat("/", p.namespace);
    UndelimitedConcat(p.typ, space);
    UndelimitedConcat(p.typ + space, "/");
    UndelimitedConcat(p.typ + space + "/", p.name);
    UndelimitedConcat(p.typ + space + "/" + p.name, "@");
    UndelimitedConcat(p.typ + space + "/" + p.name + "@", p.version);
    hide *;
    assert space == "" || space == "/" + p.namespace;
  }

  lemma OpaqueParts(p: Purl)
    requires Readable(p)
    ensures Split(OpaqueOf(p), '/') ==
      [p.typ] + (if p.namespace != "" then [p.namespace] else []) + [p.name + "@" + p.version]
  {
    hide Split;
    hide HasControl;
    var last := p.name + "@" + p.version;
    SplitAbsent(last, '/');
    if p.namespace != "" {
      SplitFirst(p.namespace, last, '/');
      SplitFirst(p.typ, p.namespace + "/" + last, '/');
      assert OpaqueOf(p) == p.typ + "/" + (p.namespace + "/" + last);
    } else {
      SplitFirst(p.typ, last, '/');
      assert OpaqueOf(p) == p.typ + "/" + last;
    }
  }

  lemma CutOptional(a: string, b: string, c: char)
    requires c !in a
    ensures Cut(a + Optional(c, b), c).0 == a
    ensures Cut(a + Optional(c, b), c).1.GetOr("") == b
  {
    if b != "" {
      CutPresent(a, b, c);
      assert a + ([c] + b) == a + [c] + b;
    } else {
      CutAbsent(a, c);
      assert a + "" == a;
    }
  }

  function Optional(c: char, s: string): string {
    if s != "" then [c] + s else ""
  }

  lemma RenderedParts(codec: Codec, scheme: string, o: string, q: Qualifiers, subpath: string)
    requires Lawful(codec) && scheme != ""
    ensures Render(codec, scheme, o, q, subpath) ==
      (scheme + [':'] + (o + Optional('?', codec.encodeQuery(q)))) + Optional('#', codec.escapeFragment(subpath))
  {
    var fragment := codec.escapeFragment(subpath);
    assert subpath != "" ==> codec.unescapeFragment(fragment) == Some(subpath) && fragment != "";
  }

  lemma FrontHasNoFragment(scheme: string, o: string, query: string)
    requires IsScheme(scheme) && Undelimited(o) && '#' !in query && !HasControl(query)
    ensures var u := scheme + [':'] + (o + Optional('?', query)); '#' !in u && !HasControl(u)
  {
    SchemeHasNoDelimiter(scheme);
    hide IsScheme;
  }

  /** A rendered URL parses into the very parts it was made of. */
  lemma UrlRoundTrip(codec: Codec, scheme: string, o: string, q: Qualifiers, subpath: string)
    requires Lawful(codec) && IsScheme(scheme) && ToLower(scheme) == scheme
    requires o != "" && o[0] != '/' && Undelimited(o)
    ensures ParseOpaqueUrl(codec, Render(codec, scheme, o, q, subpath)) ==
      Some(Url(scheme, o, codec.encodeQuery(q), subpath))
  {
    SchemeHasNoDelimiter(scheme);
    var query, fragment := codec.encodeQuery(q), codec.escapeFragment(subpath);
    var rest := o + Optional('?', query);
    var u := scheme + [':'] + rest;
    RenderedParts(codec, scheme, o, q, subpath);
    FrontHasNoFragment(scheme, o, query);
    CutOptional(u, fragment, '#');
    CutPresent(scheme, rest, ':');
    CutOptional(o, query, '?');
    hide Render;
    hide Cut;
    hide ToLower;
    hide IsScheme;
    hide HasControl;
    hide Optional;
    hide NoEmptyLists;
  }

  lemma RoundTrip(codec: Codec, p: Purl)
    requires Lawful(codec) && WellFormed(p)
    ensures FromString(codec, ToString(codec, p)) == p
  {
    OpaqueParts(p);
    OpaqueIsUndelimited(p);
    UrlRoundTrip(codec, p.scheme, OpaqueOf(p), p.qualifiers, p.subpath);
    CutPresent(p.name, p.version, '@');
  }

  lemma PartIsPlain(part: string, o: string)
    requires Within(part, o) && '/' !in part && '?' !in part && '#' !in o && !HasControl(o)
    ensures Plain(part)
  {
  }

  lemma ReadableParts(codec: Codec, s: string)
    requires ParseOpaqueUrl(codec, s).Some?
    ensures var url := ParseOpaqueUrl(codec, s).value;
            var parts := Split(url.opaquePart, '/');
            var (name, version) := Cut(parts[|parts| - 1], '@');
            && parts[0] != "" && (forall i :: 0 <= i < |parts| ==> Plain(parts[i]))
            && Plain(name) && '@' !in name && Plain(version.GetOr(""))
            && IsScheme(url.scheme) && ToLower(url.scheme) == url.scheme
  {
    hide Cut;
    hide Split;
    hide IsScheme;
    hide ToLower;
    hide HasControl;
    var u := Cut(s, '#').0;
    CutMeaning(s, '#');
    CutMeaning(u, ':');
    var (scheme, rest) := Cut(u, ':');
    LowerScheme(scheme);
    CutMeaning(rest.value, '?');
    var o := Cut(rest.value, '?').0;
    assert Within(o, rest.value) && Within(rest.value, u);
    assert Within(o, u);
    PartIsPlain("", u);
    SplitParts(o, '/');
    var parts := Split(o, '/');
    forall i | 0 <= i < |parts|
      ensures Plain(parts[i])
    {
      assert '?' !in parts[i] && Within(parts[i], u);
      PartIsPlain(parts[i], u);
    }
    var last := parts[|parts| - 1];
    CutMeaning(last, '@');
    var (name, version) := Cut(last, '@');
    assert Within(name, last) && Within(version.GetOr(""), last);
    PartIsPlain(name, last);
    PartIsPlain(version.GetOr(""), last);
  }

  /** Parsing yields the empty purl or a readable one, whatever the string. */
  lemma ParsedIsReadable(codec: Codec, s: string)
    requires Lawful(codec)
    ensures FromString(codec, s) == NEW_PURL || Readable(FromString(codec, s))
  {
    assert Plain("") && Plain("apk") && Plain("alpine");
    hide ParseOpaqueUrl;
    hide Cut;
    hide Split;
    hide HasControl;
    hide IsScheme;
    hide ToLower;
    if ParseOpaqueUrl(codec, s).Some? {
      ReadableParts(codec, s);
    }
  }

  lemma LowerScheme(s: string)
    requires IsScheme(s)
    ensures IsScheme(ToLower(s)) && ToLower(ToLower(s)) == ToLower(s)
  {
    var r := ToLower(s);
    forall c | c in r
      ensures IsSchemeChar(c)
    {
      var i :| 0 <= i < |r| && r[i] == c;
      assert s[i] in s;
    }
    assert forall i :: 0 <= i < |r| ==> ToLower(r)[i] == r[i];
  }

  lemma NewPurlSurvives(codec: Codec)
    requires Lawful(codec)
    ensures ToString(codec, NEW_PURL) == "/@" && FromString(codec, "/@") == NEW_PURL
  {
    CutAbsent("/@", '#');
    CutAbsent("/@", ':');
  }

  /** What is read when p is printed: p itself, or what becomes of an unknown type without a namespace. */
  ghost function Reread(p: Purl): Purl {
    if Survives(p) then p
    else if p.typ == "alpine" then p.(typ := "apk", namespace := "alpine")
    else NEW_PURL
  }

  /** Without a namespace, an unknown type is not recognised again, though it may be corrected. */
  lemma UnknownTypeIsLost(codec: Codec, p: Purl)
    requires Lawful(codec) && Readable(p) && !WellFormed(p)
    ensures FromString(codec, ToString(codec, p)) == Reread(p) != p
  {
    OpaqueParts(p);
    OpaqueIsUndelimited(p);
    UrlRoundTrip(codec, p.scheme, OpaqueOf(p), p.qualifiers, p.subpath);
    CutPresent(p.name, p.version, '@');
    hide Split;
    hide Cut;
    hide Render;
    hide ParseOpaqueUrl;
  }

  lemma PrintedIsReread(codec: Codec, p: Purl)
    requires Lawful(codec) && (p == NEW_PURL || Readable(p))
    ensures FromString(codec, ToString(codec, p)) == Reread(p)
  {
    if p == NEW_PURL {
      NewPurlSurvives(codec);
    } else if WellFormed(p) {
      RoundTrip(codec, p);
    } else {
      UnknownTypeIsLost(codec, p);
    }
  }

  /** A purl comes back from its printed form exactly when it is empty or well formed. */
  lemma SurvivesIffWellFormed(codec: Codec, p: Purl)
    requires Lawful(codec)
    ensures FromString(codec, ToString(codec, p)) == p <==> p == NEW_PURL || WellFormed(p)
  {
    ParsedIsReadable(codec, ToString(codec, p));
    if WellFormed(p) {
      RoundTrip(codec, p);
    } else if p == NEW_PURL {
      NewPurlSurvives(codec);
    } else if Readable(p) {
      UnknownTypeIsLost(codec, p);
    }
  }

  /**
   One print and parse reaches a fixed point, corrections included, except for strings with an
   unknown type and an empty namespace.
   */
  lemma CorrectionReachesFixedPoint(codec: Codec, s: string)
    requires Lawful(codec)
    ensures var p := FromString(codec, s);
            FromString(codec, ToString(codec, p)) == p <==>
              p == NEW_PURL || p.namespace != "" || IsValidPurlType(p.typ)
  {
    ParsedIsReadable(codec, s);
    SurvivesIffWellFormed(codec, FromString(codec, s));
  }

  /** Every purl of that kind is read from some string, as "pkg:foo//n@1" is, and lost by the next print. */
  lemma FixedPointFails(codec: Codec, p: Purl) returns (s: string)
    requires Lawful(codec) && Readable(p) && !WellFormed(p)
    ensures FromString(codec, s) == p && FromString(codec, ToString(codec, p)) != p
  {
    var last := p.name + "@" + p.version;
    var o := p.typ + "/" + ("/" + last);
    s := Render(codec, p.scheme, o, p.qualifiers, p.subpath);
    UrlRoundTrip(codec, p.scheme, o, p.qualifiers, p.subpath);
    SplitAbsent(last, '/');
    SplitFirst("", last, '/');
    assert "" + ['/'] + last == "/" + last;
    SplitFirst(p.typ, "/" + last, '/');
    CutPresent(p.name, p.version, '@');
    UnknownTypeIsLost(codec, p);
    hide Split;
    hide Cut;
    hide Render;
    hide ParseOpaqueUrl;
  }

  // ---------- The written form ----------

  /** Parts of which the written form is made up: no delimiter in any, and no '@' in the name. */
  ghost predicate GoodParts(typ: string, namespace: string, name: string, version: string) {
    typ != "" && Plain(typ) && Plain(namespace) && Plain(name) && '@' !in name && Plain(version)
  }

  lemma PkgIsScheme()
    ensures IsScheme("pkg") && ToLower("pkg") == "pkg"
  {
    var r := ToLower("pkg");
    assert r[0] == 'p' && r[1] == 'k' && r[2] == 'g';
  }

  /** type/name@version with any type: the 29 types of the specification are known, and one correction is made. */
  lemma WrittenWithoutNamespace(codec: Codec, typ: string, name: string, version: string)
    requires Lawful(codec) && GoodParts(typ, "", name, version)
    ensures FromString(codec, "pkg:" + typ + "/" + name + "@" + version) ==
      if typ in ["alpm", "apk", "bitbucket", "cargo", "cocoapods", "composer", "conan", "conda", "cran", "deb",
        "docker", "gem", "generic", "github", "golang", "hackage", "hex", "huggingface", "maven", "mlflow", "npm",
        "nuget", "oci", "pub", "pypi", "qpkg", "rpm", "swid", "swift"]
      then Purl("pkg", typ, "", name, version, map[], "")
      else if typ == "alpine" then Purl("pkg", "apk", "alpine", name, version, map[], "")
      else NEW_PURL
  {
    PkgIsScheme();
    var p := Purl("pkg", typ, "", name, version, map[], "");
    PrintedIsReread(codec, p);
    var o := typ + "/" + name + "@" + version;
    assert OpaqueOf(p) == o;
    assert ToString(codec, p) == "pkg:" + typ + "/" + name + "@" + version by {
      assert "pkg" + ":" + o == "pkg:" + typ + "/" + name + "@" + version;
    }
    hide FromString;
    hide ToString;
  }

  /** type/namespace/name@version?qualifiers#subpath, with any type. */
  lemma WrittenInFull(codec: Codec, typ: string, namespace: string, name: string, version: string, q: Qualifiers,
      subpath: string)
    requires Lawful(codec) && GoodParts(typ, namespace, name, version) && namespace != "" && subpath != ""
    requires NoEmptyLists(q) && codec.encodeQuery(q) != ""
    ensures var o, query := typ + "/" + namespace + "/" + name + "@" + version, codec.encodeQuery(q);
            FromString(codec, "pkg:" + o + ("?" + query) + ("#" + codec.escapeFragment(subpath))) ==
              Purl("pkg", typ, namespace, name, version, q, subpath)
  {
    PkgIsScheme();
    var p := Purl("pkg", typ, namespace, name, version, q, subpath);
    RoundTrip(codec, p);
    FullText(codec, p);
    hide FromString;
    hide ToString;
    hide Lawful;
    assert "pkg" + ":" == "pkg:";
  }

  lemma FullText(codec: Codec, p: Purl)
    requires p.scheme != "" && p.namespace != "" && p.subpath != "" && codec.encodeQuery(p.qualifiers) != ""
    ensures ToString(codec, p) ==
      p.scheme + ":" + (p.typ + "/" + p.namespace + "/" + p.name + "@" + p.version)
        + ("?" + codec.encodeQuery(p.qualifiers)) + ("#" + codec.escapeFragment(p.subpath))
  {
    assert p.typ + ("/" + p.namespace) == p.typ + "/" + p.namespace;
  }

  lemma PkgIsParsed(codec: Codec, o: string)
    requires Lawful(codec) && Undelimited(o) && o != "" && o[0] != '/'
    ensures ParseOpaqueUrl(codec, "pkg:" + o) == Some(Url("pkg", o, "", ""))
  {
    PkgIsScheme();
    UrlRoundTrip(codec, "pkg", o, map[], "");
    assert Render(codec, "pkg", o, map[], "") == "pkg:" + o;
    hide ParseOpaqueUrl;
    hide Render;
  }

  lemma UndelimitedPath(a: string, b: string)
    requires Undelimited(a) && Undelimited(b)
    ensures Undelimited(a + "/" + b)
  {
    UndelimitedConcat(a, "/");
    UndelimitedConcat(a + "/", b);
  }

  /** The version may be missing. */
  lemma WrittenWithoutVersion(codec: Codec, typ: string, namespace: string, name: string)
    requires Lawful(codec) && GoodParts(typ, namespace, name, "")
    ensures FromString(codec, "pkg:" + (typ + "/" + (namespace + "/" + name))) ==
      Purl("pkg", typ, namespace, name, "", map[], "")
  {
    UndelimitedPath(namespace, name);
    UndelimitedPath(typ, namespace + "/" + name);
    SplitAbsent(name, '/');
    SplitFirst(namespace, name, '/');
    SplitFirst(typ, namespace + "/" + name, '/');
    CutAbsent(name, '@');
    hide Undelimited;
    hide Split;
    hide Cut;
    PkgIsParsed(codec, typ + "/" + (namespace + "/" + name));
    hide ParseOpaqueUrl;
  }

  /** Type and name may not be missing, and there is no place for a fourth part. */
  lemma WrittenOtherwise(codec: Codec, a: string, b: string, c: string, d: string)
    requires Lawful(codec) && a != "" && Plain(a) && Plain(b) && Plain(c) && Plain(d)
    ensures FromString(codec, "pkg:" + a) == NEW_PURL
    ensures FromString(codec, "pkg:" + (a + "/" + (b + "/" + (c + "/" + d)))) == NEW_PURL
  {
    UndelimitedPath(c, d);
    UndelimitedPath(b, c + "/" + d);
    UndelimitedPath(a, b + "/" + (c + "/" + d));
    SplitAbsent(a, '/');
    SplitAbsent(d, '/');
    SplitFirst(c, d, '/');
    SplitFirst(b, c + "/" + d, '/');
    SplitFirst(a, b + "/" + (c + "/" + d), '/');
    hide Undelimited;
    hide Split;
    hide Cut;
    PkgIsParsed(codec, a);
    PkgIsParsed(codec, a + "/" + (b + "/" + (c + "/" + d)));
    hide ParseOpaqueUrl;
  }

  // ---------- Merging ----------

  function FirstNonEmpty(a: string, b: string): string {
    if a == "" then b else a
  }

  /** `Values.Get`: the first value, or "". */
  function GetFirst(q: Qualifiers, k: string): string {
    if k in q && q[k] != [] then q[k][0] else ""
  }

  function MergeQualifiers(a: Qualifiers, b: Qualifiers): Qualifiers {
    map k | k in a.Keys + b.Keys :: if k in a then a[k] else [GetFirst(b, k)]
  }

  function MergedPurl(a: Purl, b: Purl): Purl {
    Purl(FirstNonEmpty(a.scheme, b.scheme), FirstNonEmpty(a.typ, b.typ), FirstNonEmpty(a.namespace, b.namespace),
         FirstNonEmpty(a.name, b.name), FirstNonEmpty(a.version, b.version),
         MergeQualifiers(a.qualifiers, b.qualifiers), FirstNonEmpty(a.subpath, b.subpath))
  }

  method MergePurl(purlA: Purl, purlB: Purl) returns (r: Purl)
    ensures r == MergedPurl(purlA, purlB)
  {
    r := purlA;
    r := r.(scheme := FirstNonEmpty(r.scheme, purlB.scheme));
    r := r.(typ := FirstNonEmpty(r.typ, purlB.typ));
    r := r.(namespace := FirstNonEmpty(r.namespace, purlB.namespace));
    r := r.(name := FirstNonEmpty(r.name, purlB.name));
    r := r.(version := FirstNonEmpty(r.version, purlB.version));
    var qualifiers := r.qualifiers;
    var todo := purlB.qualifiers.Keys;
    while todo != {}
      invariant todo <= purlB.qualifiers.Keys
      invariant forall k :: k in qualifiers <==> k in purlA.qualifiers || (k in purlB.qualifiers && k !in todo)
      invariant forall k :: k in qualifiers ==>
        qualifiers[k] == (if k in purlA.qualifiers then purlA.qualifiers[k] else [GetFirst(purlB.qualifiers, k)])
      decreases todo
    {
      var key :| key in todo;
      if key !in qualifiers {
        qualifiers := qualifiers[key := [GetFirst(purlB.qualifiers, key)]];
      }
      todo := todo - {key};
    }
    assert qualifiers == MergeQualifiers(purlA.qualifiers, purlB.qualifiers);
    r := r.(qualifiers := qualifiers);
    r := r.(subpath := FirstNonEmpty(r.subpath, purlB.subpath));
  }

  function MergePurlStrings(codec: Codec, a: string, b: string): string {
    ToString(codec, MergedPurl(FromString(codec, a), FromString(codec, b)))
  }

  lemma MergedIsReadable(a: Purl, b: Purl)
    requires a == NEW_PURL || Readable(a)
    requires b == NEW_PURL || Readable(b)
    ensures MergedPurl(a, b) == NEW_PURL || Readable(MergedPurl(a, b))
    ensures Survives(a) && Survives(b) ==> Survives(MergedPurl(a, b))
  {
    hide IsScheme;
    hide ToLower;
    hide Plain;
    if a == NEW_PURL && b == NEW_PURL {
      assert MergedPurl(a, b) == NEW_PURL;
    }
  }

  /**
   What the merged string means, for all strings: the merge of the two purls as it is read back.
   That is the merge itself exactly when it is empty, has a namespace or has a valid type.
   */
  lemma MergedPurlMeaning(codec: Codec, a: string, b: string)
    requires Lawful(codec)
    ensures var p, read := MergedPurl(FromString(codec, a), FromString(codec, b)),
      FromString(codec, MergePurlStrings(codec, a, b));
            && read == Reread(p)
            && (read == p <==> p == NEW_PURL || p.namespace != "" || IsValidPurlType(p.typ))
  {
    ParsedIsReadable(codec, a);
    ParsedIsReadable(codec, b);
    var p, q := FromString(codec, a), FromString(codec, b);
    MergedIsReadable(p, q);
    PrintedIsReread(codec, MergedPurl(p, q));
    hide FromString;
    hide ToString;
    hide MergedPurl;
    hide Readable;
  }
}
