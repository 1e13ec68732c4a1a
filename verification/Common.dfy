/** Definitions that several components share. */
module Common {
  datatype Option<+T> = None | Some(value: T)
  {
    function GetOr(default: T): T {
      if Some? then value else default
    }
  }

  /** String comparison as `sort.Strings` does it. */
  predicate StringLe(a: string, b: string) {
    a == [] || (b != [] && (a[0] < b[0] || (a[0] == b[0] && StringLe(a[1..], b[1..]))))
  }

  lemma StringLeTotal(a: string, b: string)
    ensures StringLe(a, b) || StringLe(b, a)
    ensures StringLe(a, b) && StringLe(b, a) ==> a == b
  {
    if a != [] && b != [] && a[0] == b[0] {
      StringLeTotal(a[1..], b[1..]);
      assert a == [a[0]] + a[1..] && b == [b[0]] + b[1..];
    }
  }

  lemma StringLeTransitive(a: string, b: string, c: string)
    requires StringLe(a, b) && StringLe(b, c)
    ensures StringLe(a, c)
  {
    if a != [] && a[0] == b[0] == c[0] {
      StringLeTransitive(a[1..], b[1..], c[1..]);
    }
  }

  /** a is a proper prefix of b or has the smaller character where they first differ, or the two are equal. */
  lemma {:induction false} StringLeMeaning(a: string, b: string)
    ensures StringLe(a, b) <==> a <= b || exists i :: SmallerAt(a, b, i)
  {
    if a == [] || b == [] || a[0] != b[0] {
      assert a != [] && b != [] && a[0] < b[0] ==> SmallerAt(a, b, 0);
    } else {
      StringLeMeaning(a[1..], b[1..]);
      assert a == [a[0]] + a[1..] && b == [b[0]] + b[1..];
      if i :| SmallerAt(a[1..], b[1..], i) {
        assert a[..i + 1] == [a[0]] + a[1..][..i] && b[..i + 1] == [b[0]] + b[1..][..i];
        assert SmallerAt(a, b, i + 1);
      }
      if i :| SmallerAt(a, b, i) {
        assert a[1..][..i - 1] == a[..i][1..] && b[1..][..i - 1] == b[..i][1..];
        assert SmallerAt(a[1..], b[1..], i - 1);
      }
    }
  }

  ghost predicate SmallerAt(a: string, b: string, i: int) {
    0 <= i < |a| && i < |b| && a[..i] == b[..i] && a[i] < b[i]
  }

  /** Two strings joined by a character that the first does not contain can be told apart again. */
  lemma JoinInjective(a: string, b: string, a': string, b': string, c: char)
    requires c !in a && c !in a'
    ensures a + [c] + b == a' + [c] + b' <==> a == a' && b == b'
  {
    var s, s' := a + [c] + b, a' + [c] + b';
    assert s[|a|] == c && s'[|a'|] == c;
    assert |a| < |a'| ==> s'[|a|] == a'[|a|];
    assert |a'| < |a| ==> s[|a'|] == a[|a'|];
    if s == s' {
      assert a == s[..|a|] && a' == s'[..|a'|];
      assert b == s[|a| + 1..] && b' == s'[|a'| + 1..];
    }
  }
}

/** Stable sorting by a string key, and what sorting identifies. */
module StableSort {
  import opened Common

  function Insert<T>(key: T -> string, x: T, s: seq<T>): seq<T> {
    if s == [] || StringLe(key(x), key(s[0])) then [x] + s
    else [s[0]] + Insert(key, x, s[1..])
  }

  function Sort<T>(key: T -> string, s: seq<T>): seq<T> {
    if s == [] then [] else Insert(key, s[0], Sort(key, s[1..]))
  }

  ghost predicate Sorted<T>(key: T -> string, s: seq<T>) {
    forall i, j :: 0 <= i < j < |s| ==> StringLe(key(s[i]), key(s[j]))
  }

  /** The elements with key k, in order. */
  function Bucket<T>(key: T -> string, s: seq<T>, k: string): seq<T> {
    if s == [] then []
    else (if key(s[0]) == k then [s[0]] else []) + Bucket(key, s[1..], k)
  }

  ghost predicate SameBuckets<T>(key: T -> string, a: seq<T>, b: seq<T>) {
    forall k :: Bucket(key, a, k) == Bucket(key, b, k)
  }

  lemma {:induction false} InsertBuckets<T>(key: T -> string, x: T, s: seq<T>, k: string)
    ensures Bucket(key, Insert(key, x, s), k) == (if key(x) == k then [x] else []) + Bucket(key, s, k)
  {
    if s == [] || StringLe(key(x), key(s[0])) {
      hide StringLe;
      assert ([x] + s)[1..] == s;
    } else {
      StringLeTotal(key(x), key(s[0]));
      assert key(x) != key(s[0]);
      hide StringLe;
      InsertBuckets(key, x, s[1..], k);
      assert ([s[0]] + Insert(key, x, s[1..]))[1..] == Insert(key, x, s[1..]);
      var rest := Bucket(key, s[1..], k);
      assert [] + ([x] + rest) == [x] + rest && [] + rest == rest && [] + ([] + rest) == rest;
    }
  }

  lemma {:induction false} SortBuckets<T>(key: T -> string, s: seq<T>)
    ensures SameBuckets(key, Sort(key, s), s)
  {
    if s == [] {
    } else {
      SortBuckets(key, s[1..]);
      forall k
        ensures Bucket(key, Sort(key, s), k) == Bucket(key, s, k)
      {
        InsertBuckets(key, s[0], Sort(key, s[1..]), k);
      }
    }
  }

  lemma {:induction false} InsertSorted<T>(key: T -> string, x: T, s: seq<T>)
    requires Sorted(key, s)
    ensures Sorted(key, Insert(key, x, s))
    ensures multiset(Insert(key, x, s)) == multiset{x} + multiset(s)
  {
    if s == [] {
    } else if StringLe(key(x), key(s[0])) {
      forall j | 0 <= j < |s|
        ensures StringLe(key(x), key(s[j]))
      {
        if j > 0 { StringLeTransitive(key(x), key(s[0]), key(s[j])); }
      }
    } else {
      var rest := Insert(key, x, s[1..]);
      InsertSorted(key, x, s[1..]);
      StringLeTotal(key(x), key(s[0]));
      assert s == [s[0]] + s[1..];
      forall j | 0 <= j < |rest|
        ensures StringLe(key(s[0]), key(rest[j]))
      {
        assert rest[j] in multiset(rest);
        assert rest[j] == x || rest[j] in s[1..];
      }
    }
  }

  lemma {:induction false} SortSorted<T>(key: T -> string, s: seq<T>)
    ensures Sorted(key, Sort(key, s)) && multiset(Sort(key, s)) == multiset(s)
  {
    if s == [] {
    } else {
      SortSorted(key, s[1..]);
      InsertSorted(key, s[0], Sort(key, s[1..]));
      assert s == [s[0]] + s[1..];
    }
  }

  lemma {:induction false} BucketMember<T>(key: T -> string, s: seq<T>, i: nat)
    requires i < |s|
    ensures Bucket(key, s, key(s[i])) != []
  {
    if i == 0 {
    } else {
      BucketMember(key, s[1..], i - 1);
    }
  }

  lemma {:induction false} BucketNonEmpty<T>(key: T -> string, s: seq<T>, k: string)
    requires Bucket(key, s, k) != []
    ensures exists i :: 0 <= i < |s| && key(s[i]) == k
  {
    if key(s[0]) != k {
      BucketNonEmpty(key, s[1..], k);
      var i :| 0 <= i < |s[1..]| && key(s[1..][i]) == k;
      assert key(s[i + 1]) == k;
    }
  }

  lemma HeadIsLeast<T>(key: T -> string, a: seq<T>, b: seq<T>)
    requires Sorted(key, a) && Sorted(key, b) && SameBuckets(key, a, b) && a != [] && b != []
    ensures StringLe(key(a[0]), key(b[0]))
  {
    BucketMember(key, b, 0);
    assert Bucket(key, a, key(b[0])) != [];
    BucketNonEmpty(key, a, key(b[0]));
    var i :| 0 <= i < |a| && key(a[i]) == key(b[0]);
    if i == 0 { StringLeTotal(key(a[0]), key(a[0])); }
  }

  /** A sorted sequence is determined by its buckets. */
  lemma {:induction false} SortedUnique<T>(key: T -> string, a: seq<T>, b: seq<T>)
    requires Sorted(key, a) && Sorted(key, b) && SameBuckets(key, a, b)
    ensures a == b
  {
    if a == [] {
      if b != [] { BucketMember(key, b, 0); }
    } else {
      BucketMember(key, a, 0);
      assert Bucket(key, b, key(a[0])) != [];
      HeadIsLeast(key, a, b);
      HeadIsLeast(key, b, a);
      StringLeTotal(key(a[0]), key(b[0]));
      var k0 := key(a[0]);
      assert Bucket(key, a, k0) == [a[0]] + Bucket(key, a[1..], k0);
      assert Bucket(key, b, k0) == [b[0]] + Bucket(key, b[1..], k0);
      assert a[0] == Bucket(key, a, k0)[0] == Bucket(key, b, k0)[0] == b[0];
      forall k
        ensures Bucket(key, a[1..], k) == Bucket(key, b[1..], k)
      {
        var x, y := Bucket(key, a[1..], k), Bucket(key, b[1..], k);
        assert Bucket(key, a, k) == Bucket(key, b, k);
        if k == k0 {
          assert x == ([a[0]] + x)[1..] && y == ([b[0]] + y)[1..];
        } else {
          assert [] + x == x && [] + y == y;
        }
      }
      SortedUnique(key, a[1..], b[1..]);
      assert a == [a[0]] + a[1..] && b == [b[0]] + b[1..];
    }
  }

  /** Sorting forgets exactly the order between elements of different keys. */
  lemma SortEqualIffSameBuckets<T>(key: T -> string, a: seq<T>, b: seq<T>)
    ensures Sort(key, a) == Sort(key, b) <==> SameBuckets(key, a, b)
  {
    SortBuckets(key, a);
    SortBuckets(key, b);
    if SameBuckets(key, a, b) {
      SortSorted(key, a);
      SortSorted(key, b);
      forall k
        ensures Bucket(key, Sort(key, a), k) == Bucket(key, Sort(key, b), k)
      {
        assert Bucket(key, Sort(key, a), k) == Bucket(key, a, k) == Bucket(key, b, k) == Bucket(key, Sort(key, b), k);
      }
      SortedUnique(key, Sort(key, a), Sort(key, b));
    }
  }

  lemma SortIdempotent<T>(key: T -> string, s: seq<T>)
    ensures Sort(key, Sort(key, s)) == Sort(key, s)
  {
    SortBuckets(key, s);
    SortEqualIffSameBuckets(key, Sort(key, s), s);
  }

  // ---------- Plain strings ----------

  function Self(s: string): string { s }

  function SortStrings(s: seq<string>): seq<string> {
    Sort(Self, s)
  }

  lemma CountStep(s: seq<string>, k: string)
    requires s != []
    ensures multiset(s)[k] == multiset(s[1..])[k] + (if s[0] == k then 1 else 0)
  {
    assert s == [s[0]] + s[1..];
  }

  lemma {:induction false} BucketCounts(s: seq<string>, k: string)
    ensures |Bucket(Self, s, k)| == multiset(s)[k]
    ensures forall i :: 0 <= i < |Bucket(Self, s, k)| ==> Bucket(Self, s, k)[i] == k
  {
    if s == [] {
    } else {
      BucketCounts(s[1..], k);
      CountStep(s, k);
      var rest := Bucket(Self, s[1..], k);
      assert Bucket(Self, s, k) == if s[0] == k then [k] + rest else rest by {
        assert [] + rest == rest;
      }
      hide Bucket;
    }
  }

  /** Sorting strings forgets the order and nothing else. */
  lemma SortStringsEqualIffPermutation(a: seq<string>, b: seq<string>)
    ensures SortStrings(a) == SortStrings(b) <==> multiset(a) == multiset(b)
  {
    SortEqualIffSameBuckets(Self, a, b);
    if SortStrings(a) == SortStrings(b) {
      SortSorted(Self, a);
      SortSorted(Self, b);
    } else if multiset(a) == multiset(b) {
      forall k
        ensures Bucket(Self, a, k) == Bucket(Self, b, k)
      {
        BucketCounts(a, k);
        BucketCounts(b, k);
      }
    }
  }
}

/** Sums of multisets over a sequence, which do not depend on its order. */
module Gathering {
  function Gather<S, T(==)>(s: seq<S>, f: S -> multiset<T>): multiset<T> {
    if s == [] then multiset{} else Gather(s[..|s| - 1], f) + f(s[|s| - 1])
  }

  lemma {:induction false} GatherSplit<S, T>(a: seq<S>, b: seq<S>, f: S -> multiset<T>)
    ensures Gather(a + b, f) == Gather(a, f) + Gather(b, f)
  {
    if b == [] {
      assert a + b == a;
    } else {
      var n := |b| - 1;
      GatherSplit(a, b[..n], f);
      assert (a + b)[..|a + b| - 1] == a + b[..n];
    }
  }

  lemma GatherWithout<S, T>(b: seq<S>, i: nat, f: S -> multiset<T>)
    requires i < |b|
    ensures Gather(b, f) == Gather(b[..i] + b[i + 1..], f) + f(b[i])
  {
    assert b == (b[..i] + [b[i]]) + b[i + 1..];
    GatherSplit(b[..i] + [b[i]], b[i + 1..], f);
    GatherSplit(b[..i], b[i + 1..], f);
    assert (b[..i] + [b[i]])[..i] == b[..i];
  }

  lemma {:induction false} GatherPermute<S, T>(a: seq<S>, b: seq<S>, f: S -> multiset<T>)
    requires multiset(a) == multiset(b)
    ensures Gather(a, f) == Gather(b, f)
  {
    if a == [] {
      assert |multiset(b)| == |b|;
    } else {
      var n := |a| - 1;
      assert a == a[..n] + [a[n]];
      assert a[n] in multiset(b);
      var i :| 0 <= i < |b| && b[i] == a[n];
      var rest := b[..i] + b[i + 1..];
      assert b == b[..i] + [b[i]] + b[i + 1..];
      assert multiset(rest) == multiset(b) - multiset{b[i]} == multiset(a[..n]);
      GatherPermute(a[..n], rest, f);
      GatherWithout(b, i, f);
    }
  }
}
