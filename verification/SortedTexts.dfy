/** Sorting strings by their bytes, as `Vec<String>::sort` does, and why the result only depends on what is sorted. */
module SortedTexts {
  import opened ByteOrder
  import opened Common

  predicate AtMost(a: Bytes, b: Bytes) {
    CompareBytes(a, b) != Greater
  }

  lemma AtMostTotal(a: Bytes, b: Bytes)
    ensures AtMost(a, b) || AtMost(b, a)
  {
    BytesEqualIff(a, b);
  }

  lemma AtMostTransitive(a: Bytes, b: Bytes, c: Bytes)
    requires AtMost(a, b) && AtMost(b, c)
    ensures AtMost(a, c)
  {
    BytesEqualIff(a, b);
    BytesEqualIff(b, c);
    if CompareBytes(a, b) == Less && CompareBytes(b, c) == Less {
      BytesTransitive(a, b, c);
    }
  }

  lemma AtMostAntisymmetric(a: Bytes, b: Bytes)
    requires AtMost(a, b) && AtMost(b, a)
    ensures a == b
  {
    BytesEqualIff(a, b);
  }

  /** Sorted: every element is at most each later one. */
  predicate Sorted(s: seq<Bytes>) {
    s == [] || ((forall x | x in s[1..] :: AtMost(s[0], x)) && Sorted(s[1..]))
  }

  function Insert(x: Bytes, s: seq<Bytes>): (r: seq<Bytes>)
    ensures multiset(r) == multiset(s) + multiset{x}
  {
    if s == [] || AtMost(x, s[0]) then [x] + s
    else
      assert s == [s[0]] + s[1..];
      [s[0]] + Insert(x, s[1..])
  }

  lemma {:induction false} InsertSorted(x: Bytes, s: seq<Bytes>)
    requires Sorted(s)
    ensures Sorted(Insert(x, s))
  {
    if s == [] {
    } else if AtMost(x, s[0]) {
      forall y | y in s
        ensures AtMost(x, y)
      {
        if y != s[0] {
          assert y in s[1..];
          AtMostTransitive(x, s[0], y);
        }
      }
      assert ([x] + s)[1..] == s;
    } else {
      InsertSorted(x, s[1..]);
      AtMostTotal(x, s[0]);
      var rest := Insert(x, s[1..]);
      forall y | y in rest
        ensures AtMost(s[0], y)
      {
        assert y in multiset(rest);
        assert y == x || y in multiset(s[1..]);
      }
      assert ([s[0]] + rest)[1..] == rest;
    }
  }

  /** The sorted rearrangement. */
  function Sort(s: seq<Bytes>): (r: seq<Bytes>)
    ensures multiset(r) == multiset(s)
  {
    if s == [] then []
    else
      assert s == [s[0]] + s[1..];
      Insert(s[0], Sort(s[1..]))
  }

  lemma {:induction false} SortSorts(s: seq<Bytes>)
    ensures Sorted(Sort(s))
  {
    if s != [] {
      SortSorts(s[1..]);
      InsertSorted(s[0], Sort(s[1..]));
    }
  }

  lemma {:induction false} SortedAscends(s: seq<Bytes>, i: nat, j: nat)
    requires Sorted(s) && i < j < |s|
    ensures s[i] == s[j] || LexBefore(s[i], s[j])
  {
    if i > 0 {
      SortedAscends(s[1..], i - 1, j - 1);
    } else {
      assert s[1..][j - 1] in s[1..] && s[1..][j - 1] == s[j];
      BytesLessMeans(s[0], s[j]);
      BytesEqualIff(s[0], s[j]);
    }
  }

  /** Smaller strings come first: a proper beginning, or a smaller byte at the first difference. */
  lemma SortAscends(s: seq<Bytes>, i: nat, j: nat)
    requires i < j < |Sort(s)|
    ensures Sort(s)[i] == Sort(s)[j] || LexBefore(Sort(s)[i], Sort(s)[j])
  {
    SortSorts(s);
    SortedAscends(Sort(s), i, j);
  }

  lemma SameSize(a: seq<Bytes>, b: seq<Bytes>)
    requires multiset(a) == multiset(b)
    ensures |a| == |b|
  {
    assert |multiset(a)| == |a| && |multiset(b)| == |b|;
  }

  lemma HeadIsLeast(a: seq<Bytes>, x: Bytes)
    requires Sorted(a) && x in multiset(a)
    ensures a != [] && AtMost(a[0], x)
  {
    AtMostTotal(x, x);
    if x != a[0] {
      assert x in a[1..];
    }
  }

  /** There is only one way to sort a collection. */
  lemma {:induction false} SortedUnique(a: seq<Bytes>, b: seq<Bytes>)
    requires Sorted(a) && Sorted(b) && multiset(a) == multiset(b)
    ensures a == b
  {
    SameSize(a, b);
    if a != [] {
      assert a[0] in multiset(a) && b[0] in multiset(b);
      HeadIsLeast(a, b[0]);
      HeadIsLeast(b, a[0]);
      AtMostAntisymmetric(a[0], b[0]);
      TailsOfSame(a, b);
      SortedUnique(a[1..], b[1..]);
      assert a == [a[0]] + a[1..] && b == [b[0]] + b[1..];
    }
  }

  lemma TailsOfSame(a: seq<Bytes>, b: seq<Bytes>)
    requires a != [] && b != [] && a[0] == b[0] && multiset(a) == multiset(b)
    ensures multiset(a[1..]) == multiset(b[1..])
  {
    assert a == [a[0]] + a[1..] && b == [b[0]] + b[1..];
    assert multiset(a[1..]) == multiset(a) - multiset{a[0]};
  }

  lemma SortOfSame(a: seq<Bytes>, b: seq<Bytes>)
    requires multiset(a) == multiset(b)
    ensures Sort(a) == Sort(b)
  {
    SortSorts(a);
    SortSorts(b);
    SortedUnique(Sort(a), Sort(b));
  }

  // ---- collecting what is sorted ----

  /** The values a function picks from a list, in order. */
  function Collect<A>(pick: A -> Option<Bytes>, s: seq<A>): seq<Bytes> {
    if s == [] then []
    else
      var n := |s| - 1;
      Collect(pick, s[..n]) + (if pick(s[n]).Some? then [pick(s[n]).value] else [])
  }

  lemma {:induction false} CollectConcat<A>(pick: A -> Option<Bytes>, a: seq<A>, b: seq<A>)
    ensures Collect(pick, a + b) == Collect(pick, a) + Collect(pick, b)
  {
    if b == [] {
      assert a + b == a;
    } else {
      var n := |b| - 1;
      CollectConcat(pick, a, b[..n]);
      assert (a + b)[..|a + b| - 1] == a + b[..n];
    }
  }

  lemma SplitAround<A>(s: seq<A>, i: nat)
    requires i < |s|
    ensures s == s[..i] + [s[i]] + s[i + 1..]
  {
  }

  lemma CollectWithout<A>(pick: A -> Option<Bytes>, s: seq<A>, i: nat)
    requires i < |s|
    ensures multiset(Collect(pick, s)) == multiset(Collect(pick, s[..i] + s[i + 1..])) + multiset(Collect(pick, [s[i]]))
  {
    SplitAround(s, i);
    CollectAround(pick, s[..i], [s[i]], s[i + 1..], s);
  }

  lemma CollectAround<A>(pick: A -> Option<Bytes>, front: seq<A>, middle: seq<A>, back: seq<A>, whole: seq<A>)
    requires whole == front + middle + back
    ensures multiset(Collect(pick, whole)) == multiset(Collect(pick, front + back)) + multiset(Collect(pick, middle))
  {
    CollectConcat(pick, front, back);
    CollectConcat(pick, front + middle, back);
    CollectConcat(pick, front, middle);
  }

  lemma MultisetWithout<A>(s: seq<A>, i: nat)
    requires i < |s|
    ensures multiset(s[..i] + s[i + 1..]) == multiset(s) - multiset{s[i]}
  {
    assert s == s[..i] + [s[i]] + s[i + 1..];
  }

  /** Rearranging a list rearranges what is collected from it. */
  lemma {:induction false} CollectPermutes<A>(pick: A -> Option<Bytes>, a: seq<A>, b: seq<A>)
    requires multiset(a) == multiset(b)
    ensures multiset(Collect(pick, a)) == multiset(Collect(pick, b))
  {
    if a == [] {
      assert |b| == |multiset(b)| == 0;
    } else {
      var n := |a| - 1;
      assert a[n] in multiset(b);
      var i :| 0 <= i < |b| && b[i] == a[n];
      MultisetWithout(a, n);
      MultisetWithout(b, i);
      CollectPermutes(pick, a[..n] + a[n + 1..], b[..i] + b[i + 1..]);
      CollectWithout(pick, a, n);
      CollectWithout(pick, b, i);
    }
  }
}
