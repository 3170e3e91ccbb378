/** Text, digests and the small sequence facts every other module uses. */
module Common {

  datatype Option<+T> = None | Some(value: T)

  /** One byte of a UTF-8 string or of a digest. */
  newtype byte = x: int | 0 <= x < 256

  /** A string is the sequence of its UTF-8 bytes, which is also how it is compared and hashed. */
  type Bytes = seq<byte>

  /** A SHA-256 digest: opaque, but of a fixed length, which is what makes map keys unambiguous. */
  type Hash = h: Bytes | |h| == 32 witness seq(32, _ => 0)

  const NUL: byte := 0

  predicate Contains(s: Bytes, b: byte) {
    exists i :: 0 <= i < |s| && s[i] == b
  }

  ghost predicate Ascending(s: seq<nat>) {
    forall i, j :: 0 <= i < j < |s| ==> s[i] < s[j]
  }

  ghost predicate Distinct(s: seq<nat>) {
    forall i, j :: 0 <= i < j < |s| ==> s[i] != s[j]
  }

  lemma DistinctConcat(a: seq<nat>, b: seq<nat>)
    requires Distinct(a) && Distinct(b) && forall x | x in a :: x !in b
    ensures Distinct(a + b)
  {
    forall i, j | 0 <= i < |a| <= j < |a + b|
      ensures (a + b)[i] != (a + b)[j]
    {
      assert a[i] in a && b[j - |a|] in b;
    }
  }

  /** Two strings that agree and have tails of equal length agree in both parts. */
  lemma EqualTails<T>(a: seq<T>, x: seq<T>, b: seq<T>, y: seq<T>)
    requires a + x == b + y
    requires |x| == |y|
    ensures a == b && x == y
  {
    assert |a| == |b|;
    assert a == (a + x)[..|a|] == (b + y)[..|b|] == b;
    assert x == (a + x)[|a|..] == (b + y)[|b|..] == y;
  }

  /** A separator that occurs in neither prefix splits a string in one way only. */
  lemma EqualHeads(a: Bytes, x: Bytes, b: Bytes, y: Bytes, sep: byte)
    requires !Contains(a, sep) && !Contains(b, sep)
    requires a + [sep] + x == b + [sep] + y
    ensures a == b && x == y
  {
    var s, t := a + [sep] + x, b + [sep] + y;
    assert s[|a|] == sep == t[|a|] && t[|b|] == sep == s[|b|];
    assert |a| == |b|;
    assert a == s[..|a|] == b;
    assert x == s[|a| + 1..] == y;
  }
}
