/** Three-way comparison, and the byte-wise order of strings. */
module ByteOrder {
  import opened Common

  datatype Ordering = Less | Equal | Greater {
    function Then(next: Ordering): Ordering {
      if Equal? then next else this
    }

    function Flip(): Ordering {
      match this
      case Less => Greater
      case Equal => Equal
      case Greater => Less
    }
  }

  function CompareInts(a: int, b: int): Ordering {
    if a < b then Less else if a == b then Equal else Greater
  }

  /** Byte-wise lexicographic order of strings. */
  function CompareBytes(a: Bytes, b: Bytes): Ordering {
    if a == [] then (if b == [] then Equal else Less)
    else if b == [] then Greater
    else CompareInts(a[0] as int, b[0] as int).Then(CompareBytes(a[1..], b[1..]))
  }

  lemma {:induction false} BytesEqualIff(a: Bytes, b: Bytes)
    ensures CompareBytes(a, b) == Equal <==> a == b
    ensures CompareBytes(b, a) == CompareBytes(a, b).Flip()
  {
    if a != [] && b != [] {
      BytesEqualIff(a[1..], b[1..]);
      assert a == [a[0]] + a[1..] && b == [b[0]] + b[1..];
    }
  }

  lemma {:induction false} BytesTransitive(a: Bytes, b: Bytes, c: Bytes)
    requires CompareBytes(a, b) == Less && CompareBytes(b, c) == Less
    ensures CompareBytes(a, c) == Less
  {
    if a != [] && b != [] && c != [] && a[0] == b[0] == c[0] {
      BytesTransitive(a[1..], b[1..], c[1..]);
    }
  }

  /** a is a proper beginning of b, or is smaller where they first differ. */
  ghost predicate LexBefore(a: Bytes, b: Bytes) {
    exists k: nat :: LexBeforeAt(a, b, k)
  }

  predicate LexBeforeAt(a: Bytes, b: Bytes, k: nat) {
    k <= |a| && k < |b| && a[..k] == b[..k] && (k < |a| ==> a[k] < b[k])
  }

  lemma {:induction false} BytesLessMeans(a: Bytes, b: Bytes)
    ensures CompareBytes(a, b) == Less <==> LexBefore(a, b)
  {
    if b == [] {
    } else if a == [] {
      assert LexBeforeAt(a, b, 0);
    } else {
      BytesLessMeans(a[1..], b[1..]);
      if a[0] < b[0] {
        assert LexBeforeAt(a, b, 0);
      } else if a[0] == b[0] {
        LexBeforeNext(a, b);
      } else {
        forall k: nat
          ensures !LexBeforeAt(a, b, k)
        {
          assert k > 0 && k <= |a| && k < |b| ==> a[..k][0] == a[0] && b[..k][0] == b[0];
        }
      }
    }
  }

  lemma LexBeforeNext(a: Bytes, b: Bytes)
    requires a != [] && b != [] && a[0] == b[0]
    ensures LexBefore(a, b) <==> LexBefore(a[1..], b[1..])
  {
    if LexBefore(a, b) {
      var k: nat :| LexBeforeAt(a, b, k);
      assert k > 0;
      assert a[1..][..k - 1] == a[..k][1..] && b[1..][..k - 1] == b[..k][1..];
      assert LexBeforeAt(a[1..], b[1..], k - 1);
    }
    if LexBefore(a[1..], b[1..]) {
      var k: nat :| LexBeforeAt(a[1..], b[1..], k);
      assert a[..k + 1] == [a[0]] + a[1..][..k] && b[..k + 1] == [b[0]] + b[1..][..k];
      assert LexBeforeAt(a, b, k + 1);
    }
  }

  lemma LexAsymmetric(a: Bytes, b: Bytes)
    ensures !(LexBefore(a, b) && LexBefore(b, a))
  {
    BytesLessMeans(a, b);
    BytesLessMeans(b, a);
    BytesEqualIff(a, b);
  }

  // ---- composing comparisons ----

  /** What a comparison of a with b and one of b with c say about one of a with c. */
  predicate Composes(ab: Ordering, bc: Ordering, ac: Ordering) {
    (ab == Equal ==> ac == bc) && (bc == Equal ==> ac == ab) && (ab == bc == Less ==> ac == Less)
  }

  lemma ThenComposes(ab: Ordering, bc: Ordering, ac: Ordering, ab2: Ordering, bc2: Ordering, ac2: Ordering)
    requires Composes(ab, bc, ac) && Composes(ab2, bc2, ac2)
    ensures Composes(ab.Then(ab2), bc.Then(bc2), ac.Then(ac2))
  {
  }

  lemma BytesCompose(a: Bytes, b: Bytes, c: Bytes)
    ensures Composes(CompareBytes(a, b), CompareBytes(b, c), CompareBytes(a, c))
  {
    BytesEqualIff(a, b);
    BytesEqualIff(b, c);
    if CompareBytes(a, b) == CompareBytes(b, c) == Less {
      BytesTransitive(a, b, c);
    }
  }
}
