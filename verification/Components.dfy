/** Connected components of a finite graph on group numbers, stated by paths. */
module Components {
  import opened Common

  type Edges = set<(nat, nat)>

  predicate Adjacent(edges: Edges, a: nat, b: nat) {
    (a, b) in edges || (b, a) in edges
  }

  ghost predicate IsPath(edges: Edges, p: seq<nat>) {
    p != [] && forall k | 0 <= k < |p| - 1 :: Adjacent(edges, p[k], p[k + 1])
  }

  ghost predicate Joins(edges: Edges, p: seq<nat>, a: nat, b: nat) {
    IsPath(edges, p) && p[0] == a && p[|p| - 1] == b
  }

  ghost predicate Connected(edges: Edges, a: nat, b: nat) {
    exists p :: Joins(edges, p, a, b)
  }

  lemma ConnectedSelf(edges: Edges, a: nat)
    ensures Connected(edges, a, a)
  {
    assert Joins(edges, [a], a, a);
  }

  lemma ConnectedEdge(edges: Edges, a: nat, b: nat)
    requires Adjacent(edges, a, b)
    ensures Connected(edges, a, b)
  {
    assert Joins(edges, [a, b], a, b);
  }

  lemma ConnectedReverse(edges: Edges, a: nat, b: nat)
    requires Connected(edges, a, b)
    ensures Connected(edges, b, a)
  {
    var p :| Joins(edges, p, a, b);
    var n := |p|;
    var q := seq(n, k requires 0 <= k < n => p[n - 1 - k]);
    forall k | 0 <= k < n - 1
      ensures Adjacent(edges, q[k], q[k + 1])
    {
      assert Adjacent(edges, p[n - 2 - k], p[n - 2 - k + 1]);
    }
    assert Joins(edges, q, b, a);
  }

  lemma ConnectedTrans(edges: Edges, a: nat, b: nat, c: nat)
    requires Connected(edges, a, b) && Connected(edges, b, c)
    ensures Connected(edges, a, c)
  {
    var p :| Joins(edges, p, a, b);
    var q :| Joins(edges, q, b, c);
    var r := p + q[1..];
    forall k | 0 <= k < |r| - 1
      ensures Adjacent(edges, r[k], r[k + 1])
    {
      if k < |p| - 1 {
        assert Adjacent(edges, p[k], p[k + 1]);
      } else {
        assert r[k] == q[k - (|p| - 1)] && r[k + 1] == q[k - (|p| - 1) + 1];
        assert Adjacent(edges, q[k - (|p| - 1)], q[k - (|p| - 1) + 1]);
      }
    }
    assert Joins(edges, r, a, c);
  }

  /** A labelling that every edge respects is constant along every path. */
  lemma {:induction false} LabelConstantOnPath<T>(edges: Edges, tag: seq<T>, p: seq<nat>)
    requires IsPath(edges, p)
    requires forall k | 0 <= k < |p| :: p[k] < |tag|
    requires forall a: nat, b: nat | Adjacent(edges, a, b) && a < |tag| && b < |tag| :: tag[a] == tag[b]
    ensures tag[p[0]] == tag[p[|p| - 1]]
  {
    if |p| > 1 {
      assert Adjacent(edges, p[0], p[1]);
      forall k | 0 <= k < |p[1..]| - 1
        ensures Adjacent(edges, p[1..][k], p[1..][k + 1])
      {
        assert Adjacent(edges, p[k + 1], p[k + 1 + 1]);
      }
      LabelConstantOnPath(edges, tag, p[1..]);
    }
  }

  /** A labelling that respects the edges and separates nothing else is exactly connectedness. */
  ghost predicate Labels(edges: Edges, tag: seq<nat>) {
    forall a, b | 0 <= a < |tag| && 0 <= b < |tag| :: tag[a] == tag[b] <==> Connected(edges, a, b)
  }

  ghost predicate Within(edges: Edges, n: nat) {
    forall a, b | (a, b) in edges :: a < n && b < n
  }

  lemma PathWithin(edges: Edges, n: nat, p: seq<nat>)
    requires Within(edges, n) && IsPath(edges, p) && p[0] < n
    ensures forall k | 0 <= k < |p| :: p[k] < n
  {
    forall k | 0 <= k < |p|
      ensures p[k] < n
    {
      if k > 0 {
        assert Adjacent(edges, p[k - 1], p[k - 1 + 1]);
      }
    }
  }

  lemma LabelsFromBounds(edges: Edges, tag: seq<nat>)
    requires Within(edges, |tag|)
    requires forall a, b | 0 <= a < |tag| && 0 <= b < |tag| && tag[a] == tag[b] :: Connected(edges, a, b)
    requires forall a, b | (a, b) in edges :: tag[a] == tag[b]
    ensures Labels(edges, tag)
  {
    forall a, b | 0 <= a < |tag| && 0 <= b < |tag| && Connected(edges, a, b)
      ensures tag[a] == tag[b]
    {
      var p :| Joins(edges, p, a, b);
      PathWithin(edges, |tag|, p);
      LabelConstantOnPath(edges, tag, p);
    }
  }

  ghost predicate HasEarlier(edges: Edges, b: nat) {
    exists a: nat :: a < b && Connected(edges, a, b)
  }

  /** The numbers that are connected to a smaller one: everything but the first of each component. */
  ghost function Absorbed(edges: Edges, n: nat): set<nat> {
    set b: nat | b < n && HasEarlier(edges, b)
  }

  /** The distinct tags of the first m numbers. */
  function Images(tag: seq<nat>, m: nat): set<nat>
    requires m <= |tag|
  {
    set a | 0 <= a < m :: tag[a]
  }

  lemma EarlierIffTagSeen(edges: Edges, tag: seq<nat>, b: nat)
    requires Labels(edges, tag) && b < |tag|
    ensures HasEarlier(edges, b) <==> tag[b] in Images(tag, b)
  {
    if HasEarlier(edges, b) {
      var a: nat :| a < b && Connected(edges, a, b);
      assert tag[a] == tag[b];
    }
    if tag[b] in Images(tag, b) {
      var a :| 0 <= a < b && tag[a] == tag[b];
      assert Connected(edges, a, b);
    }
  }

  /** Tags and absorbed numbers count the same components. */
  lemma {:induction false} CountComponents(edges: Edges, tag: seq<nat>, m: nat)
    requires Labels(edges, tag) && m <= |tag|
    ensures |Images(tag, m)| + |Absorbed(edges, m)| == m
  {
    if m == 0 {
      assert Images(tag, 0) == {} && Absorbed(edges, 0) == {};
    } else {
      var b := m - 1;
      CountComponents(edges, tag, b);
      EarlierIffTagSeen(edges, tag, b);
      OneMoreImage(tag, b);
      OneMoreAbsorbed(edges, b);
    }
  }

  lemma OneMoreImage(tag: seq<nat>, b: nat)
    requires b < |tag|
    ensures |Images(tag, b + 1)| == |Images(tag, b)| + (if tag[b] in Images(tag, b) then 0 else 1)
  {
    assert Images(tag, b + 1) == Images(tag, b) + {tag[b]};
  }

  lemma OneMoreAbsorbed(edges: Edges, b: nat)
    ensures |Absorbed(edges, b + 1)| == |Absorbed(edges, b)| + (if HasEarlier(edges, b) then 1 else 0)
  {
    assert Absorbed(edges, b + 1) == Absorbed(edges, b) + (if HasEarlier(edges, b) then {b} else {});
  }
}
