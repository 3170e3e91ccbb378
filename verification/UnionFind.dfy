/** The disjoint-set forest of the backfill pass: find with path halving, union by saturating rank. */
module UnionFind {

  /**
   root[x] is the representative of x; height is a ghost measure that grows along every parent link.
   It is kept apart from the one-byte rank, which saturates and so could not bound a path.
   */
  predicate GoodNode(parent: seq<nat>, root: seq<nat>, height: seq<nat>, x: nat)
    requires |root| == |height| == |parent| && x < |parent|
  {
    && parent[x] < |parent| && root[x] < |parent|
    && root[parent[x]] == root[x] && parent[root[x]] == root[x]
    && (parent[x] == x ==> root[x] == x)
    && (parent[x] != x ==> height[x] < height[parent[x]])
    && height[x] <= height[root[x]]
  }

  ghost predicate Forest(parent: seq<nat>, root: seq<nat>, height: seq<nat>) {
    && |root| == |parent| && |height| == |parent|
    && forall x: nat {:trigger GoodNode(parent, root, height, x)} | x < |parent| :: GoodNode(parent, root, height, x)
  }

  /** The representatives. */
  function Roots(root: seq<nat>): set<nat> {
    set x | 0 <= x < |root| && root[x] == x
  }

  /** Everything represented by `drop` is represented by `keep` instead. */
  function Merged(root: seq<nat>, keep: nat, drop: nat): (r: seq<nat>)
    ensures |r| == |root|
  {
    seq(|root|, x requires 0 <= x < |root| => if root[x] == drop then keep else root[x])
  }

  lemma HalvingKeepsForest(parent: seq<nat>, root: seq<nat>, height: seq<nat>, x: nat)
    requires Forest(parent, root, height) && x < |parent| && parent[x] != x && parent[x] < |parent|
    ensures parent[parent[x]] < |parent| && root[x] < |parent|
    ensures Forest(parent[x := parent[parent[x]]], root, height)
    ensures root[parent[parent[x]]] == root[x] && height[x] < height[parent[parent[x]]] <= height[root[x]]
  {
    assert GoodNode(parent, root, height, x) && GoodNode(parent, root, height, parent[x]);
    assert GoodNode(parent, root, height, parent[parent[x]]);
    var halved := parent[x := parent[parent[x]]];
    forall y: nat | y < |parent|
      ensures GoodNode(halved, root, height, y)
    {
      assert GoodNode(parent, root, height, y);
    }
  }

  /** Finds the representative and shortens the path; no representative changes. */
  method Find(parent: array<nat>, start: nat, ghost root: seq<nat>, ghost height: seq<nat>) returns (x: nat)
    requires start < parent.Length && Forest(parent[..], root, height)
    modifies parent
    ensures x == root[start] && Forest(parent[..], root, height)
  {
    x := start;
    assert GoodNode(parent[..], root, height, x);
    while parent[x] != x
      invariant x < parent.Length && root[x] == root[start] && Forest(parent[..], root, height)
      invariant parent[x] < parent.Length && root[start] < parent.Length && height[x] <= height[root[start]]
      decreases height[root[start]] - height[x]
    {
      ghost var before := parent[..];
      HalvingKeepsForest(before, root, height, x);
      assert GoodNode(before, root, height, parent[x]);
      parent[x] := parent[parent[x]];
      assert parent[..] == before[x := before[before[x]]];
      x := parent[x];
      assert GoodNode(parent[..], root, height, x);
    }
    assert GoodNode(parent[..], root, height, x);
  }

  /** Merging two classes removes exactly one representative. */
  lemma MergedRoots(root: seq<nat>, keep: nat, drop: nat)
    requires keep < |root| && drop < |root| && root[keep] == keep && root[drop] == drop && keep != drop
    ensures Roots(Merged(root, keep, drop)) == Roots(root) - {drop}
    ensures |Roots(Merged(root, keep, drop))| == |Roots(root)| - 1
  {
    var merged := Merged(root, keep, drop);
    forall x
      ensures x in Roots(merged) <==> x in Roots(root) - {drop}
    {
      if 0 <= x < |root| {
        assert merged[x] == if root[x] == drop then keep else root[x];
      }
    }
    assert drop in Roots(root);
  }

  /** Ranks are one byte and saturate. */
  function SaturatingSucc(rank: nat): nat {
    if rank < 255 then rank + 1 else 255
  }

  function RankAfter(keep: nat, drop: nat): nat {
    if keep == drop then SaturatingSucc(keep) else keep
  }

  /** Unites two classes by rank; false when they are one class already. */
  method Unite(parent: array<nat>, rank: array<nat>, a: nat, b: nat, ghost root: seq<nat>, ghost height: seq<nat>)
    returns (merged: bool, ghost newRoot: seq<nat>, ghost newHeight: seq<nat>)
    requires a < parent.Length && b < parent.Length && rank.Length == parent.Length && rank != parent
    requires Forest(parent[..], root, height)
    modifies parent, rank
    ensures root[a] < parent.Length && root[b] < parent.Length
    ensures merged == (root[a] != root[b])
    ensures Forest(parent[..], newRoot, newHeight)
    ensures !merged ==> newRoot == root
    ensures !merged ==> rank[..] == old(rank[..])
    ensures merged ==>
              var (keep, drop) := if old(rank[root[a]]) < old(rank[root[b]]) then (root[b], root[a]) else (root[a], root[b]);
              && newRoot == Merged(root, keep, drop)
              && rank[..] == old(rank[..])[keep := RankAfter(old(rank[keep]), old(rank[drop]))]
  {
    assert GoodNode(parent[..], root, height, a) && GoodNode(parent[..], root, height, b);
    var ra := Find(parent, a, root, height);
    var rb := Find(parent, b, root, height);
    assert GoodNode(parent[..], root, height, ra) && GoodNode(parent[..], root, height, rb);
    assert GoodNode(parent[..], root, height, a) && GoodNode(parent[..], root, height, b);
    if ra == rb {
      return false, root, height;
    }
    if rank[ra] < rank[rb] {
      ra, rb := rb, ra;
    }
    ghost var before := parent[..];
    parent[rb] := ra;
    if rank[ra] == rank[rb] {
      rank[ra] := SaturatingSucc(rank[ra]);
    }
    assert parent[..] == before[rb := ra];
    merged := true;
    newRoot := Merged(root, ra, rb);
    newHeight := height[ra := if height[ra] <= height[rb] then height[rb] + 1 else height[ra]];
    UniteKeepsForest(before, root, height, ra, rb, newHeight);
  }

  lemma UniteKeepsForest(parent: seq<nat>, root: seq<nat>, height: seq<nat>, ra: nat, rb: nat, newHeight: seq<nat>)
    requires Forest(parent, root, height) && ra < |parent| && rb < |parent| && ra != rb
    requires root[ra] == ra && root[rb] == rb
    requires newHeight == height[ra := if height[ra] <= height[rb] then height[rb] + 1 else height[ra]]
    ensures Forest(parent[rb := ra], Merged(root, ra, rb), newHeight)
  {
    assert GoodNode(parent, root, height, ra) && GoodNode(parent, root, height, rb);
    var linked, merged := parent[rb := ra], Merged(root, ra, rb);
    forall x: nat | x < |parent|
      ensures GoodNode(linked, merged, newHeight, x)
    {
      assert GoodNode(parent, root, height, x) && GoodNode(parent, root, height, root[x]);
    }
  }
}
