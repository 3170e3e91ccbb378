/** First half of the backfill pass (`apply_tier1_backfill_pass`): uniting groups that share a v1 hash. */
module BackfillLinks {
  import opened Common
  import opened Grouping
  import opened ScanItems
  import opened UnionFind
  import opened Components

  type Bucket = (Bytes, Hash)

  /** Items are compared inside their partition, by v1 content hash whatever the identity level. */
  function BucketOf(item: ScanItem, ctx: GroupingContext): Bucket {
    (if ctx.scope.Global? then [] else item.pathKey, item.contentHash)
  }

  /** Two groups may be united when their Message-IDs are compatible and one of them has a Message-ID. */
  predicate Mergeable(bound: seq<Option<Bytes>>, a: nat, b: nat)
    requires a < |bound| && b < |bound|
  {
    (MidPresent(bound[a]).Some? || MidPresent(bound[b]).Some?) && MidJoinCompatible(bound[a], bound[b], true).0
  }

  /** What the pass is given: the items, the group of each, and the Message-ID each group is bound to. */
  predicate Input(items: seq<ScanItem>, gidOf: seq<nat>, bound: seq<Option<Bytes>>) {
    |gidOf| == |items| && forall i | 0 <= i < |gidOf| :: gidOf[i] < |bound|
  }

  /** Some member of a and some member of b have the same bucket. */
  ghost predicate ShareBucket(items: seq<ScanItem>, ctx: GroupingContext, gidOf: seq<nat>, a: nat, b: nat)
    requires |gidOf| == |items|
  {
    exists i, j :: 0 <= i < |items| && 0 <= j < |items| && gidOf[i] == a && gidOf[j] == b
                   && BucketOf(items[i], ctx) == BucketOf(items[j], ctx)
  }

  /** The graph whose components the pass is meant to produce. */
  ghost function Links(items: seq<ScanItem>, ctx: GroupingContext, gidOf: seq<nat>, bound: seq<Option<Bytes>>): Edges
    requires |gidOf| == |items|
  {
    set a: nat, b: nat | a < |bound| && b < |bound| && Mergeable(bound, a, b) && ShareBucket(items, ctx, gidOf, a, b) :: (a, b)
  }

  lemma LinksContain(items: seq<ScanItem>, ctx: GroupingContext, gidOf: seq<nat>, bound: seq<Option<Bytes>>, i: nat, j: nat)
    requires Input(items, gidOf, bound) && i < |items| && j < |items|
    requires BucketOf(items[i], ctx) == BucketOf(items[j], ctx) && Mergeable(bound, gidOf[i], gidOf[j])
    ensures (gidOf[i], gidOf[j]) in Links(items, ctx, gidOf, bound)
  {
    assert ShareBucket(items, ctx, gidOf, gidOf[i], gidOf[j]);
  }

  /** The items of every bucket, in scan order. */
  ghost predicate Indexed(items: seq<ScanItem>, ctx: GroupingContext, byKey: map<Bucket, seq<nat>>, n: nat)
    requires n <= |items|
  {
    && (forall i | 0 <= i < n :: BucketOf(items[i], ctx) in byKey && i in byKey[BucketOf(items[i], ctx)])
    && (forall k, x | k in byKey && 0 <= x < |byKey[k]| :: byKey[k][x] < n && BucketOf(items[byKey[k][x]], ctx) == k)
  }

  method IndexByBucket(items: seq<ScanItem>, ctx: GroupingContext) returns (byKey: map<Bucket, seq<nat>>)
    ensures Indexed(items, ctx, byKey, |items|)
  {
    byKey := map[];
    for i := 0 to |items|
      invariant Indexed(items, ctx, byKey, i)
    {
      var k := BucketOf(items[i], ctx);
      var idxs := if k in byKey then byKey[k] else [];
      byKey := byKey[k := idxs + [i]];
      assert byKey[k][|idxs|] == i;
    }
  }

  /** Sorting and removing duplicates. */
  function SortedDistinct(s: seq<nat>): (r: seq<nat>)
    ensures Ascending(r)
    ensures forall x :: x in r <==> x in s
  {
    if s == [] then []
    else
      assert s == s[..|s| - 1] + [s[|s| - 1]];
      InsertDistinct(SortedDistinct(s[..|s| - 1]), s[|s| - 1])
  }

  function InsertDistinct(s: seq<nat>, x: nat): (r: seq<nat>)
    requires Ascending(s)
    ensures Ascending(r)
    ensures forall y :: y in r <==> y in s || y == x
  {
    if s == [] then [x]
    else if x < s[0] then [x] + s
    else if x == s[0] then s
    else
      assert s == [s[0]] + s[1..];
      var rest := InsertDistinct(s[1..], x);
      assert forall k | 0 <= k < |rest| :: rest[k] in s[1..] || rest[k] == x;
      [s[0]] + rest
  }

  // ---- what the forest knows while the pass runs ----

  predicate SameClass(root: seq<nat>, a: nat, b: nat)
    requires a < |root| && b < |root|
  {
    root[a] == root[b]
  }

  /** The classes never join what the graph does not. */
  ghost predicate Sound(edges: Edges, root: seq<nat>) {
    forall a: nat, b: nat {:trigger SameClass(root, a, b)} {:trigger Connected(edges, a, b)} |
      a < |root| && b < |root| && SameClass(root, a, b) :: Connected(edges, a, b)
  }

  ghost predicate Coarser(root: seq<nat>, later: seq<nat>) {
    && |later| == |root|
    && forall a: nat, b: nat {:trigger SameClass(root, a, b)} {:trigger SameClass(later, a, b)} |
         a < |root| && b < |root| && SameClass(root, a, b) :: SameClass(later, a, b)
  }

  /** A pair that should be united has been. */
  predicate Settled(bound: seq<Option<Bytes>>, root: seq<nat>, a: nat, b: nat)
    requires a < |bound| == |root| && b < |bound|
  {
    Mergeable(bound, a, b) ==> SameClass(root, a, b)
  }

  lemma MergeIsSound(edges: Edges, root: seq<nat>, a: nat, b: nat, keep: nat, drop: nat)
    requires Sound(edges, root) && a < |root| && b < |root| && (a, b) in edges
    requires forall x | 0 <= x < |root| :: root[x] < |root| && root[root[x]] == root[x]
    requires (keep == root[a] && drop == root[b]) || (keep == root[b] && drop == root[a])
    ensures Sound(edges, Merged(root, keep, drop)) && Coarser(root, Merged(root, keep, drop))
    ensures Merged(root, keep, drop)[a] == Merged(root, keep, drop)[b]
  {
    var merged := Merged(root, keep, drop);
    ConnectedEdge(edges, a, b);
    forall x: nat, y: nat | x < |root| && y < |root| && SameClass(merged, x, y)
      ensures Connected(edges, x, y)
    {
      if SameClass(root, x, y) {
      } else {
        var (p, q) := if root[x] == root[a] then (x, y) else (y, x);
        assert SameClass(root, p, a) && SameClass(root, q, b);
        ConnectedReverse(edges, q, b);
        ConnectedTrans(edges, p, a, b);
        ConnectedTrans(edges, p, b, q);
        ConnectedReverse(edges, p, q);
      }
    }
  }

  lemma RootsIdempotent(parent: seq<nat>, root: seq<nat>, height: seq<nat>)
    requires Forest(parent, root, height)
    ensures forall x | 0 <= x < |root| :: root[x] < |root| && root[root[x]] == root[x]
  {
    forall x | 0 <= x < |root|
      ensures root[x] < |root| && root[root[x]] == root[x]
    {
      assert GoodNode(parent, root, height, x);
      assert GoodNode(parent, root, height, root[x]);
    }
  }

  /** One pair of groups: united when mergeable, and counted when that joined two classes. */
  method UnitePair(parent: array<nat>, rank: array<nat>, bound: seq<Option<Bytes>>, a: nat, b: nat,
                   ghost edges: Edges, ghost root: seq<nat>, ghost height: seq<nat>)
    returns (merged: bool, ghost newRoot: seq<nat>, ghost newHeight: seq<nat>)
    requires a < |bound| && b < |bound| && parent.Length == rank.Length == |bound| && parent != rank
    requires Forest(parent[..], root, height) && Sound(edges, root)
    requires Mergeable(bound, a, b) ==> (a, b) in edges
    modifies parent, rank
    ensures Forest(parent[..], newRoot, newHeight) && Sound(edges, newRoot) && Coarser(root, newRoot)
    ensures Settled(bound, newRoot, a, b)
    ensures One(merged) + |Roots(newRoot)| == |Roots(root)|
  {
    merged, newRoot, newHeight := false, root, height;
    var hasMid := MidPresent(bound[a]).Some? || MidPresent(bound[b]).Some?;
    if hasMid && MidJoinCompatible(bound[a], bound[b], true).0 {
      RootsIdempotent(parent[..], root, height);
      ghost var rankBefore := rank[..];
      merged, newRoot, newHeight := Unite(parent, rank, a, b, root, height);
      if merged {
        ghost var (keep, drop) := if rankBefore[root[a]] < rankBefore[root[b]] then (root[b], root[a]) else (root[a], root[b]);
        MergeIsSound(edges, root, a, b, keep, drop);
        MergedRoots(root, keep, drop);
      }
    }
  }

  /** What a stretch of the pair loops leaves behind. */
  ghost predicate Advanced(parent: seq<nat>, edges: Edges, root: seq<nat>, newRoot: seq<nat>, newHeight: seq<nat>, unions: nat) {
    && Forest(parent, newRoot, newHeight) && Sound(edges, newRoot) && Coarser(root, newRoot)
    && unions + |Roots(newRoot)| == |Roots(root)|
  }

  lemma SettledStays(bound: seq<Option<Bytes>>, root: seq<nat>, later: seq<nat>, a: nat, b: nat)
    requires a < |bound| == |root| && b < |bound| && Settled(bound, root, a, b) && Coarser(root, later)
    ensures Settled(bound, later, a, b)
  {
  }

  /** The inner loop: one group against those after it. */
  method UniteWithLater(parent: array<nat>, rank: array<nat>, bound: seq<Option<Bytes>>, gids: seq<nat>, i: nat,
                        ghost edges: Edges, ghost root: seq<nat>, ghost height: seq<nat>)
    returns (unions: nat, ghost newRoot: seq<nat>, ghost newHeight: seq<nat>)
    requires parent.Length == rank.Length == |bound| && parent != rank && i < |gids|
    requires forall x | 0 <= x < |gids| :: gids[x] < |bound|
    requires Forest(parent[..], root, height) && Sound(edges, root)
    requires forall y | 0 <= y < |gids| :: Mergeable(bound, gids[i], gids[y]) ==> (gids[i], gids[y]) in edges
    modifies parent, rank
    ensures Advanced(parent[..], edges, root, newRoot, newHeight, unions)
    ensures forall y | i < y < |gids| :: Settled(bound, newRoot, gids[i], gids[y])
  {
    unions, newRoot, newHeight := 0, root, height;
    for j := i + 1 to |gids|
      invariant Advanced(parent[..], edges, root, newRoot, newHeight, unions)
      invariant forall y | i < y < j :: Settled(bound, newRoot, gids[i], gids[y])
    {
      ghost var before := newRoot;
      var merged;
      merged, newRoot, newHeight := UnitePair(parent, rank, bound, gids[i], gids[j], edges, newRoot, newHeight);
      unions := unions + One(merged);
      forall y | i < y < j
        ensures Settled(bound, newRoot, gids[i], gids[y])
      {
        SettledStays(bound, before, newRoot, gids[i], gids[y]);
      }
    }
  }

  /** Every pair of the given groups. */
  method UniteAllPairs(parent: array<nat>, rank: array<nat>, bound: seq<Option<Bytes>>, gids: seq<nat>,
                       ghost edges: Edges, ghost root: seq<nat>, ghost height: seq<nat>)
    returns (unions: nat, ghost newRoot: seq<nat>, ghost newHeight: seq<nat>)
    requires parent.Length == rank.Length == |bound| && parent != rank
    requires forall x | 0 <= x < |gids| :: gids[x] < |bound|
    requires Forest(parent[..], root, height) && Sound(edges, root)
    requires forall x, y | 0 <= x < |gids| && 0 <= y < |gids| :: Mergeable(bound, gids[x], gids[y]) ==> (gids[x], gids[y]) in edges
    modifies parent, rank
    ensures Advanced(parent[..], edges, root, newRoot, newHeight, unions)
    ensures forall x, y | 0 <= x < y < |gids| :: Settled(bound, newRoot, gids[x], gids[y])
  {
    unions, newRoot, newHeight := 0, root, height;
    for i := 0 to |gids|
      invariant Advanced(parent[..], edges, root, newRoot, newHeight, unions)
      invariant forall x, y | 0 <= x < y < |gids| && x < i :: Settled(bound, newRoot, gids[x], gids[y])
    {
      ghost var before := newRoot;
      var more;
      more, newRoot, newHeight := UniteWithLater(parent, rank, bound, gids, i, edges, newRoot, newHeight);
      unions := unions + more;
      forall x, y | 0 <= x < y < |gids| && x <= i
        ensures Settled(bound, newRoot, gids[x], gids[y])
      {
        if x < i {
          SettledStays(bound, before, newRoot, gids[x], gids[y]);
        }
      }
    }
  }

  function RootsBelow(root: seq<nat>, m: nat): set<nat>
    requires m <= |root|
  {
    set x | 0 <= x < m && root[x] == x
  }

  lemma {:induction false} IdentityRoots(root: seq<nat>, m: nat)
    requires m <= |root| && forall x | 0 <= x < m :: root[x] == x
    ensures |RootsBelow(root, m)| == m
  {
    if m > 0 {
      IdentityRoots(root, m - 1);
      assert RootsBelow(root, m) == RootsBelow(root, m - 1) + {m - 1};
    }
  }

  lemma SettledSymmetric(bound: seq<Option<Bytes>>, root: seq<nat>, a: nat, b: nat)
    requires a < |bound| == |root| && b < |bound| && Settled(bound, root, a, b)
    ensures Settled(bound, root, b, a)
  {
  }

  function GroupsIn(gidOf: seq<nat>, idxs: seq<nat>): (r: seq<nat>)
    requires forall x | 0 <= x < |idxs| :: idxs[x] < |gidOf|
    ensures |r| == |idxs| && forall x | 0 <= x < |idxs| :: r[x] == gidOf[idxs[x]]
  {
    seq(|idxs|, x requires 0 <= x < |idxs| => gidOf[idxs[x]])
  }

  lemma BucketPairsLinked(items: seq<ScanItem>, ctx: GroupingContext, gidOf: seq<nat>, bound: seq<Option<Bytes>>,
                          byKey: map<Bucket, seq<nat>>, k: Bucket, gids: seq<nat>)
    requires Input(items, gidOf, bound) && Indexed(items, ctx, byKey, |items|) && k in byKey
    requires forall x | 0 <= x < |byKey[k]| :: byKey[k][x] < |gidOf|
    requires gids == SortedDistinct(GroupsIn(gidOf, byKey[k]))
    ensures forall x | 0 <= x < |gids| :: gids[x] < |bound|
    ensures forall x, y | 0 <= x < |gids| && 0 <= y < |gids| ::
              Mergeable(bound, gids[x], gids[y]) ==> (gids[x], gids[y]) in Links(items, ctx, gidOf, bound)
  {
    var all := GroupsIn(gidOf, byKey[k]);
    forall x | 0 <= x < |gids|
      ensures gids[x] < |bound|
    {
      assert gids[x] in all;
    }
    forall x, y | 0 <= x < |gids| && 0 <= y < |gids| && Mergeable(bound, gids[x], gids[y])
      ensures (gids[x], gids[y]) in Links(items, ctx, gidOf, bound)
    {
      assert gids[x] in all && gids[y] in all;
      var u :| 0 <= u < |all| && all[u] == gids[x];
      var v :| 0 <= v < |all| && all[v] == gids[y];
      LinksContain(items, ctx, gidOf, bound, byKey[k][u], byKey[k][v]);
    }
  }

  lemma BucketSettled(items: seq<ScanItem>, ctx: GroupingContext, gidOf: seq<nat>, bound: seq<Option<Bytes>>,
                      byKey: map<Bucket, seq<nat>>, k: Bucket, gids: seq<nat>, root: seq<nat>, i: nat, j: nat)
    requires Input(items, gidOf, bound) && Indexed(items, ctx, byKey, |items|) && k in byKey && |root| == |bound|
    requires forall x | 0 <= x < |byKey[k]| :: byKey[k][x] < |gidOf|
    requires gids == SortedDistinct(GroupsIn(gidOf, byKey[k])) && forall x | 0 <= x < |gids| :: gids[x] < |bound|
    requires forall x, y | 0 <= x < y < |gids| :: Settled(bound, root, gids[x], gids[y])
    requires i < |items| && j < |items| && BucketOf(items[i], ctx) == k == BucketOf(items[j], ctx)
    ensures Settled(bound, root, gidOf[i], gidOf[j])
  {
    var all := GroupsIn(gidOf, byKey[k]);
    var u :| 0 <= u < |byKey[k]| && byKey[k][u] == i;
    var v :| 0 <= v < |byKey[k]| && byKey[k][v] == j;
    assert all[u] in all && all[v] in all;
    var x :| 0 <= x < |gids| && gids[x] == gidOf[i];
    var y :| 0 <= y < |gids| && gids[y] == gidOf[j];
    if x < y {
      assert Settled(bound, root, gids[x], gids[y]);
    } else if y < x {
      assert Settled(bound, root, gids[y], gids[x]);
      SettledSymmetric(bound, root, gids[y], gids[x]);
    } else {
      assert root[gidOf[i]] == root[gidOf[j]];
    }
  }

  /** Once every bucket is settled, the classes are the components and the unions count the absorbed groups. */
  lemma FinishLabels(items: seq<ScanItem>, ctx: GroupingContext, gidOf: seq<nat>, bound: seq<Option<Bytes>>,
                     parent: seq<nat>, root: seq<nat>, height: seq<nat>, unions: nat)
    requires Input(items, gidOf, bound) && |root| == |bound|
    requires Forest(parent, root, height) && Sound(Links(items, ctx, gidOf, bound), root)
    requires forall i, j | 0 <= i < |items| && 0 <= j < |items| && BucketOf(items[i], ctx) == BucketOf(items[j], ctx) ::
               Settled(bound, root, gidOf[i], gidOf[j])
    requires unions + |Roots(root)| == |bound|
    ensures Labels(Links(items, ctx, gidOf, bound), root)
    ensures unions == |Absorbed(Links(items, ctx, gidOf, bound), |bound|)|
  {
    var edges := Links(items, ctx, gidOf, bound);
    forall a: nat, b: nat | (a, b) in edges
      ensures root[a] == root[b]
    {
      var i, j :| 0 <= i < |items| && 0 <= j < |items| && gidOf[i] == a && gidOf[j] == b
                  && BucketOf(items[i], ctx) == BucketOf(items[j], ctx);
      assert Settled(bound, root, gidOf[i], gidOf[j]);
    }
    forall a: nat, b: nat | a < |root| && b < |root| && root[a] == root[b]
      ensures Connected(edges, a, b)
    {
      assert SameClass(root, a, b);
    }
    LabelsFromBounds(edges, root);
    RootsIdempotent(parent, root, height);
    assert Images(root, |root|) == Roots(root) by {
      forall x | x in Images(root, |root|)
        ensures x in Roots(root)
      {
      }
      forall x | x in Roots(root)
        ensures x in Images(root, |root|)
      {
        assert root[x] == x;
      }
    }
    CountComponents(edges, root, |root|);
  }

  /** All buckets, in whatever order the hash map yields them. */
  method UniteLinked(items: seq<ScanItem>, ctx: GroupingContext, gidOf: seq<nat>, bound: seq<Option<Bytes>>)
    returns (unions: nat, parent: array<nat>, ghost root: seq<nat>, ghost height: seq<nat>)
    requires Input(items, gidOf, bound)
    ensures fresh(parent) && parent.Length == |bound| && Forest(parent[..], root, height)
    ensures Labels(Links(items, ctx, gidOf, bound), root)
    ensures unions == |Absorbed(Links(items, ctx, gidOf, bound), |bound|)|
  {
    var ng := |bound|;
    ghost var edges := Links(items, ctx, gidOf, bound);
    parent := new nat[ng](x => x);
    var rank := new nat[ng](_ => 0);
    root := seq(ng, x => x);
    height := seq(ng, _ => 0);
    assert parent[..] == root;
    assert Roots(root) == RootsBelow(root, ng);
    IdentityRoots(root, ng);
    forall x: nat | x < ng
      ensures Connected(edges, x, x)
    {
      ConnectedSelf(edges, x);
    }

    var byKey := IndexByBucket(items, ctx);
    unions := 0;
    var keys := byKey.Keys;
    while keys != {}
      invariant keys <= byKey.Keys
      invariant Forest(parent[..], root, height) && |root| == ng && Sound(edges, root)
      invariant unions + |Roots(root)| == ng
      invariant forall i, j | 0 <= i < |items| && 0 <= j < |items| && BucketOf(items[i], ctx) == BucketOf(items[j], ctx)
                              && BucketOf(items[i], ctx) !in keys :: Settled(bound, root, gidOf[i], gidOf[j])
      decreases keys
    {
      var k :| k in keys;
      keys := keys - {k};
      var idxs := byKey[k];
      var gids := SortedDistinct(GroupsIn(gidOf, idxs));
      ghost var before := root;
      BucketPairsLinked(items, ctx, gidOf, bound, byKey, k, gids);
      var more;
      more, root, height := UniteAllPairs(parent, rank, bound, gids, edges, root, height);
      unions := unions + more;
      forall i, j | 0 <= i < |items| && 0 <= j < |items| && BucketOf(items[i], ctx) == BucketOf(items[j], ctx)
                    && BucketOf(items[i], ctx) !in keys
        ensures Settled(bound, root, gidOf[i], gidOf[j])
      {
        if BucketOf(items[i], ctx) == k {
          BucketSettled(items, ctx, gidOf, bound, byKey, k, gids, root, i, j);
        } else {
          SettledStays(bound, before, root, gidOf[i], gidOf[j]);
        }
      }
    }
    FinishLabels(items, ctx, gidOf, bound, parent[..], root, height, unions);
  }
}
