/** Batch grouping as a whole (`group_candidates_with_stats`): the pass over the items, then the backfill pass. */
module GroupCandidates {
  import opened Common
  import opened Grouping
  import opened ScanItems
  import opened GroupLists
  import opened BatchGrouping
  import opened UnionFind
  import opened Components
  import opened BackfillLinks
  import opened Backfill
  import M = MidAuthority

  datatype GroupingOutcome = GroupingOutcome(groups: seq<seq<nat>>, boundBy: seq<BoundBy>, stats: GroupingStats)

  /** The backfill graph over the groups of the first pass. */
  ghost function BackfillGraph(items: seq<ScanItem>, ctx: GroupingContext): Edges
    requires |BatchRun(items, ctx).gidOf| == |items|
  {
    Links(items, ctx, BatchRun(items, ctx).gidOf, BatchRun(items, ctx).bound)
  }

  /** Whether two items belong together, by the declarative reading of the whole algorithm. */
  ghost predicate Together(items: seq<ScanItem>, ctx: GroupingContext, i: nat, j: nat)
    requires |BatchRun(items, ctx).gidOf| == |items| && i < |items| && j < |items|
  {
    var gidOf := BatchRun(items, ctx).gidOf;
    if ctx.tier1Backfill then Connected(BackfillGraph(items, ctx), gidOf[i], gidOf[j]) else gidOf[i] == gidOf[j]
  }

  /** What grouping promises of its outcome; gid is the final group of each item. */
  ghost predicate IsOutcome(items: seq<ScanItem>, ctx: GroupingContext, out: GroupingOutcome, gid: seq<nat>) {
    var st := BatchRun(items, ctx);
    && |st.gidOf| == |st.boundBy| == |items| == |gid| == |out.boundBy|
    && IsGrouping(out.groups, gid)
    && (forall i: nat, j: nat {:trigger Together(items, ctx, i, j)} | i < |items| && j < |items| ::
          gid[i] == gid[j] <==> Together(items, ctx, i, j))
    && (forall i | 0 <= i < |items| :: out.boundBy[i] == Retagged(items, ctx, out.groups[gid[i]][0], i, st.boundBy[i]))
    && out.stats == st.stats.(backfillCandidates := |Absorbed(BackfillGraph(items, ctx), |st.groups|)|)
    && |out.groups| + (if ctx.tier1Backfill then out.stats.backfillCandidates else 0) == |st.groups|
  }

  /** The group of each item, read back from the groups. */
  method ItemGids(groups: seq<seq<nat>>, n: nat, ghost gidOf: seq<nat>) returns (itemGid: seq<nat>)
    requires IsGrouping(groups, gidOf) && |gidOf| == n
    ensures itemGid == gidOf
  {
    itemGid := seq(n, _ => 0);
    for g := 0 to |groups|
      invariant |itemGid| == n && forall i | 0 <= i < n && gidOf[i] < g :: itemGid[i] == gidOf[i]
    {
      for k := 0 to |groups[g]|
        invariant |itemGid| == n && forall i | 0 <= i < n && (gidOf[i] < g || i in groups[g][..k]) :: itemGid[i] == gidOf[i]
      {
        assert groups[g][..k + 1] == groups[g][..k] + [groups[g][k]];
        itemGid := itemGid[groups[g][k] := g];
      }
      assert groups[g][..|groups[g]|] == groups[g];
    }
  }

  /** The backfill pass: candidates are always counted, groups are merged only when the flag is on. */
  method ApplyBackfill(items: seq<ScanItem>, ctx: GroupingContext, groups: seq<seq<nat>>, bound: seq<Option<Bytes>>,
                       boundBy: seq<BoundBy>, ghost gidOf: seq<nat>)
    returns (newGroups: seq<seq<nat>>, newTags: seq<BoundBy>, candidates: nat, ghost gid: seq<nat>)
    requires IsGrouping(groups, gidOf) && |gidOf| == |items| == |boundBy| && |bound| == |groups|
    requires forall i | 0 <= i < |items| :: boundBy[i] == Seed <==> groups[gidOf[i]][0] == i
    ensures IsGrouping(newGroups, gid) && |gid| == |items| == |newTags|
    ensures var graph := Links(items, ctx, gidOf, bound);
            && candidates == |Absorbed(graph, |bound|)|
            && (forall i: nat, j: nat | i < |items| && j < |items| ::
                  gid[i] == gid[j] <==> if ctx.tier1Backfill then Connected(graph, gidOf[i], gidOf[j]) else gidOf[i] == gidOf[j])
    ensures forall i | 0 <= i < |items| :: newTags[i] == Retagged(items, ctx, newGroups[gid[i]][0], i, boundBy[i])
    ensures |newGroups| + (if ctx.tier1Backfill then candidates else 0) == |groups|
  {
    newGroups, newTags, candidates, gid := groups, boundBy, 0, gidOf;
    var itemGid := ItemGids(groups, |items|, gidOf);
    var unions, parent;
    ghost var root, height;
    unions, parent, root, height := UniteLinked(items, ctx, itemGid, bound);
    candidates := unions;
    CountComponents(Links(items, ctx, gidOf, bound), root, |root|);
    if ctx.tier1Backfill && unions == 0 {
      NothingAbsorbed(root, |root|);
    }
    if !ctx.tier1Backfill || unions == 0 {
      return;
    }
    newGroups, gid := Regroup(parent, groups, gidOf, root, height);
    newTags := Reclassify(items, ctx, newGroups, boundBy, gid);
  }

  /** With as many tags as numbers, no two numbers share a tag. */
  lemma {:induction false} NothingAbsorbed(root: seq<nat>, m: nat)
    requires m <= |root| && |Images(root, m)| == m
    ensures forall a, b | 0 <= a < m && 0 <= b < m && root[a] == root[b] :: a == b
  {
    if m > 0 {
      ImagesBound(root, m - 1);
      assert Images(root, m) == Images(root, m - 1) + {root[m - 1]};
      NothingAbsorbed(root, m - 1);
      forall a | 0 <= a < m - 1
        ensures root[a] != root[m - 1]
      {
        assert root[a] in Images(root, m - 1);
      }
    }
  }

  lemma {:induction false} ImagesBound(tag: seq<nat>, m: nat)
    requires m <= |tag|
    ensures |Images(tag, m)| <= m
  {
    if m == 0 {
      assert Images(tag, 0) == {};
    } else {
      ImagesBound(tag, m - 1);
      assert Images(tag, m) == Images(tag, m - 1) + {tag[m - 1]};
    }
  }

  /** Grouping, for every item list and context. */
  method Group(items: seq<ScanItem>, ctx: GroupingContext) returns (out: GroupingOutcome, ghost gid: seq<nat>)
    ensures IsOutcome(items, ctx, out, gid)
    ensures |out.boundBy| == |items|
    ensures |out.groups| + (if ctx.tier1Backfill then out.stats.backfillCandidates else 0) == |BatchRun(items, ctx).groups|
  {
    var st := GroupInOnePass(items, ctx);
    BatchRunInv(items, ctx);
    var groups, boundBy, candidates;
    groups, boundBy, candidates, gid := ApplyBackfill(items, ctx, st.groups, st.bound, st.boundBy, st.gidOf);
    out := GroupingOutcome(groups, boundBy, st.stats.(backfillCandidates := st.stats.backfillCandidates + candidates));
    NoCandidatesYet(items, ctx);
  }

  lemma StepAddsNoCandidates(st: BatchState, item: ScanItem, ctx: GroupingContext)
    requires Shape(st)
    ensures BatchStep(st, item, ctx).stats.backfillCandidates == st.stats.backfillCandidates
  {
    var noted := st.(stats := NoteEligibility(st.stats, item, ctx));
    var counted := noted.(stats := Tier1Stats(noted, item, ctx));
    CountingAddsNoCandidates(st, item, ctx, noted, counted);
    Tier2AddsNoCandidates(counted, item, ctx);
  }

  lemma CountingAddsNoCandidates(st: BatchState, item: ScanItem, ctx: GroupingContext, noted: BatchState, counted: BatchState)
    requires Shape(st) && noted == st.(stats := NoteEligibility(st.stats, item, ctx)) && counted == noted.(stats := Tier1Stats(noted, item, ctx))
    ensures counted.stats.backfillCandidates == st.stats.backfillCandidates
  {
  }

  lemma Tier2AddsNoCandidates(st: BatchState, item: ScanItem, ctx: GroupingContext)
    requires Shape(st)
    ensures Tier2(st, item, ctx).stats.backfillCandidates == st.stats.backfillCandidates
  {
  }

  lemma {:induction false} NoCandidatesYet(items: seq<ScanItem>, ctx: GroupingContext)
    ensures BatchRun(items, ctx).stats.backfillCandidates == 0
  {
    if items != [] {
      var n := |items| - 1;
      NoCandidatesYet(items[..n], ctx);
      StepAddsNoCandidates(BatchRun(items[..n], ctx), items[n], ctx);
    }
  }

  // ---- what the outcome means ----

  /** The hash map's iteration order cannot show: the promise fixes the outcome completely. */
  lemma OutcomeIsUnique(items: seq<ScanItem>, ctx: GroupingContext,
                        out1: GroupingOutcome, gid1: seq<nat>, out2: GroupingOutcome, gid2: seq<nat>)
    requires IsOutcome(items, ctx, out1, gid1) && IsOutcome(items, ctx, out2, gid2)
    ensures out1 == out2 && gid1 == gid2
  {
    forall i: nat, j: nat | i < |items| && j < |items|
      ensures gid1[i] == gid1[j] <==> gid2[i] == gid2[j]
    {
      assert (gid1[i] == gid1[j]) == Together(items, ctx, i, j);
    }
    GroupingUnique(out1.groups, gid1, out2.groups, gid2);
    assert out1.boundBy == out2.boundBy;
  }

  /** Before and after backfill alike, the seed tag marks exactly the first member of each group. */
  lemma SeedTagsMarkFirstMembers(items: seq<ScanItem>, ctx: GroupingContext, out: GroupingOutcome, gid: seq<nat>, i: nat)
    requires IsOutcome(items, ctx, out, gid) && i < |items|
    ensures gid[i] < |out.groups| && i in out.groups[gid[i]]
    ensures out.boundBy[i] == Seed <==> out.groups[gid[i]][0] == i
  {
  }

  lemma ConnectedStaysInSource(items: seq<ScanItem>, ctx: GroupingContext, g: nat, h: nat)
    requires ctx.scope.PerSource? && M.NulFree(items) && Inv(items, ctx, BatchRun(items, ctx))
    requires Connected(BackfillGraph(items, ctx), g, h)
    requires g < |BatchRun(items, ctx).groups| && h < |BatchRun(items, ctx).groups|
    ensures SeedSources(items, BatchRun(items, ctx).groups)[g] == SeedSources(items, BatchRun(items, ctx).groups)[h]
  {
    var graph, st := BackfillGraph(items, ctx), BatchRun(items, ctx);
    var source := SeedSources(items, st.groups);
    var p :| Joins(graph, p, g, h);
    assert Within(graph, |st.groups|);
    PathWithin(graph, |st.groups|, p);
    forall a: nat, b: nat | Adjacent(graph, a, b) && a < |source| && b < |source|
      ensures source[a] == source[b]
    {
      LinkStaysInSource(items, ctx, a, b);
    }
    LabelConstantOnPath(graph, source, p);
  }

  /** Backfill never merges across sources either. */
  lemma OutcomeStaysInSource(items: seq<ScanItem>, ctx: GroupingContext, out: GroupingOutcome, gid: seq<nat>, i: nat, j: nat)
    requires IsOutcome(items, ctx, out, gid) && i < |items| && j < |items| && gid[i] == gid[j]
    requires ctx.scope.PerSource? && M.NulFree(items)
    ensures items[i].pathKey == items[j].pathKey
  {
    var st := BatchRun(items, ctx);
    BatchRunInv(items, ctx);
    M.RunKeepsPrefix(items, ctx);
    assert (gid[i] == gid[j]) == Together(items, ctx, i, j);
    if ctx.tier1Backfill {
      ConnectedStaysInSource(items, ctx, st.gidOf[i], st.gidOf[j]);
    }
    SeedsOwnSource(items, ctx, i);
    SeedsOwnSource(items, ctx, j);
  }

  function SeedSources(items: seq<ScanItem>, groups: seq<seq<nat>>): (r: seq<Bytes>)
    requires forall g | 0 <= g < |groups| :: groups[g] != [] && groups[g][0] < |items|
    ensures |r| == |groups| && forall g | 0 <= g < |groups| :: r[g] == items[groups[g][0]].pathKey
  {
    seq(|groups|, g requires 0 <= g < |groups| => items[groups[g][0]].pathKey)
  }

  lemma SeedsOwnSource(items: seq<ScanItem>, ctx: GroupingContext, i: nat)
    requires ctx.scope.PerSource? && M.NulFree(items) && i < |items|
    ensures var st := BatchRun(items, ctx);
            |st.gidOf| == |items| && st.gidOf[i] < |st.groups| && st.groups[st.gidOf[i]] != []
            && st.groups[st.gidOf[i]][0] < |items| && items[st.groups[st.gidOf[i]][0]].pathKey == items[i].pathKey
  {
    M.RunKeepsPrefix(items, ctx);
    var st := BatchRun(items, ctx);
    ScopePrefixInjective(ctx.scope, items[st.groups[st.gidOf[i]][0]].pathKey, items[i].pathKey);
  }

  lemma LinkStaysInSource(items: seq<ScanItem>, ctx: GroupingContext, a: nat, b: nat)
    requires ctx.scope.PerSource? && M.NulFree(items) && |BatchRun(items, ctx).gidOf| == |items|
    requires Adjacent(BackfillGraph(items, ctx), a, b)
    ensures var st := BatchRun(items, ctx);
            && a < |st.groups| && b < |st.groups| && st.groups[a] != [] && st.groups[b] != []
            && st.groups[a][0] < |items| && st.groups[b][0] < |items|
            && items[st.groups[a][0]].pathKey == items[st.groups[b][0]].pathKey
  {
    var st := BatchRun(items, ctx);
    var (c, d) := if (a, b) in BackfillGraph(items, ctx) then (a, b) else (b, a);
    assert ShareBucket(items, ctx, st.gidOf, c, d);
    var i, j :| 0 <= i < |items| && 0 <= j < |items| && st.gidOf[i] == c && st.gidOf[j] == d
                && BucketOf(items[i], ctx) == BucketOf(items[j], ctx);
    SeedsOwnSource(items, ctx, i);
    SeedsOwnSource(items, ctx, j);
  }
}
