/** What the backfill pass merges and retags, told from the items' fields and the groups of the first pass. */
module BackfillRules {
  import opened Common
  import opened Grouping
  import opened ScanItems
  import opened GroupLists
  import opened BatchGrouping
  import opened Components
  import opened BackfillLinks
  import opened Backfill
  import opened GroupCandidates
  import R = GroupingRules

  /** Item i brought a Message-ID to group g first. */
  ghost predicate Names(items: seq<ScanItem>, pl: R.Placing, g: nat, i: nat)
    requires R.Fits(items, pl)
  {
    i < |items| && pl.gid[i] == g && R.FirstNamed(items, pl, i)
  }

  /** Members of two groups are copies of one content in one partition, whatever the identity level. */
  ghost predicate Copies(items: seq<ScanItem>, ctx: GroupingContext, pl: R.Placing, g: nat, h: nat)
    requires R.Fits(items, pl)
  {
    exists i: nat, j: nat ::
      && i < |items| && j < |items| && pl.gid[i] == g && pl.gid[j] == h
      && (ctx.scope.Global? || items[i].pathKey == items[j].pathKey) && items[i].contentHash == items[j].contentHash
  }

  /** Two groups are to be merged: copies of one content, some Message-ID between them, and not two different ones. */
  ghost predicate Linked(items: seq<ScanItem>, ctx: GroupingContext, pl: R.Placing, g: nat, h: nat)
    requires R.Fits(items, pl)
  {
    && Copies(items, ctx, pl, g, h)
    && (exists i: nat :: Names(items, pl, g, i) || Names(items, pl, h, i))
    && (forall i: nat, j: nat :: Names(items, pl, g, i) && Names(items, pl, h, j) ==> items[i].messageId == items[j].messageId)
  }

  lemma BucketMeans(a: ScanItem, b: ScanItem, ctx: GroupingContext)
    ensures BucketOf(a, ctx) == BucketOf(b, ctx) <==>
            (ctx.scope.Global? || a.pathKey == b.pathKey) && a.contentHash == b.contentHash
  {
  }

  lemma ShareMeans(items: seq<ScanItem>, ctx: GroupingContext, g: nat, h: nat)
    requires R.Fits(items, R.RunPlacing(items, ctx))
    ensures ShareBucket(items, ctx, BatchRun(items, ctx).gidOf, g, h) <==> Copies(items, ctx, R.RunPlacing(items, ctx), g, h)
  {
    var gidOf := BatchRun(items, ctx).gidOf;
    if ShareBucket(items, ctx, gidOf, g, h) {
      var i, j :| 0 <= i < |items| && 0 <= j < |items| && gidOf[i] == g && gidOf[j] == h
                  && BucketOf(items[i], ctx) == BucketOf(items[j], ctx);
      BucketMeans(items[i], items[j], ctx);
    }
    if Copies(items, ctx, R.RunPlacing(items, ctx), g, h) {
      var i: nat, j: nat :| i < |items| && j < |items| && gidOf[i] == g && gidOf[j] == h
        && (ctx.scope.Global? || items[i].pathKey == items[j].pathKey) && items[i].contentHash == items[j].contentHash;
      BucketMeans(items[i], items[j], ctx);
    }
  }

  lemma BoundMeans(items: seq<ScanItem>, ctx: GroupingContext, g: nat)
    requires R.Fits(items, R.RunPlacing(items, ctx)) && g < |BatchRun(items, ctx).groups|
    ensures match BatchRun(items, ctx).bound[g]
            case None => forall i: nat :: !Names(items, R.RunPlacing(items, ctx), g, i)
            case Some(mid) =>
              && mid != [] && (exists i: nat :: Names(items, R.RunPlacing(items, ctx), g, i))
              && forall i: nat :: Names(items, R.RunPlacing(items, ctx), g, i) ==> items[i].messageId == Some(mid)
  {
    var st, pl := BatchRun(items, ctx), R.RunPlacing(items, ctx);
    R.RunTables(items, ctx, |items|);
    assert items[..|items|] == items;
    assert R.BoundEntry(items, pl, |items|, g, st.bound[g]);
    if st.bound[g].Some? {
      var b: nat :| b < |items| && pl.gid[b] == g && R.FirstNamed(items, pl, b) && items[b].messageId == st.bound[g];
      assert Names(items, pl, g, b);
      forall i: nat | Names(items, pl, g, i)
        ensures i == b
      {
        assert !(i < b) && !(b < i);
      }
    }
  }

  lemma MergeableMeans(items: seq<ScanItem>, ctx: GroupingContext, pl: R.Placing, g: nat, h: nat)
    requires pl == R.RunPlacing(items, ctx) && R.Fits(items, pl)
    requires g < |BatchRun(items, ctx).groups| && h < |BatchRun(items, ctx).groups|
    ensures Mergeable(BatchRun(items, ctx).bound, g, h) <==>
            && (exists i: nat :: Names(items, pl, g, i) || Names(items, pl, h, i))
            && (forall i: nat, j: nat :: Names(items, pl, g, i) && Names(items, pl, h, j) ==> items[i].messageId == items[j].messageId)
  {
    BoundMeans(items, ctx, g);
    BoundMeans(items, ctx, h);
  }

  /** The edges of the backfill graph are the pairs of groups to be merged. */
  lemma LinksMean(items: seq<ScanItem>, ctx: GroupingContext, g: nat, h: nat)
    requires R.Fits(items, R.RunPlacing(items, ctx)) && g < |BatchRun(items, ctx).groups| && h < |BatchRun(items, ctx).groups|
    ensures (g, h) in BackfillGraph(items, ctx) <==> Linked(items, ctx, R.RunPlacing(items, ctx), g, h)
  {
    ShareMeans(items, ctx, g, h);
    MergeableMeans(items, ctx, R.RunPlacing(items, ctx), g, h);
  }

  /** A chain of groups, each to be merged with the next. */
  ghost predicate Chain(items: seq<ScanItem>, ctx: GroupingContext, pl: R.Placing, p: seq<nat>)
    requires R.Fits(items, pl)
  {
    p != [] && forall k | 0 <= k < |p| - 1 :: Linked(items, ctx, pl, p[k], p[k + 1]) || Linked(items, ctx, pl, p[k + 1], p[k])
  }

  lemma GroupsOfChain(items: seq<ScanItem>, ctx: GroupingContext, g: nat, h: nat)
    requires R.Fits(items, R.RunPlacing(items, ctx)) && Linked(items, ctx, R.RunPlacing(items, ctx), g, h)
    ensures g < |BatchRun(items, ctx).groups| && h < |BatchRun(items, ctx).groups|
  {
    BatchRunInv(items, ctx);
  }

  lemma AdjacentMeans(items: seq<ScanItem>, ctx: GroupingContext, g: nat, h: nat)
    requires R.Fits(items, R.RunPlacing(items, ctx))
    ensures Adjacent(BackfillGraph(items, ctx), g, h) <==>
            Linked(items, ctx, R.RunPlacing(items, ctx), g, h) || Linked(items, ctx, R.RunPlacing(items, ctx), h, g)
  {
    var n := |BatchRun(items, ctx).groups|;
    if g < n && h < n {
      LinksMean(items, ctx, g, h);
      LinksMean(items, ctx, h, g);
    } else {
      if Linked(items, ctx, R.RunPlacing(items, ctx), g, h) {
        GroupsOfChain(items, ctx, g, h);
      }
      if Linked(items, ctx, R.RunPlacing(items, ctx), h, g) {
        GroupsOfChain(items, ctx, h, g);
      }
    }
  }

  ghost predicate ChainFrom(items: seq<ScanItem>, ctx: GroupingContext, pl: R.Placing, p: seq<nat>, g: nat, h: nat)
    requires R.Fits(items, pl)
  {
    Chain(items, ctx, pl, p) && p[0] == g && p[|p| - 1] == h
  }

  lemma PathMeans(items: seq<ScanItem>, ctx: GroupingContext, p: seq<nat>)
    requires R.Fits(items, R.RunPlacing(items, ctx))
    ensures IsPath(BackfillGraph(items, ctx), p) <==> Chain(items, ctx, R.RunPlacing(items, ctx), p)
  {
    var pl, graph := R.RunPlacing(items, ctx), BackfillGraph(items, ctx);
    forall k | 0 <= k < |p| - 1
      ensures Adjacent(graph, p[k], p[k + 1]) <==> Linked(items, ctx, pl, p[k], p[k + 1]) || Linked(items, ctx, pl, p[k + 1], p[k])
    {
      AdjacentMeans(items, ctx, p[k], p[k + 1]);
    }
  }

  lemma ConnectedMeans(items: seq<ScanItem>, ctx: GroupingContext, g: nat, h: nat)
    requires R.Fits(items, R.RunPlacing(items, ctx))
    ensures Connected(BackfillGraph(items, ctx), g, h) <==> exists p :: ChainFrom(items, ctx, R.RunPlacing(items, ctx), p, g, h)
  {
    if Connected(BackfillGraph(items, ctx), g, h) {
      var p :| Joins(BackfillGraph(items, ctx), p, g, h);
      PathMeans(items, ctx, p);
      assert ChainFrom(items, ctx, R.RunPlacing(items, ctx), p, g, h);
    }
    if p :| ChainFrom(items, ctx, R.RunPlacing(items, ctx), p, g, h) {
      PathMeans(items, ctx, p);
      assert Joins(BackfillGraph(items, ctx), p, g, h);
    }
  }

  /** The final groups: with the flag on, items are together exactly when a chain of mergeable groups leads from one to the other. */
  lemma OutcomeGroupsMean(items: seq<ScanItem>, ctx: GroupingContext, out: GroupingOutcome, gid: seq<nat>, i: nat, j: nat)
    requires IsOutcome(items, ctx, out, gid) && i < |items| && j < |items| && R.Fits(items, R.RunPlacing(items, ctx))
    ensures var pl := R.RunPlacing(items, ctx);
            gid[i] == gid[j] <==>
            if ctx.tier1Backfill then exists p :: ChainFrom(items, ctx, pl, p, pl.gid[i], pl.gid[j]) else pl.gid[i] == pl.gid[j]
  {
    assert (gid[i] == gid[j]) == Together(items, ctx, i, j);
    ConnectedMeans(items, ctx, BatchRun(items, ctx).gidOf[i], BatchRun(items, ctx).gidOf[j]);
  }

  /** The final tags: first members are seeds, other seeds of the first pass are tagged by what they share with theirs, the rest stay. */
  lemma OutcomeTagsMean(items: seq<ScanItem>, ctx: GroupingContext, out: GroupingOutcome, gid: seq<nat>, i: nat)
    requires IsOutcome(items, ctx, out, gid) && i < |items|
    ensures gid[i] < |out.groups| && out.groups[gid[i]] != [] && out.groups[gid[i]][0] < |items|
    ensures var first, before, after := out.groups[gid[i]][0], BatchRun(items, ctx).boundBy[i], out.boundBy[i];
            if i == first then after == Seed
            else if before != Seed then after == before
            else if items[i].messageId == items[first].messageId && items[i].messageId.Some? && items[i].messageId != Some([])
            then after == ByMessageId
            else R.IsHashTag(after, ctx.identity)
  {
  }
}
