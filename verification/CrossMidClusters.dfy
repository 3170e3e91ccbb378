/** How many Message-IDs met under one content at most, told by the rules of grouping. */
module CrossMidClusters {
  import opened Common
  import opened Grouping
  import opened ScanItems
  import opened BatchGrouping
  import opened GroupingRules
  import opened GroupingCounters

  /** Item b brought a Message-ID to the group that owns the content of item n. */
  ghost predicate Against(items: seq<ScanItem>, ctx: GroupingContext, pl: Placing, n: nat, b: nat)
    requires Fits(items, pl) && n < |items|
  {
    && b < n && FirstNamed(items, pl, b)
    && exists s: nat :: ContentOwner(items, ctx, pl, n, items[n], s) && pl.gid[s] == pl.gid[b]
  }

  /** The Message-ID of item n and the one it meets in the group that owns its content. */
  ghost function MeetingIds(items: seq<ScanItem>, ctx: GroupingContext, pl: Placing, n: nat): set<Bytes>
    requires Fits(items, pl) && n < |items|
  {
    (if Named(items, n) then {items[n].Mid().value} else {})
    + (set b: nat | b < n && Against(items, ctx, pl, n, b) :: items[b].Mid().value)
  }

  /** The Message-IDs that met under the content of an item when the first n items turned away are looked at. */
  ghost function ClashingIds(items: seq<ScanItem>, ctx: GroupingContext, pl: Placing, n: nat, item: ScanItem): set<Bytes>
    requires Fits(items, pl) && n <= |items|
  {
    if n == 0 then {}
    else ClashingIds(items, ctx, pl, n - 1, item)
         + (if Precedes(items, ctx, pl, n - 1, item) then MeetingIds(items, ctx, pl, n - 1) else {})
  }

  /** The size of the largest such set. */
  ghost predicate Largest(items: seq<ScanItem>, ctx: GroupingContext, pl: Placing, n: nat, most: nat)
    requires Fits(items, pl) && n <= |items|
  {
    && (forall i: nat {:trigger ClashingIds(items, ctx, pl, n, items[i])} | i < |items| :: |ClashingIds(items, ctx, pl, n, items[i])| <= most)
    && (most == 0 || exists i: nat :: i < n && |ClashingIds(items, ctx, pl, n, items[i])| == most)
  }

  // ---- one step ----

  /** What the pass has noted under a hash key. */
  function NotedIds(cluster: map<Bytes, set<Bytes>>, hkey: Bytes): set<Bytes> {
    if hkey in cluster then cluster[hkey] else {}
  }

  lemma BoundMeets(items: seq<ScanItem>, ctx: GroupingContext, pl: Placing, n: nat, st: BatchState)
    requires Tables(items, ctx, pl, n, st) && n < |items| && StepBlocks(st, items[n], ctx)
    ensures var bound := st.bound[st.hashToGroup[ItemHashKey(items[n], ctx)]];
            items[n].Mid().Some? && MeetingIds(items, ctx, pl, n) == (if bound.Some? then {bound.value} else {}) + {items[n].Mid().value}
  {
    HashOwner(items, ctx, pl, n, st);
    var g := st.hashToGroup[ItemHashKey(items[n], ctx)];
    BoundAgainst(items, ctx, pl, n, st, g);
  }

  lemma BoundAgainst(items: seq<ScanItem>, ctx: GroupingContext, pl: Placing, n: nat, st: BatchState, g: nat)
    requires Tables(items, ctx, pl, n, st) && n < |items| && g < |st.groups|
    requires exists s: nat :: ContentOwner(items, ctx, pl, n, items[n], s) && pl.gid[s] == g
    ensures (set b: nat | b < n && Against(items, ctx, pl, n, b) :: items[b].Mid().value) ==
            (if st.bound[g].Some? then {st.bound[g].value} else {})
  {
    var s: nat :| ContentOwner(items, ctx, pl, n, items[n], s) && pl.gid[s] == g;
    assert BoundEntry(items, pl, n, g, st.bound[g]);
    forall b: nat | b < n
      ensures Against(items, ctx, pl, n, b) <==> FirstNamed(items, pl, b) && pl.gid[b] == g
    {
      if Against(items, ctx, pl, n, b) {
        var t: nat :| ContentOwner(items, ctx, pl, n, items[n], t) && pl.gid[t] == pl.gid[b];
      }
    }
  }

  lemma ClusterStep(items: seq<ScanItem>, ctx: GroupingContext, pl: Placing, n: nat, next: nat, st: BatchState, r: BatchState, item: ScanItem)
    requires Tables(items, ctx, pl, n, st) && n < |items| && next == n + 1 && r == BatchStep(st, items[n], ctx)
    requires NotedIds(st.cluster, ItemHashKey(item, ctx)) == ClashingIds(items, ctx, pl, n, item)
    ensures NotedIds(r.cluster, ItemHashKey(item, ctx)) == ClashingIds(items, ctx, pl, next, item)
  {
    BlocksIs(items, ctx, pl, n, st);
    var met := if StepBlocks(st, items[n], ctx) then MeetingIds(items, ctx, pl, n) else {};
    if StepBlocks(st, items[n], ctx) {
      BoundMeets(items, ctx, pl, n, st);
    }
    NotedStep(st, items[n], ctx, r, item, met);
    IdsNext(items, ctx, pl, n, next, item);
  }

  lemma IdsNext(items: seq<ScanItem>, ctx: GroupingContext, pl: Placing, n: nat, next: nat, item: ScanItem)
    requires Fits(items, pl) && next == n + 1 <= |items|
    ensures ClashingIds(items, ctx, pl, next, item) ==
            ClashingIds(items, ctx, pl, n, item) + (if Precedes(items, ctx, pl, n, item) then MeetingIds(items, ctx, pl, n) else {})
  {
  }

  lemma NotedStep(st: BatchState, item: ScanItem, ctx: GroupingContext, r: BatchState, other: ScanItem, met: set<Bytes>)
    requires Shape(st) && r == BatchStep(st, item, ctx)
    requires StepBlocks(st, item, ctx) ==>
               var bound := st.bound[st.hashToGroup[ItemHashKey(item, ctx)]];
               item.Mid().Some? && met == (if bound.Some? then {bound.value} else {}) + {item.Mid().value}
    ensures NotedIds(r.cluster, ItemHashKey(other, ctx)) ==
            NotedIds(st.cluster, ItemHashKey(other, ctx)) + (if StepBlocks(st, item, ctx) && SameBinding(item, other, ctx) then met else {})
  {
    SameContentIs(item, other, ctx);
    if StepBlocks(st, item, ctx) {
      ClusterOnBlock(st, item, ctx);
    } else {
      ClusterStays(st, item, ctx);
    }
  }

  lemma ClusterOnBlock(st: BatchState, item: ScanItem, ctx: GroupingContext)
    requires Shape(st) && StepBlocks(st, item, ctx) && item.Mid().Some?
    ensures var hkey, r := ItemHashKey(item, ctx), BatchStep(st, item, ctx);
            var ids := GrownCluster(st.cluster, hkey, st.bound[st.hashToGroup[hkey]], item.Mid().value);
            && r.cluster == st.cluster[hkey := ids]
            && r.stats.crossMidBlockedMaxGroup == Max(st.stats.crossMidBlockedMaxGroup, |ids|)
  {
    MayBindIs(item, ctx);
  }

  lemma ClusterStays(st: BatchState, item: ScanItem, ctx: GroupingContext)
    requires Shape(st) && !StepBlocks(st, item, ctx)
    ensures BatchStep(st, item, ctx).cluster == st.cluster
    ensures BatchStep(st, item, ctx).stats.crossMidBlockedMaxGroup == st.stats.crossMidBlockedMaxGroup
  {
    MayBindIs(item, ctx);
  }

  lemma {:induction false} ClusterIs(items: seq<ScanItem>, ctx: GroupingContext, n: nat, item: ScanItem)
    requires n <= |items| && Fits(items, RunPlacing(items, ctx))
    ensures NotedIds(BatchRun(items[..n], ctx).cluster, ItemHashKey(item, ctx)) == ClashingIds(items, ctx, RunPlacing(items, ctx), n, item)
  {
    if n == 0 {
      assert items[..n] == [];
    } else {
      var m := n - 1;
      ClusterIs(items, ctx, m, item);
      RunTables(items, ctx, m);
      BatchRunAppend(items, m, ctx);
      ClusterStep(items, ctx, RunPlacing(items, ctx), m, n, BatchRun(items[..m], ctx), BatchRun(items[..n], ctx), item);
    }
  }

  // ---- the largest ----

  lemma SmallerSet(a: set<Bytes>, b: set<Bytes>)
    requires a <= b
    ensures |a| <= |b|
  {
    assert b == a + (b - a);
  }

  lemma {:induction false} AlikeIds(items: seq<ScanItem>, ctx: GroupingContext, pl: Placing, n: nat, a: ScanItem, b: ScanItem)
    requires Fits(items, pl) && n <= |items| && SameBinding(a, b, ctx)
    ensures ClashingIds(items, ctx, pl, n, a) == ClashingIds(items, ctx, pl, n, b)
  {
    if n > 0 {
      AlikeIds(items, ctx, pl, n - 1, a, b);
      BindingAlike(items[n - 1], a, b, ctx);
    }
  }

  lemma BindingAlike(x: ScanItem, a: ScanItem, b: ScanItem, ctx: GroupingContext)
    requires SameBinding(a, b, ctx)
    ensures SameBinding(x, a, ctx) <==> SameBinding(x, b, ctx)
  {
  }

  lemma IdsGrow(items: seq<ScanItem>, ctx: GroupingContext, pl: Placing, n: nat, next: nat, item: ScanItem)
    requires Fits(items, pl) && next == n + 1 <= |items|
    ensures |ClashingIds(items, ctx, pl, n, item)| <= |ClashingIds(items, ctx, pl, next, item)|
    ensures !Precedes(items, ctx, pl, n, item) ==>
              ClashingIds(items, ctx, pl, next, item) == ClashingIds(items, ctx, pl, n, item)
  {
    SmallerSet(ClashingIds(items, ctx, pl, n, item), ClashingIds(items, ctx, pl, next, item));
  }

  lemma LargestStays(items: seq<ScanItem>, ctx: GroupingContext, pl: Placing, n: nat, next: nat, most: nat)
    requires Fits(items, pl) && next == n + 1 <= |items| && Largest(items, ctx, pl, n, most) && !TurnedAway(items, ctx, pl, n)
    ensures Largest(items, ctx, pl, next, most)
  {
    forall i: nat | i < |items|
      ensures ClashingIds(items, ctx, pl, next, items[i]) == ClashingIds(items, ctx, pl, n, items[i])
    {
      IdsGrow(items, ctx, pl, n, next, items[i]);
    }
  }

  lemma LargestGrows(items: seq<ScanItem>, ctx: GroupingContext, pl: Placing, n: nat, next: nat, most: nat)
    requires Fits(items, pl) && next == n + 1 <= |items| && Largest(items, ctx, pl, n, most) && TurnedAway(items, ctx, pl, n)
    ensures Largest(items, ctx, pl, next, Max(most, |ClashingIds(items, ctx, pl, next, items[n])|))
  {
    var more := Max(most, |ClashingIds(items, ctx, pl, next, items[n])|);
    forall i: nat {:trigger ClashingIds(items, ctx, pl, next, items[i])} | i < |items|
      ensures |ClashingIds(items, ctx, pl, next, items[i])| <= more
    {
      IdsGrow(items, ctx, pl, n, next, items[i]);
      if SameBinding(items[n], items[i], ctx) {
        AlikeIds(items, ctx, pl, next, items[n], items[i]);
      } else {
        assert |ClashingIds(items, ctx, pl, n, items[i])| <= most;
      }
    }
    if more == most && most > 0 {
      var i: nat :| i < n && |ClashingIds(items, ctx, pl, n, items[i])| == most;
      IdsGrow(items, ctx, pl, n, next, items[i]);
    }
  }

  lemma {:induction false} RunLargest(items: seq<ScanItem>, ctx: GroupingContext, n: nat)
    requires n <= |items| && Fits(items, RunPlacing(items, ctx))
    ensures Largest(items, ctx, RunPlacing(items, ctx), n, BatchRun(items[..n], ctx).stats.crossMidBlockedMaxGroup)
  {
    if n == 0 {
      assert items[..n] == [];
    } else {
      var m := n - 1;
      RunLargest(items, ctx, m);
      RunTables(items, ctx, m);
      BatchRunAppend(items, m, ctx);
      ClusterIs(items, ctx, n, items[m]);
      LargestStep(items, ctx, RunPlacing(items, ctx), m, n, BatchRun(items[..m], ctx), BatchRun(items[..n], ctx));
    }
  }

  lemma LargestStep(items: seq<ScanItem>, ctx: GroupingContext, pl: Placing, n: nat, next: nat, st: BatchState, r: BatchState)
    requires Tables(items, ctx, pl, n, st) && next == n + 1 <= |items| && r == BatchStep(st, items[n], ctx)
    requires Largest(items, ctx, pl, n, st.stats.crossMidBlockedMaxGroup)
    requires NotedIds(r.cluster, ItemHashKey(items[n], ctx)) == ClashingIds(items, ctx, pl, next, items[n])
    ensures Largest(items, ctx, pl, next, r.stats.crossMidBlockedMaxGroup)
  {
    BlocksIs(items, ctx, pl, n, st);
    if StepBlocks(st, items[n], ctx) {
      BoundMeets(items, ctx, pl, n, st);
      ClusterOnBlock(st, items[n], ctx);
      LargestGrows(items, ctx, pl, n, next, st.stats.crossMidBlockedMaxGroup);
    } else {
      ClusterStays(st, items[n], ctx);
      LargestStays(items, ctx, pl, n, next, st.stats.crossMidBlockedMaxGroup);
    }
  }

  /** For every item list and context the counter is the largest number of Message-IDs that met under one content. */
  lemma LargestClusterMeans(items: seq<ScanItem>, ctx: GroupingContext)
    ensures Fits(items, RunPlacing(items, ctx))
    ensures Largest(items, ctx, RunPlacing(items, ctx), |items|, BatchRun(items, ctx).stats.crossMidBlockedMaxGroup)
  {
    BatchRunInv(items, ctx);
    RunLargest(items, ctx, |items|);
    assert items[..|items|] == items;
  }
}
