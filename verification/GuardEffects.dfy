/** What the cross-MID guard changes, against the same run without it. */
module GuardEffects {
  import opened Common
  import opened Grouping
  import opened ScanItems
  import opened GroupLists
  import opened BatchGrouping

  /** The context with the cross-MID guard off and everything else as it is. */
  function Unguarded(ctx: GroupingContext): GroupingContext {
    ctx.(tier1Authority := false)
  }

  function Blocked(items: seq<ScanItem>, ctx: GroupingContext): nat {
    BatchRun(items, ctx).stats.crossMidBlocked
  }

  /** The guard turns an item away: its hash key is taken by a group bound to another Message-ID. */
  predicate TurnsAway(st: BatchState, item: ScanItem, ctx: GroupingContext)
    requires Shape(st)
  {
    && Tier1(st, item, ctx).Miss? && ctx.tier2Enabled && BatchEligible(item, ctx) && ItemHashKey(item, ctx) in st.hashToGroup
    && !MidJoinCompatible(st.bound[st.hashToGroup[ItemHashKey(item, ctx)]], item.Mid(), ctx.BlockCrossMid()).0
  }

  lemma Tier2Alike(st: BatchState, item: ScanItem, ctx: GroupingContext)
    requires Shape(st)
    requires ctx.tier2Enabled && BatchEligible(item, ctx) && ItemHashKey(item, ctx) in st.hashToGroup ==>
               MidJoinCompatible(st.bound[st.hashToGroup[ItemHashKey(item, ctx)]], item.Mid(), ctx.BlockCrossMid()).0
    ensures Tier2(st, item, ctx) == Tier2(st, item, Unguarded(ctx))
    ensures Tier2(st, item, ctx).stats.crossMidBlocked == st.stats.crossMidBlocked
  {
    SeedingAlike(st, item, ctx);
    if ctx.tier2Enabled && BatchEligible(item, ctx) && ItemHashKey(item, ctx) in st.hashToGroup {
      var g := st.hashToGroup[ItemHashKey(item, ctx)];
      AdoptingAlike(st, g, MidJoinCompatible(st.bound[g], item.Mid(), ctx.BlockCrossMid()).1, item, ctx);
    }
  }

  lemma SeedingAlike(st: BatchState, item: ScanItem, ctx: GroupingContext)
    requires Shape(st)
    ensures SeedGroup(st, item, ctx) == SeedGroup(st, item, Unguarded(ctx)) && SeedGroup(st, item, ctx).stats == st.stats
  {
  }

  lemma AdoptingAlike(st: BatchState, g: nat, newBound: Option<Bytes>, item: ScanItem, ctx: GroupingContext)
    requires Shape(st) && g < |st.groups|
    ensures Adopt(st, g, newBound, item.pathKey, ctx) == Adopt(st, g, newBound, item.pathKey, Unguarded(ctx))
    ensures Adopt(st, g, newBound, item.pathKey, ctx).stats == st.stats
  {
  }

  /** Counting comes first and is the same with and without the guard. */
  lemma CountingAlike(st: BatchState, item: ScanItem, ctx: GroupingContext, counted: BatchState)
    requires Shape(st) && counted == Counted(st, item, ctx)
    ensures counted == st.(stats := counted.stats) && counted == Counted(st, item, Unguarded(ctx))
    ensures counted.stats.crossMidBlocked == st.stats.crossMidBlocked
  {
  }

  lemma Tier2Away(st: BatchState, item: ScanItem, ctx: GroupingContext)
    requires Shape(st) && TurnsAway(st, item, ctx)
    ensures Tier2(st, item, ctx).stats.crossMidBlocked == st.stats.crossMidBlocked + 1
  {
  }

  lemma StepFrom(st: BatchState, item: ScanItem, ctx: GroupingContext, counted: BatchState)
    requires Shape(st) && Shape(counted) && counted == Counted(st, item, ctx) && counted == st.(stats := counted.stats)
    ensures Tier1(st, item, ctx).Miss? ==> BatchStep(st, item, ctx) == Tier2(counted, item, ctx)
    ensures Tier1(st, item, ctx).Hit? ==>
              BatchStep(st, item, ctx) == Join(counted, Tier1(st, item, ctx).gid, Tier1(st, item, ctx).via)
  {
  }

  /** Where nobody is turned away the guard changes nothing; where somebody is, the count says so. */
  lemma StepAlike(st: BatchState, item: ScanItem, ctx: GroupingContext)
    requires Shape(st)
    ensures !TurnsAway(st, item, ctx) ==> BatchStep(st, item, ctx) == BatchStep(st, item, Unguarded(ctx))
    ensures BatchStep(st, item, ctx).stats.crossMidBlocked == st.stats.crossMidBlocked + One(TurnsAway(st, item, ctx))
  {
    var counted := Counted(st, item, ctx);
    CountingAlike(st, item, ctx, counted);
    StepFrom(st, item, ctx, counted);
    StepFrom(st, item, Unguarded(ctx), counted);
    Tier1Alike(st, item, ctx);
    if TurnsAway(st, item, ctx) {
      Tier2Away(counted, item, ctx);
    } else if Tier1(st, item, ctx).Miss? {
      Tier2Alike(counted, item, ctx);
    }
  }

  lemma Tier1Alike(st: BatchState, item: ScanItem, ctx: GroupingContext)
    requires Shape(st)
    ensures Tier1(st, item, Unguarded(ctx)) == Tier1(st, item, ctx)
  {
  }

  /** An item turned away starts its own group; without the guard it joins an existing one. */
  lemma TurnedAwayDiffers(st: BatchState, item: ScanItem, ctx: GroupingContext)
    requires Shape(st) && TurnsAway(st, item, ctx)
    ensures BatchStep(st, item, ctx).gidOf == st.gidOf + [|st.groups|]
    ensures var joined := BatchStep(st, item, Unguarded(ctx)).gidOf;
            |joined| == |st.gidOf| + 1 && joined[|st.gidOf|] < |st.groups|
  {
  }

  lemma {:induction false} SameWithoutBlocks(items: seq<ScanItem>, ctx: GroupingContext)
    requires Blocked(items, ctx) == 0
    ensures BatchRun(items, ctx) == BatchRun(items, Unguarded(ctx))
  {
    if items != [] {
      var n := |items| - 1;
      StepAlike(BatchRun(items[..n], ctx), items[n], ctx);
      SameWithoutBlocks(items[..n], ctx);
    }
  }

  lemma BlockedLast(items: seq<ScanItem>, ctx: GroupingContext, n: nat)
    requires |items| == n + 1
    ensures Blocked(items, ctx) == Blocked(items[..n], ctx) + One(TurnsAway(BatchRun(items[..n], ctx), items[n], ctx))
  {
    StepAlike(BatchRun(items[..n], ctx), items[n], ctx);
  }

  /** The first item turned away. */
  lemma {:induction false} FirstBlock(items: seq<ScanItem>, ctx: GroupingContext) returns (k: nat)
    requires Blocked(items, ctx) > 0
    ensures k < |items| && BatchRun(items[..k], ctx) == BatchRun(items[..k], Unguarded(ctx))
    ensures TurnsAway(BatchRun(items[..k], ctx), items[k], ctx)
  {
    var n := |items| - 1;
    BlockedLast(items, ctx, n);
    if Blocked(items[..n], ctx) > 0 {
      k := FirstBlock(items[..n], ctx);
      assert items[..n][..k] == items[..k];
    } else {
      k := n;
      SameWithoutBlocks(items[..n], ctx);
    }
  }

  lemma BlockShows(items: seq<ScanItem>, ctx: GroupingContext, k: nat)
    requires k < |items| && BatchRun(items[..k], ctx) == BatchRun(items[..k], Unguarded(ctx))
    requires TurnsAway(BatchRun(items[..k], ctx), items[k], ctx)
    ensures BatchRun(items, ctx).groups != BatchRun(items, Unguarded(ctx)).groups
  {
    var st := BatchRun(items[..k], ctx);
    BatchRunInv(items, ctx);
    BatchRunInv(items, Unguarded(ctx));
    BatchRunInv(items[..k], ctx);
    TurnedAwayDiffers(st, items[k], ctx);
    BatchRunAppend(items, k, ctx);
    BatchRunAppend(items, k, Unguarded(ctx));
    RunExtends(items, k + 1, ctx);
    RunExtends(items, k + 1, Unguarded(ctx));
    GidShows(BatchRun(items, ctx), BatchRun(items, Unguarded(ctx)), k);
  }

  lemma GidShows(a: BatchState, b: BatchState, k: nat)
    requires Partitioned(a) && Partitioned(b) && k < |a.gidOf| && k < |b.gidOf| && a.gidOf[k] != b.gidOf[k]
    ensures a.groups != b.groups
  {
    if a.groups == b.groups {
      MemberGid(b.groups, b.gidOf, a.gidOf[k], k);
    }
  }

  /** The guard has changed the groups exactly when its counter is not zero. */
  lemma GuardShowsIff(items: seq<ScanItem>, ctx: GroupingContext)
    ensures BatchRun(items, ctx).groups == BatchRun(items, Unguarded(ctx)).groups <==> Blocked(items, ctx) == 0
  {
    if Blocked(items, ctx) == 0 {
      SameWithoutBlocks(items, ctx);
    } else {
      var k := FirstBlock(items, ctx);
      BlockShows(items, ctx, k);
    }
  }
}
