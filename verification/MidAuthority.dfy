/** What the groups mean: Message-ID authority under the default guards, and partitions that never mix. */
module MidAuthority {
  import opened Common
  import opened Grouping
  import opened ScanItems
  import opened BatchGrouping

  function KeyOf(item: ScanItem, ctx: GroupingContext): Bytes
    requires item.Mid().Some?
  {
    MidKey(ctx.scope, item.pathKey, item.Mid().value)
  }

  /** The Message-ID key a bound group stands for. */
  function GroupKey(items: seq<ScanItem>, ctx: GroupingContext, st: BatchState, g: nat): Bytes
    requires Shape(st) && g < |st.groups| && st.groups[g] != [] && st.groups[g][0] < |items| && st.bound[g].Some?
  {
    MidKey(ctx.scope, items[st.groups[g][0]].pathKey, st.bound[g].value)
  }

  /** Group g is bound, and k is the key it stands for. */
  predicate StandsFor(items: seq<ScanItem>, ctx: GroupingContext, st: BatchState, g: nat, k: Bytes)
    requires Shape(st)
  {
    && g < |st.groups| && st.groups[g] != [] && st.groups[g][0] < |items|
    && st.bound[g].Some? && GroupKey(items, ctx, st, g) == k
  }

  /** With cross-MID joins blocked and no verification, keys, bound groups and members with a Message-ID all line up. */
  ghost predicate Authority(items: seq<ScanItem>, ctx: GroupingContext, st: BatchState)
    requires Shape(st)
  {
    && |st.gidOf| == |items|
    && (forall k | k in st.midToGroup :: StandsFor(items, ctx, st, st.midToGroup[k], k))
    && (forall i | 0 <= i < |items| && items[i].Mid().Some? ::
          var k := KeyOf(items[i], ctx);
          k in st.midToGroup && st.midToGroup[k] == st.gidOf[i])
  }

  /** Members join without disturbing what the groups stand for. */
  lemma JoinKeepsAuthority(items: seq<ScanItem>, ctx: GroupingContext, st: BatchState, item: ScanItem, g: nat, via: BoundBy)
    requires Shape(st) && Authority(items, ctx, st) && g < |st.groups| && st.groups[g] != []
    requires item.Mid().Some? ==> KeyOf(item, ctx) in st.midToGroup && st.midToGroup[KeyOf(item, ctx)] == g
    ensures Authority(items + [item], ctx, Join(st, g, via))
  {
    var r := Join(st, g, via);
    forall k | k in r.midToGroup
      ensures StandsFor(items + [item], ctx, r, r.midToGroup[k], k)
    {
      assert StandsFor(items, ctx, st, st.midToGroup[k], k);
    }
    forall i | 0 <= i < |items + [item]| && (items + [item])[i].Mid().Some?
      ensures var k := KeyOf((items + [item])[i], ctx); k in r.midToGroup && r.midToGroup[k] == r.gidOf[i]
    {
      if i < |items| {
        assert (items + [item])[i] == items[i];
      }
    }
  }

  lemma SeedKeepsAuthority(items: seq<ScanItem>, ctx: GroupingContext, st: BatchState, item: ScanItem)
    requires Shape(st) && Authority(items, ctx, st)
    requires item.Mid().Some? ==> KeyOf(item, ctx) !in st.midToGroup
    ensures Authority(items + [item], ctx, SeedGroup(st, item, ctx))
  {
    var r := SeedGroup(st, item, ctx);
    var n := |st.groups|;
    assert r.groups[n] == [|items|] && (items + [item])[|items|] == item;
    forall k | k in r.midToGroup
      ensures StandsFor(items + [item], ctx, r, r.midToGroup[k], k)
    {
      if k in st.midToGroup {
        assert StandsFor(items, ctx, st, st.midToGroup[k], k);
      }
    }
    forall i | 0 <= i < |items + [item]| && (items + [item])[i].Mid().Some?
      ensures var k := KeyOf((items + [item])[i], ctx); k in r.midToGroup && r.midToGroup[k] == r.gidOf[i]
    {
      if i < |items| {
        assert (items + [item])[i] == items[i];
      }
    }
  }

  /** A Message-ID that misses tier 1 can only join an unbound group of its own partition. */
  lemma MissJoinsUnbound(items: seq<ScanItem>, ctx: GroupingContext, st: BatchState, item: ScanItem, g: nat)
    requires Inv(items, ctx, st) && ItemHashKey(item, ctx) in st.hashToGroup && g == st.hashToGroup[ItemHashKey(item, ctx)]
    requires MidJoinCompatible(st.bound[g], item.Mid(), true).0
    requires item.Mid().Some? ==> KeyOf(item, ctx) !in st.midToGroup
    ensures st.groups[g] != [] && st.groups[g][0] < |items|
    ensures ScopePrefix(ctx.scope, items[st.groups[g][0]].pathKey) == ScopePrefix(ctx.scope, item.pathKey)
    ensures item.Mid().Some? ==> st.bound[g].None?
  {
    KeyMatchSharesPrefix(items, ctx, st, item);
    assert GroupGrounded(items, ctx, st, g);
  }

  /** Adoption makes the group stand for the joiner's key. */
  lemma AdoptKeepsAuthority(items: seq<ScanItem>, ctx: GroupingContext, st: BatchState, item: ScanItem, g: nat)
    requires Shape(st) && Authority(items, ctx, st) && g < |st.groups| && st.groups[g] != [] && st.groups[g][0] < |items|
    requires ScopePrefix(ctx.scope, items[st.groups[g][0]].pathKey) == ScopePrefix(ctx.scope, item.pathKey)
    requires item.Mid().Some? ==> st.bound[g].None? && KeyOf(item, ctx) !in st.midToGroup
    ensures var r := Adopt(st, g, MidJoinCompatible(st.bound[g], item.Mid(), true).1, item.pathKey, ctx);
            && Authority(items, ctx, r)
            && (item.Mid().Some? ==> KeyOf(item, ctx) in r.midToGroup && r.midToGroup[KeyOf(item, ctx)] == g)
  {
    var r := Adopt(st, g, MidJoinCompatible(st.bound[g], item.Mid(), true).1, item.pathKey, ctx);
    if item.Mid().Some? {
      forall k | k in r.midToGroup
        ensures StandsFor(items, ctx, r, r.midToGroup[k], k)
      {
        if k in st.midToGroup {
          assert StandsFor(items, ctx, st, st.midToGroup[k], k);
        }
      }
    } else {
      assert r == st;
    }
  }

  lemma CountersKeepAuthority(items: seq<ScanItem>, ctx: GroupingContext, st: BatchState, r: BatchState)
    requires Shape(st) && Authority(items, ctx, st)
    requires r == st.(stats := r.stats, crossSeen := r.crossSeen, cluster := r.cluster)
    ensures Authority(items, ctx, r)
  {
    forall k | k in r.midToGroup
      ensures StandsFor(items, ctx, r, r.midToGroup[k], k)
    {
      assert StandsFor(items, ctx, st, st.midToGroup[k], k);
    }
  }

  lemma Tier2KeepsAuthority(items: seq<ScanItem>, ctx: GroupingContext, st: BatchState, item: ScanItem)
    requires Inv(items, ctx, st) && Authority(items, ctx, st) && ctx.BlockCrossMid()
    requires item.Mid().Some? ==> KeyOf(item, ctx) !in st.midToGroup
    ensures Authority(items + [item], ctx, Tier2(st, item, ctx))
  {
    var hkey := ItemHashKey(item, ctx);
    if !(ctx.tier2Enabled && BatchEligible(item, ctx)) || hkey !in st.hashToGroup {
      SeedKeepsAuthority(items, ctx, st, item);
    } else {
      var g := st.hashToGroup[hkey];
      var (ok, newBound) := MidJoinCompatible(st.bound[g], item.Mid(), ctx.BlockCrossMid());
      if ok {
        MissJoinsUnbound(items, ctx, st, item, g);
        AdoptKeepsAuthority(items, ctx, st, item, g);
        JoinKeepsAuthority(items, ctx, Adopt(st, g, newBound, item.pathKey, ctx), item, g, BoundByForTier2(ctx.identity));
      } else {
        CountersKeepAuthority(items, ctx, st, NoteBlocked(st, g, hkey, item.Mid()));
        SeedKeepsAuthority(items, ctx, NoteBlocked(st, g, hkey, item.Mid()), item);
      }
    }
  }

  lemma StepKeepsAuthority(items: seq<ScanItem>, ctx: GroupingContext, st: BatchState, item: ScanItem, all: seq<ScanItem>, r: BatchState)
    requires Inv(items, ctx, st) && Authority(items, ctx, st) && ctx.BlockCrossMid() && ctx.tier1Verify.NoVerify?
    requires all == items + [item] && Shape(r) && r == BatchStep(st, item, ctx)
    ensures Authority(all, ctx, r)
  {
    var noted := st.(stats := NoteEligibility(st.stats, item, ctx));
    var counted := noted.(stats := Tier1Stats(noted, item, ctx));
    CountersKeepInv(items, ctx, st, counted);
    CountersKeepAuthority(items, ctx, st, counted);
    match Tier1(noted, item, ctx)
    case Hit(g, via) =>
      assert StandsFor(items, ctx, st, g, KeyOf(item, ctx));
      JoinKeepsAuthority(items, ctx, counted, item, g, via);
    case Miss => Tier2KeepsAuthority(items, ctx, counted, item);
  }

  lemma {:induction false} RunKeepsAuthority(items: seq<ScanItem>, ctx: GroupingContext)
    requires ctx.BlockCrossMid() && ctx.tier1Verify.NoVerify?
    ensures Authority(items, ctx, BatchRun(items, ctx))
  {
    if items != [] {
      var n := |items| - 1;
      RunKeepsAuthority(items[..n], ctx);
      BatchRunInv(items[..n], ctx);
      StepKeepsAuthority(items[..n], ctx, BatchRun(items[..n], ctx), items[n], items, BatchRun(items, ctx));
      assert items[..n] + [items[n]] == items;
    }
  }

  /** Two items that carry Message-IDs share a group exactly when they share the Message-ID key. */
  lemma SameGroupIffSameKey(items: seq<ScanItem>, ctx: GroupingContext, i: nat, j: nat)
    requires ctx.BlockCrossMid() && ctx.tier1Verify.NoVerify?
    requires i < |items| && j < |items| && items[i].Mid().Some? && items[j].Mid().Some?
    ensures |BatchRun(items, ctx).gidOf| == |items|
    ensures BatchRun(items, ctx).gidOf[i] == BatchRun(items, ctx).gidOf[j] <==> KeyOf(items[i], ctx) == KeyOf(items[j], ctx)
  {
    RunKeepsAuthority(items, ctx);
    var st := BatchRun(items, ctx);
    assert StandsFor(items, ctx, st, st.gidOf[i], KeyOf(items[i], ctx));
    assert StandsFor(items, ctx, st, st.gidOf[j], KeyOf(items[j], ctx));
  }

  /** Message-ID authority: same group if and only if same partition and same Message-ID. */
  lemma MidAuthority(items: seq<ScanItem>, ctx: GroupingContext, i: nat, j: nat)
    requires ctx.BlockCrossMid() && ctx.tier1Verify.NoVerify?
    requires i < |items| && j < |items| && items[i].Mid().Some? && items[j].Mid().Some?
    requires ctx.scope.PerSource? ==> !Contains(items[i].pathKey, NUL) && !Contains(items[j].pathKey, NUL)
    ensures |BatchRun(items, ctx).gidOf| == |items|
    ensures BatchRun(items, ctx).gidOf[i] == BatchRun(items, ctx).gidOf[j] <==>
            (ctx.scope.Global? || items[i].pathKey == items[j].pathKey) && items[i].messageId == items[j].messageId
  {
    SameGroupIffSameKey(items, ctx, i, j);
    MidKeyInjective(ctx.scope, items[i].pathKey, items[i].Mid().value, items[j].pathKey, items[j].Mid().value);
  }

  // ---- partitions ----

  /** Every key of a group, and every member, carries the prefix of the group's seed. */
  ghost predicate PrefixKept(items: seq<ScanItem>, ctx: GroupingContext, st: BatchState)
    requires Shape(st)
  {
    && |st.gidOf| == |items|
    && (forall g | 0 <= g < |st.groups| :: st.groups[g] != [] && st.groups[g][0] < |items|)
    && (forall k | k in st.midToGroup ::
          ScopePrefix(ctx.scope, items[st.groups[st.midToGroup[k]][0]].pathKey) <= k)
    && (forall i | 0 <= i < |items| ::
          st.gidOf[i] < |st.groups|
          && ScopePrefix(ctx.scope, items[st.groups[st.gidOf[i]][0]].pathKey) == ScopePrefix(ctx.scope, items[i].pathKey))
  }

  ghost predicate NulFree(items: seq<ScanItem>) {
    forall i | 0 <= i < |items| :: !Contains(items[i].pathKey, NUL)
  }

  lemma SamePrefixOfKey(p: Bytes, q: Bytes, k: Bytes)
    requires !Contains(p, NUL) && !Contains(q, NUL) && p + [NUL] <= k && q + [NUL] <= k
    ensures p == q
  {
    EqualHeads(p, k[|p| + 1..], q, k[|q| + 1..], NUL);
  }

  lemma JoinKeepsPrefix(items: seq<ScanItem>, ctx: GroupingContext, st: BatchState, item: ScanItem, g: nat, via: BoundBy)
    requires Shape(st) && PrefixKept(items, ctx, st) && g < |st.groups|
    requires ScopePrefix(ctx.scope, items[st.groups[g][0]].pathKey) == ScopePrefix(ctx.scope, item.pathKey)
    ensures PrefixKept(items + [item], ctx, Join(st, g, via))
  {
  }

  lemma AdoptKeepsPrefix(items: seq<ScanItem>, ctx: GroupingContext, st: BatchState, item: ScanItem, g: nat, newBound: Option<Bytes>)
    requires Shape(st) && PrefixKept(items, ctx, st) && g < |st.groups|
    requires ScopePrefix(ctx.scope, items[st.groups[g][0]].pathKey) == ScopePrefix(ctx.scope, item.pathKey)
    ensures PrefixKept(items, ctx, Adopt(st, g, newBound, item.pathKey, ctx))
  {
  }

  lemma SeedKeepsPrefix(items: seq<ScanItem>, ctx: GroupingContext, st: BatchState, item: ScanItem)
    requires Shape(st) && PrefixKept(items, ctx, st)
    ensures PrefixKept(items + [item], ctx, SeedGroup(st, item, ctx))
  {
    var r := SeedGroup(st, item, ctx);
    assert r.groups[|st.groups|] == [|items|] && (items + [item])[|items|] == item;
    forall h | 0 <= h < |st.groups|
      ensures r.groups[h] == st.groups[h]
    {
    }
  }

  lemma Tier2KeepsPrefix(items: seq<ScanItem>, ctx: GroupingContext, st: BatchState, item: ScanItem)
    requires Inv(items, ctx, st) && PrefixKept(items, ctx, st)
    ensures PrefixKept(items + [item], ctx, Tier2(st, item, ctx))
  {
    var hkey := ItemHashKey(item, ctx);
    if !(ctx.tier2Enabled && BatchEligible(item, ctx)) || hkey !in st.hashToGroup {
      SeedKeepsPrefix(items, ctx, st, item);
    } else {
      var g := st.hashToGroup[hkey];
      var (ok, newBound) := MidJoinCompatible(st.bound[g], item.Mid(), ctx.BlockCrossMid());
      if ok {
        KeyMatchSharesPrefix(items, ctx, st, item);
        AdoptKeepsPrefix(items, ctx, st, item, g, newBound);
        JoinKeepsPrefix(items, ctx, Adopt(st, g, newBound, item.pathKey, ctx), item, g, BoundByForTier2(ctx.identity));
      } else {
        SeedKeepsPrefix(items, ctx, NoteBlocked(st, g, hkey, item.Mid()), item);
      }
    }
  }

  lemma StepKeepsPrefix(items: seq<ScanItem>, ctx: GroupingContext, st: BatchState, item: ScanItem, all: seq<ScanItem>, r: BatchState)
    requires Inv(items, ctx, st) && PrefixKept(items, ctx, st)
    requires ctx.scope.PerSource? ==> NulFree(items) && !Contains(item.pathKey, NUL)
    requires all == items + [item] && Shape(r) && r == BatchStep(st, item, ctx)
    ensures PrefixKept(all, ctx, r)
  {
    var noted := st.(stats := NoteEligibility(st.stats, item, ctx));
    var counted := noted.(stats := Tier1Stats(noted, item, ctx));
    CountersKeepInv(items, ctx, st, counted);
    match Tier1(noted, item, ctx)
    case Hit(g, via) =>
      if ctx.scope.PerSource? {
        SamePrefixOfKey(item.pathKey, items[st.groups[g][0]].pathKey, KeyOf(item, ctx));
      }
      JoinKeepsPrefix(items, ctx, counted, item, g, via);
    case Miss => Tier2KeepsPrefix(items, ctx, counted, item);
  }

  lemma {:induction false} RunKeepsPrefix(items: seq<ScanItem>, ctx: GroupingContext)
    requires ctx.scope.PerSource? ==> NulFree(items)
    ensures PrefixKept(items, ctx, BatchRun(items, ctx))
  {
    if items != [] {
      var n := |items| - 1;
      RunKeepsPrefix(items[..n], ctx);
      BatchRunInv(items[..n], ctx);
      StepKeepsPrefix(items[..n], ctx, BatchRun(items[..n], ctx), items[n], items, BatchRun(items, ctx));
      assert items[..n] + [items[n]] == items;
    }
  }

  /** Under per-source scope no group spans two sources. */
  lemma GroupsStayInSource(items: seq<ScanItem>, ctx: GroupingContext, i: nat, j: nat)
    requires ctx.scope.PerSource? && NulFree(items) && i < |items| && j < |items|
    ensures |BatchRun(items, ctx).gidOf| == |items|
    ensures BatchRun(items, ctx).gidOf[i] == BatchRun(items, ctx).gidOf[j] ==> items[i].pathKey == items[j].pathKey
  {
    RunKeepsPrefix(items, ctx);
    ScopePrefixInjective(ctx.scope, items[i].pathKey, items[j].pathKey);
  }
}
