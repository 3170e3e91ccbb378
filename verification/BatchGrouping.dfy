/**
 Batch grouping (`group_candidates_with_stats`): one pass over the items that collects every member.
 BatchRun is the state after a prefix; GroupInOnePass is the loop that computes it.
 */
module BatchGrouping {
  import opened Common
  import opened Grouping
  import opened ScanItems
  import opened GroupLists

  /** The loop's variables; gidOf is the group of each item seen, which the source recovers from the groups. */
  datatype BatchState = BatchState(
    groups: seq<seq<nat>>,
    bound: seq<Option<Bytes>>,
    fps: seq<Fingerprints>,
    bindHash: seq<Hash>,
    midToGroup: map<Bytes, nat>,
    hashToGroup: map<Bytes, nat>,
    boundBy: seq<BoundBy>,
    gidOf: seq<nat>,
    stats: GroupingStats,
    crossSeen: set<Bytes>,
    cluster: map<Bytes, set<Bytes>>)

  const EMPTY := BatchState([], [], [], [], map[], map[], [], [], NO_STATS, {}, map[])

  datatype Found = Miss | Hit(gid: nat, via: BoundBy)

  /** Every group id a map holds names a group, and the per-group columns line up. */
  predicate Shape(st: BatchState) {
    && |st.bound| == |st.groups| && |st.fps| == |st.groups| && |st.bindHash| == |st.groups|
    && |st.gidOf| == |st.boundBy|
    && (forall k | k in st.midToGroup :: st.midToGroup[k] < |st.groups|)
    && (forall k | k in st.hashToGroup :: st.hashToGroup[k] < |st.groups|)
  }

  /** Tier 1: the group that owns the item's Message-ID key, unless verification splits it off. */
  function Tier1(st: BatchState, item: ScanItem, ctx: GroupingContext): Found
    requires Shape(st)
  {
    if item.Mid().None? then Miss
    else
      var key := MidKey(ctx.scope, item.pathKey, item.Mid().value);
      if key !in st.midToGroup then Miss
      else
        var g := st.midToGroup[key];
        if SplitsTier1(ctx, item.BindHash(ctx.identity), item.fp, st.bindHash[g], st.fps[g].body) then Miss
        else Hit(g, ByMessageId)
  }

  function Tier1Stats(st: BatchState, item: ScanItem, ctx: GroupingContext): GroupingStats
    requires Shape(st)
  {
    if item.Mid().None? then st.stats
    else
      var key := MidKey(ctx.scope, item.pathKey, item.Mid().value);
      if key !in st.midToGroup then st.stats
      else NoteDivergence(st.stats, st.fps[st.midToGroup[key]], item.fp)
  }

  function ItemHashKey(item: ScanItem, ctx: GroupingContext): Bytes {
    HashKey(ctx.scope, item.pathKey, item.BindHash(ctx.identity))
  }

  /** A group without a Message-ID takes the one its new member brings, and registers it. */
  function Adopt(st: BatchState, g: nat, newBound: Option<Bytes>, source: Bytes, ctx: GroupingContext): (r: BatchState)
    requires Shape(st) && g < |st.groups|
    ensures Shape(r) && r.groups == st.groups && r.gidOf == st.gidOf
  {
    if newBound.None? || st.bound[g].Some? then st
    else
      var key := MidKey(ctx.scope, source, newBound.value);
      st.(bound := st.bound[g := newBound],
          midToGroup := if key in st.midToGroup then st.midToGroup else st.midToGroup[key := g])
  }

  function NoteBlocked(st: BatchState, g: nat, hkey: Bytes, mid: Option<Bytes>): (r: BatchState)
    requires Shape(st) && g < |st.groups|
    ensures Shape(r) && r.groups == st.groups && r.gidOf == st.gidOf
  {
    var cluster := if mid.Some? then GrownCluster(st.cluster, hkey, st.bound[g], mid.value) else {};
    st.(stats := NoteCrossMidBlock(st.stats, hkey !in st.crossSeen, |cluster|),
        crossSeen := st.crossSeen + {hkey},
        cluster := if mid.Some? then st.cluster[hkey := cluster] else st.cluster)
  }

  /** Item number |gidOf| joins an existing group. */
  function Join(st: BatchState, g: nat, via: BoundBy): (r: BatchState)
    requires Shape(st) && g < |st.groups|
    ensures Shape(r)
  {
    st.(groups := st.groups[g := st.groups[g] + [|st.gidOf|]],
        boundBy := st.boundBy + [via],
        gidOf := st.gidOf + [g])
  }

  /** Item number |gidOf| starts a group; it never takes a hash key from an earlier group. */
  function SeedGroup(st: BatchState, item: ScanItem, ctx: GroupingContext): (r: BatchState)
    requires Shape(st)
    ensures Shape(r)
  {
    var g := |st.groups|;
    var hkey := ItemHashKey(item, ctx);
    st.(groups := st.groups + [[|st.gidOf|]],
        bound := st.bound + [item.Mid()],
        fps := st.fps + [item.fp],
        bindHash := st.bindHash + [item.BindHash(ctx.identity)],
        midToGroup := if item.Mid().Some?
                      then st.midToGroup[MidKey(ctx.scope, item.pathKey, item.Mid().value) := g]
                      else st.midToGroup,
        hashToGroup := if ctx.tier2Enabled && BatchEligible(item, ctx) && hkey !in st.hashToGroup
                       then st.hashToGroup[hkey := g]
                       else st.hashToGroup,
        boundBy := st.boundBy + [Seed],
        gidOf := st.gidOf + [g])
  }

  function Tier2(st: BatchState, item: ScanItem, ctx: GroupingContext): (r: BatchState)
    requires Shape(st)
    ensures Shape(r)
  {
    var hkey := ItemHashKey(item, ctx);
    if !(ctx.tier2Enabled && BatchEligible(item, ctx)) || hkey !in st.hashToGroup then SeedGroup(st, item, ctx)
    else
      var g := st.hashToGroup[hkey];
      var (ok, newBound) := MidJoinCompatible(st.bound[g], item.Mid(), ctx.BlockCrossMid());
      if ok then Join(Adopt(st, g, newBound, item.pathKey, ctx), g, BoundByForTier2(ctx.identity))
      else SeedGroup(NoteBlocked(st, g, hkey, item.Mid()), item, ctx)
  }

  /** The counters an item moves before its group is looked for. */
  function Counted(st: BatchState, item: ScanItem, ctx: GroupingContext): BatchState
    requires Shape(st)
  {
    var noted := st.(stats := NoteEligibility(st.stats, item, ctx));
    noted.(stats := Tier1Stats(noted, item, ctx))
  }

  function BatchStep(st: BatchState, item: ScanItem, ctx: GroupingContext): (r: BatchState)
    requires Shape(st)
    ensures Shape(r)
  {
    var noted := st.(stats := NoteEligibility(st.stats, item, ctx));
    var counted := noted.(stats := Tier1Stats(noted, item, ctx));
    match Tier1(noted, item, ctx)
    case Hit(g, via) => Join(counted, g, via)
    case Miss => Tier2(counted, item, ctx)
  }

  function BatchRun(items: seq<ScanItem>, ctx: GroupingContext): (r: BatchState)
    ensures Shape(r)
  {
    if items == [] then EMPTY
    else BatchStep(BatchRun(items[..|items| - 1], ctx), items[|items| - 1], ctx)
  }

  // ---- what every prefix keeps ----

  function SeedOf(st: BatchState, g: nat): nat
    requires g < |st.groups| && st.groups[g] != []
  {
    st.groups[g][0]
  }

  /** The groups partition the items seen, and the seed tag marks the first members. */
  ghost predicate Partitioned(st: BatchState) {
    && |st.gidOf| == |st.boundBy|
    && IsGrouping(st.groups, st.gidOf)
    && (forall i | 0 <= i < |st.gidOf| :: st.boundBy[i] == Seed <==> st.groups[st.gidOf[i]][0] == i)
  }

  /** What a group's columns say about its seed item; a bound Message-ID is registered in the seed's partition. */
  ghost predicate GroupGrounded(items: seq<ScanItem>, ctx: GroupingContext, st: BatchState, g: nat)
    requires Shape(st) && g < |st.groups|
  {
    && st.groups[g] != [] && st.groups[g][0] < |items|
    && st.bindHash[g] == items[st.groups[g][0]].BindHash(ctx.identity)
    && st.fps[g] == items[st.groups[g][0]].fp
    && (st.bound[g].Some? ==>
          && st.bound[g].value != []
          && MidKey(ctx.scope, items[st.groups[g][0]].pathKey, st.bound[g].value) in st.midToGroup)
  }

  /** A hash key belongs to the group whose seed has that key. */
  ghost predicate KeyGrounded(items: seq<ScanItem>, ctx: GroupingContext, st: BatchState, k: Bytes)
    requires Shape(st) && k in st.hashToGroup
  {
    var g := st.hashToGroup[k];
    && ctx.tier2Enabled
    && st.groups[g] != [] && st.groups[g][0] < |items|
    && k == ItemHashKey(items[st.groups[g][0]], ctx)
  }

  ghost predicate Grounded(items: seq<ScanItem>, ctx: GroupingContext, st: BatchState)
    requires Shape(st)
  {
    && |st.gidOf| == |items|
    && (forall g | 0 <= g < |st.groups| :: GroupGrounded(items, ctx, st, g))
    && (forall k | k in st.hashToGroup :: KeyGrounded(items, ctx, st, k))
  }

  ghost predicate Inv(items: seq<ScanItem>, ctx: GroupingContext, st: BatchState) {
    Shape(st) && Partitioned(st) && Grounded(items, ctx, st)
  }

  lemma JoinKeepsPartition(st: BatchState, g: nat, via: BoundBy)
    requires Shape(st) && Partitioned(st) && g < |st.groups| && via != Seed
    ensures Partitioned(Join(st, g, via))
  {
    JoinKeepsGrouping(st.groups, st.gidOf, g);
  }

  lemma SeedKeepsPartition(st: BatchState, item: ScanItem, ctx: GroupingContext)
    requires Shape(st) && Partitioned(st)
    ensures Partitioned(SeedGroup(st, item, ctx))
  {
    SeedKeepsGrouping(st.groups, st.gidOf);
  }

  lemma JoinKeepsInv(items: seq<ScanItem>, ctx: GroupingContext, st: BatchState, item: ScanItem, g: nat, via: BoundBy)
    requires Inv(items, ctx, st) && g < |st.groups| && via != Seed
    ensures Inv(items + [item], ctx, Join(st, g, via))
  {
    JoinKeepsPartition(st, g, via);
    var r := Join(st, g, via);
    forall h | 0 <= h < |r.groups|
      ensures GroupGrounded(items + [item], ctx, r, h)
    {
      assert GroupGrounded(items, ctx, st, h);
    }
    forall k | k in r.hashToGroup
      ensures KeyGrounded(items + [item], ctx, r, k)
    {
      assert KeyGrounded(items, ctx, st, k);
    }
  }

  lemma SeedKeepsInv(items: seq<ScanItem>, ctx: GroupingContext, st: BatchState, item: ScanItem)
    requires Inv(items, ctx, st)
    ensures Inv(items + [item], ctx, SeedGroup(st, item, ctx))
  {
    SeedKeepsPartition(st, item, ctx);
    var r := SeedGroup(st, item, ctx);
    var n := |st.groups|;
    assert r.groups[n] == [|items|] && (items + [item])[|items|] == item;
    forall h | 0 <= h < |r.groups|
      ensures GroupGrounded(items + [item], ctx, r, h)
    {
      if h < n {
        assert GroupGrounded(items, ctx, st, h);
      }
    }
    forall k | k in r.hashToGroup
      ensures KeyGrounded(items + [item], ctx, r, k)
    {
      if k in st.hashToGroup {
        assert KeyGrounded(items, ctx, st, k);
      }
    }
  }

  /** Adoption registers the new Message-ID under the group's own partition. */
  lemma AdoptKeepsInv(items: seq<ScanItem>, ctx: GroupingContext, st: BatchState, g: nat, newBound: Option<Bytes>, source: Bytes)
    requires Inv(items, ctx, st) && g < |st.groups|
    requires newBound.Some? ==> newBound.value != []
    requires ScopePrefix(ctx.scope, source) == ScopePrefix(ctx.scope, items[SeedOf(st, g)].pathKey)
    ensures Inv(items, ctx, Adopt(st, g, newBound, source, ctx))
  {
    var r := Adopt(st, g, newBound, source, ctx);
    forall h | 0 <= h < |r.groups|
      ensures GroupGrounded(items, ctx, r, h)
    {
      assert GroupGrounded(items, ctx, st, h);
    }
    forall k | k in r.hashToGroup
      ensures KeyGrounded(items, ctx, r, k)
    {
      assert KeyGrounded(items, ctx, st, k);
    }
  }

  /** The counters play no part in the invariant. */
  lemma CountersKeepInv(items: seq<ScanItem>, ctx: GroupingContext, st: BatchState, r: BatchState)
    requires Inv(items, ctx, st)
    requires r == st.(stats := r.stats, crossSeen := r.crossSeen, cluster := r.cluster)
    ensures Inv(items, ctx, r)
  {
    forall h | 0 <= h < |r.groups|
      ensures GroupGrounded(items, ctx, r, h)
    {
      assert GroupGrounded(items, ctx, st, h);
    }
    forall k | k in r.hashToGroup
      ensures KeyGrounded(items, ctx, r, k)
    {
      assert KeyGrounded(items, ctx, st, k);
    }
  }

  /** A hash key match puts the item in the partition of the group's seed. */
  lemma KeyMatchSharesPrefix(items: seq<ScanItem>, ctx: GroupingContext, st: BatchState, item: ScanItem)
    requires Inv(items, ctx, st) && ItemHashKey(item, ctx) in st.hashToGroup
    ensures var seed := items[SeedOf(st, st.hashToGroup[ItemHashKey(item, ctx)])];
            && ScopePrefix(ctx.scope, item.pathKey) == ScopePrefix(ctx.scope, seed.pathKey)
            && item.BindHash(ctx.identity) == seed.BindHash(ctx.identity)
  {
    assert KeyGrounded(items, ctx, st, ItemHashKey(item, ctx));
    var seed := items[SeedOf(st, st.hashToGroup[ItemHashKey(item, ctx)])];
    HashKeyInjective(ctx.scope, item.pathKey, item.BindHash(ctx.identity), seed.pathKey, seed.BindHash(ctx.identity));
  }

  lemma Tier2KeepsInv(items: seq<ScanItem>, ctx: GroupingContext, st: BatchState, item: ScanItem)
    requires Inv(items, ctx, st)
    ensures Inv(items + [item], ctx, Tier2(st, item, ctx))
  {
    var hkey := ItemHashKey(item, ctx);
    if !(ctx.tier2Enabled && BatchEligible(item, ctx)) || hkey !in st.hashToGroup {
      SeedKeepsInv(items, ctx, st, item);
    } else {
      var g := st.hashToGroup[hkey];
      var (ok, newBound) := MidJoinCompatible(st.bound[g], item.Mid(), ctx.BlockCrossMid());
      if ok {
        KeyMatchSharesPrefix(items, ctx, st, item);
        AdoptKeepsInv(items, ctx, st, g, newBound, item.pathKey);
        JoinKeepsInv(items, ctx, Adopt(st, g, newBound, item.pathKey, ctx), item, g, BoundByForTier2(ctx.identity));
      } else {
        CountersKeepInv(items, ctx, st, NoteBlocked(st, g, hkey, item.Mid()));
        SeedKeepsInv(items, ctx, NoteBlocked(st, g, hkey, item.Mid()), item);
      }
    }
  }

  lemma BatchStepKeepsInv(items: seq<ScanItem>, ctx: GroupingContext, st: BatchState, item: ScanItem)
    requires Inv(items, ctx, st)
    ensures Inv(items + [item], ctx, BatchStep(st, item, ctx))
  {
    var noted := st.(stats := NoteEligibility(st.stats, item, ctx));
    var counted := noted.(stats := Tier1Stats(noted, item, ctx));
    CountersKeepInv(items, ctx, st, counted);
    match Tier1(noted, item, ctx)
    case Hit(g, via) => JoinKeepsInv(items, ctx, counted, item, g, via);
    case Miss => Tier2KeepsInv(items, ctx, counted, item);
  }

  /** For every item list and context, grouping keeps the partition and its bookkeeping. */
  lemma {:induction false} BatchRunInv(items: seq<ScanItem>, ctx: GroupingContext)
    ensures Inv(items, ctx, BatchRun(items, ctx))
  {
    if items != [] {
      var n := |items| - 1;
      BatchRunInv(items[..n], ctx);
      BatchStepKeepsInv(items[..n], ctx, BatchRun(items[..n], ctx), items[n]);
      assert items[..n] + [items[n]] == items;
    }
  }

  /** Later items never change what was decided for earlier ones. */
  ghost predicate Extends(b: BatchState, c: BatchState) {
    && b.gidOf <= c.gidOf && b.boundBy <= c.boundBy && |b.groups| <= |c.groups|
    && forall g | 0 <= g < |b.groups| :: b.groups[g] <= c.groups[g]
  }

  lemma StepExtends(st: BatchState, item: ScanItem, ctx: GroupingContext)
    requires Shape(st)
    ensures Extends(st, BatchStep(st, item, ctx))
  {
  }

  lemma {:induction false} RunExtends(items: seq<ScanItem>, k: nat, ctx: GroupingContext)
    requires k <= |items|
    ensures Extends(BatchRun(items[..k], ctx), BatchRun(items, ctx))
  {
    if k == |items| {
      assert items[..k] == items;
    } else {
      var n := |items| - 1;
      RunExtends(items[..n], k, ctx);
      assert items[..n][..k] == items[..k];
      LastExtends(items, n, ctx);
      ExtendsTrans(BatchRun(items[..k], ctx), BatchRun(items[..n], ctx), BatchRun(items, ctx));
    }
  }

  lemma LastExtends(items: seq<ScanItem>, n: nat, ctx: GroupingContext)
    requires |items| == n + 1
    ensures Extends(BatchRun(items[..n], ctx), BatchRun(items, ctx))
  {
    StepExtends(BatchRun(items[..n], ctx), items[n], ctx);
  }

  lemma ExtendsTrans(b: BatchState, c: BatchState, d: BatchState)
    requires Extends(b, c) && Extends(c, d)
    ensures Extends(b, d)
  {
  }

  // ---- the loop ----

  lemma BatchRunAppend(items: seq<ScanItem>, i: nat, ctx: GroupingContext)
    requires i < |items|
    ensures BatchRun(items[..i + 1], ctx) == BatchStep(BatchRun(items[..i], ctx), items[i], ctx)
  {
    assert items[..i + 1][..i] == items[..i];
  }

  /** The pass over the items, branch by branch, over the loop's variables held in one record. */
  method GroupInOnePass(items: seq<ScanItem>, ctx: GroupingContext) returns (st: BatchState)
    ensures st == BatchRun(items, ctx)
  {
    st := EMPTY;
    for i := 0 to |items|
      invariant Shape(st) && st == BatchRun(items[..i], ctx)
    {
      BatchRunAppend(items, i, ctx);
      var item := items[i];
      st := st.(stats := NoteEligibility(st.stats, item, ctx));

      var found := Tier1(st, item, ctx);
      st := st.(stats := Tier1Stats(st, item, ctx));

      var hkey := ItemHashKey(item, ctx);
      if found.Miss? && ctx.tier2Enabled && BatchEligible(item, ctx) && hkey in st.hashToGroup {
        var g := st.hashToGroup[hkey];
        var (ok, newBound) := MidJoinCompatible(st.bound[g], item.Mid(), ctx.BlockCrossMid());
        if ok {
          st := Adopt(st, g, newBound, item.pathKey, ctx);
          found := Hit(g, BoundByForTier2(ctx.identity));
        } else {
          st := NoteBlocked(st, g, hkey, item.Mid());
        }
      }

      match found
      case Hit(g, via) => st := Join(st, g, via);
      case Miss => st := SeedGroup(st, item, ctx);
    }
    assert items[..|items|] == items;
  }
}
