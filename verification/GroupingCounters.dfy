/** What the counters of batch grouping count, told by the rules of grouping. */
module GroupingCounters {
  import opened Common
  import opened Grouping
  import opened ScanItems
  import opened BatchGrouping
  import opened GroupingRules
  import M = MidAuthority

  datatype Counter =
    | BlockedUnreadable | BlockedDegenerate | BlockedCrcSuspect
    | CrossMidBlocked | CrossMidBlockedGroups
    | DivergentBody | DivergentMetadata | DivergentRecipients

  function Shown(stats: GroupingStats, c: Counter): nat {
    match c
    case BlockedUnreadable => stats.blockedUnreadable
    case BlockedDegenerate => stats.blockedDegenerate
    case BlockedCrcSuspect => stats.blockedCrcSuspect
    case CrossMidBlocked => stats.crossMidBlocked
    case CrossMidBlockedGroups => stats.crossMidBlockedGroups
    case DivergentBody => stats.divergentBody
    case DivergentMetadata => stats.divergentMetadata
    case DivergentRecipients => stats.divergentRecipients
  }

  predicate Tainted(item: ScanItem) {
    CrcSuspect in item.integrity.reasons
  }

  predicate Unreadable(item: ScanItem) {
    BodyTruncated in item.integrity.reasons || BodyUnavailable in item.integrity.reasons
  }

  /** The leader of the group that owns the item's Message-ID key. */
  ghost predicate ComparedWith(items: seq<ScanItem>, ctx: GroupingContext, pl: Placing, n: nat, l: nat)
    requires Fits(items, pl) && n < |items|
  {
    && Named(items, n) && l < n && Leads(pl, l)
    && exists o: nat :: KeyOwner(items, ctx, pl, n, M.KeyOf(items[n], ctx), o) && pl.gid[o] == pl.gid[l]
  }

  /** The item could only have joined by content, and the owner of its content has another Message-ID. */
  ghost predicate TurnedAway(items: seq<ScanItem>, ctx: GroupingContext, pl: Placing, n: nat)
    requires Fits(items, pl) && n < |items|
  {
    && MayBind(items[n], ctx) && (forall g: nat :: !PlacedByMid(items, ctx, pl, n, g))
    && exists s: nat :: ContentOwner(items, ctx, pl, n, items[n], s) && Foreign(items, ctx, pl, n, items[n], pl.gid[s])
  }

  predicate SameBinding(a: ScanItem, b: ScanItem, ctx: GroupingContext) {
    SamePartition(a, b, ctx.scope) && SameContent(a, b, ctx.identity)
  }

  /** Item m was turned away and has the content of the item. */
  ghost predicate Precedes(items: seq<ScanItem>, ctx: GroupingContext, pl: Placing, m: nat, item: ScanItem)
    requires Fits(items, pl) && m < |items|
  {
    TurnedAway(items, ctx, pl, m) && SameBinding(items[m], item, ctx)
  }

  /** Some earlier item was turned away from the same content. */
  ghost predicate Preceded(items: seq<ScanItem>, ctx: GroupingContext, pl: Placing, n: nat, item: ScanItem)
    requires Fits(items, pl) && n <= |items|
  {
    exists m: nat :: m < n && Precedes(items, ctx, pl, m, item)
  }

  /** Body first; recipients only where everything else is the same. */
  predicate DiffersIn(a: Fingerprints, b: Fingerprints, c: Counter) {
    match c
    case DivergentBody => a.body != b.body
    case DivergentMetadata => a.body == b.body && (a.header != b.header || a.attachments != b.attachments)
    case DivergentRecipients =>
      a.body == b.body && a.header == b.header && a.attachments == b.attachments && a.recipients != b.recipients
    case _ => false
  }

  /** Whether item n is one of those a counter counts. */
  ghost predicate Counts(items: seq<ScanItem>, ctx: GroupingContext, pl: Placing, n: nat, c: Counter)
    requires Fits(items, pl) && n < |items|
  {
    var item := items[n];
    match c
    case BlockedUnreadable => !Tainted(item) && Unreadable(item) && ctx.requireReadableBody && !ctx.allowDegenerateTier2
    case BlockedDegenerate =>
      && !Tainted(item) && !Unreadable(item) && !item.hasBodyPreview && !HasTwoSigns(item)
      && ctx.requireReadableBody && !ctx.allowDegenerateTier2
    case BlockedCrcSuspect => Tainted(item) && !ctx.allowCrcSuspectTier2
    case CrossMidBlocked => TurnedAway(items, ctx, pl, n)
    case CrossMidBlockedGroups =>
      TurnedAway(items, ctx, pl, n) && !Preceded(items, ctx, pl, n, item)
    case _ => exists l: nat :: ComparedWith(items, ctx, pl, n, l) && DiffersIn(item.fp, items[l].fp, c)
  }

  /** How many of the first n items a counter counts. */
  ghost function Tally(items: seq<ScanItem>, ctx: GroupingContext, pl: Placing, n: nat, c: Counter): nat
    requires Fits(items, pl) && n <= |items|
  {
    if n == 0 then 0 else Tally(items, ctx, pl, n - 1, c) + One(Counts(items, ctx, pl, n - 1, c))
  }

  /** The hash keys of the items turned away. */
  ghost function BlockedKeys(items: seq<ScanItem>, ctx: GroupingContext, pl: Placing, n: nat): set<Bytes>
    requires Fits(items, pl) && n <= |items|
  {
    if n == 0 then {}
    else BlockedKeys(items, ctx, pl, n - 1) + (if TurnedAway(items, ctx, pl, n - 1) then {ItemHashKey(items[n - 1], ctx)} else {})
  }

  lemma {:induction false} BlockedKeysMean(items: seq<ScanItem>, ctx: GroupingContext, pl: Placing, n: nat, item: ScanItem)
    requires Fits(items, pl) && n <= |items|
    ensures ItemHashKey(item, ctx) in BlockedKeys(items, ctx, pl, n) <==> Preceded(items, ctx, pl, n, item)
  {
    if n > 0 {
      var m := n - 1;
      BlockedKeysMean(items, ctx, pl, m, item);
      BlockedKeysGrow(items, ctx, pl, m, n, item);
      PrecededNext(items, ctx, pl, m, n, item);
    }
  }

  lemma PrecededNext(items: seq<ScanItem>, ctx: GroupingContext, pl: Placing, n: nat, next: nat, item: ScanItem)
    requires Fits(items, pl) && next == n + 1 <= |items|
    ensures Preceded(items, ctx, pl, next, item) <==> Preceded(items, ctx, pl, n, item) || Precedes(items, ctx, pl, n, item)
  {
    if Precedes(items, ctx, pl, n, item) {
      assert n < next;
    }
  }

  lemma BlockedKeysGrow(items: seq<ScanItem>, ctx: GroupingContext, pl: Placing, n: nat, next: nat, item: ScanItem)
    requires Fits(items, pl) && next == n + 1 <= |items|
    ensures ItemHashKey(item, ctx) in BlockedKeys(items, ctx, pl, next) <==>
            ItemHashKey(item, ctx) in BlockedKeys(items, ctx, pl, n) || Precedes(items, ctx, pl, n, item)
  {
    SameContentIs(items[n], item, ctx);
  }

  // ---- one step ----

  lemma EligibilityStep(st: BatchState, items: seq<ScanItem>, ctx: GroupingContext, pl: Placing, n: nat, c: Counter)
    requires Fits(items, pl) && n < |items| && (c.BlockedUnreadable? || c.BlockedDegenerate? || c.BlockedCrcSuspect?)
    ensures Shown(NoteEligibility(st.stats, items[n], ctx), c) == Shown(st.stats, c) + One(Counts(items, ctx, pl, n, c))
  {
  }

  /** The leader an item is compared with is the one whose fingerprints the owning group has. */
  lemma LeaderIs(items: seq<ScanItem>, ctx: GroupingContext, pl: Placing, n: nat, st: BatchState, l: nat)
    requires Tables(items, ctx, pl, n, st) && n < |items| && ComparedWith(items, ctx, pl, n, l)
    ensures M.KeyOf(items[n], ctx) in st.midToGroup && st.midToGroup[M.KeyOf(items[n], ctx)] == pl.gid[l]
    ensures pl.gid[l] < |st.groups| && st.fps[pl.gid[l]] == items[l].fp
  {
    var key := M.KeyOf(items[n], ctx);
    var o: nat :| KeyOwner(items, ctx, pl, n, key, o) && pl.gid[o] == pl.gid[l];
    OwnerNames(items, ctx, pl, n, st, key, o);
    assert HasLeader(items, ctx, pl, n, st, pl.gid[l]);
  }

  lemma LeaderExists(items: seq<ScanItem>, ctx: GroupingContext, pl: Placing, n: nat, st: BatchState) returns (l: nat)
    requires Tables(items, ctx, pl, n, st) && n < |items| && Named(items, n) && M.KeyOf(items[n], ctx) in st.midToGroup
    ensures ComparedWith(items, ctx, pl, n, l)
  {
    var key := M.KeyOf(items[n], ctx);
    var g := st.midToGroup[key];
    assert MidEntry(items, ctx, pl, n, key, g) && HasLeader(items, ctx, pl, n, st, g);
    l :| LedBy(items, ctx, pl, n, st, g, l);
  }

  lemma NotedDivergence(stats: GroupingStats, group: Fingerprints, item: Fingerprints, c: Counter)
    ensures Shown(NoteDivergence(stats, group, item), c) == Shown(stats, c) + One(DiffersIn(item, group, c))
  {
  }

  lemma DivergenceStep(items: seq<ScanItem>, ctx: GroupingContext, pl: Placing, n: nat, st: BatchState, stats: GroupingStats, c: Counter)
    requires Tables(items, ctx, pl, n, st) && n < |items| && (c.DivergentBody? || c.DivergentMetadata? || c.DivergentRecipients?)
    ensures Shown(Tier1Stats(st.(stats := stats), items[n], ctx), c) == Shown(stats, c) + One(Counts(items, ctx, pl, n, c))
  {
    if Named(items, n) && M.KeyOf(items[n], ctx) in st.midToGroup {
      var l := LeaderExists(items, ctx, pl, n, st);
      LeaderIs(items, ctx, pl, n, st, l);
      NotedDivergence(stats, items[l].fp, items[n].fp, c);
      OneCompared(items, ctx, pl, n, st, l, c);
    } else {
      forall l: nat
        ensures !ComparedWith(items, ctx, pl, n, l)
      {
        if ComparedWith(items, ctx, pl, n, l) {
          LeaderIs(items, ctx, pl, n, st, l);
        }
      }
    }
  }

  lemma OneCompared(items: seq<ScanItem>, ctx: GroupingContext, pl: Placing, n: nat, st: BatchState, l: nat, c: Counter)
    requires Tables(items, ctx, pl, n, st) && n < |items| && (c.DivergentBody? || c.DivergentMetadata? || c.DivergentRecipients?)
    requires ComparedWith(items, ctx, pl, n, l)
    ensures Counts(items, ctx, pl, n, c) <==> DiffersIn(items[n].fp, items[l].fp, c)
  {
    forall m: nat | ComparedWith(items, ctx, pl, n, m)
      ensures items[m].fp == items[l].fp
    {
      SameLeader(items, ctx, pl, n, st, l, m);
    }
  }

  lemma SameLeader(items: seq<ScanItem>, ctx: GroupingContext, pl: Placing, n: nat, st: BatchState, l: nat, m: nat)
    requires Tables(items, ctx, pl, n, st) && n < |items| && ComparedWith(items, ctx, pl, n, l) && ComparedWith(items, ctx, pl, n, m)
    ensures items[m].fp == items[l].fp
  {
    LeaderIs(items, ctx, pl, n, st, l);
    LeaderIs(items, ctx, pl, n, st, m);
  }

  /** Whether the step turns the item away. */
  predicate StepBlocks(st: BatchState, item: ScanItem, ctx: GroupingContext)
    requires Shape(st)
  {
    && Tier1(st, item, ctx).Miss? && MayBind(item, ctx) && ItemHashKey(item, ctx) in st.hashToGroup
    && !MidJoinCompatible(st.bound[st.hashToGroup[ItemHashKey(item, ctx)]], item.Mid(), ctx.BlockCrossMid()).0
  }

  lemma BlocksIs(items: seq<ScanItem>, ctx: GroupingContext, pl: Placing, n: nat, st: BatchState)
    requires Tables(items, ctx, pl, n, st) && n < |items|
    ensures StepBlocks(st, items[n], ctx) <==> TurnedAway(items, ctx, pl, n)
  {
    MissIs(items, ctx, pl, n, st);
    HashOwner(items, ctx, pl, n, st);
    if ItemHashKey(items[n], ctx) in st.hashToGroup {
      var g := st.hashToGroup[ItemHashKey(items[n], ctx)];
      BoundIs(items, ctx, pl, n, st, g);
      ForeignOwner(items, ctx, pl, n, g);
    }
  }

  lemma MissIs(items: seq<ScanItem>, ctx: GroupingContext, pl: Placing, n: nat, st: BatchState)
    requires Tables(items, ctx, pl, n, st) && n < |items|
    ensures Tier1(st, items[n], ctx).Miss? <==> forall g: nat :: !PlacedByMid(items, ctx, pl, n, g)
  {
    Tier1Decides(items, ctx, pl, n, st);
  }

  lemma ForeignOwner(items: seq<ScanItem>, ctx: GroupingContext, pl: Placing, n: nat, g: nat)
    requires Fits(items, pl) && n < |items|
    requires exists s: nat :: ContentOwner(items, ctx, pl, n, items[n], s) && pl.gid[s] == g
    ensures (exists s: nat :: ContentOwner(items, ctx, pl, n, items[n], s) && Foreign(items, ctx, pl, n, items[n], pl.gid[s])) <==>
            Foreign(items, ctx, pl, n, items[n], g)
  {
    var s: nat :| ContentOwner(items, ctx, pl, n, items[n], s) && pl.gid[s] == g;
    forall t: nat | ContentOwner(items, ctx, pl, n, items[n], t)
      ensures t == s
    {
    }
  }

  lemma StatsOnHit(st: BatchState, item: ScanItem, ctx: GroupingContext)
    requires Shape(st) && Tier1(st, item, ctx).Hit?
    ensures BatchStep(st, item, ctx).stats == Counted(st, item, ctx).stats && BatchStep(st, item, ctx).crossSeen == st.crossSeen
  {
  }

  lemma StatsOnMiss(st: BatchState, item: ScanItem, ctx: GroupingContext)
    requires Shape(st) && Tier1(st, item, ctx).Miss? && !StepBlocks(st, item, ctx)
    ensures BatchStep(st, item, ctx).stats == Counted(st, item, ctx).stats && BatchStep(st, item, ctx).crossSeen == st.crossSeen
  {
    MayBindIs(item, ctx);
  }

  lemma StatsOnBlock(st: BatchState, item: ScanItem, ctx: GroupingContext) returns (size: nat)
    requires Shape(st) && StepBlocks(st, item, ctx)
    ensures var hkey, r := ItemHashKey(item, ctx), BatchStep(st, item, ctx);
            && r.stats == NoteCrossMidBlock(Counted(st, item, ctx).stats, hkey !in st.crossSeen, size)
            && r.crossSeen == st.crossSeen + {hkey}
  {
    MayBindIs(item, ctx);
    var hkey := ItemHashKey(item, ctx);
    size := |if item.Mid().Some? then GrownCluster(st.cluster, hkey, st.bound[st.hashToGroup[hkey]], item.Mid().value) else {}|;
  }

  /** What a step does to the counters that do not concern the guard. */
  lemma OwnCounters(items: seq<ScanItem>, ctx: GroupingContext, pl: Placing, n: nat, st: BatchState, c: Counter)
    requires Tables(items, ctx, pl, n, st) && n < |items| && !c.CrossMidBlocked? && !c.CrossMidBlockedGroups?
    ensures Shown(Counted(st, items[n], ctx).stats, c) == Shown(st.stats, c) + One(Counts(items, ctx, pl, n, c))
  {
    var noted := st.(stats := NoteEligibility(st.stats, items[n], ctx));
    if c.BlockedUnreadable? || c.BlockedDegenerate? || c.BlockedCrcSuspect? {
      EligibilityStep(st, items, ctx, pl, n, c);
      CountedKeeps(noted, items[n], ctx, c);
    } else {
      DivergenceStep(items, ctx, pl, n, st, noted.stats, c);
    }
  }

  lemma CountedKeeps(st: BatchState, item: ScanItem, ctx: GroupingContext, c: Counter)
    requires Shape(st) && (c.BlockedUnreadable? || c.BlockedDegenerate? || c.BlockedCrcSuspect?)
    ensures Shown(Tier1Stats(st, item, ctx), c) == Shown(st.stats, c)
  {
  }

  lemma GuardKeeps(st: BatchState, item: ScanItem, ctx: GroupingContext)
    requires Shape(st)
    ensures Counted(st, item, ctx).stats.crossMidBlocked == st.stats.crossMidBlocked
    ensures Counted(st, item, ctx).stats.crossMidBlockedGroups == st.stats.crossMidBlockedGroups
  {
  }

  /** How a counter and the set of blocked keys move from one state to the next. */
  ghost predicate Moves(st: BatchState, item: ScanItem, ctx: GroupingContext, r: BatchState, c: Counter)
    requires Shape(st)
  {
    && Shown(r.stats, c) ==
       (if c.CrossMidBlocked? then st.stats.crossMidBlocked + One(StepBlocks(st, item, ctx))
        else if c.CrossMidBlockedGroups? then
          st.stats.crossMidBlockedGroups + One(StepBlocks(st, item, ctx) && ItemHashKey(item, ctx) !in st.crossSeen)
        else Shown(Counted(st, item, ctx).stats, c))
    && r.crossSeen == st.crossSeen + (if StepBlocks(st, item, ctx) then {ItemHashKey(item, ctx)} else {})
  }

  lemma StepMoves(st: BatchState, item: ScanItem, ctx: GroupingContext, c: Counter)
    requires Shape(st)
    ensures Moves(st, item, ctx, BatchStep(st, item, ctx), c)
  {
    GuardKeeps(st, item, ctx);
    if Tier1(st, item, ctx).Hit? {
      StatsOnHit(st, item, ctx);
    } else if StepBlocks(st, item, ctx) {
      var size := StatsOnBlock(st, item, ctx);
    } else {
      StatsOnMiss(st, item, ctx);
    }
  }

  lemma StepCounts(items: seq<ScanItem>, ctx: GroupingContext, pl: Placing, n: nat, st: BatchState, r: BatchState, c: Counter)
    requires Tables(items, ctx, pl, n, st) && n < |items| && Moves(st, items[n], ctx, r, c) && st.crossSeen == BlockedKeys(items, ctx, pl, n)
    ensures Shown(r.stats, c) == Shown(st.stats, c) + One(Counts(items, ctx, pl, n, c))
  {
    if c.CrossMidBlocked? || c.CrossMidBlockedGroups? {
      BlocksIs(items, ctx, pl, n, st);
      GuardCounts(items, ctx, pl, n);
    } else {
      OwnCounters(items, ctx, pl, n, st, c);
    }
  }

  lemma StepKeys(items: seq<ScanItem>, ctx: GroupingContext, pl: Placing, n: nat, next: nat, st: BatchState, r: BatchState, c: Counter)
    requires Tables(items, ctx, pl, n, st) && next == n + 1 <= |items| && Moves(st, items[n], ctx, r, c)
    requires st.crossSeen == BlockedKeys(items, ctx, pl, n)
    ensures r.crossSeen == BlockedKeys(items, ctx, pl, next)
  {
    BlocksIs(items, ctx, pl, n, st);
  }

  /** What the two counters of the guard count. */
  lemma GuardCounts(items: seq<ScanItem>, ctx: GroupingContext, pl: Placing, n: nat)
    requires Fits(items, pl) && n < |items|
    ensures Counts(items, ctx, pl, n, CrossMidBlocked) <==> TurnedAway(items, ctx, pl, n)
    ensures Counts(items, ctx, pl, n, CrossMidBlockedGroups) <==>
            TurnedAway(items, ctx, pl, n) && ItemHashKey(items[n], ctx) !in BlockedKeys(items, ctx, pl, n)
  {
    BlockedKeysMean(items, ctx, pl, n, items[n]);
  }

  lemma {:induction false} RunTallies(items: seq<ScanItem>, ctx: GroupingContext, n: nat, c: Counter)
    requires n <= |items| && Fits(items, RunPlacing(items, ctx))
    ensures Shown(BatchRun(items[..n], ctx).stats, c) == Tally(items, ctx, RunPlacing(items, ctx), n, c)
    ensures BatchRun(items[..n], ctx).crossSeen == BlockedKeys(items, ctx, RunPlacing(items, ctx), n)
  {
    if n == 0 {
      assert items[..n] == [];
    } else {
      var m := n - 1;
      RunTallies(items, ctx, m, c);
      TallyStep(items, ctx, m, n, c);
    }
  }

  lemma TallyStep(items: seq<ScanItem>, ctx: GroupingContext, n: nat, next: nat, c: Counter)
    requires next == n + 1 <= |items| && Fits(items, RunPlacing(items, ctx))
    requires Shown(BatchRun(items[..n], ctx).stats, c) == Tally(items, ctx, RunPlacing(items, ctx), n, c)
    requires BatchRun(items[..n], ctx).crossSeen == BlockedKeys(items, ctx, RunPlacing(items, ctx), n)
    ensures Shown(BatchRun(items[..next], ctx).stats, c) == Tally(items, ctx, RunPlacing(items, ctx), next, c)
    ensures BatchRun(items[..next], ctx).crossSeen == BlockedKeys(items, ctx, RunPlacing(items, ctx), next)
  {
    RunTables(items, ctx, n);
    BatchRunAppend(items, n, ctx);
    StepMoves(BatchRun(items[..n], ctx), items[n], ctx, c);
    StepCounts(items, ctx, RunPlacing(items, ctx), n, BatchRun(items[..n], ctx), BatchRun(items[..next], ctx), c);
    StepKeys(items, ctx, RunPlacing(items, ctx), n, next, BatchRun(items[..n], ctx), BatchRun(items[..next], ctx), c);
  }

  /** For every item list and context each counter is the number of items it stands for. */
  lemma CountersMean(items: seq<ScanItem>, ctx: GroupingContext, c: Counter)
    ensures Fits(items, RunPlacing(items, ctx))
    ensures Shown(BatchRun(items, ctx).stats, c) == Tally(items, ctx, RunPlacing(items, ctx), |items|, c)
  {
    BatchRunInv(items, ctx);
    RunTallies(items, ctx, |items|, c);
    assert items[..|items|] == items;
  }
}
