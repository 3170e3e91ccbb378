/** The streaming index and batch grouping decide the same duplicates ("one set of semantics"). */
module EngineEquivalence {
  import opened Common
  import opened Grouping
  import opened ScanItems
  import B = BatchGrouping
  import S = StreamIndex

  /** The index item carries the scan item's identity; only the eligibility flag is the caller's own. */
  predicate SameMessage(item: ScanItem, x: S.IndexItem) {
    && x.messageId == item.messageId && x.contentHash == item.contentHash && x.strongHash == item.strongHash
    && x.sourceKey == item.pathKey && x.fp == item.fp
  }

  predicate SameMessages(items: seq<ScanItem>, xs: seq<S.IndexItem>) {
    |items| == |xs| && forall i {:trigger SameMessage(items[i], xs[i])} | 0 <= i < |items| :: SameMessage(items[i], xs[i])
  }

  /** Eligibility is only asked for while hash binding is on. */
  predicate AgreesOn(item: ScanItem, x: S.IndexItem, ctx: GroupingContext) {
    ctx.tier2Enabled ==> S.IndexEligible(x, ctx) == BatchEligible(item, ctx)
  }

  predicate EligibilityAgrees(items: seq<ScanItem>, xs: seq<S.IndexItem>, ctx: GroupingContext)
    requires |items| == |xs|
  {
    forall i {:trigger AgreesOn(items[i], xs[i], ctx)} | 0 <= i < |items| :: AgreesOn(items[i], xs[i], ctx)
  }

  predicate SameHashSameBody(a: ScanItem, b: ScanItem, ctx: GroupingContext) {
    a.BindHash(ctx.identity) == b.BindHash(ctx.identity) ==> a.fp.body == b.fp.body
  }

  /** Under body verification, items that can share a hash group have one body fingerprint. */
  predicate BodyFollowsHash(items: seq<ScanItem>, ctx: GroupingContext) {
    ctx.tier1Verify.VerifyBody? && ctx.tier2Enabled ==>
      forall i, j {:trigger SameHashSameBody(items[i], items[j], ctx)} | 0 <= i < |items| && 0 <= j < |items| ::
        SameHashSameBody(items[i], items[j], ctx)
  }

  /** Item i has a group with a first member. */
  ghost predicate Placed(st: B.BatchState, xs: seq<S.IndexItem>, i: nat) {
    && i < |st.gidOf| == |st.boundBy| && st.gidOf[i] < |st.groups|
    && st.groups[st.gidOf[i]] != [] && st.groups[st.gidOf[i]][0] < |xs|
  }

  /** The answer batch grouping implies for item i: Unique for a seed, else a duplicate of the group's seed. */
  ghost function Implied(st: B.BatchState, xs: seq<S.IndexItem>, i: nat): S.DedupResult
    requires Placed(st, xs, i)
  {
    if st.boundBy[i] == Seed then S.Unique
    else S.DuplicateOf(xs[st.groups[st.gidOf[i]][0]].msgRef, st.boundBy[i])
  }

  // ---- the simulation relation ----

  ghost predicate SlotStandsFor(xs: seq<S.IndexItem>, ctx: GroupingContext, b: B.BatchState, slot: S.Slot, g: nat)
    requires B.Shape(b)
  {
    && g < |b.groups| && b.groups[g] != [] && b.groups[g][0] < |xs|
    && slot.msgRef == xs[b.groups[g][0]].msgRef
    && slot.bindHash == b.bindHash[g]
    && (ctx.tier1Verify.VerifyBody? ==> slot.fp.body == b.fps[g].body)
  }

  ghost predicate MidsMatch(xs: seq<S.IndexItem>, ctx: GroupingContext, b: B.BatchState, s: S.IndexState)
    requires B.Shape(b)
  {
    && s.messageIds.Keys == b.midToGroup.Keys
    && forall k | k in b.midToGroup :: SlotStandsFor(xs, ctx, b, s.messageIds[k], b.midToGroup[k])
  }

  ghost predicate HashesMatch(xs: seq<S.IndexItem>, ctx: GroupingContext, b: B.BatchState, s: S.IndexState)
    requires B.Shape(b)
  {
    && s.contentHashes.Keys == b.hashToGroup.Keys
    && forall k | k in b.hashToGroup ::
         && SlotStandsFor(xs, ctx, b, s.contentHashes[k], b.hashToGroup[k])
         && s.contentHashes[k].boundMid == b.bound[b.hashToGroup[k]]
  }

  ghost predicate CountersMatch(b: B.BatchState, s: S.IndexState) {
    && s.stats.crossMidBlocked == b.stats.crossMidBlocked
    && s.stats.crossMidBlockedGroups == b.stats.crossMidBlockedGroups
    && s.stats.crossMidBlockedMaxGroup == b.stats.crossMidBlockedMaxGroup
    && s.crossSeen == b.crossSeen && s.cluster == b.cluster
    && s.uniqueCount == |b.groups|
    && s.uniqueCount + s.duplicateCount == |b.gidOf|
    && s.tier1Hits + s.tier2Hits == s.duplicateCount
    && s.tier1Hits == multiset(b.boundBy)[ByMessageId]
  }

  ghost predicate Sim(xs: seq<S.IndexItem>, ctx: GroupingContext, b: B.BatchState, s: S.IndexState) {
    B.Shape(b) && |b.gidOf| == |xs| && MidsMatch(xs, ctx, b, s) && HashesMatch(xs, ctx, b, s) && CountersMatch(b, s)
  }

  /** Slots keep standing for their groups while the groups keep their seeds. */
  lemma SlotsCarryOver(xs: seq<S.IndexItem>, ctx: GroupingContext, b: B.BatchState, s: S.IndexState, c: B.BatchState, ys: seq<S.IndexItem>)
    requires B.Shape(b) && B.Shape(c) && MidsMatch(xs, ctx, b, s) && HashesMatch(xs, ctx, b, s)
    requires xs <= ys && |b.groups| <= |c.groups| && b.bindHash <= c.bindHash && b.fps <= c.fps
    requires forall g | 0 <= g < |b.groups| && b.groups[g] != [] :: c.groups[g] != [] && c.groups[g][0] == b.groups[g][0]
    ensures forall k | k in b.midToGroup :: SlotStandsFor(ys, ctx, c, s.messageIds[k], b.midToGroup[k])
    ensures forall k | k in b.hashToGroup :: SlotStandsFor(ys, ctx, c, s.contentHashes[k], b.hashToGroup[k])
  {
  }

  function CountHit(s: S.IndexState, via: BoundBy): S.IndexState {
    if via == ByMessageId then s.(duplicateCount := s.duplicateCount + 1, tier1Hits := s.tier1Hits + 1)
    else s.(duplicateCount := s.duplicateCount + 1, tier2Hits := s.tier2Hits + 1)
  }

  lemma JoinSimulates(xs: seq<S.IndexItem>, ctx: GroupingContext, b: B.BatchState, s: S.IndexState,
                      x: S.IndexItem, g: nat, via: BoundBy)
    requires Sim(xs, ctx, b, s) && g < |b.groups| && via != Seed
    ensures Sim(xs + [x], ctx, B.Join(b, g, via), CountHit(s, via))
  {
    SlotsCarryOver(xs, ctx, b, s, B.Join(b, g, via), xs + [x]);
  }

  lemma SeedSimulates(xs: seq<S.IndexItem>, ctx: GroupingContext, b: B.BatchState, s: S.IndexState,
                      item: ScanItem, x: S.IndexItem)
    requires Sim(xs, ctx, b, s) && SameMessage(item, x)
    requires AgreesOn(item, x, ctx)
    ensures Sim(xs + [x], ctx, B.SeedGroup(b, item, ctx), S.InsertUnique(s, x, ctx))
  {
    SeedSlots(xs, ctx, b, s, item, x);
    SeedMatchesMids(xs, ctx, b, s, item, x, B.SeedGroup(b, item, ctx));
    SeedMatchesHashes(xs, ctx, b, s, item, x, B.SeedGroup(b, item, ctx));
  }

  /** After seeding the old slots still stand for their groups, and the new one stands for the new group. */
  lemma SeedSlots(xs: seq<S.IndexItem>, ctx: GroupingContext, b: B.BatchState, s: S.IndexState, item: ScanItem, x: S.IndexItem)
    requires B.Shape(b) && |b.gidOf| == |xs| && MidsMatch(xs, ctx, b, s) && HashesMatch(xs, ctx, b, s) && SameMessage(item, x)
    ensures var c := B.SeedGroup(b, item, ctx);
            && SlotStandsFor(xs + [x], ctx, c, S.SlotFor(x, ctx), |b.groups|)
            && (forall k | k in b.midToGroup :: SlotStandsFor(xs + [x], ctx, c, s.messageIds[k], b.midToGroup[k]))
            && (forall k | k in b.hashToGroup :: SlotStandsFor(xs + [x], ctx, c, s.contentHashes[k], b.hashToGroup[k]))
  {
    SlotsCarryOver(xs, ctx, b, s, B.SeedGroup(b, item, ctx), xs + [x]);
  }

  lemma SeedMatchesMids(xs: seq<S.IndexItem>, ctx: GroupingContext, b: B.BatchState, s: S.IndexState, item: ScanItem, x: S.IndexItem, c: B.BatchState)
    requires B.Shape(b) && SameMessage(item, x) && c == B.SeedGroup(b, item, ctx) && s.messageIds.Keys == b.midToGroup.Keys
    requires SlotStandsFor(xs + [x], ctx, c, S.SlotFor(x, ctx), |b.groups|)
    requires forall k | k in b.midToGroup :: SlotStandsFor(xs + [x], ctx, c, s.messageIds[k], b.midToGroup[k])
    ensures MidsMatch(xs + [x], ctx, c, S.InsertUnique(s, x, ctx))
  {
  }

  lemma SeedMatchesHashes(xs: seq<S.IndexItem>, ctx: GroupingContext, b: B.BatchState, s: S.IndexState, item: ScanItem, x: S.IndexItem, c: B.BatchState)
    requires B.Shape(b) && SameMessage(item, x) && AgreesOn(item, x, ctx) && c == B.SeedGroup(b, item, ctx) && HashesMatch(xs, ctx, b, s)
    requires SlotStandsFor(xs + [x], ctx, c, S.SlotFor(x, ctx), |b.groups|)
    requires forall k | k in b.hashToGroup :: SlotStandsFor(xs + [x], ctx, c, s.contentHashes[k], b.hashToGroup[k])
    ensures HashesMatch(xs + [x], ctx, c, S.InsertUnique(s, x, ctx))
  {
    var t := S.InsertUnique(s, x, ctx);
    SeedSameHashKeys(b, s, item, x, ctx);
    forall k | k in c.hashToGroup
      ensures SlotStandsFor(xs + [x], ctx, c, t.contentHashes[k], c.hashToGroup[k])
      ensures t.contentHashes[k].boundMid == c.bound[c.hashToGroup[k]]
    {
      if k in b.hashToGroup {
        assert SlotStandsFor(xs, ctx, b, s.contentHashes[k], b.hashToGroup[k]);
      }
    }
  }

  lemma SeedSameHashKeys(b: B.BatchState, s: S.IndexState, item: ScanItem, x: S.IndexItem, ctx: GroupingContext)
    requires B.Shape(b) && SameMessage(item, x) && AgreesOn(item, x, ctx) && s.contentHashes.Keys == b.hashToGroup.Keys
    ensures S.InsertUnique(s, x, ctx).contentHashes.Keys == B.SeedGroup(b, item, ctx).hashToGroup.Keys
  {
  }

  /** Adoption registers the joiner's slot; it stands for the group, and a bound group's key is registered already. */
  lemma AdoptMatchesMids(xs: seq<S.IndexItem>, ctx: GroupingContext, b: B.BatchState, s: S.IndexState,
                         item: ScanItem, x: S.IndexItem, g: nat, hkey: Bytes, newBound: Option<Bytes>)
    requires B.Shape(b) && MidsMatch(xs, ctx, b, s) && SameMessage(item, x)
    requires g < |b.groups| && hkey in s.contentHashes && SlotStandsFor(xs, ctx, b, s.contentHashes[hkey], g)
    requires s.contentHashes[hkey].boundMid == b.bound[g]
    requires b.bound[g].Some? && newBound.Some? ==> MidKey(ctx.scope, item.pathKey, newBound.value) in b.midToGroup
    requires b.bindHash[g] == item.BindHash(ctx.identity)
    requires ctx.tier1Verify.VerifyBody? ==> b.fps[g].body == item.fp.body
    ensures MidsMatch(xs, ctx, B.Adopt(b, g, newBound, item.pathKey, ctx), S.AdoptSlot(s, x, hkey, newBound, ctx))
  {
    var c, t := B.Adopt(b, g, newBound, item.pathKey, ctx), S.AdoptSlot(s, x, hkey, newBound, ctx);
    forall k | k in c.midToGroup
      ensures k in t.messageIds && SlotStandsFor(xs, ctx, c, t.messageIds[k], c.midToGroup[k])
    {
      if k in b.midToGroup {
        assert SlotStandsFor(xs, ctx, b, s.messageIds[k], b.midToGroup[k]);
      }
    }
  }

  /** Adoption binds the one hash slot of the group. */
  lemma AdoptMatchesHashes(xs: seq<S.IndexItem>, ctx: GroupingContext, b: B.BatchState, s: S.IndexState,
                           item: ScanItem, x: S.IndexItem, g: nat, hkey: Bytes, newBound: Option<Bytes>)
    requires B.Shape(b) && HashesMatch(xs, ctx, b, s) && SameMessage(item, x)
    requires hkey in b.hashToGroup && b.hashToGroup[hkey] == g
    requires forall k | k in b.hashToGroup && b.hashToGroup[k] == g :: k == hkey
    ensures HashesMatch(xs, ctx, B.Adopt(b, g, newBound, item.pathKey, ctx), S.AdoptSlot(s, x, hkey, newBound, ctx))
  {
    var c, t := B.Adopt(b, g, newBound, item.pathKey, ctx), S.AdoptSlot(s, x, hkey, newBound, ctx);
    forall k | k in c.hashToGroup
      ensures k in t.contentHashes && SlotStandsFor(xs, ctx, c, t.contentHashes[k], c.hashToGroup[k])
              && t.contentHashes[k].boundMid == c.bound[c.hashToGroup[k]]
    {
      assert SlotStandsFor(xs, ctx, b, s.contentHashes[k], b.hashToGroup[k]);
    }
  }

  lemma CountersSimulate(xs: seq<S.IndexItem>, ctx: GroupingContext, b: B.BatchState, s: S.IndexState,
                         c: B.BatchState, t: S.IndexState)
    requires Sim(xs, ctx, b, s)
    requires c == b.(stats := c.stats, crossSeen := c.crossSeen, cluster := c.cluster)
    requires t == s.(stats := t.stats, crossSeen := t.crossSeen, cluster := t.cluster)
    requires CountersMatch(c, t)
    ensures Sim(xs, ctx, c, t)
  {
    SlotsCarryOver(xs, ctx, b, s, c, xs);
  }

  /** What a hash hit tells the simulation about the group it hits. */
  ghost predicate HitFacts(ctx: GroupingContext, b: B.BatchState, item: ScanItem)
    requires B.Shape(b)
  {
    B.ItemHashKey(item, ctx) in b.hashToGroup ==>
      var g := b.hashToGroup[B.ItemHashKey(item, ctx)];
      && (b.bound[g].Some? ==> b.bound[g].value != [] && MidKey(ctx.scope, item.pathKey, b.bound[g].value) in b.midToGroup)
      && b.bindHash[g] == item.BindHash(ctx.identity)
      && (ctx.tier1Verify.VerifyBody? ==> b.fps[g].body == item.fp.body)
      && (forall k | k in b.hashToGroup && b.hashToGroup[k] == g :: k == B.ItemHashKey(item, ctx))
  }

  lemma HashHitFacts(items: seq<ScanItem>, ctx: GroupingContext, b: B.BatchState, item: ScanItem)
    requires B.Inv(items, ctx, b) && BodyFollowsHash(items + [item], ctx)
    ensures HitFacts(ctx, b, item)
  {
    if B.ItemHashKey(item, ctx) in b.hashToGroup {
      var g := b.hashToGroup[B.ItemHashKey(item, ctx)];
      B.KeyMatchSharesPrefix(items, ctx, b, item);
      assert B.GroupGrounded(items, ctx, b, g);
      assert B.KeyGrounded(items, ctx, b, B.ItemHashKey(item, ctx));
      var all := items + [item];
      assert all[|items|] == item && all[b.groups[g][0]] == items[b.groups[g][0]];
      assert ctx.tier1Verify.VerifyBody? ==> SameHashSameBody(all[b.groups[g][0]], all[|items|], ctx);
      forall k | k in b.hashToGroup && b.hashToGroup[k] == g
        ensures k == B.ItemHashKey(item, ctx)
      {
        assert B.KeyGrounded(items, ctx, b, k);
      }
    }
  }

  // ---- one item ----

  lemma AdoptSimulates(xs: seq<S.IndexItem>, ctx: GroupingContext, b: B.BatchState, s: S.IndexState,
                       item: ScanItem, x: S.IndexItem, g: nat, newBound: Option<Bytes>)
    requires Sim(xs, ctx, b, s) && HitFacts(ctx, b, item) && SameMessage(item, x)
    requires B.ItemHashKey(item, ctx) in b.hashToGroup && g == b.hashToGroup[B.ItemHashKey(item, ctx)]
    requires MidJoinCompatible(b.bound[g], item.Mid(), ctx.BlockCrossMid()) == (true, newBound)
    ensures Sim(xs, ctx, B.Adopt(b, g, newBound, item.pathKey, ctx), S.AdoptSlot(s, x, B.ItemHashKey(item, ctx), newBound, ctx))
  {
    var hkey := B.ItemHashKey(item, ctx);
    AdoptMatchesMids(xs, ctx, b, s, item, x, g, hkey, newBound);
    AdoptMatchesHashes(xs, ctx, b, s, item, x, g, hkey, newBound);
  }

  lemma HashJoinSimulates(xs: seq<S.IndexItem>, ctx: GroupingContext, b: B.BatchState, s: S.IndexState,
                          item: ScanItem, x: S.IndexItem, g: nat, newBound: Option<Bytes>)
    requires Sim(xs, ctx, b, s) && HitFacts(ctx, b, item) && SameMessage(item, x)
    requires B.ItemHashKey(item, ctx) in b.hashToGroup && g == b.hashToGroup[B.ItemHashKey(item, ctx)]
    requires MidJoinCompatible(b.bound[g], item.Mid(), ctx.BlockCrossMid()) == (true, newBound)
    ensures var t := S.AdoptSlot(s, x, B.ItemHashKey(item, ctx), newBound, ctx);
            Sim(xs + [x], ctx, B.Join(B.Adopt(b, g, newBound, item.pathKey, ctx), g, BoundByForTier2(ctx.identity)),
                CountHit(t, BoundByForTier2(ctx.identity)))
  {
    AdoptSimulates(xs, ctx, b, s, item, x, g, newBound);
    JoinSimulates(xs, ctx, B.Adopt(b, g, newBound, item.pathKey, ctx),
                  S.AdoptSlot(s, x, B.ItemHashKey(item, ctx), newBound, ctx), x, g, BoundByForTier2(ctx.identity));
  }

  lemma BlockSimulates(xs: seq<S.IndexItem>, ctx: GroupingContext, b: B.BatchState, s: S.IndexState,
                       item: ScanItem, x: S.IndexItem, hkey: Bytes)
    requires Sim(xs, ctx, b, s) && SameMessage(item, x) && hkey in b.hashToGroup
    requires AgreesOn(item, x, ctx)
    ensures Sim(xs + [x], ctx, B.SeedGroup(B.NoteBlocked(b, b.hashToGroup[hkey], hkey, item.Mid()), item, ctx),
                S.InsertUnique(S.BlockSlot(s, hkey, x.Mid()), x, ctx))
  {
    var c, t := B.NoteBlocked(b, b.hashToGroup[hkey], hkey, item.Mid()), S.BlockSlot(s, hkey, x.Mid());
    CountersSimulate(xs, ctx, b, s, c, t);
    SeedSimulates(xs, ctx, c, t, item, x);
  }

  lemma Tier2Simulates(xs: seq<S.IndexItem>, ctx: GroupingContext, b: B.BatchState, s: S.IndexState,
                       item: ScanItem, x: S.IndexItem)
    requires Sim(xs, ctx, b, s) && HitFacts(ctx, b, item) && SameMessage(item, x)
    requires AgreesOn(item, x, ctx)
    ensures Sim(xs + [x], ctx, B.Tier2(b, item, ctx), S.IndexTier2(s, x, ctx).0)
  {
    var hkey := B.ItemHashKey(item, ctx);
    if !(ctx.tier2Enabled && BatchEligible(item, ctx)) || hkey !in b.hashToGroup {
      SeedSimulates(xs, ctx, b, s, item, x);
    } else {
      Tier2HitSimulates(xs, ctx, b, s, item, x, hkey);
    }
  }

  lemma Tier2HitSimulates(xs: seq<S.IndexItem>, ctx: GroupingContext, b: B.BatchState, s: S.IndexState,
                          item: ScanItem, x: S.IndexItem, hkey: Bytes)
    requires Sim(xs, ctx, b, s) && HitFacts(ctx, b, item) && SameMessage(item, x) && AgreesOn(item, x, ctx)
    requires ctx.tier2Enabled && BatchEligible(item, ctx) && hkey == B.ItemHashKey(item, ctx) && hkey in b.hashToGroup
    ensures Sim(xs + [x], ctx, B.Tier2(b, item, ctx), S.IndexTier2(s, x, ctx).0)
  {
    var g := b.hashToGroup[hkey];
    var (ok, newBound) := MidJoinCompatible(b.bound[g], item.Mid(), ctx.BlockCrossMid());
    BatchOnHit(ctx, b, item, hkey, g, ok, newBound);
    IndexOnHit(xs, ctx, b, s, item, x, hkey, g, ok, newBound);
    if ok {
      HashJoinSimulates(xs, ctx, b, s, item, x, g, newBound);
    } else {
      BlockSimulates(xs, ctx, b, s, item, x, hkey);
    }
  }

  /** What batch grouping does when the hash key is taken. */
  lemma BatchOnHit(ctx: GroupingContext, b: B.BatchState, item: ScanItem, hkey: Bytes, g: nat, ok: bool, newBound: Option<Bytes>)
    requires B.Shape(b) && ctx.tier2Enabled && BatchEligible(item, ctx) && hkey == B.ItemHashKey(item, ctx) && hkey in b.hashToGroup
    requires g == b.hashToGroup[hkey] && (ok, newBound) == MidJoinCompatible(b.bound[g], item.Mid(), ctx.BlockCrossMid())
    ensures ok ==> B.Tier2(b, item, ctx) == B.Join(B.Adopt(b, g, newBound, item.pathKey, ctx), g, BoundByForTier2(ctx.identity))
    ensures !ok ==> B.Tier2(b, item, ctx) == B.SeedGroup(B.NoteBlocked(b, g, hkey, item.Mid()), item, ctx)
  {
  }

  /** What the index does then. */
  lemma IndexOnHit(xs: seq<S.IndexItem>, ctx: GroupingContext, b: B.BatchState, s: S.IndexState,
                   item: ScanItem, x: S.IndexItem, hkey: Bytes, g: nat, ok: bool, newBound: Option<Bytes>)
    requires B.Shape(b) && HashesMatch(xs, ctx, b, s) && SameMessage(item, x) && AgreesOn(item, x, ctx)
    requires ctx.tier2Enabled && BatchEligible(item, ctx) && hkey == B.ItemHashKey(item, ctx) && hkey in b.hashToGroup
    requires g == b.hashToGroup[hkey] && (ok, newBound) == MidJoinCompatible(b.bound[g], item.Mid(), ctx.BlockCrossMid())
    ensures ok ==> S.IndexTier2(s, x, ctx).0 == CountHit(S.AdoptSlot(s, x, hkey, newBound, ctx), BoundByForTier2(ctx.identity))
    ensures !ok ==> S.IndexTier2(s, x, ctx).0 == S.InsertUnique(S.BlockSlot(s, hkey, x.Mid()), x, ctx)
  {
    assert SlotStandsFor(xs, ctx, b, s.contentHashes[hkey], g);
    OnTakenKey(s, x, ctx, hkey, ok, newBound);
  }

  lemma OnTakenKey(s: S.IndexState, x: S.IndexItem, ctx: GroupingContext, hkey: Bytes, ok: bool, newBound: Option<Bytes>)
    requires ctx.tier2Enabled && S.IndexEligible(x, ctx) && hkey == S.ItemHashKey(x, ctx) && hkey in s.contentHashes
    requires (ok, newBound) == MidJoinCompatible(s.contentHashes[hkey].boundMid, x.Mid(), ctx.BlockCrossMid())
    ensures ok ==> S.IndexTier2(s, x, ctx).0 == CountHit(S.AdoptSlot(s, x, hkey, newBound, ctx), BoundByForTier2(ctx.identity))
    ensures !ok ==> S.IndexTier2(s, x, ctx).0 == S.InsertUnique(S.BlockSlot(s, hkey, x.Mid()), x, ctx)
  {
  }

  /** Eligibility and divergence counting leaves the tables and the cross-MID counters alone. */
  lemma NotingSimulates(xs: seq<S.IndexItem>, ctx: GroupingContext, b: B.BatchState, s: S.IndexState, item: ScanItem, x: S.IndexItem,
                        counted: B.BatchState, t: S.IndexState)
    requires Sim(xs, ctx, b, s)
    requires counted == B.Counted(b, item, ctx)
    requires t == s || exists fp :: t == s.(stats := NoteDivergence(s.stats, fp, x.fp))
    ensures Sim(xs, ctx, counted, t)
  {
    NotingMatches(ctx, b, s, item, x, counted, t);
    CountersSimulate(xs, ctx, b, s, counted, t);
  }

  lemma NotingMatches(ctx: GroupingContext, b: B.BatchState, s: S.IndexState, item: ScanItem, x: S.IndexItem,
                      counted: B.BatchState, t: S.IndexState)
    requires B.Shape(b) && CountersMatch(b, s)
    requires counted == B.Counted(b, item, ctx)
    requires t == s || exists fp :: t == s.(stats := NoteDivergence(s.stats, fp, x.fp))
    ensures CountersMatch(counted, t)
    ensures counted == b.(stats := counted.stats) && t == s.(stats := t.stats)
  {
  }

  /** A Message-ID hit or miss on one side is the same on the other, and so is a verification split. */
  lemma SameTier1(xs: seq<S.IndexItem>, ctx: GroupingContext, b: B.BatchState, s: S.IndexState, item: ScanItem, x: S.IndexItem)
    requires B.Shape(b) && MidsMatch(xs, ctx, b, s) && SameMessage(item, x)
    ensures match S.MidSlot(s, x, ctx)
            case None => B.BatchStep(b, item, ctx) == B.Tier2(B.Counted(b, item, ctx), item, ctx)
            case Some(slot) =>
              var key := MidKey(ctx.scope, item.pathKey, item.Mid().value);
              && key in b.midToGroup && SlotStandsFor(xs, ctx, b, slot, b.midToGroup[key])
              && B.BatchStep(b, item, ctx) ==
                 if S.Tier1Accepts(slot, x, ctx) then B.Join(B.Counted(b, item, ctx), b.midToGroup[key], ByMessageId)
                 else B.Tier2(B.Counted(b, item, ctx), item, ctx)
  {
    if S.MidSlot(s, x, ctx).Some? {
      var key := MidKey(ctx.scope, item.pathKey, item.Mid().value);
      assert SlotStandsFor(xs, ctx, b, s.messageIds[key], b.midToGroup[key]);
    }
  }

  lemma MissSimulates(xs: seq<S.IndexItem>, ctx: GroupingContext, b: B.BatchState, s: S.IndexState, item: ScanItem, x: S.IndexItem)
    requires Sim(xs, ctx, b, s) && HitFacts(ctx, b, item) && SameMessage(item, x)
    requires AgreesOn(item, x, ctx)
    requires S.MidSlot(s, x, ctx).None?
    ensures Sim(xs + [x], ctx, B.BatchStep(b, item, ctx), S.IndexStep(s, x, ctx).0)
  {
    SameTier1(xs, ctx, b, s, item, x);
    NotingSimulates(xs, ctx, b, s, item, x, B.Counted(b, item, ctx), s);
    Tier2Simulates(xs, ctx, B.Counted(b, item, ctx), s, item, x);
  }

  lemma HitSimulates(xs: seq<S.IndexItem>, ctx: GroupingContext, b: B.BatchState, s: S.IndexState, item: ScanItem, x: S.IndexItem)
    requires Sim(xs, ctx, b, s) && HitFacts(ctx, b, item) && SameMessage(item, x)
    requires AgreesOn(item, x, ctx)
    requires S.MidSlot(s, x, ctx).Some? && S.Tier1Accepts(S.MidSlot(s, x, ctx).value, x, ctx)
    ensures Sim(xs + [x], ctx, B.BatchStep(b, item, ctx), S.IndexStep(s, x, ctx).0)
  {
    SameTier1(xs, ctx, b, s, item, x);
    var noted := s.(stats := NoteDivergence(s.stats, S.MidSlot(s, x, ctx).value.fp, x.fp));
    assert S.IndexStep(s, x, ctx).0 == CountHit(noted, ByMessageId);
    NotingSimulates(xs, ctx, b, s, item, x, B.Counted(b, item, ctx), noted);
    var g := b.midToGroup[MidKey(ctx.scope, item.pathKey, item.Mid().value)];
    JoinSimulates(xs, ctx, B.Counted(b, item, ctx), noted, x, g, ByMessageId);
  }

  lemma SplitSimulates(xs: seq<S.IndexItem>, ctx: GroupingContext, b: B.BatchState, s: S.IndexState, item: ScanItem, x: S.IndexItem)
    requires Sim(xs, ctx, b, s) && HitFacts(ctx, b, item) && SameMessage(item, x)
    requires AgreesOn(item, x, ctx)
    requires S.MidSlot(s, x, ctx).Some? && !S.Tier1Accepts(S.MidSlot(s, x, ctx).value, x, ctx)
    ensures Sim(xs + [x], ctx, B.BatchStep(b, item, ctx), S.IndexStep(s, x, ctx).0)
  {
    SameTier1(xs, ctx, b, s, item, x);
    var noted := s.(stats := NoteDivergence(s.stats, S.MidSlot(s, x, ctx).value.fp, x.fp));
    NotingSimulates(xs, ctx, b, s, item, x, B.Counted(b, item, ctx), noted);
    Tier2Simulates(xs, ctx, B.Counted(b, item, ctx), noted, item, x);
  }

  lemma StepSimulates(xs: seq<S.IndexItem>, ctx: GroupingContext, b: B.BatchState, s: S.IndexState,
                      item: ScanItem, x: S.IndexItem)
    requires Sim(xs, ctx, b, s) && HitFacts(ctx, b, item) && SameMessage(item, x)
    requires AgreesOn(item, x, ctx)
    ensures Sim(xs + [x], ctx, B.BatchStep(b, item, ctx), S.IndexStep(s, x, ctx).0)
  {
    if S.MidSlot(s, x, ctx).None? {
      MissSimulates(xs, ctx, b, s, item, x);
    } else if S.Tier1Accepts(S.MidSlot(s, x, ctx).value, x, ctx) {
      HitSimulates(xs, ctx, b, s, item, x);
    } else {
      SplitSimulates(xs, ctx, b, s, item, x);
    }
  }

  // ---- the answers ----

  lemma JoinAnswers(xs: seq<S.IndexItem>, ctx: GroupingContext, b: B.BatchState, x: S.IndexItem, slot: S.Slot, g: nat, via: BoundBy)
    requires B.Shape(b) && |b.gidOf| == |xs| && SlotStandsFor(xs, ctx, b, slot, g) && via != Seed
    ensures Placed(B.Join(b, g, via), xs + [x], |xs|)
    ensures Implied(B.Join(b, g, via), xs + [x], |xs|) == S.DuplicateOf(slot.msgRef, via)
  {
  }

  lemma IndexAnswersHit(ctx: GroupingContext, s: S.IndexState, x: S.IndexItem, hkey: Bytes, ok: bool, newBound: Option<Bytes>)
    requires ctx.tier2Enabled && S.IndexEligible(x, ctx) && hkey == S.ItemHashKey(x, ctx) && hkey in s.contentHashes
    requires (ok, newBound) == MidJoinCompatible(s.contentHashes[hkey].boundMid, x.Mid(), ctx.BlockCrossMid())
    ensures S.IndexTier2(s, x, ctx).1 ==
            if ok then S.DuplicateOf(s.contentHashes[hkey].msgRef, BoundByForTier2(ctx.identity)) else S.Unique
  {
  }

  lemma HitAnswers(xs: seq<S.IndexItem>, ctx: GroupingContext, b: B.BatchState, s: S.IndexState, item: ScanItem, x: S.IndexItem,
                   r: B.BatchState)
    requires B.Shape(b) && |b.gidOf| == |xs| && HashesMatch(xs, ctx, b, s) && SameMessage(item, x) && AgreesOn(item, x, ctx)
    requires ctx.tier2Enabled && BatchEligible(item, ctx) && B.ItemHashKey(item, ctx) in b.hashToGroup
    requires r == B.Tier2(b, item, ctx)
    ensures Placed(r, xs + [x], |xs|) && S.IndexTier2(s, x, ctx).1 == Implied(r, xs + [x], |xs|)
  {
    var hkey := B.ItemHashKey(item, ctx);
    var g := b.hashToGroup[hkey];
    assert SlotStandsFor(xs, ctx, b, s.contentHashes[hkey], g);
    var (ok, newBound) := MidJoinCompatible(b.bound[g], item.Mid(), ctx.BlockCrossMid());
    BatchOnHit(ctx, b, item, hkey, g, ok, newBound);
    IndexAnswersHit(ctx, s, x, hkey, ok, newBound);
    if ok {
      JoinAnswers(xs, ctx, B.Adopt(b, g, newBound, item.pathKey, ctx), x, s.contentHashes[hkey], g, BoundByForTier2(ctx.identity));
    }
  }

  lemma Tier2Answers(xs: seq<S.IndexItem>, ctx: GroupingContext, b: B.BatchState, s: S.IndexState, item: ScanItem, x: S.IndexItem)
    requires B.Shape(b) && |b.gidOf| == |xs| && HashesMatch(xs, ctx, b, s) && SameMessage(item, x)
    requires AgreesOn(item, x, ctx)
    ensures Placed(B.Tier2(b, item, ctx), xs + [x], |xs|)
    ensures S.IndexTier2(s, x, ctx).1 == Implied(B.Tier2(b, item, ctx), xs + [x], |xs|)
  {
    if ctx.tier2Enabled && BatchEligible(item, ctx) && B.ItemHashKey(item, ctx) in b.hashToGroup {
      HitAnswers(xs, ctx, b, s, item, x, B.Tier2(b, item, ctx));
    }
  }

  lemma StepAnswers(xs: seq<S.IndexItem>, ctx: GroupingContext, b: B.BatchState, s: S.IndexState, item: ScanItem, x: S.IndexItem)
    requires Sim(xs, ctx, b, s) && SameMessage(item, x)
    requires AgreesOn(item, x, ctx)
    ensures Placed(B.BatchStep(b, item, ctx), xs + [x], |xs|)
    ensures S.IndexStep(s, x, ctx).1 == Implied(B.BatchStep(b, item, ctx), xs + [x], |xs|)
  {
    SameTier1(xs, ctx, b, s, item, x);
    var counted := B.Counted(b, item, ctx);
    match S.MidSlot(s, x, ctx)
    case None =>
      NotingSimulates(xs, ctx, b, s, item, x, counted, s);
      Tier2Answers(xs, ctx, counted, s, item, x);
    case Some(slot) =>
      var noted := s.(stats := NoteDivergence(s.stats, slot.fp, x.fp));
      NotingSimulates(xs, ctx, b, s, item, x, counted, noted);
      if S.Tier1Accepts(slot, x, ctx) {
        var g := b.midToGroup[MidKey(ctx.scope, item.pathKey, item.Mid().value)];
        JoinAnswers(xs, ctx, counted, x, slot, g, ByMessageId);
      } else {
        Tier2Answers(xs, ctx, counted, noted, item, x);
      }
  }

  // ---- whole runs ----

  /** The premises of the equivalence, for one pair of runs. */
  ghost predicate Comparable(items: seq<ScanItem>, xs: seq<S.IndexItem>, ctx: GroupingContext) {
    SameMessages(items, xs) && EligibilityAgrees(items, xs, ctx) && BodyFollowsHash(items, ctx)
  }

  lemma ComparableAt(items: seq<ScanItem>, xs: seq<S.IndexItem>, ctx: GroupingContext, k: nat)
    requires Comparable(items, xs, ctx) && k < |items|
    ensures SameMessage(items[k], xs[k]) && AgreesOn(items[k], xs[k], ctx)
    ensures BodyFollowsHash(items[..k] + [items[k]], ctx)
    ensures items[..k] + [items[k]] == items[..k + 1] && xs[..k] + [xs[k]] == xs[..k + 1]
  {
  }

  lemma HitsOnRun(items: seq<ScanItem>, ctx: GroupingContext, item: ScanItem)
    requires BodyFollowsHash(items + [item], ctx)
    ensures HitFacts(ctx, B.BatchRun(items, ctx), item)
  {
    B.BatchRunInv(items, ctx);
    HashHitFacts(items, ctx, B.BatchRun(items, ctx), item);
  }

  lemma RunStep(items: seq<ScanItem>, xs: seq<S.IndexItem>, ctx: GroupingContext, k: nat, next: nat)
    requires Comparable(items, xs, ctx) && k < |items| && next == k + 1
    requires Sim(xs[..k], ctx, B.BatchRun(items[..k], ctx), S.IndexRun(xs[..k], ctx))
    ensures Sim(xs[..next], ctx, B.BatchRun(items[..next], ctx), S.IndexRun(xs[..next], ctx))
  {
    ComparableAt(items, xs, ctx, k);
    HitsOnRun(items[..k], ctx, items[k]);
    StepSimulates(xs[..k], ctx, B.BatchRun(items[..k], ctx), S.IndexRun(xs[..k], ctx), items[k], xs[k]);
    B.BatchRunAppend(items, k, ctx);
    S.IndexRunAppend(xs, k, ctx);
  }

  lemma NothingSimulates(items: seq<ScanItem>, xs: seq<S.IndexItem>, ctx: GroupingContext)
    requires items == [] && xs == []
    ensures Sim(xs, ctx, B.BatchRun(items, ctx), S.IndexRun(xs, ctx))
  {
  }

  lemma {:induction false} RunsSimulate(items: seq<ScanItem>, xs: seq<S.IndexItem>, ctx: GroupingContext, k: nat)
    requires Comparable(items, xs, ctx) && k <= |items|
    ensures Sim(xs[..k], ctx, B.BatchRun(items[..k], ctx), S.IndexRun(xs[..k], ctx))
  {
    if k > 0 {
      var j := k - 1;
      RunsSimulate(items, xs, ctx, j);
      RunStep(items, xs, ctx, j, k);
    } else {
      NothingSimulates(items[..k], xs[..k], ctx);
    }
  }

  lemma AnswerWhenSeen(items: seq<ScanItem>, xs: seq<S.IndexItem>, ctx: GroupingContext, i: nat)
    requires Comparable(items, xs, ctx) && i < |items|
    ensures Placed(B.BatchRun(items[..i + 1], ctx), xs[..i + 1], i)
    ensures S.Answer(xs, i, ctx) == Implied(B.BatchRun(items[..i + 1], ctx), xs[..i + 1], i)
  {
    RunsSimulate(items, xs, ctx, i);
    ComparableAt(items, xs, ctx, i);
    StepAnswers(xs[..i], ctx, B.BatchRun(items[..i], ctx), S.IndexRun(xs[..i], ctx), items[i], xs[i]);
    B.BatchRunAppend(items, i, ctx);
  }

  lemma AnswerAtEnd(items: seq<ScanItem>, xs: seq<S.IndexItem>, ctx: GroupingContext, i: nat)
    requires Comparable(items, xs, ctx) && i < |items|
    ensures Placed(B.BatchRun(items, ctx), xs, i) && S.Answer(xs, i, ctx) == Implied(B.BatchRun(items, ctx), xs, i)
  {
    AnswerWhenSeen(items, xs, ctx, i);
    B.RunExtends(items, i + 1, ctx);
    var b, c := B.BatchRun(items[..i + 1], ctx), B.BatchRun(items, ctx);
    assert b.gidOf[i] == c.gidOf[i] && b.boundBy[i] == c.boundBy[i];
    assert b.groups[b.gidOf[i]][0] == c.groups[b.gidOf[i]][0];
  }

  /** Every answer of the index is the one batch grouping implies, seeds are the unique ones, and the counters agree. */
  ghost predicate SameVerdicts(items: seq<ScanItem>, xs: seq<S.IndexItem>, ctx: GroupingContext) {
    var st := B.BatchRun(items, ctx);
    && (forall i | 0 <= i < |items| ::
          && i < |xs| && Placed(st, xs, i) && S.Answer(xs, i, ctx) == Implied(st, xs, i)
          && (S.Answer(xs, i, ctx) == S.Unique <==> st.groups[st.gidOf[i]][0] == i))
    && CountersMatch(st, S.IndexRun(xs, ctx))
  }

  /**
   The two engines agree on every run: the index answers Unique exactly for the first member of each batch group,
   names that member and the same bind tag for every other item, and ends with the same counters.
   */
  lemma EnginesAgree(items: seq<ScanItem>, xs: seq<S.IndexItem>, ctx: GroupingContext)
    requires Comparable(items, xs, ctx)
    ensures SameVerdicts(items, xs, ctx)
  {
    var st := B.BatchRun(items, ctx);
    RunsSimulate(items, xs, ctx, |items|);
    assert items[..|items|] == items && xs[..|items|] == xs;
    B.BatchRunInv(items, ctx);
    forall i | 0 <= i < |items|
      ensures Placed(st, xs, i) && S.Answer(xs, i, ctx) == Implied(st, xs, i)
              && (S.Answer(xs, i, ctx) == S.Unique <==> st.groups[st.gidOf[i]][0] == i)
    {
      AnswerAtEnd(items, xs, ctx, i);
    }
  }

  // ---- when the rebuild of scan results agrees with batch grouping ----

  /** The index rebuild hands over the eligibility batch grouping decided. */
  ghost predicate Rebuilt(items: seq<ScanItem>, xs: seq<S.IndexItem>, ctx: GroupingContext) {
    SameMessages(items, xs) && forall i | 0 <= i < |items| :: xs[i].tier2Eligible == BatchEligible(items[i], ctx)
  }

  /** The index overrules that flag for exactly one kind of item: CRC-tainted, under relaxed body rules, not allowed back. */
  lemma RebuiltAgreesOnIff(item: ScanItem, x: S.IndexItem, ctx: GroupingContext)
    requires SameMessage(item, x) && x.tier2Eligible == BatchEligible(item, ctx)
    ensures S.IndexEligible(x, ctx) == BatchEligible(item, ctx) <==>
            !(Assess(item).CrcTainted? && !ctx.EnforceReadableBody() && !ctx.allowCrcSuspectTier2)
  {
  }

  /** The contexts under which a rebuild can never disagree. */
  predicate RebuildSafe(ctx: GroupingContext) {
    !ctx.tier2Enabled || (!ctx.tier1Verify.VerifyBody? && (ctx.EnforceReadableBody() || ctx.allowCrcSuspectTier2))
  }

  const BLANK: Hash := seq(32, _ => 0)
  const OTHER: Hash := seq(32, _ => 1)

  function Sample(nid: nat, mid: Option<Bytes>, hash: Hash, body: nat, reasons: seq<IntegrityReason>): ScanItem {
    ScanItem([], nid, mid, hash, None, Fingerprints(body, 0, 0, 0), 0, nid, None, None, false,
             Integrity(false, reasons != [], reasons), true, false, false, 0, false, 0, 0)
  }

  function SampleIndexItem(item: ScanItem, ctx: GroupingContext): (x: S.IndexItem)
    ensures SameMessage(item, x) && x.tier2Eligible == BatchEligible(item, ctx)
  {
    S.IndexItem(item.messageId, item.contentHash, item.strongHash, BatchEligible(item, ctx), item.pathKey, item.fp,
                S.MessageRef(0, item.nid))
  }

  lemma SeedAnsweredDuplicate(items: seq<ScanItem>, xs: seq<S.IndexItem>, ctx: GroupingContext, i: nat)
    requires i < |items| == |xs| && i < |B.BatchRun(items, ctx).boundBy|
    requires B.BatchRun(items, ctx).boundBy[i] == Seed && S.Answer(xs, i, ctx).DuplicateOf?
    ensures !SameVerdicts(items, xs, ctx)
  {
  }

  /** Two CRC-tainted copies of one message: batch grouping keeps them apart, the index does not. */
  lemma TaintedCopiesDisagree(items: seq<ScanItem>, xs: seq<S.IndexItem>, ctx: GroupingContext)
    requires ctx.tier2Enabled && !ctx.EnforceReadableBody() && !ctx.allowCrcSuspectTier2
    requires items == [Sample(0, None, BLANK, 0, [CrcSuspect]), Sample(1, None, BLANK, 0, [CrcSuspect])]
    requires Rebuilt(items, xs, ctx)
    ensures !SameVerdicts(items, xs, ctx)
  {
    BatchKeepsTaintedApart(ctx, items, items[0], items[1]);
    assert SameMessage(items[0], xs[0]) && SameMessage(items[1], xs[1]);
    IndexJoinsTainted(ctx, xs, xs[0], xs[1]);
    SeedAnsweredDuplicate(items, xs, ctx, 1);
  }

  lemma BatchKeepsTaintedApart(ctx: GroupingContext, items: seq<ScanItem>, a: ScanItem, b: ScanItem)
    requires ctx.tier2Enabled && !ctx.allowCrcSuspectTier2 && items == [a, b]
    requires a.messageId.None? && b.messageId.None? && Assess(a) == CrcTainted && Assess(b) == CrcTainted
    ensures B.BatchRun(items, ctx).boundBy == [Seed, Seed]
  {
    B.BatchRunAppend(items, 0, ctx);
    B.BatchRunAppend(items, 1, ctx);
    assert items[..2] == items && items[..0] == [];
  }

  lemma IndexJoinsTainted(ctx: GroupingContext, xs: seq<S.IndexItem>, x: S.IndexItem, y: S.IndexItem)
    requires ctx.tier2Enabled && !ctx.EnforceReadableBody() && xs == [x, y]
    requires x.messageId.None? && y.messageId.None? && x.sourceKey == y.sourceKey && x.BindHash(ctx.identity) == y.BindHash(ctx.identity)
    ensures S.Answer(xs, 1, ctx).DuplicateOf?
  {
    S.IndexRunAppend(xs, 0, ctx);
    assert xs[..0] == [];
    assert S.IndexRun(xs[..1], ctx) == S.InsertUnique(S.NEW_INDEX, x, ctx);
  }

  /** A Message-ID adopted from a copy with another body: the index verifies against the copy, batch grouping against the seed. */
  lemma AdoptedBodyDisagrees(items: seq<ScanItem>, xs: seq<S.IndexItem>, ctx: GroupingContext)
    requires ctx.tier2Enabled && ctx.tier1Verify.VerifyBody?
    requires items == [Sample(0, None, BLANK, 1, []), Sample(1, Some([7]), BLANK, 2, []), Sample(2, Some([7]), OTHER, 2, [])]
    requires Rebuilt(items, xs, ctx)
    ensures !SameVerdicts(items, xs, ctx)
  {
    BatchSplitsThird(ctx, items, items[0], items[1], items[2]);
    assert SameMessage(items[0], xs[0]) && SameMessage(items[1], xs[1]) && SameMessage(items[2], xs[2]);
    IndexKeepsThird(ctx, xs, xs[0], xs[1], xs[2]);
    SeedAnsweredDuplicate(items, xs, ctx, 2);
  }

  lemma BatchSplitsThird(ctx: GroupingContext, items: seq<ScanItem>, a: ScanItem, b: ScanItem, c: ScanItem)
    requires ctx.tier2Enabled && ctx.tier1Verify.VerifyBody? && items == [a, b, c]
    requires a == Sample(0, None, BLANK, 1, []) && b == Sample(1, Some([7]), BLANK, 2, []) && c == Sample(2, Some([7]), OTHER, 2, [])
    ensures |B.BatchRun(items, ctx).boundBy| == 3 && B.BatchRun(items, ctx).boundBy[2] == Seed
  {
    B.BatchRunAppend(items, 0, ctx);
    B.BatchRunAppend(items, 1, ctx);
    B.BatchRunAppend(items, 2, ctx);
    assert items[..3] == items && items[..0] == [];
    var b1, b2 := B.BatchRun(items[..1], ctx), B.BatchRun(items[..2], ctx);
    assert b1 == B.SeedGroup(B.EMPTY, a, ctx);
    SecondStepAdopts(ctx, b1, b);
    ThirdStepSplits(ctx, b1, b2, b, c);
  }

  /** The second item joins the first one's group and binds it. */
  lemma SecondStepAdopts(ctx: GroupingContext, b1: B.BatchState, b: ScanItem)
    requires ctx.tier2Enabled && b == Sample(1, Some([7]), BLANK, 2, [])
    requires b1 == B.SeedGroup(B.EMPTY, Sample(0, None, BLANK, 1, []), ctx)
    ensures B.BatchStep(b1, b, ctx) == B.Join(B.Adopt(B.Counted(b1, b, ctx), 0, Some([7]), [], ctx), 0, BoundByForTier2(ctx.identity))
  {
  }

  lemma ThirdStepSplits(ctx: GroupingContext, b1: B.BatchState, b2: B.BatchState, b: ScanItem, c: ScanItem)
    requires ctx.tier2Enabled && ctx.tier1Verify.VerifyBody?
    requires b1 == B.SeedGroup(B.EMPTY, Sample(0, None, BLANK, 1, []), ctx)
    requires b == Sample(1, Some([7]), BLANK, 2, []) && c == Sample(2, Some([7]), OTHER, 2, [])
    requires B.Shape(b2) && b2 == B.Join(B.Adopt(B.Counted(b1, b, ctx), 0, Some([7]), [], ctx), 0, BoundByForTier2(ctx.identity))
    ensures var b3 := B.BatchStep(b2, c, ctx); |b3.boundBy| == 3 && b3.boundBy[2] == Seed
  {
    assert BLANK[0] != OTHER[0];
    HashKeyInjective(ctx.scope, [], BLANK, [], OTHER);
  }

  lemma IndexKeepsThird(ctx: GroupingContext, xs: seq<S.IndexItem>, x: S.IndexItem, y: S.IndexItem, z: S.IndexItem)
    requires ctx.tier2Enabled && ctx.tier1Verify.VerifyBody? && xs == [x, y, z]
    requires x.Mid().None? && y.Mid() == Some([7]) && z.Mid() == Some([7]) && y.fp.body == z.fp.body
    requires x.sourceKey == y.sourceKey == z.sourceKey && x.BindHash(ctx.identity) == y.BindHash(ctx.identity)
    requires x.tier2Eligible && y.tier2Eligible
    ensures S.Answer(xs, 2, ctx).DuplicateOf?
  {
    S.IndexRunAppend(xs, 0, ctx);
    S.IndexRunAppend(xs, 1, ctx);
    assert xs[..0] == [];
    var s1, s2 := S.IndexRun(xs[..1], ctx), S.IndexRun(xs[..2], ctx);
    assert s1 == S.InsertUnique(S.NEW_INDEX, x, ctx);
    var mk := MidKey(ctx.scope, y.sourceKey, [7]);
    assert mk in s2.messageIds && s2.messageIds[mk].fp == y.fp;
  }

  /** Rebuilt runs always agree with batch grouping in exactly the safe contexts. */
  lemma RebuildAgreesIff(ctx: GroupingContext)
    ensures (forall items, xs | Rebuilt(items, xs, ctx) :: SameVerdicts(items, xs, ctx)) <==> RebuildSafe(ctx)
  {
    if RebuildSafe(ctx) {
      forall items, xs | Rebuilt(items, xs, ctx)
        ensures SameVerdicts(items, xs, ctx)
      {
        EnginesAgree(items, xs, ctx);
      }
    } else {
      var items, xs := UnsafeRebuild(ctx);
    }
  }

  /** In any other context there is a rebuilt run that disagrees. */
  lemma UnsafeRebuild(ctx: GroupingContext) returns (items: seq<ScanItem>, xs: seq<S.IndexItem>)
    requires !RebuildSafe(ctx)
    ensures Rebuilt(items, xs, ctx) && !SameVerdicts(items, xs, ctx)
  {
    if ctx.tier1Verify.VerifyBody? {
      var a, b, c := Sample(0, None, BLANK, 1, []), Sample(1, Some([7]), BLANK, 2, []), Sample(2, Some([7]), OTHER, 2, []);
      items, xs := [a, b, c], [SampleIndexItem(a, ctx), SampleIndexItem(b, ctx), SampleIndexItem(c, ctx)];
      assert Rebuilt(items, xs, ctx);
      AdoptedBodyDisagrees(items, xs, ctx);
    } else {
      var a, b := Sample(0, None, BLANK, 0, [CrcSuspect]), Sample(1, None, BLANK, 0, [CrcSuspect]);
      items, xs := [a, b], [SampleIndexItem(a, ctx), SampleIndexItem(b, ctx)];
      assert Rebuilt(items, xs, ctx);
      TaintedCopiesDisagree(items, xs, ctx);
    }
  }
}
