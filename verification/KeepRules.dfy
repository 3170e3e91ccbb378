/** What ranking prefers, told from the items' own fields: each rung of the ladder, and what each policy keeps. */
module KeepRules {
  import opened ByteOrder
  import opened Common
  import opened ScanItems
  import opened Ranking
  import opened Resolve

  // ---- fidelity ----

  predicate MetadataOnly(r: IntegrityReason) {
    r in {AttachMetaFailed, AttachProbeTruncated, AttachPeerProbeCap, AttachProbeTimeout}
  }

  predicate PayloadLoss(r: IntegrityReason) {
    r in {AttachStreamOpenFailed, AttachStreamReadFailed, AttachStreamCrc, AttachBlockNotFound, AttachDataTruncated,
          AttachMethodUnsupported, AttachCloudLink}
  }

  predicate BodyLoss(r: IntegrityReason) {
    r in {BodyTruncated, BodyUnavailable, DataTruncated, CrcMismatch, CrcSuspect, BlockNotFound}
  }

  ghost predicate CitesPayloadLoss(item: ScanItem) {
    exists r :: r in item.integrity.reasons && PayloadLoss(r)
  }

  ghost predicate CitesBodyLoss(item: ScanItem) {
    exists r :: r in item.integrity.reasons && BodyLoss(r)
  }

  /** Some reason is none of these three kinds. */
  ghost predicate CitesOther(item: ScanItem) {
    exists r :: r in item.integrity.reasons && !MetadataOnly(r) && !PayloadLoss(r) && !BodyLoss(r)
  }

  /** Structure or provenance is lost. */
  ghost predicate Broken(item: ScanItem) {
    item.integrity.orphaned || (item.integrity.degraded && CitesOther(item))
  }

  /** That, or content of the message itself; being degraded for no stated reason counts as much. */
  ghost predicate Wanting(item: ScanItem) {
    Broken(item) || (item.integrity.degraded && (item.integrity.reasons == [] || CitesBodyLoss(item)))
  }

  /** That, or content of an attachment. */
  ghost predicate Lossy(item: ScanItem) {
    Wanting(item) || (item.integrity.degraded && CitesPayloadLoss(item))
  }

  /** w has lost no more than x, as far as the mode looks. */
  ghost predicate AsFaithful(w: ScanItem, x: ScanItem, mode: FidelityMode) {
    && (!x.integrity.degraded && !x.integrity.orphaned ==> !w.integrity.degraded && !w.integrity.orphaned)
    && (mode.Graded? ==> (Broken(w) ==> Broken(x)) && (Wanting(w) ==> Wanting(x)) && (Lossy(w) ==> Lossy(x)))
  }

  ghost predicate SameFidelity(w: ScanItem, x: ScanItem, mode: FidelityMode) {
    AsFaithful(w, x, mode) && AsFaithful(x, w, mode)
  }

  lemma TierIs(r: IntegrityReason)
    ensures ReasonTier(r) == if MetadataOnly(r) then 1 else if PayloadLoss(r) then 2 else if BodyLoss(r) then 3 else 4
    ensures MetadataOnly(r) ==> !PayloadLoss(r) && !BodyLoss(r)
    ensures PayloadLoss(r) ==> !BodyLoss(r)
  {
  }

  ghost predicate HasTier(reasons: seq<IntegrityReason>, tier: nat) {
    exists k :: 0 <= k < |reasons| && ReasonTier(reasons[k]) >= tier
  }

  lemma HasTierAppend(reasons: seq<IntegrityReason>, r: IntegrityReason, tier: nat)
    ensures HasTier(reasons + [r], tier) <==> HasTier(reasons, tier) || ReasonTier(r) >= tier
  {
    var all := reasons + [r];
    assert all[|reasons|] == r;
    if HasTier(reasons, tier) {
      var k :| 0 <= k < |reasons| && ReasonTier(reasons[k]) >= tier;
      assert all[k] == reasons[k];
    }
  }

  lemma {:induction false} WorstTierIs(reasons: seq<IntegrityReason>, tier: nat)
    requires tier >= 1
    ensures WorstTier(reasons) >= tier <==> HasTier(reasons, tier)
    ensures WorstTier(reasons) <= 4
  {
    if reasons != [] {
      var n := |reasons| - 1;
      WorstTierIs(reasons[..n], tier);
      HasTierAppend(reasons[..n], reasons[n], tier);
      TierIs(reasons[n]);
      assert reasons == reasons[..n] + [reasons[n]];
    }
  }

  lemma Tier1Cited(item: ScanItem)
    ensures HasTier(item.integrity.reasons, 1) <==> item.integrity.reasons != []
  {
    if item.integrity.reasons != [] {
      TierIs(item.integrity.reasons[0]);
    }
  }

  lemma Tier4Cited(item: ScanItem)
    ensures HasTier(item.integrity.reasons, 4) <==> CitesOther(item)
  {
    var reasons := item.integrity.reasons;
    forall k | 0 <= k < |reasons|
      ensures ReasonTier(reasons[k]) >= 4 <==> !MetadataOnly(reasons[k]) && !PayloadLoss(reasons[k]) && !BodyLoss(reasons[k])
    {
      TierIs(reasons[k]);
    }
  }

  lemma Tier3Cited(item: ScanItem)
    ensures HasTier(item.integrity.reasons, 3) <==> CitesOther(item) || CitesBodyLoss(item)
  {
    var reasons := item.integrity.reasons;
    forall k | 0 <= k < |reasons|
      ensures ReasonTier(reasons[k]) >= 3 <==> BodyLoss(reasons[k]) || (!MetadataOnly(reasons[k]) && !PayloadLoss(reasons[k]))
    {
      TierIs(reasons[k]);
    }
  }

  lemma Tier2Cited(item: ScanItem)
    ensures HasTier(item.integrity.reasons, 2) <==> CitesOther(item) || CitesBodyLoss(item) || CitesPayloadLoss(item)
  {
    var reasons := item.integrity.reasons;
    forall k | 0 <= k < |reasons|
      ensures ReasonTier(reasons[k]) >= 2 <==> !MetadataOnly(reasons[k])
    {
      TierIs(reasons[k]);
    }
  }

  /** The grade of an item says what it has lost. */
  lemma GradeIs(item: ScanItem)
    ensures var grade := GradedFidelity(item);
            && grade <= 4 && (grade == 0 <==> !item.integrity.degraded && !item.integrity.orphaned)
            && (grade >= 4 <==> Broken(item)) && (grade >= 3 <==> Wanting(item)) && (grade >= 2 <==> Lossy(item))
  {
    Tier1Cited(item);
    Tier2Cited(item);
    Tier3Cited(item);
    Tier4Cited(item);
    WorstTierIs(item.integrity.reasons, 1);
    WorstTierIs(item.integrity.reasons, 2);
    WorstTierIs(item.integrity.reasons, 3);
    WorstTierIs(item.integrity.reasons, 4);
  }

  lemma FidelityMeans(w: ScanItem, x: ScanItem, mode: FidelityMode)
    ensures FidelityRank(w, mode) <= FidelityRank(x, mode) <==> AsFaithful(w, x, mode)
  {
    GradeIs(w);
    GradeIs(x);
  }

  // ---- the other rungs ----

  ghost predicate SameBcc(w: ScanItem, x: ScanItem, ctx: RankContext) {
    ctx.preferBccCopy ==> w.hasBcc == x.hasBcc
  }

  predicate SamePlace(w: ScanItem, x: ScanItem) {
    w.sourceRank == x.sourceRank && w.folderRank == x.folderRank
  }

  /** Source before folder, or folder before source. */
  predicate PlacedNoLater(w: ScanItem, x: ScanItem, folderFirst: bool) {
    if folderFirst
    then w.folderRank < x.folderRank || (w.folderRank == x.folderRank && w.sourceRank <= x.sourceRank)
    else w.sourceRank < x.sourceRank || (w.sourceRank == x.sourceRank && w.folderRank <= x.folderRank)
  }

  predicate Positive(time: Option<int>) {
    time.Some? && time.value > 0
  }

  predicate Dated(item: ScanItem) {
    Positive(item.submitTime) || Positive(item.deliveryTime)
  }

  /** The item was submitted at that time, or delivered at it and not known to be submitted at any. */
  predicate DatedAt(item: ScanItem, time: int) {
    time > 0 && (item.submitTime == Some(time) || (!Positive(item.submitTime) && item.deliveryTime == Some(time)))
  }

  /** w is at least as good a copy as x by the policy. */
  ghost predicate PolicyKeeps(w: ScanItem, x: ScanItem, policy: KeepPolicy) {
    match policy
    case FirstSeen => w.scanOrder <= x.scanOrder
    case KeepLargest => w.size >= x.size
    case PreferPath => x.preferPathMatch ==> w.preferPathMatch
    case EarliestDate => Dated(x) ==> exists s, t :: DatedAt(w, s) && DatedAt(x, t) && s <= t
  }

  lemma PolicyMeans(w: ScanItem, x: ScanItem, policy: KeepPolicy)
    ensures var (m, v) := PolicyRank(w, policy);
            var (n, u) := PolicyRank(x, policy);
            (m < n || (m == n && v <= u)) <==> PolicyKeeps(w, x, policy)
  {
    if policy.EarliestDate? && Dated(w) && Dated(x) {
      assert DatedAt(w, ResolveDate(w).value) && DatedAt(x, ResolveDate(x).value);
    }
  }

  predicate SamePath(w: ScanItem, x: ScanItem) {
    w.pathKey == x.pathKey
  }

  /** The keep rules, rung by rung: w is no worse a copy than x. */
  ghost predicate Keeps(w: ScanItem, x: ScanItem, ctx: RankContext) {
    && AsFaithful(w, x, ctx.fidelityMode)
    && (SameFidelity(w, x, ctx.fidelityMode) ==>
          && (ctx.preferBccCopy && x.hasBcc ==> w.hasBcc)
          && (SameBcc(w, x, ctx) ==>
                && PlacedNoLater(w, x, ctx.folderClassFirst)
                && (SamePlace(w, x) ==>
                      && PolicyKeeps(w, x, ctx.policy)
                      && (PolicyKeeps(x, w, ctx.policy) ==>
                            && (SamePath(w, x) || LexBefore(w.pathKey, x.pathKey))
                            && (SamePath(w, x) ==> w.nid <= x.nid)))))
  }

  lemma FirstRungsMean(w: ScanItem, x: ScanItem, ctx: RankContext)
    requires Compare(KeyOf(w, ctx), KeyOf(x, ctx)) != Greater
    ensures AsFaithful(w, x, ctx.fidelityMode)
    ensures SameFidelity(w, x, ctx.fidelityMode) ==> (ctx.preferBccCopy && x.hasBcc ==> w.hasBcc)
    ensures SameFidelity(w, x, ctx.fidelityMode) && SameBcc(w, x, ctx) ==> PlacedNoLater(w, x, ctx.folderClassFirst)
  {
    FidelityMeans(w, x, ctx.fidelityMode);
    FidelityMeans(x, w, ctx.fidelityMode);
  }

  lemma LastRungsMean(w: ScanItem, x: ScanItem, ctx: RankContext)
    requires Compare(KeyOf(w, ctx), KeyOf(x, ctx)) != Greater
    requires SameFidelity(w, x, ctx.fidelityMode) && SameBcc(w, x, ctx) && SamePlace(w, x)
    ensures PolicyKeeps(w, x, ctx.policy)
    ensures PolicyKeeps(x, w, ctx.policy) ==>
              (SamePath(w, x) || LexBefore(w.pathKey, x.pathKey)) && (SamePath(w, x) ==> w.nid <= x.nid)
  {
    FidelityMeans(w, x, ctx.fidelityMode);
    FidelityMeans(x, w, ctx.fidelityMode);
    PolicyMeans(w, x, ctx.policy);
    PolicyMeans(x, w, ctx.policy);
    BytesLessMeans(w.pathKey, x.pathKey);
    BytesEqualIff(w.pathKey, x.pathKey);
  }

  /** Whatever ranks no worse obeys the keep rules. */
  lemma NoWorseKeeps(items: seq<ScanItem>, ctx: RankContext, w: nat, x: nat)
    requires w < |items| && x < |items| && NoWorse(items, ctx, w, x)
    ensures Keeps(items[w], items[x], ctx)
  {
    FirstRungsMean(items[w], items[x], ctx);
    if SameFidelity(items[w], items[x], ctx.fidelityMode) && SameBcc(items[w], items[x], ctx) && SamePlace(items[w], items[x]) {
      LastRungsMean(items[w], items[x], ctx);
    }
  }

  lemma KeepsItself(items: seq<ScanItem>, ctx: RankContext, w: nat)
    requires w < |items|
    ensures Keeps(items[w], items[w], ctx)
  {
    CompareEqualIff(KeyOf(items[w], ctx), KeyOf(items[w], ctx));
    NoWorseKeeps(items, ctx, w, w);
  }

  /** The provisional winner obeys them against every member. */
  lemma WinnerObeysRules(items: seq<ScanItem>, ctx: RankContext, group: seq<nat>, x: nat)
    requires Indices(items, group) && group != [] && x in group && x < |items|
    ensures Winner(items, ctx, group) < |items| && Keeps(items[Winner(items, ctx, group)], items[x], ctx)
  {
    WinnerNoWorse(items, ctx, group, x);
    NoWorseKeeps(items, ctx, Winner(items, ctx, group), x);
  }

  /** Two copies that both obey the rules against each other are in one place, with one node: the rules leave no choice. */
  lemma RulesDecide(w: ScanItem, x: ScanItem, ctx: RankContext)
    requires Keeps(w, x, ctx) && Keeps(x, w, ctx)
    ensures w.pathKey == x.pathKey && w.nid == x.nid
  {
    LexAsymmetric(w.pathKey, x.pathKey);
  }

  /** The rung named for a loser is the first of these questions on which it and the winner differ. */
  lemma RungMeans(l: ScanItem, w: ScanItem, ctx: RankContext)
    ensures DecidedByRung(KeyOf(l, ctx), KeyOf(w, ctx), ctx.policy) ==
            if !SameFidelity(l, w, ctx.fidelityMode) then ByFidelity
            else if !SameBcc(l, w, ctx) then ByBccCompleteness
            else if l.sourceRank != w.sourceRank && (!ctx.folderClassFirst || l.folderRank == w.folderRank) then BySourceRank
            else if l.folderRank != w.folderRank then ByFolderClass
            else if !PolicyKeeps(l, w, ctx.policy) || !PolicyKeeps(w, l, ctx.policy) then ByPolicy(ctx.policy)
            else if l.pathKey == w.pathKey && l.nid != w.nid then ByNid
            else ByPathOrder
  {
    FidelityMeans(w, l, ctx.fidelityMode);
    FidelityMeans(l, w, ctx.fidelityMode);
    PolicyMeans(w, l, ctx.policy);
    PolicyMeans(l, w, ctx.policy);
  }

  // ---- each policy by itself ----

  /** Alike in everything that comes before the policy. */
  ghost predicate AlikeBeforePolicy(w: ScanItem, x: ScanItem, ctx: RankContext) {
    SameFidelity(w, x, ctx.fidelityMode) && w.hasBcc == x.hasBcc && SamePlace(w, x)
  }

  /** What each policy keeps of copies that are alike otherwise, and what is kept of copies that differ in Bcc alone. */
  lemma PolicyIsKept(items: seq<ScanItem>, ctx: RankContext, group: seq<nat>, x: nat)
    requires Indices(items, group) && group != [] && x in group && x < |items| && Winner(items, ctx, group) < |items|
    requires AlikeBeforePolicy(items[Winner(items, ctx, group)], items[x], ctx)
    ensures var w := items[Winner(items, ctx, group)];
            && (ctx.policy.KeepLargest? ==> w.size >= items[x].size)
            && (ctx.policy.FirstSeen? ==> w.scanOrder <= items[x].scanOrder)
            && (ctx.policy.PreferPath? && items[x].preferPathMatch ==> w.preferPathMatch)
            && (ctx.policy.EarliestDate? && Dated(items[x]) ==> exists s, t :: DatedAt(w, s) && DatedAt(items[x], t) && s <= t)
  {
    WinnerObeysRules(items, ctx, group, x);
  }
}
