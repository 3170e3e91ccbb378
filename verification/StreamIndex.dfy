/** The streaming index (crates/dedup-engine/src/index.rs): two maps of group slots, updated item by item. */
module StreamIndex {
  import opened Common
  import opened Grouping

  /** Identifies the message a slot was opened by; only equality matters. */
  datatype MessageRef = MessageRef(pstIndex: nat, nid: nat)

  datatype IndexItem = IndexItem(
    messageId: Option<Bytes>,
    contentHash: Hash,
    strongHash: Option<Hash>,
    tier2Eligible: bool,
    sourceKey: Bytes,
    fp: Fingerprints,
    msgRef: MessageRef
  ) {
    function Mid(): Option<Bytes> {
      MidPresent(messageId)
    }

    function BindHash(identity: IdentityLevel): Hash {
      Tier2BindHash(contentHash, strongHash, identity)
    }
  }

  datatype Slot = Slot(msgRef: MessageRef, boundMid: Option<Bytes>, bindHash: Hash, fp: Fingerprints)

  datatype DedupResult = Unique | DuplicateOf(original: MessageRef, boundBy: BoundBy)

  /** Everything the index remembers between items. */
  datatype IndexState = IndexState(
    messageIds: map<Bytes, Slot>,
    contentHashes: map<Bytes, Slot>,
    uniqueCount: nat,
    duplicateCount: nat,
    tier1Hits: nat,
    tier2Hits: nat,
    stats: GroupingStats,
    crossSeen: set<Bytes>,
    cluster: map<Bytes, set<Bytes>>)

  const NEW_INDEX := IndexState(map[], map[], 0, 0, 0, 0, NO_STATS, {}, map[])

  predicate IndexEligible(item: IndexItem, ctx: GroupingContext) {
    item.tier2Eligible || !ctx.EnforceReadableBody()
  }

  function ItemHashKey(item: IndexItem, ctx: GroupingContext): Bytes {
    HashKey(ctx.scope, item.sourceKey, item.BindHash(ctx.identity))
  }

  function SlotFor(item: IndexItem, ctx: GroupingContext): Slot {
    Slot(item.msgRef, item.Mid(), item.BindHash(ctx.identity), item.fp)
  }

  /** The slot registered under the item's Message-ID, whether or not verification accepts it. */
  function MidSlot(st: IndexState, item: IndexItem, ctx: GroupingContext): Option<Slot> {
    if item.Mid().None? then None
    else
      var key := MidKey(ctx.scope, item.sourceKey, item.Mid().value);
      if key in st.messageIds then Some(st.messageIds[key]) else None
  }

  predicate Tier1Accepts(slot: Slot, item: IndexItem, ctx: GroupingContext) {
    !SplitsTier1(ctx, item.BindHash(ctx.identity), item.fp, slot.bindHash, slot.fp.body)
  }

  /** On a hash join the joining item's Message-ID is registered with the joining item's own fingerprints. */
  function AdoptSlot(st: IndexState, item: IndexItem, hkey: Bytes, newBound: Option<Bytes>, ctx: GroupingContext): IndexState
    requires hkey in st.contentHashes
  {
    if newBound.None? then st
    else
      var slot := st.contentHashes[hkey];
      var key := MidKey(ctx.scope, item.sourceKey, newBound.value);
      var joiner := Slot(slot.msgRef, newBound, item.BindHash(ctx.identity), item.fp);
      st.(contentHashes := if slot.boundMid.None? then st.contentHashes[hkey := slot.(boundMid := newBound)]
                           else st.contentHashes,
          messageIds := if key in st.messageIds then st.messageIds else st.messageIds[key := joiner])
  }

  function BlockSlot(st: IndexState, hkey: Bytes, mid: Option<Bytes>): IndexState
    requires hkey in st.contentHashes
  {
    var cluster := if mid.Some? then GrownCluster(st.cluster, hkey, st.contentHashes[hkey].boundMid, mid.value) else {};
    st.(stats := NoteCrossMidBlock(st.stats, hkey !in st.crossSeen, |cluster|),
        crossSeen := st.crossSeen + {hkey},
        cluster := if mid.Some? then st.cluster[hkey := cluster] else st.cluster)
  }

  function InsertUnique(st: IndexState, item: IndexItem, ctx: GroupingContext): IndexState {
    var slot := SlotFor(item, ctx);
    var hkey := ItemHashKey(item, ctx);
    st.(messageIds := if item.Mid().Some?
                      then st.messageIds[MidKey(ctx.scope, item.sourceKey, item.Mid().value) := slot]
                      else st.messageIds,
        contentHashes := if ctx.tier2Enabled && IndexEligible(item, ctx) && hkey !in st.contentHashes
                         then st.contentHashes[hkey := slot]
                         else st.contentHashes,
        uniqueCount := st.uniqueCount + 1)
  }

  function IndexTier2(st: IndexState, item: IndexItem, ctx: GroupingContext): (IndexState, DedupResult) {
    var hkey := ItemHashKey(item, ctx);
    if !(ctx.tier2Enabled && IndexEligible(item, ctx)) || hkey !in st.contentHashes
    then (InsertUnique(st, item, ctx), Unique)
    else
      var slot := st.contentHashes[hkey];
      var (ok, newBound) := MidJoinCompatible(slot.boundMid, item.Mid(), ctx.BlockCrossMid());
      if ok then
        var adopted := AdoptSlot(st, item, hkey, newBound, ctx);
        (adopted.(duplicateCount := adopted.duplicateCount + 1, tier2Hits := adopted.tier2Hits + 1),
         DuplicateOf(slot.msgRef, BoundByForTier2(ctx.identity)))
      else (InsertUnique(BlockSlot(st, hkey, item.Mid()), item, ctx), Unique)
  }

  function IndexStep(st: IndexState, item: IndexItem, ctx: GroupingContext): (IndexState, DedupResult) {
    match MidSlot(st, item, ctx)
    case None => IndexTier2(st, item, ctx)
    case Some(slot) =>
      var noted := st.(stats := NoteDivergence(st.stats, slot.fp, item.fp));
      if Tier1Accepts(slot, item, ctx) then
        (noted.(duplicateCount := noted.duplicateCount + 1, tier1Hits := noted.tier1Hits + 1),
         DuplicateOf(slot.msgRef, ByMessageId))
      else IndexTier2(noted, item, ctx)
  }

  function IndexRun(items: seq<IndexItem>, ctx: GroupingContext): IndexState {
    if items == [] then NEW_INDEX
    else IndexStep(IndexRun(items[..|items| - 1], ctx), items[|items| - 1], ctx).0
  }

  lemma IndexRunAppend(items: seq<IndexItem>, i: nat, ctx: GroupingContext)
    requires i < |items|
    ensures IndexRun(items[..i + 1], ctx) == IndexStep(IndexRun(items[..i], ctx), items[i], ctx).0
  {
    assert items[..i + 1][..i] == items[..i];
  }

  /** The answer the index gives for item i. */
  function Answer(items: seq<IndexItem>, i: nat, ctx: GroupingContext): DedupResult
    requires i < |items|
  {
    IndexStep(IndexRun(items[..i], ctx), items[i], ctx).1
  }

  /** The index object. */
  class DedupIndex {
    const ctx: GroupingContext
    var messageIds: map<Bytes, Slot>
    var contentHashes: map<Bytes, Slot>
    var uniqueCount: nat
    var duplicateCount: nat
    var tier1Hits: nat
    var tier2Hits: nat
    var stats: GroupingStats
    var crossMidHashSeen: set<Bytes>
    var crossMidCluster: map<Bytes, set<Bytes>>

    ghost function State(): IndexState
      reads this
    {
      IndexState(messageIds, contentHashes, uniqueCount, duplicateCount, tier1Hits, tier2Hits, stats,
                 crossMidHashSeen, crossMidCluster)
    }

    constructor (ctx: GroupingContext)
      ensures State() == NEW_INDEX && this.ctx == ctx
    {
      this.ctx := ctx;
      messageIds, contentHashes := map[], map[];
      uniqueCount, duplicateCount, tier1Hits, tier2Hits := 0, 0, 0, 0;
      stats := NO_STATS;
      crossMidHashSeen, crossMidCluster := {}, map[];
    }

    method CheckAndInsertItem(item: IndexItem) returns (r: DedupResult)
      modifies this
      ensures (State(), r) == IndexStep(old(State()), item, ctx)
    {
      var mid := item.Mid();
      if mid.Some? {
        var key := MidKey(ctx.scope, item.sourceKey, mid.value);
        if key in messageIds {
          var slot := messageIds[key];
          stats := NoteDivergence(stats, slot.fp, item.fp);
          if Tier1Accepts(slot, item, ctx) {
            duplicateCount := duplicateCount + 1;
            tier1Hits := tier1Hits + 1;
            return DuplicateOf(slot.msgRef, ByMessageId);
          }
        }
      }

      r := JoinByHashOrInsert(item);
    }

    /** The fall-through of a Message-ID miss or split. */
    method JoinByHashOrInsert(item: IndexItem) returns (r: DedupResult)
      modifies this
      ensures (State(), r) == IndexTier2(old(State()), item, ctx)
    {
      var mid := item.Mid();
      var eligible := IndexEligible(item, ctx);
      var bindHash := item.BindHash(ctx.identity);
      var hkey := HashKey(ctx.scope, item.sourceKey, bindHash);
      if ctx.tier2Enabled && eligible && hkey in contentHashes {
        var slot := contentHashes[hkey];
        var (ok, newBound) := MidJoinCompatible(slot.boundMid, mid, ctx.BlockCrossMid());
        if ok {
          AdoptMid(item, hkey, newBound);
          duplicateCount := duplicateCount + 1;
          tier2Hits := tier2Hits + 1;
          return DuplicateOf(slot.msgRef, BoundByForTier2(ctx.identity));
        }
        var cluster: set<Bytes> := {};
        if mid.Some? {
          cluster := GrownCluster(crossMidCluster, hkey, slot.boundMid, mid.value);
          crossMidCluster := crossMidCluster[hkey := cluster];
        }
        stats := NoteCrossMidBlock(stats, hkey !in crossMidHashSeen, |cluster|);
        crossMidHashSeen := crossMidHashSeen + {hkey};
      }

      InsertNew(item);
      return Unique;
    }

    /** A hash join: the slot takes the Message-ID it lacked, and an unknown one is registered. */
    method AdoptMid(item: IndexItem, hkey: Bytes, newBound: Option<Bytes>)
      requires hkey in contentHashes
      modifies this`contentHashes, this`messageIds
      ensures State() == AdoptSlot(old(State()), item, hkey, newBound, ctx)
    {
      if newBound.Some? {
        var slot := contentHashes[hkey];
        if slot.boundMid.None? {
          contentHashes := contentHashes[hkey := slot.(boundMid := newBound)];
        }
        var mk := MidKey(ctx.scope, item.sourceKey, newBound.value);
        if mk !in messageIds {
          messageIds := messageIds[mk := Slot(slot.msgRef, newBound, item.BindHash(ctx.identity), item.fp)];
        }
      }
    }

    /** Opens a slot; a hash key already taken stays with its earlier group. */
    method InsertNew(item: IndexItem)
      modifies this
      ensures State() == InsertUnique(old(State()), item, ctx)
    {
      var mid := item.Mid();
      var bindHash := item.BindHash(ctx.identity);
      var hkey := HashKey(ctx.scope, item.sourceKey, bindHash);
      var slot := Slot(item.msgRef, mid, bindHash, item.fp);
      if mid.Some? {
        messageIds := messageIds[MidKey(ctx.scope, item.sourceKey, mid.value) := slot];
      }
      if ctx.tier2Enabled && IndexEligible(item, ctx) && hkey !in contentHashes {
        contentHashes := contentHashes[hkey := slot];
      }
      uniqueCount := uniqueCount + 1;
    }
  }

  /** Feeding a fresh index a list of items, as the rebuild of scan results does. */
  method ScanAll(items: seq<IndexItem>, ctx: GroupingContext) returns (index: DedupIndex, answers: seq<DedupResult>)
    ensures fresh(index) && index.ctx == ctx && index.State() == IndexRun(items, ctx)
    ensures |answers| == |items| && forall i | 0 <= i < |items| :: answers[i] == Answer(items, i, ctx)
  {
    index := new DedupIndex(ctx);
    answers := [];
    for i := 0 to |items|
      invariant fresh(index) && index.ctx == ctx && index.State() == IndexRun(items[..i], ctx)
      invariant |answers| == i && forall j | 0 <= j < i :: answers[j] == Answer(items, j, ctx)
    {
      var answer := index.CheckAndInsertItem(items[i]);
      answers := answers + [answer];
      assert items[..i + 1][..i] == items[..i];
    }
    assert items[..|items|] == items;
  }
}
