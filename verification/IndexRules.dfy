/** What a hash duplicate means to the streaming index, told from the items' own fields, whatever else the index is set to. */
module IndexRules {
  import opened Common
  import opened Grouping
  import opened StreamIndex
  import R = GroupingRules

  predicate SameContent(a: IndexItem, b: IndexItem, level: IdentityLevel) {
    if level.Off? || level.V1? then a.contentHash == b.contentHash
    else R.Standing(a.contentHash, a.strongHash) == R.Standing(b.contentHash, b.strongHash)
  }

  predicate SamePartition(a: IndexItem, b: IndexItem, scope: DedupeScope) {
    scope.Global? || a.sourceKey == b.sourceKey
  }

  /** The caller's flag decides, unless unreadable bodies are allowed anyway. */
  predicate MayBind(x: IndexItem, ctx: GroupingContext) {
    ctx.tier2Enabled && (x.tier2Eligible || !ctx.requireReadableBody || ctx.allowDegenerateTier2)
  }

  lemma SameKeyIs(a: IndexItem, b: IndexItem, ctx: GroupingContext)
    ensures ItemHashKey(a, ctx) == ItemHashKey(b, ctx) <==> SamePartition(a, b, ctx.scope) && SameContent(a, b, ctx.identity)
  {
    HashKeyInjective(ctx.scope, a.sourceKey, a.BindHash(ctx.identity), b.sourceKey, b.BindHash(ctx.identity));
    ScopePrefixInjective(ctx.scope, a.sourceKey, b.sourceKey);
  }

  /** Item s was answered Unique and may bind, with the hash key. */
  predicate BindsWith(xs: seq<IndexItem>, ctx: GroupingContext, s: nat, hkey: Bytes)
    requires s < |xs|
  {
    Answer(xs, s, ctx) == Unique && MayBind(xs[s], ctx) && ItemHashKey(xs[s], ctx) == hkey
  }

  /** The first of the first n items that binds with the key. */
  predicate OwnsKey(xs: seq<IndexItem>, ctx: GroupingContext, n: nat, s: nat, hkey: Bytes)
    requires n <= |xs|
  {
    s < n && BindsWith(xs, ctx, s, hkey) && forall p: nat | p < s :: !BindsWith(xs, ctx, p, hkey)
  }

  ghost predicate SlotOwned(xs: seq<IndexItem>, ctx: GroupingContext, n: nat, hkey: Bytes, slot: Slot)
    requires n <= |xs|
  {
    exists s: nat :: OwnsKey(xs, ctx, n, s, hkey) && slot.msgRef == xs[s].msgRef
  }

  /** The content table holds the owners of exactly the keys that some unique item binds with. */
  ghost predicate SlotsOwned(xs: seq<IndexItem>, ctx: GroupingContext, n: nat, table: map<Bytes, Slot>)
    requires n <= |xs|
  {
    && (forall hkey | hkey in table :: SlotOwned(xs, ctx, n, hkey, table[hkey]))
    && (forall s: nat, hkey {:trigger BindsWith(xs, ctx, s, hkey)} | s < n && BindsWith(xs, ctx, s, hkey) :: hkey in table)
  }

  /** What a step leaves of the table: every slot stands for the same message, and a new one for the item itself. */
  ghost predicate Moves(st: IndexState, item: IndexItem, ctx: GroupingContext, table: map<Bytes, Slot>, unique: bool) {
    && (forall hkey | hkey in st.contentHashes :: hkey in table && table[hkey].msgRef == st.contentHashes[hkey].msgRef)
    && (forall hkey | hkey in table && hkey !in st.contentHashes ::
          unique && MayBind(item, ctx) && hkey == ItemHashKey(item, ctx) && table[hkey].msgRef == item.msgRef)
    && (unique && MayBind(item, ctx) ==> ItemHashKey(item, ctx) in table)
  }

  lemma StepMoves(st: IndexState, item: IndexItem, ctx: GroupingContext)
    ensures Moves(st, item, ctx, IndexStep(st, item, ctx).0.contentHashes, IndexStep(st, item, ctx).1 == Unique)
  {
  }

  lemma MovesKeepOwners(xs: seq<IndexItem>, ctx: GroupingContext, n: nat, next: nat, st: IndexState, table: map<Bytes, Slot>)
    requires next == n + 1 <= |xs| && SlotsOwned(xs, ctx, n, st.contentHashes)
    requires Moves(st, xs[n], ctx, table, Answer(xs, n, ctx) == Unique)
    ensures SlotsOwned(xs, ctx, next, table)
  {
    forall hkey | hkey in table
      ensures SlotOwned(xs, ctx, next, hkey, table[hkey])
    {
      if hkey in st.contentHashes {
        OwnerStays(xs, ctx, n, next, hkey, st.contentHashes[hkey], table[hkey]);
      } else {
        assert OwnsKey(xs, ctx, next, n, hkey);
      }
    }
    BindersListed(xs, ctx, n, next, st, table);
  }

  lemma OwnerStays(xs: seq<IndexItem>, ctx: GroupingContext, n: nat, next: nat, hkey: Bytes, slot: Slot, later: Slot)
    requires n <= next <= |xs| && SlotOwned(xs, ctx, n, hkey, slot) && later.msgRef == slot.msgRef
    ensures SlotOwned(xs, ctx, next, hkey, later)
  {
    var s: nat :| OwnsKey(xs, ctx, n, s, hkey) && slot.msgRef == xs[s].msgRef;
    assert OwnsKey(xs, ctx, next, s, hkey);
  }

  lemma BindersListed(xs: seq<IndexItem>, ctx: GroupingContext, n: nat, next: nat, st: IndexState, table: map<Bytes, Slot>)
    requires next == n + 1 <= |xs| && SlotsOwned(xs, ctx, n, st.contentHashes)
    requires Moves(st, xs[n], ctx, table, Answer(xs, n, ctx) == Unique)
    ensures forall s: nat, hkey {:trigger BindsWith(xs, ctx, s, hkey)} | s < next && BindsWith(xs, ctx, s, hkey) :: hkey in table
  {
  }

  lemma {:induction false} RunSlotsOwned(xs: seq<IndexItem>, ctx: GroupingContext, n: nat)
    requires n <= |xs|
    ensures SlotsOwned(xs, ctx, n, IndexRun(xs[..n], ctx).contentHashes)
  {
    if n > 0 {
      var m := n - 1;
      RunSlotsOwned(xs, ctx, m);
      StepMoves(IndexRun(xs[..m], ctx), xs[m], ctx);
      IndexRunAppend(xs, m, ctx);
      MovesKeepOwners(xs, ctx, m, n, IndexRun(xs[..m], ctx), IndexRun(xs[..n], ctx).contentHashes);
    }
  }

  lemma HashAnswerIs(st: IndexState, item: IndexItem, ctx: GroupingContext)
    ensures match IndexStep(st, item, ctx).1
            case Unique => true
            case DuplicateOf(original, tag) =>
              tag == ByMessageId
              || (&& MayBind(item, ctx) && ItemHashKey(item, ctx) in st.contentHashes
                  && original == st.contentHashes[ItemHashKey(item, ctx)].msgRef
                  && tag == if ctx.identity.Off? || ctx.identity.V1? then ByContentHash else ByStrongContentHash)
  {
  }

  /** An item answered as a duplicate by content has the binding content, and the partition, of the unique item it is said to repeat. */
  lemma HashAnswerMeans(xs: seq<IndexItem>, ctx: GroupingContext, i: nat) returns (s: nat)
    requires i < |xs| && Answer(xs, i, ctx).DuplicateOf? && Answer(xs, i, ctx).boundBy != ByMessageId
    ensures s < i && Answer(xs, s, ctx) == Unique && Answer(xs, i, ctx).original == xs[s].msgRef
    ensures MayBind(xs[s], ctx) && MayBind(xs[i], ctx) && SamePartition(xs[s], xs[i], ctx.scope)
    ensures if ctx.identity.Off? || ctx.identity.V1?
            then Answer(xs, i, ctx).boundBy == ByContentHash && xs[s].contentHash == xs[i].contentHash
            else && Answer(xs, i, ctx).boundBy == ByStrongContentHash
                 && R.Standing(xs[s].contentHash, xs[s].strongHash) == R.Standing(xs[i].contentHash, xs[i].strongHash)
  {
    var st, hkey := IndexRun(xs[..i], ctx), ItemHashKey(xs[i], ctx);
    HashAnswerIs(st, xs[i], ctx);
    RunSlotsOwned(xs, ctx, i);
    assert SlotOwned(xs, ctx, i, hkey, st.contentHashes[hkey]);
    s :| OwnsKey(xs, ctx, i, s, hkey) && st.contentHashes[hkey].msgRef == xs[s].msgRef;
    SameKeyIs(xs[s], xs[i], ctx);
  }

  /** The message an item is said to repeat, or its own. */
  function Original(xs: seq<IndexItem>, ctx: GroupingContext, i: nat): MessageRef
    requires i < |xs|
  {
    match Answer(xs, i, ctx)
    case Unique => xs[i].msgRef
    case DuplicateOf(original, _) => original
  }

  /** The first unique item with the content of an item without a Message-ID is its original. */
  lemma Head(xs: seq<IndexItem>, ctx: GroupingContext, i: nat) returns (s: nat)
    requires i < |xs| && xs[i].Mid().None? && MayBind(xs[i], ctx)
    ensures s <= i && OwnsKey(xs, ctx, i + 1, s, ItemHashKey(xs[i], ctx)) && Original(xs, ctx, i) == xs[s].msgRef
  {
    var st, hkey := IndexRun(xs[..i], ctx), ItemHashKey(xs[i], ctx);
    RunSlotsOwned(xs, ctx, i);
    if hkey in st.contentHashes {
      assert SlotOwned(xs, ctx, i, hkey, st.contentHashes[hkey]);
      s :| OwnsKey(xs, ctx, i, s, hkey) && st.contentHashes[hkey].msgRef == xs[s].msgRef;
      BareJoins(st, xs[i], ctx);
    } else {
      BareOpens(st, xs[i], ctx);
      s := i;
    }
  }

  lemma BareJoins(st: IndexState, item: IndexItem, ctx: GroupingContext)
    requires item.Mid().None? && MayBind(item, ctx) && ItemHashKey(item, ctx) in st.contentHashes
    ensures IndexStep(st, item, ctx).1.DuplicateOf? && IndexStep(st, item, ctx).1.original == st.contentHashes[ItemHashKey(item, ctx)].msgRef
  {
  }

  lemma BareOpens(st: IndexState, item: IndexItem, ctx: GroupingContext)
    requires item.Mid().None? && MayBind(item, ctx) && ItemHashKey(item, ctx) !in st.contentHashes
    ensures IndexStep(st, item, ctx).1 == Unique
  {
  }

  /** Two items without Message-IDs that may bind have one original if and only if partition and binding content are the same. */
  lemma BareItemsMeet(xs: seq<IndexItem>, ctx: GroupingContext, i: nat, j: nat)
    requires i <= j < |xs| && xs[i].Mid().None? && xs[j].Mid().None? && MayBind(xs[i], ctx) && MayBind(xs[j], ctx)
    requires forall p, q | 0 <= p < q < |xs| :: xs[p].msgRef != xs[q].msgRef
    ensures Original(xs, ctx, i) == Original(xs, ctx, j) <==>
            SamePartition(xs[i], xs[j], ctx.scope) && SameContent(xs[i], xs[j], ctx.identity)
  {
    var a := Head(xs, ctx, i);
    var b := Head(xs, ctx, j);
    SameKeyIs(xs[i], xs[j], ctx);
    if ItemHashKey(xs[i], ctx) == ItemHashKey(xs[j], ctx) {
      assert !(a < b) && !(b < a);
    }
  }

  /** An item without a Message-ID that may not bind is always unique. */
  lemma LoneItem(xs: seq<IndexItem>, ctx: GroupingContext, i: nat)
    requires i < |xs| && xs[i].Mid().None? && !MayBind(xs[i], ctx)
    ensures Answer(xs, i, ctx) == Unique
  {
  }
}
