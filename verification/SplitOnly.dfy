/** Exactly when the cross-MID guard only splits groups. */
module SplitOnly {
  import opened Common
  import opened Grouping
  import opened ScanItems
  import opened GroupLists
  import opened BatchGrouping
  import opened GuardEffects
  import M = MidAuthority

  // ---- clashing items, read off the input alone ----

  /** An item takes part in hash binding. */
  predicate Hashed(item: ScanItem, ctx: GroupingContext) {
    ctx.tier2Enabled && BatchEligible(item, ctx)
  }

  predicate HasKey(item: ScanItem, ctx: GroupingContext, key: Bytes) {
    item.Mid().Some? && M.KeyOf(item, ctx) == key
  }

  /** Some item carries the Message-ID key. */
  predicate KeyIn(items: seq<ScanItem>, ctx: GroupingContext, key: Bytes) {
    exists i | 0 <= i < |items| :: HasKey(items[i], ctx, key)
  }

  /** The first item with its Message-ID key. */
  predicate Opens(items: seq<ScanItem>, ctx: GroupingContext, k: nat)
    requires k < |items|
  {
    items[k].Mid().Some? && !KeyIn(items[..k], ctx, M.KeyOf(items[k], ctx))
  }

  /** The first item with its Message-ID key, and eligible, with the given hash key. */
  predicate OpensHashed(items: seq<ScanItem>, ctx: GroupingContext, k: nat, hkey: Bytes)
    requires k < |items|
  {
    Opens(items, ctx, k) && Hashed(items[k], ctx) && ItemHashKey(items[k], ctx) == hkey
  }

  predicate Marked(items: seq<ScanItem>, ctx: GroupingContext, hkey: Bytes) {
    exists j | 0 <= j < |items| :: OpensHashed(items, ctx, j, hkey)
  }

  /** An eligible first item with its Message-ID key whose hash key an earlier eligible first item of another key has. */
  predicate Clashes(items: seq<ScanItem>, ctx: GroupingContext, k: nat)
    requires k < |items|
  {
    Opens(items, ctx, k) && Hashed(items[k], ctx) && Marked(items[..k], ctx, ItemHashKey(items[k], ctx))
  }

  // ---- one item more ----

  lemma KeyInAppend(items: seq<ScanItem>, item: ScanItem, ctx: GroupingContext, key: Bytes)
    ensures KeyIn(items + [item], ctx, key) <==> KeyIn(items, ctx, key) || HasKey(item, ctx, key)
  {
    var all := items + [item];
    assert all[|items|] == item;
    if KeyIn(items, ctx, key) {
      var i :| 0 <= i < |items| && HasKey(items[i], ctx, key);
      assert all[i] == items[i];
    }
    if KeyIn(all, ctx, key) {
      var i :| 0 <= i < |all| && HasKey(all[i], ctx, key);
      assert i < |items| ==> items[i] == all[i];
    }
  }

  lemma OpensPrefix(items: seq<ScanItem>, ctx: GroupingContext, n: nat, k: nat)
    requires k < n <= |items|
    ensures Opens(items[..n], ctx, k) <==> Opens(items, ctx, k)
    ensures Clashes(items[..n], ctx, k) <==> Clashes(items, ctx, k)
  {
    assert items[..n][..k] == items[..k];
  }

  lemma MarkedAppend(items: seq<ScanItem>, item: ScanItem, ctx: GroupingContext, hkey: Bytes)
    ensures Marked(items + [item], ctx, hkey) <==>
            Marked(items, ctx, hkey) || OpensHashed(items + [item], ctx, |items|, hkey)
  {
    var all := items + [item];
    assert all[..|items|] == items;
    if Marked(items, ctx, hkey) {
      var j :| 0 <= j < |items| && OpensHashed(items, ctx, j, hkey);
      OpensPrefix(all, ctx, |items|, j);
      assert OpensHashed(all, ctx, j, hkey);
    }
    if Marked(all, ctx, hkey) {
      var j :| 0 <= j < |all| && OpensHashed(all, ctx, j, hkey);
      if j < |items| {
        OpensPrefix(all, ctx, |items|, j);
        assert OpensHashed(items, ctx, j, hkey);
      }
    }
  }

  // ---- what the tables of the guarded run know ----

  /** The group that owns the hash key has a Message-ID. */
  predicate HashBound(st: BatchState, hkey: Bytes)
    requires Shape(st)
  {
    hkey in st.hashToGroup && st.bound[st.hashToGroup[hkey]].Some?
  }

  ghost predicate KnowsKeys(items: seq<ScanItem>, ctx: GroupingContext, st: BatchState) {
    forall key {:trigger key in st.midToGroup} {:trigger KeyIn(items, ctx, key)} :: key in st.midToGroup <==> KeyIn(items, ctx, key)
  }

  ghost predicate KnowsMarks(items: seq<ScanItem>, ctx: GroupingContext, st: BatchState)
    requires Shape(st)
  {
    forall hkey {:trigger HashBound(st, hkey)} {:trigger Marked(items, ctx, hkey)} :: HashBound(st, hkey) <==> Marked(items, ctx, hkey)
  }

  /** Two hash keys never own one group. */
  ghost predicate HashesApart(st: BatchState) {
    forall h, k | h in st.hashToGroup && k in st.hashToGroup && st.hashToGroup[h] == st.hashToGroup[k] :: h == k
  }

  lemma InvKeepsHashesApart(items: seq<ScanItem>, ctx: GroupingContext, st: BatchState)
    requires Inv(items, ctx, st)
    ensures HashesApart(st)
  {
    forall h, k | h in st.hashToGroup && k in st.hashToGroup && st.hashToGroup[h] == st.hashToGroup[k]
      ensures h == k
    {
      assert KeyGrounded(items, ctx, st, h) && KeyGrounded(items, ctx, st, k);
    }
  }

  /** What a step does to the tables; the rest of the state does not matter here. */
  ghost predicate SameTables(st: BatchState, r: BatchState) {
    r.midToGroup == st.midToGroup && r.hashToGroup == st.hashToGroup && st.bound == r.bound
  }

  lemma KnowsSame(items: seq<ScanItem>, ctx: GroupingContext, st: BatchState, item: ScanItem, r: BatchState)
    requires Shape(st) && Shape(r) && KnowsKeys(items, ctx, st) && KnowsMarks(items, ctx, st) && SameTables(st, r)
    requires item.Mid().Some? ==> KeyIn(items, ctx, M.KeyOf(item, ctx))
    ensures KnowsKeys(items + [item], ctx, r) && KnowsMarks(items + [item], ctx, r)
  {
    var all := items + [item];
    assert all[..|items|] == items && all[|items|] == item;
    forall key
      ensures key in r.midToGroup <==> KeyIn(all, ctx, key)
    {
      KeyInAppend(items, item, ctx, key);
    }
    forall hkey
      ensures HashBound(r, hkey) <==> Marked(all, ctx, hkey)
    {
      MarkedAppend(items, item, ctx, hkey);
      assert HashBound(r, hkey) == HashBound(st, hkey);
    }
  }

  /** Registering a new key, and binding at most the item's own hash key. */
  lemma KnowsNew(items: seq<ScanItem>, ctx: GroupingContext, st: BatchState, item: ScanItem, r: BatchState, g: nat)
    requires Shape(st) && Shape(r) && KnowsKeys(items, ctx, st) && KnowsMarks(items, ctx, st)
    requires item.Mid().Some? && M.KeyOf(item, ctx) !in st.midToGroup
    requires r.midToGroup == st.midToGroup[M.KeyOf(item, ctx) := g]
    requires forall hkey {:trigger HashBound(r, hkey)} ::
               HashBound(r, hkey) <==> HashBound(st, hkey) || (Hashed(item, ctx) && hkey == ItemHashKey(item, ctx))
    ensures KnowsKeys(items + [item], ctx, r) && KnowsMarks(items + [item], ctx, r)
  {
    var all := items + [item];
    assert all[..|items|] == items && all[|items|] == item;
    forall key
      ensures key in r.midToGroup <==> KeyIn(all, ctx, key)
    {
      KeyInAppend(items, item, ctx, key);
    }
    forall hkey
      ensures HashBound(r, hkey) <==> Marked(all, ctx, hkey)
    {
      MarkedAppend(items, item, ctx, hkey);
    }
  }

  /** Without a Message-ID only an unbound group can gain a hash key. */
  lemma KnowsUnnamed(items: seq<ScanItem>, ctx: GroupingContext, st: BatchState, item: ScanItem, r: BatchState)
    requires Shape(st) && Shape(r) && KnowsKeys(items, ctx, st) && KnowsMarks(items, ctx, st)
    requires item.Mid().None? && r.midToGroup == st.midToGroup
    requires forall hkey {:trigger HashBound(r, hkey)} :: HashBound(r, hkey) <==> HashBound(st, hkey)
    ensures KnowsKeys(items + [item], ctx, r) && KnowsMarks(items + [item], ctx, r)
  {
    var all := items + [item];
    assert all[..|items|] == items && all[|items|] == item;
    forall key
      ensures key in r.midToGroup <==> KeyIn(all, ctx, key)
    {
      KeyInAppend(items, item, ctx, key);
    }
    forall hkey
      ensures HashBound(r, hkey) <==> Marked(all, ctx, hkey)
    {
      MarkedAppend(items, item, ctx, hkey);
    }
  }

  // ---- what one step does to the tables ----

  ghost predicate Joined(st: BatchState, r: BatchState, g: nat) {
    SameTables(st, r) && r.gidOf == st.gidOf + [g] && |r.groups| == |st.groups|
  }

  ghost predicate Adopted(st: BatchState, r: BatchState, g: nat, key: Bytes, mid: Option<Bytes>)
    requires g < |st.bound|
  {
    && r.gidOf == st.gidOf + [g] && |r.groups| == |st.groups| && r.bound == st.bound[g := mid]
    && r.midToGroup == st.midToGroup[key := g] && r.hashToGroup == st.hashToGroup
  }

  ghost predicate Seeded(st: BatchState, r: BatchState, item: ScanItem, ctx: GroupingContext) {
    var g := |st.groups|;
    && r.gidOf == st.gidOf + [g] && |r.groups| == g + 1 && r.bound == st.bound + [item.Mid()]
    && r.midToGroup == (if item.Mid().Some? then st.midToGroup[M.KeyOf(item, ctx) := g] else st.midToGroup)
    && r.hashToGroup == (if Hashed(item, ctx) && ItemHashKey(item, ctx) !in st.hashToGroup
                         then st.hashToGroup[ItemHashKey(item, ctx) := g] else st.hashToGroup)
  }

  /** The item's Message-ID key is registered, so that it joins in tier 1. */
  predicate Known(st: BatchState, item: ScanItem, ctx: GroupingContext) {
    item.Mid().Some? && M.KeyOf(item, ctx) in st.midToGroup
  }

  /** The item's hash key is owned, and it may bind by it. */
  predicate Finds(st: BatchState, item: ScanItem, ctx: GroupingContext) {
    Hashed(item, ctx) && ItemHashKey(item, ctx) in st.hashToGroup
  }

  lemma KnownStep(st: BatchState, item: ScanItem, ctx: GroupingContext)
    requires Shape(st) && ctx.tier1Verify.NoVerify? && Known(st, item, ctx)
    ensures Joined(st, BatchStep(st, item, ctx), st.midToGroup[M.KeyOf(item, ctx)])
  {
  }

  lemma SeedStep(st: BatchState, item: ScanItem, ctx: GroupingContext)
    requires Shape(st) && !Known(st, item, ctx) && !Finds(st, item, ctx)
    ensures Seeded(st, BatchStep(st, item, ctx), item, ctx)
  {
  }

  lemma UnnamedStep(st: BatchState, item: ScanItem, ctx: GroupingContext)
    requires Shape(st) && item.Mid().None? && Finds(st, item, ctx)
    ensures Joined(st, BatchStep(st, item, ctx), st.hashToGroup[ItemHashKey(item, ctx)])
  {
  }

  lemma AdoptStep(st: BatchState, item: ScanItem, ctx: GroupingContext)
    requires Shape(st) && item.Mid().Some? && !Known(st, item, ctx) && Finds(st, item, ctx)
    requires st.bound[st.hashToGroup[ItemHashKey(item, ctx)]].None?
    ensures Adopted(st, BatchStep(st, item, ctx), st.hashToGroup[ItemHashKey(item, ctx)], M.KeyOf(item, ctx), item.Mid())
  {
  }

  lemma BlockStep(items: seq<ScanItem>, st: BatchState, item: ScanItem, ctx: GroupingContext)
    requires Inv(items, ctx, st) && item.Mid().Some? && !Known(st, item, ctx) && Finds(st, item, ctx)
    requires HashBound(st, ItemHashKey(item, ctx)) && ctx.BlockCrossMid()
    ensures Seeded(st, BatchStep(st, item, ctx), item, ctx) && TurnsAway(st, item, ctx)
  {
    KeyMatchSharesPrefix(items, ctx, st, item);
    assert GroupGrounded(items, ctx, st, st.hashToGroup[ItemHashKey(item, ctx)]);
  }

  lemma FreeStep(items: seq<ScanItem>, st: BatchState, item: ScanItem, ctx: GroupingContext)
    requires Inv(items, ctx, st) && item.Mid().Some? && !Known(st, item, ctx) && Finds(st, item, ctx)
    requires HashBound(st, ItemHashKey(item, ctx)) && !ctx.BlockCrossMid()
    ensures Joined(st, BatchStep(st, item, ctx), st.hashToGroup[ItemHashKey(item, ctx)])
  {
    assert GroupGrounded(items, ctx, st, st.hashToGroup[ItemHashKey(item, ctx)]);
  }

  ghost predicate Knows(items: seq<ScanItem>, ctx: GroupingContext, st: BatchState)
    requires Shape(st)
  {
    KnowsKeys(items, ctx, st) && KnowsMarks(items, ctx, st)
  }

  lemma SeedKnows(items: seq<ScanItem>, ctx: GroupingContext, st: BatchState, item: ScanItem, r: BatchState)
    requires Shape(st) && Shape(r) && Knows(items, ctx, st) && Seeded(st, r, item, ctx) && !Known(st, item, ctx)
    requires item.Mid().Some? && Finds(st, item, ctx) ==> HashBound(st, ItemHashKey(item, ctx))
    ensures Knows(items + [item], ctx, r)
  {
    forall hkey
      ensures HashBound(r, hkey) <==>
              HashBound(st, hkey) || (item.Mid().Some? && Hashed(item, ctx) && hkey == ItemHashKey(item, ctx))
    {
    }
    if item.Mid().Some? {
      KnowsNew(items, ctx, st, item, r, |st.groups|);
    } else {
      KnowsUnnamed(items, ctx, st, item, r);
    }
  }

  lemma AdoptKnows(items: seq<ScanItem>, ctx: GroupingContext, st: BatchState, item: ScanItem, r: BatchState)
    requires Shape(st) && Shape(r) && Knows(items, ctx, st) && HashesApart(st) && item.Mid().Some? && !Known(st, item, ctx)
    requires Finds(st, item, ctx) && Adopted(st, r, st.hashToGroup[ItemHashKey(item, ctx)], M.KeyOf(item, ctx), item.Mid())
    ensures Knows(items + [item], ctx, r)
  {
    var g := st.hashToGroup[ItemHashKey(item, ctx)];
    forall hkey
      ensures HashBound(r, hkey) <==> HashBound(st, hkey) || (Hashed(item, ctx) && hkey == ItemHashKey(item, ctx))
    {
    }
    KnowsNew(items, ctx, st, item, r, g);
  }

  predicate Strict(ctx: GroupingContext) {
    ctx.BlockCrossMid() && ctx.tier1Verify.NoVerify?
  }

  /** The guarded run keeps its tables in step with the input. */
  lemma StepKnows(items: seq<ScanItem>, ctx: GroupingContext, st: BatchState, item: ScanItem, all: seq<ScanItem>, r: BatchState)
    requires Strict(ctx) && Inv(items, ctx, st) && Knows(items, ctx, st) && Shape(r)
    requires all == items + [item] && r == BatchStep(st, item, ctx)
    ensures Knows(all, ctx, r)
  {
    if Known(st, item, ctx) {
      KnownStep(st, item, ctx);
      KnowsSame(items, ctx, st, item, r);
    } else if !Finds(st, item, ctx) {
      SeedStep(st, item, ctx);
      SeedKnows(items, ctx, st, item, r);
    } else if item.Mid().None? {
      UnnamedStep(st, item, ctx);
      KnowsSame(items, ctx, st, item, r);
    } else if !HashBound(st, ItemHashKey(item, ctx)) {
      AdoptStep(st, item, ctx);
      InvKeepsHashesApart(items, ctx, st);
      AdoptKnows(items, ctx, st, item, r);
    } else {
      BlockStep(items, st, item, ctx);
      SeedKnows(items, ctx, st, item, r);
    }
  }

  /** The guard turns away exactly the clashing items. */
  lemma TurnsAwayIffClash(items: seq<ScanItem>, ctx: GroupingContext, st: BatchState, item: ScanItem)
    requires Strict(ctx) && Inv(items, ctx, st) && Knows(items, ctx, st)
    ensures TurnsAway(st, item, ctx) <==> Clashes(items + [item], ctx, |items|)
  {
    var all := items + [item];
    assert all[..|items|] == items && all[|items|] == item;
    var hkey := ItemHashKey(item, ctx);
    assert item.Mid().Some? ==> (Opens(all, ctx, |items|) <==> !Known(st, item, ctx));
    assert HashBound(st, hkey) <==> Marked(items, ctx, hkey);
    if item.Mid().Some? && !Known(st, item, ctx) && Finds(st, item, ctx) && HashBound(st, hkey) {
      BlockStep(items, st, item, ctx);
    }
  }

  lemma {:induction false} RunKnows(items: seq<ScanItem>, ctx: GroupingContext)
    requires Strict(ctx)
    ensures Knows(items, ctx, BatchRun(items, ctx))
  {
    if items != [] {
      var n := |items| - 1;
      RunKnows(items[..n], ctx);
      BatchRunInv(items[..n], ctx);
      BatchRunInv(items, ctx);
      StepKnows(items[..n], ctx, BatchRun(items[..n], ctx), items[n], items, BatchRun(items, ctx));
    }
  }

  ghost function Clashing(items: seq<ScanItem>, ctx: GroupingContext): set<nat> {
    set k: nat | k < |items| && Clashes(items, ctx, k)
  }

  /** One item moves the counter exactly when it clashes. */
  lemma BlockedStep(items: seq<ScanItem>, ctx: GroupingContext, item: ScanItem)
    requires Strict(ctx)
    ensures Blocked(items + [item], ctx) == Blocked(items, ctx) + One(Clashes(items + [item], ctx, |items|))
  {
    var all, st := items + [item], BatchRun(items, ctx);
    assert all[..|items|] == items && all[|items|] == item;
    BatchRunInv(items, ctx);
    RunKnows(items, ctx);
    StepAlike(st, item, ctx);
    TurnsAwayIffClash(items, ctx, st, item);
  }

  /** The counter of blocked items is the number of clashing ones; in particular it is zero when none clashes. */
  lemma {:induction false} BlockedCountsClashes(items: seq<ScanItem>, ctx: GroupingContext)
    requires Strict(ctx)
    ensures Blocked(items, ctx) == |Clashing(items, ctx)|
  {
    if items == [] {
      assert Clashing(items, ctx) == {};
    } else {
      var n := |items| - 1;
      BlockedCountsClashes(items[..n], ctx);
      BlockedStep(items[..n], ctx, items[n]);
      assert items[..n] + [items[n]] == items;
      ClashingGrows(items, ctx, n);
    }
  }

  lemma ClashingGrows(items: seq<ScanItem>, ctx: GroupingContext, n: nat)
    requires |items| == n + 1
    ensures Clashing(items, ctx) == Clashing(items[..n], ctx) + (if Clashes(items, ctx, n) then {n} else {})
    ensures n !in Clashing(items[..n], ctx)
  {
    forall k: nat | k < n
      ensures Clashes(items[..n], ctx, k) <==> Clashes(items, ctx, k)
    {
      OpensPrefix(items, ctx, n, k);
    }
  }

  // ---- the guarded run beside the unguarded one ----

  /** Every guarded group lies within the unguarded group f gives for it. */
  ghost predicate Image(b: BatchState, c: BatchState, f: seq<nat>) {
    && |f| == |b.groups| && |b.gidOf| == |c.gidOf| && (forall g | 0 <= g < |f| :: f[g] < |c.groups|)
    && forall i | 0 <= i < |b.gidOf| :: b.gidOf[i] < |f| && c.gidOf[i] == f[b.gidOf[i]]
  }

  ghost predicate HashesAlong(b: BatchState, c: BatchState, f: seq<nat>)
    requires Shape(b) && Shape(c) && |f| == |b.groups|
  {
    && b.hashToGroup.Keys == c.hashToGroup.Keys
    && forall h | h in b.hashToGroup :: c.hashToGroup[h] == f[b.hashToGroup[h]] && (HashBound(b, h) <==> HashBound(c, h))
  }

  ghost predicate KeysAlong(b: BatchState, c: BatchState, f: seq<nat>)
    requires Shape(b) && |f| == |b.groups|
  {
    forall key | key in c.midToGroup :: key in b.midToGroup && c.midToGroup[key] == f[b.midToGroup[key]]
  }

  /** A key the unguarded run never registered: its items go with the hash key. */
  ghost predicate ShutOut(b: BatchState, c: BatchState, f: seq<nat>, key: Bytes, hkey: Bytes)
    requires Shape(b) && Shape(c) && |f| == |b.groups|
  {
    key in b.midToGroup && key !in c.midToGroup && HashBound(c, hkey) && f[b.midToGroup[key]] == c.hashToGroup[hkey]
  }

  ghost predicate ClashesShutOut(items: seq<ScanItem>, ctx: GroupingContext, b: BatchState, c: BatchState, f: seq<nat>)
    requires Shape(b) && Shape(c) && |f| == |b.groups|
  {
    forall k: nat {:trigger Clashes(items, ctx, k)} ::
      k < |items| && Clashes(items, ctx, k) ==> ShutOut(b, c, f, M.KeyOf(items[k], ctx), ItemHashKey(items[k], ctx))
  }

  /** Some clashing item opened the key. */
  ghost predicate ClashKey(items: seq<ScanItem>, ctx: GroupingContext, key: Bytes) {
    exists k: nat {:trigger Clashes(items, ctx, k)} :: k < |items| && Clashes(items, ctx, k) && HasKey(items[k], ctx, key)
  }

  ghost predicate MissingClash(items: seq<ScanItem>, ctx: GroupingContext, b: BatchState, c: BatchState) {
    forall key {:trigger ClashKey(items, ctx, key)} :: key in b.midToGroup && key !in c.midToGroup ==> ClashKey(items, ctx, key)
  }

  ghost predicate Aligned(b: BatchState, c: BatchState, f: seq<nat>) {
    Shape(b) && Shape(c) && Image(b, c, f) && HashesAlong(b, c, f) && KeysAlong(b, c, f)
  }

  ghost predicate Along(items: seq<ScanItem>, ctx: GroupingContext, b: BatchState, c: BatchState, f: seq<nat>) {
    Aligned(b, c, f) && ClashesShutOut(items, ctx, b, c, f) && MissingClash(items, ctx, b, c)
  }

  lemma ClashAppend(items: seq<ScanItem>, item: ScanItem, ctx: GroupingContext, k: nat)
    requires k < |items|
    ensures Clashes(items + [item], ctx, k) <==> Clashes(items, ctx, k)
  {
    assert (items + [item])[..|items|] == items;
    OpensPrefix(items + [item], ctx, |items|, k);
  }

  lemma ClashKeyStays(items: seq<ScanItem>, item: ScanItem, ctx: GroupingContext, key: Bytes)
    requires ClashKey(items, ctx, key)
    ensures ClashKey(items + [item], ctx, key)
  {
    var k: nat :| k < |items| && Clashes(items, ctx, k) && HasKey(items[k], ctx, key);
    ClashAppend(items, item, ctx, k);
    assert Clashes(items + [item], ctx, k) && (items + [item])[k] == items[k];
  }

  /** What was shut out stays so. */
  ghost predicate StaysOut(b: BatchState, c: BatchState, f: seq<nat>, br: BatchState, cr: BatchState, fr: seq<nat>)
    requires Shape(b) && Shape(c) && |f| == |b.groups| && Shape(br) && Shape(cr) && |fr| == |br.groups|
  {
    forall key, hkey {:trigger ShutOut(b, c, f, key, hkey)} :: ShutOut(b, c, f, key, hkey) ==> ShutOut(br, cr, fr, key, hkey)
  }

  /** The clash part of one step: old clashes stay shut out, a new one is, and every missing key still has its clash. */
  lemma ClashesCarry(items: seq<ScanItem>, ctx: GroupingContext, b: BatchState, c: BatchState, f: seq<nat>,
                     item: ScanItem, br: BatchState, cr: BatchState, fr: seq<nat>)
    requires Along(items, ctx, b, c, f) && Shape(br) && Shape(cr) && |fr| == |br.groups|
    requires StaysOut(b, c, f, br, cr, fr)
    requires var n := |items|; Clashes(items + [item], ctx, n) ==> ShutOut(br, cr, fr, M.KeyOf(item, ctx), ItemHashKey(item, ctx))
    requires forall key | key in br.midToGroup && key !in cr.midToGroup ::
               (key in b.midToGroup && key !in c.midToGroup) || (Clashes(items + [item], ctx, |items|) && HasKey(item, ctx, key))
    ensures ClashesShutOut(items + [item], ctx, br, cr, fr) && MissingClash(items + [item], ctx, br, cr)
  {
    var all := items + [item];
    forall k: nat | k < |all| && Clashes(all, ctx, k)
      ensures ShutOut(br, cr, fr, M.KeyOf(all[k], ctx), ItemHashKey(all[k], ctx))
    {
      if k < |items| {
        ClashAppend(items, item, ctx, k);
        assert ShutOut(b, c, f, M.KeyOf(items[k], ctx), ItemHashKey(items[k], ctx));
      }
    }
    forall key | key in br.midToGroup && key !in cr.midToGroup
      ensures ClashKey(all, ctx, key)
    {
      if key in b.midToGroup && key !in c.midToGroup {
        ClashKeyStays(items, item, ctx, key);
      } else {
        assert Clashes(all, ctx, |items|) && HasKey(all[|items|], ctx, key);
      }
    }
  }

  /** Both runs join, and change no table. */
  lemma JoinAlong(items: seq<ScanItem>, ctx: GroupingContext, b: BatchState, c: BatchState, f: seq<nat>,
                  item: ScanItem, br: BatchState, cr: BatchState, g: nat)
    requires Along(items, ctx, b, c, f) && g < |f| && Shape(br) && Shape(cr) && Joined(b, br, g) && Joined(c, cr, f[g])
    requires !Clashes(items + [item], ctx, |items|)
    ensures Along(items + [item], ctx, br, cr, f)
  {
    ClashesCarry(items, ctx, b, c, f, item, br, cr, f);
  }

  lemma SeedAligned(b: BatchState, c: BatchState, f: seq<nat>, item: ScanItem, ctx: GroupingContext, br: BatchState, cr: BatchState)
    requires Aligned(b, c, f) && Shape(br) && Shape(cr) && Seeded(b, br, item, ctx) && Seeded(c, cr, item, ctx)
    requires !Known(b, item, ctx) && !Finds(b, item, ctx)
    ensures Aligned(br, cr, f + [|c.groups|])
  {
    var fr := f + [|c.groups|];
    assert Image(br, cr, fr);
    SeedHashesAlong(b, c, f, item, ctx, br, cr, fr);
    SeedKeysAlong(b, c, f, item, ctx, br, cr, fr);
  }

  lemma SeedHashesAlong(b: BatchState, c: BatchState, f: seq<nat>, item: ScanItem, ctx: GroupingContext,
                        br: BatchState, cr: BatchState, fr: seq<nat>)
    requires Shape(b) && Shape(c) && |f| == |b.groups| && HashesAlong(b, c, f) && fr == f + [|c.groups|]
    requires Shape(br) && Shape(cr) && Seeded(b, br, item, ctx) && Seeded(c, cr, item, ctx) && !Finds(b, item, ctx)
    ensures HashesAlong(br, cr, fr)
  {
    forall h | h in br.hashToGroup
      ensures cr.hashToGroup[h] == fr[br.hashToGroup[h]] && (HashBound(br, h) <==> HashBound(cr, h))
    {
      if h in b.hashToGroup {
        assert HashBound(b, h) <==> HashBound(c, h);
      }
    }
  }

  lemma SeedKeysAlong(b: BatchState, c: BatchState, f: seq<nat>, item: ScanItem, ctx: GroupingContext,
                      br: BatchState, cr: BatchState, fr: seq<nat>)
    requires Shape(b) && Shape(c) && |f| == |b.groups| && KeysAlong(b, c, f) && fr == f + [|c.groups|]
    requires Shape(br) && Shape(cr) && Seeded(b, br, item, ctx) && Seeded(c, cr, item, ctx)
    ensures KeysAlong(br, cr, fr)
  {
  }

  lemma SeedStaysOut(b: BatchState, c: BatchState, f: seq<nat>, item: ScanItem, ctx: GroupingContext, br: BatchState, cr: BatchState)
    requires Aligned(b, c, f) && Shape(br) && Shape(cr) && Seeded(b, br, item, ctx) && Seeded(c, cr, item, ctx)
    requires !Known(b, item, ctx)
    ensures StaysOut(b, c, f, br, cr, f + [|c.groups|])
  {
  }

  /** Both runs start a group. */
  lemma SeedAlong(items: seq<ScanItem>, ctx: GroupingContext, b: BatchState, c: BatchState, f: seq<nat>,
                  item: ScanItem, br: BatchState, cr: BatchState)
    requires Along(items, ctx, b, c, f) && Shape(br) && Shape(cr) && Seeded(b, br, item, ctx) && Seeded(c, cr, item, ctx)
    requires !Known(b, item, ctx) && !Finds(b, item, ctx) && !Clashes(items + [item], ctx, |items|)
    ensures Along(items + [item], ctx, br, cr, f + [|c.groups|])
  {
    SeedAligned(b, c, f, item, ctx, br, cr);
    SeedStaysOut(b, c, f, item, ctx, br, cr);
    ClashesCarry(items, ctx, b, c, f, item, br, cr, f + [|c.groups|]);
  }

  lemma AdoptAligned(b: BatchState, c: BatchState, f: seq<nat>, item: ScanItem, ctx: GroupingContext, br: BatchState, cr: BatchState, hkey: Bytes)
    requires Aligned(b, c, f) && Shape(br) && Shape(cr) && HashesApart(b) && HashesApart(c)
    requires hkey in b.hashToGroup && hkey in c.hashToGroup && item.Mid().Some? && !Known(b, item, ctx)
    requires Adopted(b, br, b.hashToGroup[hkey], M.KeyOf(item, ctx), item.Mid())
    requires Adopted(c, cr, c.hashToGroup[hkey], M.KeyOf(item, ctx), item.Mid())
    ensures Aligned(br, cr, f)
  {
    assert Image(br, cr, f);
    AdoptHashesAlong(b, c, f, br, cr, hkey, M.KeyOf(item, ctx), item.Mid());
  }

  lemma AdoptHashesAlong(b: BatchState, c: BatchState, f: seq<nat>, br: BatchState, cr: BatchState, hkey: Bytes, key: Bytes, mid: Option<Bytes>)
    requires Aligned(b, c, f) && Shape(br) && Shape(cr) && HashesApart(b) && HashesApart(c) && mid.Some?
    requires hkey in b.hashToGroup && hkey in c.hashToGroup
    requires Adopted(b, br, b.hashToGroup[hkey], key, mid) && Adopted(c, cr, c.hashToGroup[hkey], key, mid)
    ensures HashesAlong(br, cr, f)
  {
    forall h | h in br.hashToGroup
      ensures cr.hashToGroup[h] == f[br.hashToGroup[h]] && (HashBound(br, h) <==> HashBound(cr, h))
    {
      assert HashBound(br, h) <==> HashBound(b, h) || h == hkey;
      assert HashBound(cr, h) <==> HashBound(c, h) || h == hkey;
    }
  }

  lemma AdoptStaysOut(b: BatchState, c: BatchState, f: seq<nat>, br: BatchState, cr: BatchState, hkey: Bytes, key: Bytes, mid: Option<Bytes>)
    requires Aligned(b, c, f) && Shape(br) && Shape(cr) && mid.Some? && key !in b.midToGroup
    requires hkey in b.hashToGroup && hkey in c.hashToGroup
    requires Adopted(b, br, b.hashToGroup[hkey], key, mid) && Adopted(c, cr, c.hashToGroup[hkey], key, mid)
    ensures StaysOut(b, c, f, br, cr, f)
  {
  }

  /** Both runs join an unbound group and bind it. */
  lemma AdoptAlong(items: seq<ScanItem>, ctx: GroupingContext, b: BatchState, c: BatchState, f: seq<nat>,
                   item: ScanItem, br: BatchState, cr: BatchState, hkey: Bytes)
    requires Along(items, ctx, b, c, f) && Shape(br) && Shape(cr) && HashesApart(b) && HashesApart(c)
    requires hkey in b.hashToGroup && hkey in c.hashToGroup && item.Mid().Some? && !Known(b, item, ctx)
    requires Adopted(b, br, b.hashToGroup[hkey], M.KeyOf(item, ctx), item.Mid())
    requires Adopted(c, cr, c.hashToGroup[hkey], M.KeyOf(item, ctx), item.Mid())
    requires !Clashes(items + [item], ctx, |items|)
    ensures Along(items + [item], ctx, br, cr, f)
  {
    AdoptAligned(b, c, f, item, ctx, br, cr, hkey);
    AdoptStaysOut(b, c, f, br, cr, hkey, M.KeyOf(item, ctx), item.Mid());
    ClashesCarry(items, ctx, b, c, f, item, br, cr, f);
  }

  lemma BlockAligned(b: BatchState, c: BatchState, f: seq<nat>, item: ScanItem, ctx: GroupingContext, br: BatchState, cr: BatchState, hkey: Bytes)
    requires Aligned(b, c, f) && Shape(br) && Shape(cr) && hkey == ItemHashKey(item, ctx)
    requires item.Mid().Some? && !Known(b, item, ctx) && Finds(b, item, ctx) && HashBound(c, hkey)
    requires Seeded(b, br, item, ctx) && Joined(c, cr, c.hashToGroup[hkey])
    ensures Aligned(br, cr, f + [c.hashToGroup[hkey]])
  {
  }

  lemma BlockStaysOut(b: BatchState, c: BatchState, f: seq<nat>, item: ScanItem, ctx: GroupingContext, br: BatchState, cr: BatchState, g: nat)
    requires Aligned(b, c, f) && Shape(br) && Shape(cr) && !Known(b, item, ctx)
    requires Seeded(b, br, item, ctx) && Joined(c, cr, g)
    ensures StaysOut(b, c, f, br, cr, f + [g])
  {
  }

  /** The guarded run starts a group where the unguarded one joins. */
  lemma BlockAlong(items: seq<ScanItem>, ctx: GroupingContext, b: BatchState, c: BatchState, f: seq<nat>,
                   item: ScanItem, br: BatchState, cr: BatchState, hkey: Bytes)
    requires Along(items, ctx, b, c, f) && Shape(br) && Shape(cr) && hkey == ItemHashKey(item, ctx)
    requires item.Mid().Some? && !Known(b, item, ctx) && Finds(b, item, ctx) && HashBound(c, hkey)
    requires Seeded(b, br, item, ctx) && Joined(c, cr, c.hashToGroup[hkey])
    requires Clashes(items + [item], ctx, |items|)
    ensures Along(items + [item], ctx, br, cr, f + [c.hashToGroup[hkey]])
  {
    BlockAligned(b, c, f, item, ctx, br, cr, hkey);
    BlockStaysOut(b, c, f, item, ctx, br, cr, c.hashToGroup[hkey]);
    ClashesCarry(items, ctx, b, c, f, item, br, cr, f + [c.hashToGroup[hkey]]);
  }

  // ---- the exact condition ----

  /** An item with the key a clashing item opened goes where that item went: it may bind by hash, and has the same hash key. */
  predicate Follows(clash: ScanItem, item: ScanItem, ctx: GroupingContext)
    requires clash.Mid().Some?
  {
    HasKey(item, ctx, M.KeyOf(clash, ctx)) ==> Hashed(item, ctx) && ItemHashKey(item, ctx) == ItemHashKey(clash, ctx)
  }

  ghost predicate FollowsAll(items: seq<ScanItem>, ctx: GroupingContext, item: ScanItem) {
    forall k: nat {:trigger Clashes(items, ctx, k)} :: k < |items| && Clashes(items, ctx, k) ==> Follows(items[k], item, ctx)
  }

  /** Item l carries the key the clashing item k opened, and does not go where k went. */
  ghost predicate Stray(items: seq<ScanItem>, ctx: GroupingContext, k: nat, l: nat) {
    k < l < |items| && Clashes(items, ctx, k) && !Follows(items[k], items[l], ctx)
  }

  /** Every item follows every clashing item before it. */
  ghost predicate AllFollow(items: seq<ScanItem>, ctx: GroupingContext) {
    forall k: nat, l: nat {:trigger Stray(items, ctx, k, l)} :: !Stray(items, ctx, k, l)
  }

  lemma StrayPrefix(items: seq<ScanItem>, ctx: GroupingContext, n: nat, k: nat, l: nat)
    requires l < n <= |items|
    ensures Stray(items[..n], ctx, k, l) <==> Stray(items, ctx, k, l)
  {
    if k < l {
      OpensPrefix(items, ctx, n, k);
    }
  }

  lemma AllFollowPrefix(items: seq<ScanItem>, ctx: GroupingContext, n: nat)
    requires n <= |items| && AllFollow(items, ctx)
    ensures AllFollow(items[..n], ctx)
    ensures n < |items| ==> FollowsAll(items[..n], ctx, items[n])
  {
    forall k: nat, l: nat
      ensures !Stray(items[..n], ctx, k, l)
    {
      if l < n {
        StrayPrefix(items, ctx, n, k, l);
      }
    }
    forall k: nat | n < |items| && k < n && Clashes(items[..n], ctx, k)
      ensures Follows(items[k], items[n], ctx)
    {
      OpensPrefix(items, ctx, n, k);
      assert !Stray(items, ctx, k, n);
    }
  }

  lemma SameReadings(item: ScanItem, ctx: GroupingContext)
    ensures Hashed(item, Unguarded(ctx)) == Hashed(item, ctx) && ItemHashKey(item, Unguarded(ctx)) == ItemHashKey(item, ctx)
    ensures item.Mid().Some? ==> M.KeyOf(item, Unguarded(ctx)) == M.KeyOf(item, ctx)
    ensures !Unguarded(ctx).BlockCrossMid()
  {
  }

  ghost predicate Pair(items: seq<ScanItem>, ctx: GroupingContext, b: BatchState, c: BatchState) {
    Inv(items, ctx, b) && Inv(items, Unguarded(ctx), c) && Knows(items, ctx, b)
  }

  /** An item whose key was shut out joins by hash in the unguarded run. */
  lemma ShutOutStep(items: seq<ScanItem>, ctx: GroupingContext, b: BatchState, c: BatchState, f: seq<nat>, item: ScanItem)
    requires Strict(ctx) && Pair(items, ctx, b, c) && Along(items, ctx, b, c, f) && FollowsAll(items, ctx, item)
    requires Known(b, item, ctx) && M.KeyOf(item, ctx) !in c.midToGroup
    ensures Joined(c, BatchStep(c, item, Unguarded(ctx)), f[b.midToGroup[M.KeyOf(item, ctx)]])
  {
    var key := M.KeyOf(item, ctx);
    SameReadings(item, ctx);
    assert ClashKey(items, ctx, key);
    var k: nat :| k < |items| && Clashes(items, ctx, k) && HasKey(items[k], ctx, key);
    assert Follows(items[k], item, ctx) && ShutOut(b, c, f, key, ItemHashKey(items[k], ctx));
    FreeStep(items, c, item, Unguarded(ctx));
  }

  lemma KnownAlong(items: seq<ScanItem>, ctx: GroupingContext, b: BatchState, c: BatchState, f: seq<nat>, item: ScanItem,
                   br: BatchState, cr: BatchState)
    requires Strict(ctx) && Pair(items, ctx, b, c) && Along(items, ctx, b, c, f) && FollowsAll(items, ctx, item)
    requires Known(b, item, ctx) && !Clashes(items + [item], ctx, |items|)
    requires br == BatchStep(b, item, ctx) && cr == BatchStep(c, item, Unguarded(ctx))
    ensures Along(items + [item], ctx, br, cr, f)
  {
    var key := M.KeyOf(item, ctx);
    SameReadings(item, ctx);
    KnownStep(b, item, ctx);
    if key in c.midToGroup {
      KnownStep(c, item, Unguarded(ctx));
    } else {
      ShutOutStep(items, ctx, b, c, f, item);
    }
    JoinAlong(items, ctx, b, c, f, item, br, cr, b.midToGroup[key]);
  }

  lemma UnnamedAlong(items: seq<ScanItem>, ctx: GroupingContext, b: BatchState, c: BatchState, f: seq<nat>, item: ScanItem,
                     br: BatchState, cr: BatchState)
    requires Strict(ctx) && Pair(items, ctx, b, c) && Along(items, ctx, b, c, f) && item.Mid().None? && Finds(b, item, ctx)
    requires br == BatchStep(b, item, ctx) && cr == BatchStep(c, item, Unguarded(ctx))
    ensures Along(items + [item], ctx, br, cr, f)
  {
    SameReadings(item, ctx);
    UnnamedStep(b, item, ctx);
    UnnamedStep(c, item, Unguarded(ctx));
    JoinAlong(items, ctx, b, c, f, item, br, cr, b.hashToGroup[ItemHashKey(item, ctx)]);
  }

  lemma UnboundAlong(items: seq<ScanItem>, ctx: GroupingContext, b: BatchState, c: BatchState, f: seq<nat>, item: ScanItem,
                     br: BatchState, cr: BatchState)
    requires Strict(ctx) && Pair(items, ctx, b, c) && Along(items, ctx, b, c, f) && item.Mid().Some?
    requires !Known(b, item, ctx) && Finds(b, item, ctx) && !HashBound(b, ItemHashKey(item, ctx))
    requires br == BatchStep(b, item, ctx) && cr == BatchStep(c, item, Unguarded(ctx))
    requires !Clashes(items + [item], ctx, |items|)
    ensures Along(items + [item], ctx, br, cr, f)
  {
    SameReadings(item, ctx);
    AdoptStep(b, item, ctx);
    AdoptStep(c, item, Unguarded(ctx));
    InvKeepsHashesApart(items, ctx, b);
    InvKeepsHashesApart(items, Unguarded(ctx), c);
    AdoptAlong(items, ctx, b, c, f, item, br, cr, ItemHashKey(item, ctx));
  }

  lemma BoundAlong(items: seq<ScanItem>, ctx: GroupingContext, b: BatchState, c: BatchState, f: seq<nat>, item: ScanItem,
                   br: BatchState, cr: BatchState)
    returns (fr: seq<nat>)
    requires Strict(ctx) && Pair(items, ctx, b, c) && Along(items, ctx, b, c, f) && item.Mid().Some?
    requires !Known(b, item, ctx) && Finds(b, item, ctx) && HashBound(b, ItemHashKey(item, ctx))
    requires br == BatchStep(b, item, ctx) && cr == BatchStep(c, item, Unguarded(ctx))
    requires Clashes(items + [item], ctx, |items|)
    ensures Along(items + [item], ctx, br, cr, fr)
  {
    var hkey := ItemHashKey(item, ctx);
    SameReadings(item, ctx);
    BlockStep(items, b, item, ctx);
    FreeStep(items, c, item, Unguarded(ctx));
    BlockAlong(items, ctx, b, c, f, item, br, cr, hkey);
    fr := f + [c.hashToGroup[hkey]];
  }

  lemma FoundAlong(items: seq<ScanItem>, ctx: GroupingContext, b: BatchState, c: BatchState, f: seq<nat>, item: ScanItem,
                   br: BatchState, cr: BatchState)
    returns (fr: seq<nat>)
    requires Strict(ctx) && Pair(items, ctx, b, c) && Along(items, ctx, b, c, f)
    requires !Known(b, item, ctx) && Finds(b, item, ctx)
    requires br == BatchStep(b, item, ctx) && cr == BatchStep(c, item, Unguarded(ctx))
    requires Clashes(items + [item], ctx, |items|) <==> item.Mid().Some? && HashBound(b, ItemHashKey(item, ctx))
    ensures Along(items + [item], ctx, br, cr, fr)
  {
    fr := f;
    if item.Mid().None? {
      UnnamedAlong(items, ctx, b, c, f, item, br, cr);
    } else if !HashBound(b, ItemHashKey(item, ctx)) {
      UnboundAlong(items, ctx, b, c, f, item, br, cr);
    } else {
      fr := BoundAlong(items, ctx, b, c, f, item, br, cr);
    }
  }

  /** What a clash is, read off the guarded run's tables. */
  lemma ClashIs(items: seq<ScanItem>, ctx: GroupingContext, b: BatchState, item: ScanItem)
    requires Shape(b) && Knows(items, ctx, b)
    ensures Clashes(items + [item], ctx, |items|) <==>
            item.Mid().Some? && !Known(b, item, ctx) && Hashed(item, ctx) && HashBound(b, ItemHashKey(item, ctx))
  {
    assert (items + [item])[..|items|] == items;
    assert HashBound(b, ItemHashKey(item, ctx)) <==> Marked(items, ctx, ItemHashKey(item, ctx));
  }

  lemma SeedsAlong(items: seq<ScanItem>, ctx: GroupingContext, b: BatchState, c: BatchState, f: seq<nat>, item: ScanItem,
                   br: BatchState, cr: BatchState)
    requires Strict(ctx) && Pair(items, ctx, b, c) && Along(items, ctx, b, c, f)
    requires !Known(b, item, ctx) && !Finds(b, item, ctx) && !Clashes(items + [item], ctx, |items|)
    requires br == BatchStep(b, item, ctx) && cr == BatchStep(c, item, Unguarded(ctx))
    ensures Along(items + [item], ctx, br, cr, f + [|c.groups|])
  {
    SameReadings(item, ctx);
    SeedStep(b, item, ctx);
    SeedStep(c, item, Unguarded(ctx));
    SeedAlong(items, ctx, b, c, f, item, br, cr);
  }

  lemma StepAlong(items: seq<ScanItem>, ctx: GroupingContext, b: BatchState, c: BatchState, f: seq<nat>, item: ScanItem,
                  all: seq<ScanItem>, br: BatchState, cr: BatchState)
    returns (fr: seq<nat>)
    requires Strict(ctx) && Pair(items, ctx, b, c) && Along(items, ctx, b, c, f) && FollowsAll(items, ctx, item)
    requires all == items + [item] && br == BatchStep(b, item, ctx) && cr == BatchStep(c, item, Unguarded(ctx))
    ensures Along(all, ctx, br, cr, fr)
  {
    ClashIs(items, ctx, b, item);
    if Known(b, item, ctx) {
      KnownAlong(items, ctx, b, c, f, item, br, cr);
      fr := f;
    } else if Finds(b, item, ctx) {
      fr := FoundAlong(items, ctx, b, c, f, item, br, cr);
    } else {
      SeedsAlong(items, ctx, b, c, f, item, br, cr);
      fr := f + [|c.groups|];
    }
  }

  lemma RunPair(items: seq<ScanItem>, ctx: GroupingContext)
    requires Strict(ctx)
    ensures Pair(items, ctx, BatchRun(items, ctx), BatchRun(items, Unguarded(ctx)))
  {
    BatchRunInv(items, ctx);
    BatchRunInv(items, Unguarded(ctx));
    RunKnows(items, ctx);
  }

  lemma LastAlong(items: seq<ScanItem>, ctx: GroupingContext, n: nat, before: seq<nat>) returns (f: seq<nat>)
    requires Strict(ctx) && AllFollow(items, ctx) && |items| == n + 1
    requires Along(items[..n], ctx, BatchRun(items[..n], ctx), BatchRun(items[..n], Unguarded(ctx)), before)
    ensures Along(items, ctx, BatchRun(items, ctx), BatchRun(items, Unguarded(ctx)), f)
  {
    AllFollowPrefix(items, ctx, n);
    RunPair(items[..n], ctx);
    f := StepAlong(items[..n], ctx, BatchRun(items[..n], ctx), BatchRun(items[..n], Unguarded(ctx)), before, items[n],
                   items, BatchRun(items, ctx), BatchRun(items, Unguarded(ctx)));
  }

  lemma {:induction false} RunAlong(items: seq<ScanItem>, ctx: GroupingContext) returns (f: seq<nat>)
    requires Strict(ctx) && AllFollow(items, ctx)
    ensures Along(items, ctx, BatchRun(items, ctx), BatchRun(items, Unguarded(ctx)), f)
  {
    if items == [] {
      f := [];
    } else {
      var n := |items| - 1;
      AllFollowPrefix(items, ctx, n);
      var before := RunAlong(items[..n], ctx);
      f := LastAlong(items, ctx, n, before);
    }
  }

  /** Items k and l end in one group. */
  ghost predicate SharesGroup(items: seq<ScanItem>, ctx: GroupingContext, k: nat, l: nat)
    requires k < |items| && l < |items|
  {
    var gidOf := BatchRun(items, ctx).gidOf;
    |gidOf| == |items| && gidOf[k] == gidOf[l]
  }

  /** The guard only splits: items it leaves together are together without it. */
  ghost predicate OnlySplits(items: seq<ScanItem>, ctx: GroupingContext) {
    forall i: nat, j: nat {:trigger SharesGroup(items, ctx, i, j)} ::
      i < |items| && j < |items| && SharesGroup(items, ctx, i, j) ==> SharesGroup(items, Unguarded(ctx), i, j)
  }

  lemma {:induction false} FirstStray(items: seq<ScanItem>, ctx: GroupingContext) returns (k: nat, l: nat)
    requires !AllFollow(items, ctx)
    ensures Stray(items, ctx, k, l) && AllFollow(items[..l], ctx)
  {
    k, l :| Stray(items, ctx, k, l);
    if !AllFollow(items[..l], ctx) {
      var m := l;
      k, l := FirstStray(items[..m], ctx);
      StrayPrefix(items, ctx, m, k, l);
      assert items[..m][..l] == items[..l];
    }
  }

  /** Where an item goes in the unguarded run when its key was never registered and it has another hash key, or none. */
  lemma StrayGoesElsewhere(items: seq<ScanItem>, ctx: GroupingContext, c: BatchState, item: ScanItem, hkey: Bytes)
    requires Inv(items, ctx, c) && !ctx.BlockCrossMid() && item.Mid().Some? && !Known(c, item, ctx) && HashBound(c, hkey)
    requires !(Hashed(item, ctx) && ItemHashKey(item, ctx) == hkey)
    ensures var r := BatchStep(c, item, ctx);
            |r.gidOf| == |c.gidOf| + 1 && r.gidOf[|c.gidOf|] != c.hashToGroup[hkey]
  {
    if Finds(c, item, ctx) {
      InvKeepsHashesApart(items, ctx, c);
      if HashBound(c, ItemHashKey(item, ctx)) {
        FreeStep(items, c, item, ctx);
      } else {
        AdoptStep(c, item, ctx);
      }
    } else {
      SeedStep(c, item, ctx);
    }
  }

  /** A next item goes to the group of item k. */
  ghost predicate GoesTo(items: seq<ScanItem>, ctx: GroupingContext, item: ScanItem, k: nat)
    requires k < |items|
  {
    var st := BatchRun(items, ctx);
    |st.gidOf| == |items| && BatchStep(st, item, ctx).gidOf == st.gidOf + [st.gidOf[k]]
  }

  /** An item joins once and for all. */
  lemma SharesGroupIff(items: seq<ScanItem>, ctx: GroupingContext, k: nat, l: nat)
    requires k < l < |items|
    ensures SharesGroup(items, ctx, k, l) <==> GoesTo(items[..l], ctx, items[l], k)
  {
    var front := items[..l + 1];
    SharesGroupStays(items, ctx, k, l, l + 1);
    LastSharesGroupIff(front, ctx, k, l);
    assert front[..l] == items[..l];
  }

  lemma SharesGroupStays(items: seq<ScanItem>, ctx: GroupingContext, k: nat, l: nat, n: nat)
    requires k < n <= |items| && l < n
    ensures SharesGroup(items, ctx, k, l) <==> SharesGroup(items[..n], ctx, k, l)
  {
    GidStays(items, ctx, n, k);
    GidStays(items, ctx, n, l);
  }

  lemma LastSharesGroupIff(items: seq<ScanItem>, ctx: GroupingContext, k: nat, l: nat)
    requires k < l && |items| == l + 1
    ensures SharesGroup(items, ctx, k, l) <==> GoesTo(items[..l], ctx, items[l], k)
  {
    GidsGrow(items, ctx, l);
    LastIs(BatchRun(items, ctx).gidOf, BatchRun(items[..l], ctx).gidOf, k);
  }

  lemma LastIs(gidOf: seq<nat>, before: seq<nat>, k: nat)
    requires k < |before| && |gidOf| == |before| + 1 && gidOf[..|before|] == before
    ensures gidOf[k] == gidOf[|before|] <==> gidOf == before + [before[k]]
  {
    assert gidOf == before + [gidOf[|before|]];
  }

  lemma GidsGrow(items: seq<ScanItem>, ctx: GroupingContext, l: nat)
    requires |items| == l + 1
    ensures |BatchRun(items, ctx).gidOf| == l + 1 && BatchRun(items, ctx).gidOf[..l] == BatchRun(items[..l], ctx).gidOf
  {
    BatchRunInv(items, ctx);
    BatchRunInv(items[..l], ctx);
    RunExtends(items, l, ctx);
  }

  lemma GidStays(items: seq<ScanItem>, ctx: GroupingContext, n: nat, k: nat)
    requires k < n <= |items|
    ensures |BatchRun(items[..n], ctx).gidOf| == n && |BatchRun(items, ctx).gidOf| == |items|
    ensures BatchRun(items, ctx).gidOf[k] == BatchRun(items[..n], ctx).gidOf[k]
  {
    RunExtends(items, n, ctx);
    BatchRunInv(items[..n], ctx);
    BatchRunInv(items, ctx);
  }

  /** A stray item goes with the clashing one under the guard, and not without it. */
  lemma StrayParts(items: seq<ScanItem>, ctx: GroupingContext, k: nat, item: ScanItem)
    requires Strict(ctx) && AllFollow(items, ctx) && k < |items| && Clashes(items, ctx, k) && !Follows(items[k], item, ctx)
    ensures GoesTo(items, ctx, item, k) && !GoesTo(items, Unguarded(ctx), item, k)
  {
    var b, c := BatchRun(items, ctx), BatchRun(items, Unguarded(ctx));
    var f := RunAlong(items, ctx);
    RunPair(items, ctx);
    M.RunKeepsAuthority(items, ctx);
    SameReadings(item, ctx);
    var key, hkey := M.KeyOf(items[k], ctx), ItemHashKey(items[k], ctx);
    assert ShutOut(b, c, f, key, hkey);
    assert HasKey(item, ctx, key);
    KnownStep(b, item, ctx);
    StrayGoesElsewhere(items, Unguarded(ctx), c, item, hkey);
  }

  /** The first stray item shows: the guard leaves it with the clashing one, and without the guard they are apart. */
  lemma StrayShows(items: seq<ScanItem>, ctx: GroupingContext, k: nat, l: nat)
    requires Strict(ctx) && Stray(items, ctx, k, l) && AllFollow(items[..l], ctx)
    ensures SharesGroup(items, ctx, k, l) && !SharesGroup(items, Unguarded(ctx), k, l)
  {
    OpensPrefix(items, ctx, l, k);
    StrayParts(items[..l], ctx, k, items[l]);
    SharesGroupIff(items, ctx, k, l);
    SharesGroupIff(items, Unguarded(ctx), k, l);
  }

  lemma FollowingSplits(items: seq<ScanItem>, ctx: GroupingContext)
    requires Strict(ctx) && AllFollow(items, ctx)
    ensures OnlySplits(items, ctx)
  {
    var f := RunAlong(items, ctx);
    RunPair(items, ctx);
  }

  /**
   The guard is called split-only. For every item list it is so exactly when every item that carries the Message-ID of a
   clashing one may bind by hash and has that one's hash key.
   */
  lemma OnlySplitsIff(items: seq<ScanItem>, ctx: GroupingContext)
    requires Strict(ctx)
    ensures OnlySplits(items, ctx) <==> AllFollow(items, ctx)
  {
    if AllFollow(items, ctx) {
      FollowingSplits(items, ctx);
    } else {
      var k, l := FirstStray(items, ctx);
      StrayShows(items, ctx, k, l);
    }
  }

  /** The guard leaves the groups as they are exactly when no item clashes. */
  lemma SameGroupsIffNoClash(items: seq<ScanItem>, ctx: GroupingContext)
    requires Strict(ctx)
    ensures BatchRun(items, ctx).groups == BatchRun(items, Unguarded(ctx)).groups <==> Clashing(items, ctx) == {}
  {
    BlockedCountsClashes(items, ctx);
    GuardShowsIff(items, ctx);
  }

  // ---- a family it joins ----

  /** Two items with the same content and different Message-IDs, then one with the second's Message-ID and other content. */
  predicate Crossing(a: ScanItem, b: ScanItem, c: ScanItem, ctx: GroupingContext) {
    && a.Mid().Some? && b.Mid().Some? && b.Mid() == c.Mid() && a.Mid() != b.Mid()
    && a.pathKey == b.pathKey == c.pathKey
    && a.BindHash(ctx.identity) == b.BindHash(ctx.identity) != c.BindHash(ctx.identity)
    && BatchEligible(a, ctx) && BatchEligible(b, ctx)
    && ctx.tier2Enabled && ctx.tier1Verify.NoVerify?
  }

  lemma MidKeysDiffer(a: ScanItem, b: ScanItem, ctx: GroupingContext)
    requires a.Mid().Some? && b.Mid().Some? && a.Mid() != b.Mid() && a.pathKey == b.pathKey
    ensures M.KeyOf(a, ctx) != M.KeyOf(b, ctx)
  {
    var p := ScopePrefix(ctx.scope, a.pathKey);
    assert (p + a.Mid().value)[|p|..] == a.Mid().value && (p + b.Mid().value)[|p|..] == b.Mid().value;
  }

  lemma HashKeysDiffer(a: ScanItem, c: ScanItem, ctx: GroupingContext)
    requires a.pathKey == c.pathKey && a.BindHash(ctx.identity) != c.BindHash(ctx.identity)
    ensures ItemHashKey(a, ctx) != ItemHashKey(c, ctx)
  {
    var p := ScopePrefix(ctx.scope, a.pathKey);
    var h, k: Bytes := a.BindHash(ctx.identity), c.BindHash(ctx.identity);
    assert (p + h)[|p|..] == h && (p + k)[|p|..] == k;
  }

  lemma CrossingClashes(items: seq<ScanItem>, a: ScanItem, b: ScanItem, c: ScanItem, ctx: GroupingContext)
    requires items == [a, b, c] && Crossing(a, b, c, ctx)
    ensures Clashes(items, ctx, 1) && !Clashes(items, ctx, 0)
  {
    assert items[..0] == [] && items[..1] == [a];
    MidKeysDiffer(a, b, ctx);
    assert !HasKey(a, ctx, M.KeyOf(b, ctx));
    assert OpensHashed([a], ctx, 0, ItemHashKey(b, ctx));
  }

  /** The guard joins what is apart without it: in such a family the last two items are together only under the guard. */
  lemma GuardAlsoJoins(items: seq<ScanItem>, a: ScanItem, b: ScanItem, c: ScanItem, ctx: GroupingContext)
    requires items == [a, b, c] && Crossing(a, b, c, ctx) && ctx.BlockCrossMid()
    ensures SharesGroup(items, ctx, 1, 2) && !SharesGroup(items, Unguarded(ctx), 1, 2)
  {
    CrossingClashes(items, a, b, c, ctx);
    HashKeysDiffer(b, c, ctx);
    assert Stray(items, ctx, 1, 2);
    forall k: nat, l: nat
      ensures !Stray(items[..2], ctx, k, l)
    {
      if k < l < 2 {
        StrayPrefix(items, ctx, 2, k, l);
      }
    }
    StrayShows(items, ctx, 1, 2);
  }
}
