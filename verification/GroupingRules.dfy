/**
 The rules of batch grouping, told from the items' fields and the groups and tags decided for earlier items, without the
 tables the pass keeps. The pass follows them, and they leave no choice.
 */
module GroupingRules {
  import opened Common
  import opened Grouping
  import opened ScanItems
  import opened GroupLists
  import opened BatchGrouping
  import M = MidAuthority

  // ---- what counts as the same, and what may bind ----

  /** The digest that stands for an item when strong hashes are asked for. */
  function Standing(contentHash: Hash, strongHash: Option<Hash>): Hash {
    match strongHash
    case Some(strong) => strong
    case None => contentHash
  }

  /** The content is the same at an identity level. */
  predicate SameContent(a: ScanItem, b: ScanItem, level: IdentityLevel) {
    match level
    case Off => a.contentHash == b.contentHash
    case V1 => a.contentHash == b.contentHash
    case Body => Standing(a.contentHash, a.strongHash) == Standing(b.contentHash, b.strongHash)
    case BodyRecip => Standing(a.contentHash, a.strongHash) == Standing(b.contentHash, b.strongHash)
    case BodyRecipAttach => Standing(a.contentHash, a.strongHash) == Standing(b.contentHash, b.strongHash)
  }

  predicate SamePartition(a: ScanItem, b: ScanItem, scope: DedupeScope) {
    scope.Global? || a.pathKey == b.pathKey
  }

  /** Two of subject, submit time, sender and attachments are there. */
  predicate HasTwoSigns(item: ScanItem) {
    || (item.subjectNonempty && (item.submitTime.Some? || item.senderNonempty || item.attachCount > 0))
    || (item.submitTime.Some? && (item.senderNonempty || item.attachCount > 0))
    || (item.senderNonempty && item.attachCount > 0)
  }

  /** The item may take part in hash binding. */
  predicate MayBind(item: ScanItem, ctx: GroupingContext) {
    var reasons := item.integrity.reasons;
    && ctx.tier2Enabled
    && if CrcSuspect in reasons then ctx.allowCrcSuspectTier2
       else
         || (BodyTruncated !in reasons && BodyUnavailable !in reasons && (item.hasBodyPreview || HasTwoSigns(item)))
         || !ctx.requireReadableBody || ctx.allowDegenerateTier2
  }

  lemma MayBindIs(item: ScanItem, ctx: GroupingContext)
    ensures MayBind(item, ctx) <==> ctx.tier2Enabled && BatchEligible(item, ctx)
  {
  }

  lemma SameContentIs(a: ScanItem, b: ScanItem, ctx: GroupingContext)
    ensures a.BindHash(ctx.identity) == b.BindHash(ctx.identity) <==> SameContent(a, b, ctx.identity)
    ensures ItemHashKey(a, ctx) == ItemHashKey(b, ctx) <==> SamePartition(a, b, ctx.scope) && SameContent(a, b, ctx.identity)
  {
    HashKeyInjective(ctx.scope, a.pathKey, a.BindHash(ctx.identity), b.pathKey, b.BindHash(ctx.identity));
    ScopePrefixInjective(ctx.scope, a.pathKey, b.pathKey);
  }

  /** A Message-ID match is good enough: verification compares with the item that opened the group. */
  predicate Vouched(item: ScanItem, leader: ScanItem, ctx: GroupingContext) {
    match ctx.tier1Verify
    case NoVerify => true
    case VerifyContent => SameContent(item, leader, ctx.identity)
    case VerifyBody => item.fp.body == leader.fp.body
  }

  /** The tag of a hash join. */
  predicate IsHashTag(tag: BoundBy, level: IdentityLevel) {
    match level
    case Off => tag == ByContentHash
    case V1 => tag == ByContentHash
    case Body => tag == ByStrongContentHash
    case BodyRecip => tag == ByStrongContentHash
    case BodyRecipAttach => tag == ByStrongContentHash
  }

  // ---- the rules ----

  /** The group and the tag of every item. */
  datatype Placing = Placing(gid: seq<nat>, tags: seq<BoundBy>)

  predicate Fits(items: seq<ScanItem>, pl: Placing) {
    |pl.gid| == |pl.tags| == |items|
  }

  predicate Named(items: seq<ScanItem>, i: nat)
    requires i < |items|
  {
    items[i].Mid().Some?
  }

  /** The item opened its group. */
  predicate Leads(pl: Placing, i: nat)
    requires i < |pl.tags|
  {
    pl.tags[i] == Seed
  }

  /** The first member of its group with a Message-ID. */
  ghost predicate FirstNamed(items: seq<ScanItem>, pl: Placing, i: nat)
    requires Fits(items, pl) && i < |items|
  {
    Named(items, i) && forall j: nat | j < i && pl.gid[j] == pl.gid[i] :: !Named(items, j)
  }

  /** Item i opened a group with the Message-ID key. */
  predicate LeadsWith(items: seq<ScanItem>, ctx: GroupingContext, pl: Placing, i: nat, key: Bytes)
    requires Fits(items, pl) && i < |items|
  {
    Leads(pl, i) && Named(items, i) && M.KeyOf(items[i], ctx) == key
  }

  ghost predicate NamesWith(items: seq<ScanItem>, ctx: GroupingContext, pl: Placing, i: nat, key: Bytes)
    requires Fits(items, pl) && i < |items|
  {
    FirstNamed(items, pl, i) && M.KeyOf(items[i], ctx) == key
  }

  /** Of the first n items, the last to open a group with the key; without one, the first to bring it to its group. */
  ghost predicate KeyOwner(items: seq<ScanItem>, ctx: GroupingContext, pl: Placing, n: nat, key: Bytes, o: nat)
    requires Fits(items, pl) && n <= |items|
  {
    && o < n
    && if exists p: nat :: p < n && LeadsWith(items, ctx, pl, p, key)
       then LeadsWith(items, ctx, pl, o, key) && forall p: nat | o < p < n :: !LeadsWith(items, ctx, pl, p, key)
       else NamesWith(items, ctx, pl, o, key) && forall p: nat | p < o :: !NamesWith(items, ctx, pl, p, key)
  }

  predicate MayOwn(items: seq<ScanItem>, ctx: GroupingContext, pl: Placing, s: nat, item: ScanItem)
    requires Fits(items, pl) && s < |items|
  {
    Leads(pl, s) && MayBind(items[s], ctx) && SamePartition(items[s], item, ctx.scope) && SameContent(items[s], item, ctx.identity)
  }

  /** Of the first n items, the first that opened a group with the item's content. */
  ghost predicate ContentOwner(items: seq<ScanItem>, ctx: GroupingContext, pl: Placing, n: nat, item: ScanItem, s: nat)
    requires Fits(items, pl) && n <= |items|
  {
    s < n && MayOwn(items, ctx, pl, s, item) && forall p: nat | p < s :: !MayOwn(items, ctx, pl, p, item)
  }

  /** Message-IDs are authoritative, and group g already has another one than the item. */
  ghost predicate Foreign(items: seq<ScanItem>, ctx: GroupingContext, pl: Placing, n: nat, item: ScanItem, g: nat)
    requires Fits(items, pl) && n <= |items|
  {
    && ctx.tier1Authority && !ctx.allowCrossMidTier2 && item.Mid().Some?
    && exists b: nat :: b < n && pl.gid[b] == g && FirstNamed(items, pl, b) && items[b].messageId != item.messageId
  }

  /** Item n belongs to group g by its Message-ID. */
  ghost predicate PlacedByMid(items: seq<ScanItem>, ctx: GroupingContext, pl: Placing, n: nat, g: nat)
    requires Fits(items, pl) && n < |items|
  {
    Named(items, n) && exists o: nat, l: nat ::
      && KeyOwner(items, ctx, pl, n, M.KeyOf(items[n], ctx), o) && pl.gid[o] == g
      && l < n && Leads(pl, l) && pl.gid[l] == g && Vouched(items[n], items[l], ctx)
  }

  /** Item n belongs to group g by its content. */
  ghost predicate PlacedByContent(items: seq<ScanItem>, ctx: GroupingContext, pl: Placing, n: nat, g: nat)
    requires Fits(items, pl) && n < |items|
  {
    MayBind(items[n], ctx) && exists s: nat ::
      ContentOwner(items, ctx, pl, n, items[n], s) && pl.gid[s] == g && !Foreign(items, ctx, pl, n, items[n], g)
  }

  function Leaders(pl: Placing, n: nat): nat
    requires n <= |pl.tags|
  {
    if n == 0 then 0 else Leaders(pl, n - 1) + One(Leads(pl, n - 1))
  }

  /** What the rules say of item n. */
  ghost predicate Ruled(items: seq<ScanItem>, ctx: GroupingContext, pl: Placing, n: nat)
    requires Fits(items, pl) && n < |items|
  {
    if exists g: nat :: PlacedByMid(items, ctx, pl, n, g) then
      pl.tags[n] == ByMessageId && PlacedByMid(items, ctx, pl, n, pl.gid[n])
    else if exists g: nat :: PlacedByContent(items, ctx, pl, n, g) then
      IsHashTag(pl.tags[n], ctx.identity) && PlacedByContent(items, ctx, pl, n, pl.gid[n])
    else
      pl.tags[n] == Seed && pl.gid[n] == Leaders(pl, n)
  }

  ghost predicate FollowsRules(items: seq<ScanItem>, ctx: GroupingContext, pl: Placing) {
    Fits(items, pl) && forall n: nat {:trigger Ruled(items, ctx, pl, n)} | n < |items| :: Ruled(items, ctx, pl, n)
  }

  // ---- the rules leave no choice ----

  lemma KeyOwnerUnique(items: seq<ScanItem>, ctx: GroupingContext, pl: Placing, n: nat, key: Bytes, o: nat, q: nat)
    requires Fits(items, pl) && n <= |items| && KeyOwner(items, ctx, pl, n, key, o) && KeyOwner(items, ctx, pl, n, key, q)
    ensures o == q
  {
  }

  ghost predicate Agree(items: seq<ScanItem>, a: Placing, b: Placing, n: nat) {
    Fits(items, a) && Fits(items, b) && n <= |items| && a.gid[..n] == b.gid[..n] && a.tags[..n] == b.tags[..n]
  }

  lemma AgreeAt(items: seq<ScanItem>, a: Placing, b: Placing, n: nat, i: nat)
    requires Agree(items, a, b, n) && i < n
    ensures a.gid[i] == b.gid[i] && a.tags[i] == b.tags[i]
    ensures FirstNamed(items, a, i) <==> FirstNamed(items, b, i)
  {
    assert forall j: nat | j <= i :: a.gid[j] == a.gid[..n][j] && b.gid[j] == b.gid[..n][j];
    assert a.tags[..n][i] == a.tags[i] && b.tags[..n][i] == b.tags[i];
  }

  lemma KeyOwnerAgrees(items: seq<ScanItem>, ctx: GroupingContext, a: Placing, b: Placing, n: nat, key: Bytes, o: nat)
    requires Agree(items, a, b, n) && KeyOwner(items, ctx, a, n, key, o)
    ensures KeyOwner(items, ctx, b, n, key, o)
  {
    forall i: nat | i < n
      ensures LeadsWith(items, ctx, a, i, key) <==> LeadsWith(items, ctx, b, i, key)
      ensures NamesWith(items, ctx, a, i, key) <==> NamesWith(items, ctx, b, i, key)
    {
      AgreeAt(items, a, b, n, i);
    }
  }

  lemma MidPlaceAgrees(items: seq<ScanItem>, ctx: GroupingContext, a: Placing, b: Placing, n: nat, g: nat)
    requires Agree(items, a, b, n) && n < |items| && PlacedByMid(items, ctx, a, n, g)
    ensures PlacedByMid(items, ctx, b, n, g)
  {
    var o: nat, l: nat :| KeyOwner(items, ctx, a, n, M.KeyOf(items[n], ctx), o) && a.gid[o] == g
      && l < n && Leads(a, l) && a.gid[l] == g && Vouched(items[n], items[l], ctx);
    KeyOwnerAgrees(items, ctx, a, b, n, M.KeyOf(items[n], ctx), o);
    AgreeAt(items, a, b, n, o);
    AgreeAt(items, a, b, n, l);
  }

  lemma ContentPlaceAgrees(items: seq<ScanItem>, ctx: GroupingContext, a: Placing, b: Placing, n: nat, g: nat)
    requires Agree(items, a, b, n) && n < |items| && PlacedByContent(items, ctx, a, n, g)
    ensures PlacedByContent(items, ctx, b, n, g)
  {
    var s: nat :| ContentOwner(items, ctx, a, n, items[n], s) && a.gid[s] == g && !Foreign(items, ctx, a, n, items[n], g);
    forall i: nat | i < n
      ensures a.gid[i] == b.gid[i] && (FirstNamed(items, a, i) <==> FirstNamed(items, b, i))
      ensures MayOwn(items, ctx, a, i, items[n]) <==> MayOwn(items, ctx, b, i, items[n])
    {
      AgreeAt(items, a, b, n, i);
    }
    assert ContentOwner(items, ctx, b, n, items[n], s);
  }

  lemma {:induction false} LeadersAgree(items: seq<ScanItem>, a: Placing, b: Placing, n: nat, m: nat)
    requires Agree(items, a, b, n) && m <= n
    ensures Leaders(a, m) == Leaders(b, m)
  {
    if m > 0 {
      LeadersAgree(items, a, b, n, m - 1);
      AgreeAt(items, a, b, n, m - 1);
    }
  }

  lemma MidPlaceUnique(items: seq<ScanItem>, ctx: GroupingContext, pl: Placing, n: nat, g: nat, h: nat)
    requires Fits(items, pl) && n < |items| && PlacedByMid(items, ctx, pl, n, g) && PlacedByMid(items, ctx, pl, n, h)
    ensures g == h
  {
    var key := M.KeyOf(items[n], ctx);
    var o: nat :| KeyOwner(items, ctx, pl, n, key, o) && pl.gid[o] == g;
    var q: nat :| KeyOwner(items, ctx, pl, n, key, q) && pl.gid[q] == h;
    KeyOwnerUnique(items, ctx, pl, n, key, o, q);
  }

  lemma ContentPlaceUnique(items: seq<ScanItem>, ctx: GroupingContext, pl: Placing, n: nat, g: nat, h: nat)
    requires Fits(items, pl) && n < |items| && PlacedByContent(items, ctx, pl, n, g) && PlacedByContent(items, ctx, pl, n, h)
    ensures g == h
  {
  }

  lemma PlaceAgrees(items: seq<ScanItem>, ctx: GroupingContext, a: Placing, b: Placing, n: nat, g: nat)
    requires Agree(items, a, b, n) && n < |items|
    ensures PlacedByMid(items, ctx, a, n, g) <==> PlacedByMid(items, ctx, b, n, g)
    ensures PlacedByContent(items, ctx, a, n, g) <==> PlacedByContent(items, ctx, b, n, g)
  {
    assert Agree(items, b, a, n);
    if PlacedByMid(items, ctx, a, n, g) { MidPlaceAgrees(items, ctx, a, b, n, g); }
    if PlacedByMid(items, ctx, b, n, g) { MidPlaceAgrees(items, ctx, b, a, n, g); }
    if PlacedByContent(items, ctx, a, n, g) { ContentPlaceAgrees(items, ctx, a, b, n, g); }
    if PlacedByContent(items, ctx, b, n, g) { ContentPlaceAgrees(items, ctx, b, a, n, g); }
  }

  lemma AlikeByMid(items: seq<ScanItem>, ctx: GroupingContext, a: Placing, b: Placing, n: nat)
    requires Agree(items, a, b, n) && n < |items| && Ruled(items, ctx, a, n) && Ruled(items, ctx, b, n)
    requires exists g: nat :: PlacedByMid(items, ctx, a, n, g)
    ensures a.gid[n] == b.gid[n] && a.tags[n] == b.tags[n]
  {
    assert PlacedByMid(items, ctx, a, n, a.gid[n]);
    PlaceAgrees(items, ctx, a, b, n, a.gid[n]);
    MidPlaceUnique(items, ctx, b, n, a.gid[n], b.gid[n]);
  }

  lemma NoPlaceAgrees(items: seq<ScanItem>, ctx: GroupingContext, a: Placing, b: Placing, n: nat)
    requires Agree(items, a, b, n) && n < |items|
    ensures (exists g: nat :: PlacedByMid(items, ctx, a, n, g)) <==> (exists g: nat :: PlacedByMid(items, ctx, b, n, g))
    ensures (exists g: nat :: PlacedByContent(items, ctx, a, n, g)) <==> (exists g: nat :: PlacedByContent(items, ctx, b, n, g))
  {
    forall g: nat
      ensures PlacedByMid(items, ctx, a, n, g) <==> PlacedByMid(items, ctx, b, n, g)
      ensures PlacedByContent(items, ctx, a, n, g) <==> PlacedByContent(items, ctx, b, n, g)
    {
      PlaceAgrees(items, ctx, a, b, n, g);
    }
  }

  lemma AlikeByContent(items: seq<ScanItem>, ctx: GroupingContext, a: Placing, b: Placing, n: nat)
    requires Agree(items, a, b, n) && n < |items|
    requires IsHashTag(a.tags[n], ctx.identity) && PlacedByContent(items, ctx, a, n, a.gid[n])
    requires IsHashTag(b.tags[n], ctx.identity) && PlacedByContent(items, ctx, b, n, b.gid[n])
    ensures a.gid[n] == b.gid[n] && a.tags[n] == b.tags[n]
  {
    PlaceAgrees(items, ctx, a, b, n, a.gid[n]);
    ContentPlaceUnique(items, ctx, b, n, a.gid[n], b.gid[n]);
  }

  lemma RuledAlike(items: seq<ScanItem>, ctx: GroupingContext, a: Placing, b: Placing, n: nat)
    requires Agree(items, a, b, n) && n < |items| && Ruled(items, ctx, a, n) && Ruled(items, ctx, b, n)
    ensures a.gid[n] == b.gid[n] && a.tags[n] == b.tags[n]
  {
    NoPlaceAgrees(items, ctx, a, b, n);
    if exists g: nat :: PlacedByMid(items, ctx, a, n, g) {
      AlikeByMid(items, ctx, a, b, n);
    } else if exists g: nat :: PlacedByContent(items, ctx, a, n, g) {
      AlikeByContent(items, ctx, a, b, n);
    } else {
      LeadersAgree(items, a, b, n, n);
    }
  }

  /** There is only one way to follow the rules. */
  lemma {:induction false} RulesDecide(items: seq<ScanItem>, ctx: GroupingContext, a: Placing, b: Placing, n: nat)
    requires FollowsRules(items, ctx, a) && FollowsRules(items, ctx, b) && n <= |items|
    ensures Agree(items, a, b, n)
  {
    if n > 0 {
      var m := n - 1;
      RulesDecide(items, ctx, a, b, m);
      assert Ruled(items, ctx, a, m) && Ruled(items, ctx, b, m);
      RuledAlike(items, ctx, a, b, m);
      AgreeNext(items, a, b, m, n);
    }
  }

  lemma AgreeNext(items: seq<ScanItem>, a: Placing, b: Placing, m: nat, n: nat)
    requires Agree(items, a, b, m) && n == m + 1 <= |items| && a.gid[m] == b.gid[m] && a.tags[m] == b.tags[m]
    ensures Agree(items, a, b, n)
  {
    assert a.gid[..n] == a.gid[..m] + [a.gid[m]] && b.gid[..n] == b.gid[..m] + [b.gid[m]];
    assert a.tags[..n] == a.tags[..m] + [a.tags[m]] && b.tags[..n] == b.tags[..m] + [b.tags[m]];
  }

  // ---- what the tables of the pass know of the items seen ----

  ghost predicate MidEntry(items: seq<ScanItem>, ctx: GroupingContext, pl: Placing, n: nat, key: Bytes, g: nat)
    requires Fits(items, pl) && n <= |items|
  {
    exists o: nat :: KeyOwner(items, ctx, pl, n, key, o) && pl.gid[o] == g
  }

  /** The table of Message-IDs holds the owners of exactly the keys some item brought to its group first. */
  ghost predicate MidTable(items: seq<ScanItem>, ctx: GroupingContext, pl: Placing, n: nat, table: map<Bytes, nat>)
    requires Fits(items, pl) && n <= |items|
  {
    && (forall key | key in table :: MidEntry(items, ctx, pl, n, key, table[key]))
    && (forall i: nat, key {:trigger NamesWith(items, ctx, pl, i, key)} | i < n && NamesWith(items, ctx, pl, i, key) :: key in table)
  }

  ghost predicate BoundEntry(items: seq<ScanItem>, pl: Placing, n: nat, g: nat, bound: Option<Bytes>)
    requires Fits(items, pl) && n <= |items|
  {
    match bound
    case Some(_) => exists b: nat :: b < n && pl.gid[b] == g && FirstNamed(items, pl, b) && items[b].messageId == bound
    case None => forall b: nat | b < n && pl.gid[b] == g :: !Named(items, b)
  }

  ghost predicate BoundTable(items: seq<ScanItem>, pl: Placing, n: nat, bound: seq<Option<Bytes>>)
    requires Fits(items, pl) && n <= |items|
  {
    forall g: nat {:trigger BoundEntry(items, pl, n, g, bound[g])} | g < |bound| :: BoundEntry(items, pl, n, g, bound[g])
  }

  /** Item s opened a group and may bind, with the hash key. */
  predicate BindsWith(items: seq<ScanItem>, ctx: GroupingContext, pl: Placing, s: nat, hkey: Bytes)
    requires Fits(items, pl) && s < |items|
  {
    Leads(pl, s) && MayBind(items[s], ctx) && ItemHashKey(items[s], ctx) == hkey
  }

  ghost predicate HashEntry(items: seq<ScanItem>, ctx: GroupingContext, pl: Placing, n: nat, hkey: Bytes, g: nat)
    requires Fits(items, pl) && n <= |items|
  {
    exists s: nat :: s < n && BindsWith(items, ctx, pl, s, hkey) && pl.gid[s] == g
                     && forall p: nat | p < s :: !BindsWith(items, ctx, pl, p, hkey)
  }

  ghost predicate HashTable(items: seq<ScanItem>, ctx: GroupingContext, pl: Placing, n: nat, table: map<Bytes, nat>)
    requires Fits(items, pl) && n <= |items|
  {
    && (forall hkey | hkey in table :: HashEntry(items, ctx, pl, n, hkey, table[hkey]))
    && (forall s: nat, hkey {:trigger BindsWith(items, ctx, pl, s, hkey)} | s < n && BindsWith(items, ctx, pl, s, hkey) :: hkey in table)
  }

  /** Group g was opened by item l, whose columns it has. */
  ghost predicate LedBy(items: seq<ScanItem>, ctx: GroupingContext, pl: Placing, n: nat, st: BatchState, g: nat, l: nat)
    requires Fits(items, pl) && n <= |items| && Shape(st) && g < |st.groups|
  {
    && l < n && Leads(pl, l) && pl.gid[l] == g
    && st.bindHash[g] == items[l].BindHash(ctx.identity) && st.fps[g] == items[l].fp
    && (forall i: nat | i < n && pl.gid[i] == g :: l <= i)
    && (forall i: nat | i < n && pl.gid[i] == g && Leads(pl, i) :: i == l)
  }

  ghost predicate HasLeader(items: seq<ScanItem>, ctx: GroupingContext, pl: Placing, n: nat, st: BatchState, g: nat)
    requires Fits(items, pl) && n <= |items| && Shape(st) && g < |st.groups|
  {
    exists l: nat :: LedBy(items, ctx, pl, n, st, g, l)
  }

  ghost predicate Led(items: seq<ScanItem>, ctx: GroupingContext, pl: Placing, n: nat, st: BatchState)
    requires Fits(items, pl) && n <= |items| && Shape(st)
  {
    && (forall g: nat {:trigger HasLeader(items, ctx, pl, n, st, g)} | g < |st.groups| :: HasLeader(items, ctx, pl, n, st, g))
    && (forall i: nat | i < n :: pl.gid[i] < |st.groups|)
  }

  ghost predicate Tables(items: seq<ScanItem>, ctx: GroupingContext, pl: Placing, n: nat, st: BatchState) {
    && Fits(items, pl) && n <= |items| && Shape(st) && |st.groups| == Leaders(pl, n)
    && Led(items, ctx, pl, n, st) && MidTable(items, ctx, pl, n, st.midToGroup) && BoundTable(items, pl, n, st.bound)
    && HashTable(items, ctx, pl, n, st.hashToGroup)
  }

  // ---- what the tables say about the rules ----

  /** An item that opened a group is the first in it; so its Message-ID is the first brought there. */
  lemma LeaderNames(items: seq<ScanItem>, ctx: GroupingContext, pl: Placing, n: nat, st: BatchState, i: nat, key: Bytes)
    requires Tables(items, ctx, pl, n, st) && i < n && LeadsWith(items, ctx, pl, i, key)
    ensures NamesWith(items, ctx, pl, i, key)
  {
    assert HasLeader(items, ctx, pl, n, st, pl.gid[i]);
    var l: nat :| LedBy(items, ctx, pl, n, st, pl.gid[i], l);
  }

  lemma OwnerNames(items: seq<ScanItem>, ctx: GroupingContext, pl: Placing, n: nat, st: BatchState, key: Bytes, o: nat)
    requires Tables(items, ctx, pl, n, st) && KeyOwner(items, ctx, pl, n, key, o)
    ensures NamesWith(items, ctx, pl, o, key) && key in st.midToGroup && st.midToGroup[key] == pl.gid[o]
  {
    if exists p: nat :: p < n && LeadsWith(items, ctx, pl, p, key) {
      LeaderNames(items, ctx, pl, n, st, o, key);
    }
    assert MidEntry(items, ctx, pl, n, key, st.midToGroup[key]);
    var q: nat :| KeyOwner(items, ctx, pl, n, key, q) && pl.gid[q] == st.midToGroup[key];
    KeyOwnerUnique(items, ctx, pl, n, key, o, q);
  }

  /** Tier 1 finds the group the item belongs to by its Message-ID, if there is one. */
  lemma Tier1Decides(items: seq<ScanItem>, ctx: GroupingContext, pl: Placing, n: nat, st: BatchState)
    requires Tables(items, ctx, pl, n, st) && n < |items|
    ensures match Tier1(st, items[n], ctx)
            case Hit(g, via) => via == ByMessageId && g < |st.groups| && PlacedByMid(items, ctx, pl, n, g)
            case Miss => forall g: nat :: !PlacedByMid(items, ctx, pl, n, g)
  {
    if Named(items, n) {
      var key := M.KeyOf(items[n], ctx);
      if key in st.midToGroup {
        var g := st.midToGroup[key];
        assert MidEntry(items, ctx, pl, n, key, g);
        var o: nat :| KeyOwner(items, ctx, pl, n, key, o) && pl.gid[o] == g;
        assert HasLeader(items, ctx, pl, n, st, g);
        var l: nat :| LedBy(items, ctx, pl, n, st, g, l);
        SameContentIs(items[n], items[l], ctx);
        if !Vouched(items[n], items[l], ctx) {
          NotVouched(items, ctx, pl, n, st, g, l);
        }
      } else {
        Unowned(items, ctx, pl, n, st);
      }
    }
  }

  lemma Unowned(items: seq<ScanItem>, ctx: GroupingContext, pl: Placing, n: nat, st: BatchState)
    requires Tables(items, ctx, pl, n, st) && n < |items| && Named(items, n) && M.KeyOf(items[n], ctx) !in st.midToGroup
    ensures forall g: nat :: !PlacedByMid(items, ctx, pl, n, g)
  {
    forall g: nat
      ensures !PlacedByMid(items, ctx, pl, n, g)
    {
      if PlacedByMid(items, ctx, pl, n, g) {
        var o: nat :| KeyOwner(items, ctx, pl, n, M.KeyOf(items[n], ctx), o) && pl.gid[o] == g;
        OwnerNames(items, ctx, pl, n, st, M.KeyOf(items[n], ctx), o);
      }
    }
  }

  lemma NotVouched(items: seq<ScanItem>, ctx: GroupingContext, pl: Placing, n: nat, st: BatchState, g: nat, l: nat)
    requires Tables(items, ctx, pl, n, st) && n < |items| && Named(items, n)
    requires M.KeyOf(items[n], ctx) in st.midToGroup && st.midToGroup[M.KeyOf(items[n], ctx)] == g && LedBy(items, ctx, pl, n, st, g, l)
    requires !Vouched(items[n], items[l], ctx)
    ensures forall h: nat :: !PlacedByMid(items, ctx, pl, n, h)
  {
    forall h: nat
      ensures !PlacedByMid(items, ctx, pl, n, h)
    {
      if PlacedByMid(items, ctx, pl, n, h) {
        var o: nat :| KeyOwner(items, ctx, pl, n, M.KeyOf(items[n], ctx), o) && pl.gid[o] == h;
        OwnerNames(items, ctx, pl, n, st, M.KeyOf(items[n], ctx), o);
      }
    }
  }

  /** The owner of a hash key is the owner of the content. */
  lemma ContentOwnerIs(items: seq<ScanItem>, ctx: GroupingContext, pl: Placing, n: nat, s: nat)
    requires Fits(items, pl) && n < |items| && s < n
    ensures MayOwn(items, ctx, pl, s, items[n]) <==> BindsWith(items, ctx, pl, s, ItemHashKey(items[n], ctx))
  {
    SameContentIs(items[s], items[n], ctx);
  }

  lemma HashOwner(items: seq<ScanItem>, ctx: GroupingContext, pl: Placing, n: nat, st: BatchState)
    requires Tables(items, ctx, pl, n, st) && n < |items|
    ensures var hkey := ItemHashKey(items[n], ctx);
            if hkey in st.hashToGroup then exists s: nat :: ContentOwner(items, ctx, pl, n, items[n], s) && pl.gid[s] == st.hashToGroup[hkey]
            else forall s: nat :: !ContentOwner(items, ctx, pl, n, items[n], s)
  {
    var hkey := ItemHashKey(items[n], ctx);
    forall s: nat | s < n
      ensures MayOwn(items, ctx, pl, s, items[n]) <==> BindsWith(items, ctx, pl, s, hkey)
    {
      ContentOwnerIs(items, ctx, pl, n, s);
    }
    if hkey in st.hashToGroup {
      assert HashEntry(items, ctx, pl, n, hkey, st.hashToGroup[hkey]);
      var s: nat :| s < n && BindsWith(items, ctx, pl, s, hkey) && pl.gid[s] == st.hashToGroup[hkey]
                    && forall p: nat | p < s :: !BindsWith(items, ctx, pl, p, hkey);
      assert ContentOwner(items, ctx, pl, n, items[n], s);
    }
  }

  lemma BoundIs(items: seq<ScanItem>, ctx: GroupingContext, pl: Placing, n: nat, st: BatchState, g: nat)
    requires Tables(items, ctx, pl, n, st) && n < |items| && g < |st.groups|
    ensures MidJoinCompatible(st.bound[g], items[n].Mid(), ctx.BlockCrossMid()).0 <==> !Foreign(items, ctx, pl, n, items[n], g)
  {
    assert BoundEntry(items, pl, n, g, st.bound[g]);
  }

  // ---- one step of the pass ----

  /** The tables are as they were. */
  ghost predicate Stays(st: BatchState, r: BatchState) {
    && r.midToGroup == st.midToGroup && r.hashToGroup == st.hashToGroup && r.bound == st.bound
    && r.bindHash == st.bindHash && r.fps == st.fps && |r.groups| == |st.groups|
  }

  /** Group g took the Message-ID of the item that joined it. */
  ghost predicate Adopts(st: BatchState, r: BatchState, item: ScanItem, ctx: GroupingContext, g: nat)
    requires g < |st.bound|
  {
    && item.Mid().Some? && st.bound[g].None? && r.bound == st.bound[g := item.Mid()]
    && r.midToGroup == (if M.KeyOf(item, ctx) in st.midToGroup then st.midToGroup else st.midToGroup[M.KeyOf(item, ctx) := g])
    && r.hashToGroup == st.hashToGroup && r.bindHash == st.bindHash && r.fps == st.fps && |r.groups| == |st.groups|
  }

  ghost predicate Opens(st: BatchState, r: BatchState, item: ScanItem, ctx: GroupingContext) {
    var g, hkey := |st.groups|, ItemHashKey(item, ctx);
    && r.bound == st.bound + [item.Mid()] && r.bindHash == st.bindHash + [item.BindHash(ctx.identity)] && r.fps == st.fps + [item.fp]
    && |r.groups| == g + 1
    && r.midToGroup == (if item.Mid().Some? then st.midToGroup[M.KeyOf(item, ctx) := g] else st.midToGroup)
    && r.hashToGroup == (if MayBind(item, ctx) && hkey !in st.hashToGroup then st.hashToGroup[hkey := g] else st.hashToGroup)
  }

  ghost predicate Puts(st: BatchState, r: BatchState, g: nat, tag: BoundBy) {
    r.gidOf == st.gidOf + [g] && r.boundBy == st.boundBy + [tag]
  }

  lemma HitStep(st: BatchState, item: ScanItem, ctx: GroupingContext)
    requires Shape(st) && Tier1(st, item, ctx).Hit?
    ensures Stays(st, BatchStep(st, item, ctx)) && Puts(st, BatchStep(st, item, ctx), Tier1(st, item, ctx).gid, ByMessageId)
  {
  }

  lemma HashJoinStep(st: BatchState, item: ScanItem, ctx: GroupingContext, g: nat, tag: BoundBy)
    requires Shape(st) && Tier1(st, item, ctx).Miss? && MayBind(item, ctx) && IsHashTag(tag, ctx.identity)
    requires ItemHashKey(item, ctx) in st.hashToGroup && g == st.hashToGroup[ItemHashKey(item, ctx)]
    requires MidJoinCompatible(st.bound[g], item.Mid(), ctx.BlockCrossMid()).0
    ensures var r := BatchStep(st, item, ctx);
            && Puts(st, r, g, tag)
            && (if item.Mid().Some? && st.bound[g].None? then Adopts(st, r, item, ctx, g) else Stays(st, r))
  {
    MayBindIs(item, ctx);
  }

  lemma OpenStep(st: BatchState, item: ScanItem, ctx: GroupingContext)
    requires Shape(st) && Tier1(st, item, ctx).Miss?
    requires MayBind(item, ctx) && ItemHashKey(item, ctx) in st.hashToGroup ==>
               !MidJoinCompatible(st.bound[st.hashToGroup[ItemHashKey(item, ctx)]], item.Mid(), ctx.BlockCrossMid()).0
    ensures var r := BatchStep(st, item, ctx); Puts(st, r, |st.groups|, Seed) && Opens(st, r, item, ctx)
  {
    MayBindIs(item, ctx);
  }

  lemma KeyOwnerStays(items: seq<ScanItem>, ctx: GroupingContext, pl: Placing, n: nat, next: nat, key: Bytes, o: nat)
    requires Fits(items, pl) && next == n + 1 <= |items| && KeyOwner(items, ctx, pl, n, key, o) && !LeadsWith(items, ctx, pl, n, key)
    ensures KeyOwner(items, ctx, pl, next, key, o)
  {
  }

  /** An item that joins a group some member of which has a Message-ID, or has none itself, moves no table. */
  lemma JoinKeepsTables(items: seq<ScanItem>, ctx: GroupingContext, pl: Placing, n: nat, next: nat, st: BatchState, r: BatchState)
    requires Tables(items, ctx, pl, n, st) && next == n + 1 <= |items| && Shape(r) && Stays(st, r)
    requires !Leads(pl, n) && pl.gid[n] < |st.groups| && (Named(items, n) ==> st.bound[pl.gid[n]].Some?)
    ensures Tables(items, ctx, pl, next, r)
  {
    JoinerNamesNothing(items, pl, n, st.bound);
    LedStays(items, ctx, pl, n, next, st, r);
    forall key | key in r.midToGroup
      ensures MidEntry(items, ctx, pl, next, key, r.midToGroup[key])
    {
      MidEntryStays(items, ctx, pl, n, next, key, st.midToGroup[key]);
    }
    JoinKeepsBound(items, pl, n, next, st.bound);
    HashTableStays(items, ctx, pl, n, next, st.hashToGroup);
  }

  lemma JoinerNamesNothing(items: seq<ScanItem>, pl: Placing, n: nat, bound: seq<Option<Bytes>>)
    requires Fits(items, pl) && n < |items| && BoundTable(items, pl, n, bound)
    requires pl.gid[n] < |bound| && (Named(items, n) ==> bound[pl.gid[n]].Some?)
    ensures !FirstNamed(items, pl, n)
  {
    assert BoundEntry(items, pl, n, pl.gid[n], bound[pl.gid[n]]);
  }

  lemma JoinKeepsBound(items: seq<ScanItem>, pl: Placing, n: nat, next: nat, bound: seq<Option<Bytes>>)
    requires Fits(items, pl) && next == n + 1 <= |items| && BoundTable(items, pl, n, bound)
    requires pl.gid[n] < |bound| && (Named(items, n) ==> bound[pl.gid[n]].Some?)
    ensures BoundTable(items, pl, next, bound)
  {
    forall g: nat | g < |bound|
      ensures BoundEntry(items, pl, next, g, bound[g])
    {
      assert BoundEntry(items, pl, n, g, bound[g]);
    }
  }

  lemma MidEntryStays(items: seq<ScanItem>, ctx: GroupingContext, pl: Placing, n: nat, next: nat, key: Bytes, g: nat)
    requires Fits(items, pl) && next == n + 1 <= |items| && MidEntry(items, ctx, pl, n, key, g) && !LeadsWith(items, ctx, pl, n, key)
    ensures MidEntry(items, ctx, pl, next, key, g)
  {
    var o: nat :| KeyOwner(items, ctx, pl, n, key, o) && pl.gid[o] == g;
    KeyOwnerStays(items, ctx, pl, n, next, key, o);
  }

  lemma HashTableStays(items: seq<ScanItem>, ctx: GroupingContext, pl: Placing, n: nat, next: nat, table: map<Bytes, nat>)
    requires Fits(items, pl) && next == n + 1 <= |items| && HashTable(items, ctx, pl, n, table)
    requires forall hkey :: BindsWith(items, ctx, pl, n, hkey) ==> hkey in table
    ensures HashTable(items, ctx, pl, next, table)
  {
    forall hkey | hkey in table
      ensures HashEntry(items, ctx, pl, next, hkey, table[hkey])
    {
      assert HashEntry(items, ctx, pl, n, hkey, table[hkey]);
    }
  }

  lemma LedStays(items: seq<ScanItem>, ctx: GroupingContext, pl: Placing, n: nat, next: nat, st: BatchState, r: BatchState)
    requires Fits(items, pl) && next == n + 1 <= |items| && Shape(st) && Shape(r) && Led(items, ctx, pl, n, st)
    requires r.bindHash == st.bindHash && r.fps == st.fps && |r.groups| == |st.groups| && !Leads(pl, n) && pl.gid[n] < |st.groups|
    ensures Led(items, ctx, pl, next, r)
  {
    forall g: nat | g < |r.groups|
      ensures HasLeader(items, ctx, pl, next, r, g)
    {
      assert HasLeader(items, ctx, pl, n, st, g);
      var l: nat :| LedBy(items, ctx, pl, n, st, g, l);
      assert LedBy(items, ctx, pl, next, r, g, l);
    }
  }

  /** An item that brings a Message-ID to a group without one. */
  lemma AdoptKeepsTables(items: seq<ScanItem>, ctx: GroupingContext, pl: Placing, n: nat, next: nat, st: BatchState, r: BatchState)
    requires Tables(items, ctx, pl, n, st) && next == n + 1 <= |items| && Shape(r)
    requires !Leads(pl, n) && pl.gid[n] < |st.groups| && Adopts(st, r, items[n], ctx, pl.gid[n])
    ensures Tables(items, ctx, pl, next, r)
  {
    AdoptKeepsBound(items, pl, n, next, st.bound);
    LedStays(items, ctx, pl, n, next, st, r);
    AdoptKeepsMids(items, ctx, pl, n, next, st, r);
    HashTableStays(items, ctx, pl, n, next, st.hashToGroup);
  }

  lemma AdoptKeepsMids(items: seq<ScanItem>, ctx: GroupingContext, pl: Placing, n: nat, next: nat, st: BatchState, r: BatchState)
    requires Tables(items, ctx, pl, n, st) && next == n + 1 <= |items| && FirstNamed(items, pl, n)
    requires !Leads(pl, n) && pl.gid[n] < |st.groups| && Adopts(st, r, items[n], ctx, pl.gid[n])
    ensures MidTable(items, ctx, pl, next, r.midToGroup)
  {
    forall key | key in r.midToGroup
      ensures MidEntry(items, ctx, pl, next, key, r.midToGroup[key])
    {
      if key in st.midToGroup {
        MidEntryStays(items, ctx, pl, n, next, key, st.midToGroup[key]);
      } else {
        AdopterOwns(items, ctx, pl, n, next, st, key);
      }
    }
    AdoptListsNames(items, ctx, pl, n, next, st, r);
  }

  lemma AdoptListsNames(items: seq<ScanItem>, ctx: GroupingContext, pl: Placing, n: nat, next: nat, st: BatchState, r: BatchState)
    requires Tables(items, ctx, pl, n, st) && next == n + 1 <= |items| && FirstNamed(items, pl, n)
    requires pl.gid[n] < |st.groups| && Adopts(st, r, items[n], ctx, pl.gid[n])
    ensures forall i: nat, key {:trigger NamesWith(items, ctx, pl, i, key)} | i < next && NamesWith(items, ctx, pl, i, key) :: key in r.midToGroup
  {
  }

  lemma AdoptKeepsBound(items: seq<ScanItem>, pl: Placing, n: nat, next: nat, bound: seq<Option<Bytes>>)
    requires Fits(items, pl) && next == n + 1 <= |items| && BoundTable(items, pl, n, bound)
    requires pl.gid[n] < |bound| && Named(items, n) && bound[pl.gid[n]].None?
    ensures FirstNamed(items, pl, n) && BoundTable(items, pl, next, bound[pl.gid[n] := items[n].Mid()])
  {
    assert BoundEntry(items, pl, n, pl.gid[n], bound[pl.gid[n]]);
    var r := bound[pl.gid[n] := items[n].Mid()];
    forall g: nat | g < |r|
      ensures BoundEntry(items, pl, next, g, r[g])
    {
      assert BoundEntry(items, pl, n, g, bound[g]);
    }
  }

  lemma AdopterOwns(items: seq<ScanItem>, ctx: GroupingContext, pl: Placing, n: nat, next: nat, st: BatchState, key: Bytes)
    requires Tables(items, ctx, pl, n, st) && next == n + 1 <= |items| && !Leads(pl, n)
    requires NamesWith(items, ctx, pl, n, key) && key !in st.midToGroup
    ensures MidEntry(items, ctx, pl, next, key, pl.gid[n])
  {
    forall p: nat | p < n
      ensures !NamesWith(items, ctx, pl, p, key) && !LeadsWith(items, ctx, pl, p, key)
    {
      if LeadsWith(items, ctx, pl, p, key) {
        LeaderNames(items, ctx, pl, n, st, p, key);
      }
    }
    assert KeyOwner(items, ctx, pl, next, key, n);
  }

  lemma LeaderOwns(items: seq<ScanItem>, ctx: GroupingContext, pl: Placing, n: nat, next: nat, key: Bytes)
    requires Fits(items, pl) && next == n + 1 <= |items| && LeadsWith(items, ctx, pl, n, key)
    ensures MidEntry(items, ctx, pl, next, key, pl.gid[n])
  {
    assert KeyOwner(items, ctx, pl, next, key, n);
  }

  /** An item that opens a group. */
  lemma OpenKeepsTables(items: seq<ScanItem>, ctx: GroupingContext, pl: Placing, n: nat, next: nat, st: BatchState, r: BatchState)
    requires Tables(items, ctx, pl, n, st) && next == n + 1 <= |items| && Shape(r)
    requires Leads(pl, n) && pl.gid[n] == |st.groups| && Opens(st, r, items[n], ctx)
    ensures Tables(items, ctx, pl, next, r)
  {
    OpenKeepsLed(items, ctx, pl, n, next, st, r);
    OpenKeepsMids(items, ctx, pl, n, next, st, r);
    OpenKeepsBound(items, ctx, pl, n, next, st, r);
    OpenKeepsHashes(items, ctx, pl, n, next, st, r);
  }

  lemma OpenKeepsMids(items: seq<ScanItem>, ctx: GroupingContext, pl: Placing, n: nat, next: nat, st: BatchState, r: BatchState)
    requires Tables(items, ctx, pl, n, st) && next == n + 1 <= |items|
    requires Leads(pl, n) && pl.gid[n] == |st.groups| && Opens(st, r, items[n], ctx)
    ensures MidTable(items, ctx, pl, next, r.midToGroup)
  {
    forall key | key in r.midToGroup
      ensures MidEntry(items, ctx, pl, next, key, r.midToGroup[key])
    {
      if LeadsWith(items, ctx, pl, n, key) {
        LeaderOwns(items, ctx, pl, n, next, key);
      } else {
        MidEntryStays(items, ctx, pl, n, next, key, st.midToGroup[key]);
      }
    }
  }

  lemma OpenKeepsBound(items: seq<ScanItem>, ctx: GroupingContext, pl: Placing, n: nat, next: nat, st: BatchState, r: BatchState)
    requires Tables(items, ctx, pl, n, st) && next == n + 1 <= |items|
    requires Leads(pl, n) && pl.gid[n] == |st.groups| && Opens(st, r, items[n], ctx)
    ensures BoundTable(items, pl, next, r.bound)
  {
    forall g: nat | g < |r.bound|
      ensures BoundEntry(items, pl, next, g, r.bound[g])
    {
      if g < |st.bound| {
        assert BoundEntry(items, pl, n, g, st.bound[g]) && r.bound[g] == st.bound[g];
      } else {
        assert forall i: nat | i < n :: pl.gid[i] < |st.groups|;
        assert Named(items, n) ==> FirstNamed(items, pl, n);
      }
    }
  }

  lemma OpenKeepsHashes(items: seq<ScanItem>, ctx: GroupingContext, pl: Placing, n: nat, next: nat, st: BatchState, r: BatchState)
    requires Tables(items, ctx, pl, n, st) && next == n + 1 <= |items|
    requires Leads(pl, n) && pl.gid[n] == |st.groups| && Opens(st, r, items[n], ctx)
    ensures HashTable(items, ctx, pl, next, r.hashToGroup)
  {
    forall hkey | hkey in r.hashToGroup
      ensures HashEntry(items, ctx, pl, next, hkey, r.hashToGroup[hkey])
    {
      if hkey in st.hashToGroup {
        assert HashEntry(items, ctx, pl, n, hkey, st.hashToGroup[hkey]);
      } else {
        assert BindsWith(items, ctx, pl, n, hkey) && forall p: nat | p < n :: !BindsWith(items, ctx, pl, p, hkey);
      }
    }
  }

  lemma OpenKeepsLed(items: seq<ScanItem>, ctx: GroupingContext, pl: Placing, n: nat, next: nat, st: BatchState, r: BatchState)
    requires Tables(items, ctx, pl, n, st) && next == n + 1 <= |items| && Shape(r)
    requires Leads(pl, n) && pl.gid[n] == |st.groups| && Opens(st, r, items[n], ctx)
    ensures Led(items, ctx, pl, next, r)
  {
    forall g: nat | g < |r.groups|
      ensures HasLeader(items, ctx, pl, next, r, g)
    {
      if g < |st.groups| {
        assert HasLeader(items, ctx, pl, n, st, g);
        var l: nat :| LedBy(items, ctx, pl, n, st, g, l);
        assert LedBy(items, ctx, pl, next, r, g, l);
      } else {
        assert LedBy(items, ctx, pl, next, r, g, n);
      }
    }
  }

  // ---- the pass follows the rules ----

  /** Item n of the placing is the one the step put last. */
  ghost predicate Placed(pl: Placing, n: nat, r: BatchState) {
    n < |pl.gid| == |pl.tags| && |r.gidOf| == |r.boundBy| == n + 1 && pl.gid[n] == r.gidOf[n] && pl.tags[n] == r.boundBy[n]
  }

  /** No group takes the item by its content. */
  lemma NoContentPlace(items: seq<ScanItem>, ctx: GroupingContext, pl: Placing, n: nat, st: BatchState, g: nat)
    requires Tables(items, ctx, pl, n, st) && n < |items|
    requires MayBind(items[n], ctx) && ItemHashKey(items[n], ctx) in st.hashToGroup ==>
               !MidJoinCompatible(st.bound[st.hashToGroup[ItemHashKey(items[n], ctx)]], items[n].Mid(), ctx.BlockCrossMid()).0
    ensures !PlacedByContent(items, ctx, pl, n, g)
  {
    HashOwner(items, ctx, pl, n, st);
    if PlacedByContent(items, ctx, pl, n, g) {
      BoundIs(items, ctx, pl, n, st, st.hashToGroup[ItemHashKey(items[n], ctx)]);
    }
  }

  lemma ContentPlace(items: seq<ScanItem>, ctx: GroupingContext, pl: Placing, n: nat, st: BatchState, g: nat)
    requires Tables(items, ctx, pl, n, st) && n < |items| && MayBind(items[n], ctx)
    requires ItemHashKey(items[n], ctx) in st.hashToGroup && g == st.hashToGroup[ItemHashKey(items[n], ctx)]
    requires MidJoinCompatible(st.bound[g], items[n].Mid(), ctx.BlockCrossMid()).0
    ensures PlacedByContent(items, ctx, pl, n, g)
  {
    HashOwner(items, ctx, pl, n, st);
    BoundIs(items, ctx, pl, n, st, g);
  }

  lemma StepByMid(items: seq<ScanItem>, ctx: GroupingContext, pl: Placing, n: nat, next: nat, st: BatchState, r: BatchState)
    requires Tables(items, ctx, pl, n, st) && next == n + 1 <= |items| && |st.gidOf| == |st.boundBy| == n
    requires r == BatchStep(st, items[n], ctx) && Placed(pl, n, r) && Tier1(st, items[n], ctx).Hit?
    ensures Tables(items, ctx, pl, next, r) && Ruled(items, ctx, pl, n)
  {
    Tier1Decides(items, ctx, pl, n, st);
    HitStep(st, items[n], ctx);
    OwnerIsBound(items, ctx, pl, n, st, pl.gid[n]);
    JoinKeepsTables(items, ctx, pl, n, next, st, r);
  }

  /** A group that owns a Message-ID key is bound. */
  lemma OwnerIsBound(items: seq<ScanItem>, ctx: GroupingContext, pl: Placing, n: nat, st: BatchState, g: nat)
    requires Tables(items, ctx, pl, n, st) && n < |items| && g < |st.groups| && PlacedByMid(items, ctx, pl, n, g)
    ensures st.bound[g].Some?
  {
    var o: nat :| KeyOwner(items, ctx, pl, n, M.KeyOf(items[n], ctx), o) && pl.gid[o] == g;
    OwnerNames(items, ctx, pl, n, st, M.KeyOf(items[n], ctx), o);
    assert BoundEntry(items, pl, n, g, st.bound[g]);
  }

  lemma StepByContent(items: seq<ScanItem>, ctx: GroupingContext, pl: Placing, n: nat, next: nat, st: BatchState, r: BatchState, g: nat)
    requires Tables(items, ctx, pl, n, st) && next == n + 1 <= |items| && |st.gidOf| == |st.boundBy| == n
    requires r == BatchStep(st, items[n], ctx) && Placed(pl, n, r) && Tier1(st, items[n], ctx).Miss? && MayBind(items[n], ctx)
    requires ItemHashKey(items[n], ctx) in st.hashToGroup && g == st.hashToGroup[ItemHashKey(items[n], ctx)]
    requires MidJoinCompatible(st.bound[g], items[n].Mid(), ctx.BlockCrossMid()).0
    ensures Tables(items, ctx, pl, next, r) && Ruled(items, ctx, pl, n)
  {
    var tag := if ctx.identity.Off? || ctx.identity.V1? then ByContentHash else ByStrongContentHash;
    Tier1Decides(items, ctx, pl, n, st);
    HashJoinStep(st, items[n], ctx, g, tag);
    ContentPlace(items, ctx, pl, n, st, g);
    if items[n].Mid().Some? && st.bound[g].None? {
      AdoptKeepsTables(items, ctx, pl, n, next, st, r);
    } else {
      JoinKeepsTables(items, ctx, pl, n, next, st, r);
    }
  }

  lemma StepOpens(items: seq<ScanItem>, ctx: GroupingContext, pl: Placing, n: nat, next: nat, st: BatchState, r: BatchState)
    requires Tables(items, ctx, pl, n, st) && next == n + 1 <= |items| && |st.gidOf| == |st.boundBy| == n
    requires r == BatchStep(st, items[n], ctx) && Placed(pl, n, r) && Tier1(st, items[n], ctx).Miss?
    requires MayBind(items[n], ctx) && ItemHashKey(items[n], ctx) in st.hashToGroup ==>
               !MidJoinCompatible(st.bound[st.hashToGroup[ItemHashKey(items[n], ctx)]], items[n].Mid(), ctx.BlockCrossMid()).0
    ensures Tables(items, ctx, pl, next, r) && Ruled(items, ctx, pl, n)
  {
    Tier1Decides(items, ctx, pl, n, st);
    OpenStep(st, items[n], ctx);
    forall g: nat
      ensures !PlacedByContent(items, ctx, pl, n, g)
    {
      NoContentPlace(items, ctx, pl, n, st, g);
    }
    OpenKeepsTables(items, ctx, pl, n, next, st, r);
  }

  lemma StepFollows(items: seq<ScanItem>, ctx: GroupingContext, pl: Placing, n: nat, next: nat, st: BatchState, r: BatchState)
    requires Tables(items, ctx, pl, n, st) && next == n + 1 <= |items| && |st.gidOf| == |st.boundBy| == n
    requires r == BatchStep(st, items[n], ctx) && Placed(pl, n, r)
    ensures Tables(items, ctx, pl, next, r) && Ruled(items, ctx, pl, n)
  {
    if Tier1(st, items[n], ctx).Hit? {
      StepByMid(items, ctx, pl, n, next, st, r);
    } else if MayBind(items[n], ctx) && ItemHashKey(items[n], ctx) in st.hashToGroup
              && MidJoinCompatible(st.bound[st.hashToGroup[ItemHashKey(items[n], ctx)]], items[n].Mid(), ctx.BlockCrossMid()).0 {
      StepByContent(items, ctx, pl, n, next, st, r, st.hashToGroup[ItemHashKey(items[n], ctx)]);
    } else {
      StepOpens(items, ctx, pl, n, next, st, r);
    }
  }

  /** What the pass decides. */
  function RunPlacing(items: seq<ScanItem>, ctx: GroupingContext): Placing {
    Placing(BatchRun(items, ctx).gidOf, BatchRun(items, ctx).boundBy)
  }

  lemma RunPlaced(items: seq<ScanItem>, ctx: GroupingContext, n: nat, r: BatchState)
    requires n < |items| && r == BatchRun(items[..n + 1], ctx)
    ensures Fits(items, RunPlacing(items, ctx)) && Placed(RunPlacing(items, ctx), n, r)
  {
    RunExtends(items, n + 1, ctx);
    BatchRunInv(items, ctx);
    BatchRunInv(items[..n + 1], ctx);
  }

  lemma NothingSeen(items: seq<ScanItem>, ctx: GroupingContext, pl: Placing)
    requires Fits(items, pl)
    ensures Tables(items, ctx, pl, 0, EMPTY)
  {
  }

  lemma {:induction false} RunTables(items: seq<ScanItem>, ctx: GroupingContext, n: nat)
    requires n <= |items|
    ensures Tables(items, ctx, RunPlacing(items, ctx), n, BatchRun(items[..n], ctx))
  {
    var pl := RunPlacing(items, ctx);
    if n == 0 {
      BatchRunInv(items, ctx);
      assert items[..n] == [];
      NothingSeen(items, ctx, pl);
    } else {
      var m := n - 1;
      RunTables(items, ctx, m);
      RunStep(items, ctx, m, n);
    }
  }

  lemma RunStep(items: seq<ScanItem>, ctx: GroupingContext, n: nat, next: nat)
    requires next == n + 1 <= |items| && Tables(items, ctx, RunPlacing(items, ctx), n, BatchRun(items[..n], ctx))
    ensures Tables(items, ctx, RunPlacing(items, ctx), next, BatchRun(items[..next], ctx)) && Ruled(items, ctx, RunPlacing(items, ctx), n)
  {
    BatchRunInv(items[..n], ctx);
    BatchRunAppend(items, n, ctx);
    RunPlaced(items, ctx, n, BatchRun(items[..next], ctx));
    StepFollows(items, ctx, RunPlacing(items, ctx), n, next, BatchRun(items[..n], ctx), BatchRun(items[..next], ctx));
  }

  /** For every item list and context the pass follows the rules. */
  lemma RunFollowsRules(items: seq<ScanItem>, ctx: GroupingContext)
    ensures FollowsRules(items, ctx, RunPlacing(items, ctx))
  {
    BatchRunInv(items, ctx);
    forall n: nat | n < |items|
      ensures Ruled(items, ctx, RunPlacing(items, ctx), n)
    {
      RunTables(items, ctx, n);
      RunStep(items, ctx, n, n + 1);
    }
  }

  /** Whatever follows the rules is what the pass decides. */
  lemma RulesAreTheRun(items: seq<ScanItem>, ctx: GroupingContext, pl: Placing)
    ensures FollowsRules(items, ctx, pl) <==> pl == RunPlacing(items, ctx)
  {
    RunFollowsRules(items, ctx);
    if FollowsRules(items, ctx, pl) {
      RulesDecide(items, ctx, pl, RunPlacing(items, ctx), |items|);
      assert pl.gid[..|items|] == pl.gid && pl.tags[..|items|] == pl.tags;
      assert RunPlacing(items, ctx).gid[..|items|] == RunPlacing(items, ctx).gid && RunPlacing(items, ctx).tags[..|items|] == RunPlacing(items, ctx).tags;
    }
  }

  // ---- what the rules mean for two items ----

  /** A group has one leader, and it comes first. */
  lemma OneLeader(items: seq<ScanItem>, ctx: GroupingContext, i: nat, j: nat)
    requires i < |items| && j < |items| && Fits(items, RunPlacing(items, ctx)) && Leads(RunPlacing(items, ctx), i)
    requires RunPlacing(items, ctx).gid[i] == RunPlacing(items, ctx).gid[j]
    ensures i <= j && (Leads(RunPlacing(items, ctx), j) ==> i == j)
  {
    var pl, st := RunPlacing(items, ctx), BatchRun(items, ctx);
    RunTables(items, ctx, |items|);
    assert items[..|items|] == items;
    assert HasLeader(items, ctx, pl, |items|, st, pl.gid[i]);
  }

  /** An item tagged as a duplicate by content has the binding content, and the partition, of the item that opened its group. */
  lemma HashTagMeans(items: seq<ScanItem>, ctx: GroupingContext, i: nat) returns (s: nat)
    requires i < |items| && Fits(items, RunPlacing(items, ctx))
    requires BatchRun(items, ctx).boundBy[i] == ByContentHash || BatchRun(items, ctx).boundBy[i] == ByStrongContentHash
    ensures s < i && BatchRun(items, ctx).boundBy[s] == Seed && BatchRun(items, ctx).gidOf[s] == BatchRun(items, ctx).gidOf[i]
    ensures MayBind(items[s], ctx) && MayBind(items[i], ctx) && SamePartition(items[s], items[i], ctx.scope)
    ensures if ctx.identity.Off? || ctx.identity.V1?
            then BatchRun(items, ctx).boundBy[i] == ByContentHash && items[s].contentHash == items[i].contentHash
            else && BatchRun(items, ctx).boundBy[i] == ByStrongContentHash
                 && Standing(items[s].contentHash, items[s].strongHash) == Standing(items[i].contentHash, items[i].strongHash)
  {
    var pl := RunPlacing(items, ctx);
    RunFollowsRules(items, ctx);
    assert Ruled(items, ctx, pl, i);
    s :| ContentOwner(items, ctx, pl, i, items[i], s) && pl.gid[s] == pl.gid[i];
  }

  /** The first item that opened a group with the content of an item without a Message-ID opened that item's group. */
  lemma Head(items: seq<ScanItem>, ctx: GroupingContext, i: nat) returns (s: nat)
    requires i < |items| && Fits(items, RunPlacing(items, ctx)) && items[i].Mid().None? && MayBind(items[i], ctx)
    ensures s <= i && MayOwn(items, ctx, RunPlacing(items, ctx), s, items[i])
    ensures RunPlacing(items, ctx).gid[s] == RunPlacing(items, ctx).gid[i]
    ensures forall p: nat | p < s :: !MayOwn(items, ctx, RunPlacing(items, ctx), p, items[i])
  {
    var pl := RunPlacing(items, ctx);
    RunFollowsRules(items, ctx);
    assert Ruled(items, ctx, pl, i);
    if exists g: nat :: PlacedByContent(items, ctx, pl, i, g) {
      s :| ContentOwner(items, ctx, pl, i, items[i], s) && pl.gid[s] == pl.gid[i];
    } else {
      s := i;
      NoOwnerBefore(items, ctx, pl, i);
    }
  }

  lemma NoOwnerBefore(items: seq<ScanItem>, ctx: GroupingContext, pl: Placing, i: nat)
    requires Fits(items, pl) && i < |items| && items[i].Mid().None? && MayBind(items[i], ctx)
    requires forall g: nat :: !PlacedByContent(items, ctx, pl, i, g)
    ensures forall p: nat | p < i :: !MayOwn(items, ctx, pl, p, items[i])
  {
    forall p: nat | p < i
      ensures !MayOwn(items, ctx, pl, p, items[i])
    {
      if MayOwn(items, ctx, pl, p, items[i]) {
        var s := FirstOwner(items, ctx, pl, items[i], p);
        assert ContentOwner(items, ctx, pl, i, items[i], s);
        assert PlacedByContent(items, ctx, pl, i, pl.gid[s]);
      }
    }
  }

  lemma FirstOwner(items: seq<ScanItem>, ctx: GroupingContext, pl: Placing, item: ScanItem, p: nat) returns (s: nat)
    requires Fits(items, pl) && p < |items| && MayOwn(items, ctx, pl, p, item)
    ensures s <= p && MayOwn(items, ctx, pl, s, item) && forall q: nat | q < s :: !MayOwn(items, ctx, pl, q, item)
  {
    s := 0;
    while !MayOwn(items, ctx, pl, s, item)
      invariant s <= p && forall q: nat | q < s :: !MayOwn(items, ctx, pl, q, item)
      decreases p - s
    {
      s := s + 1;
    }
  }

  /** Two items without Message-IDs that may bind share a group if and only if partition and binding content are the same. */
  lemma BareItemsMeet(items: seq<ScanItem>, ctx: GroupingContext, i: nat, j: nat)
    requires i <= j < |items| && items[i].Mid().None? && items[j].Mid().None? && MayBind(items[i], ctx) && MayBind(items[j], ctx)
    ensures |BatchRun(items, ctx).gidOf| == |items|
    ensures BatchRun(items, ctx).gidOf[i] == BatchRun(items, ctx).gidOf[j] <==>
            SamePartition(items[i], items[j], ctx.scope) && SameContent(items[i], items[j], ctx.identity)
  {
    BatchRunInv(items, ctx);
    var pl := RunPlacing(items, ctx);
    var a := Head(items, ctx, i);
    var b := Head(items, ctx, j);
    if pl.gid[i] == pl.gid[j] {
      OneLeader(items, ctx, a, b);
    }
    if SamePartition(items[i], items[j], ctx.scope) && SameContent(items[i], items[j], ctx.identity) {
      assert MayOwn(items, ctx, pl, a, items[j]) && MayOwn(items, ctx, pl, b, items[i]);
    }
  }

  /** An item without a Message-ID that may not bind stays alone. */
  lemma {:induction false} LoneItem(items: seq<ScanItem>, ctx: GroupingContext, i: nat, j: nat)
    requires i < |items| && j < |items| && items[i].Mid().None? && !MayBind(items[i], ctx)
    requires Fits(items, RunPlacing(items, ctx)) && RunPlacing(items, ctx).gid[i] == RunPlacing(items, ctx).gid[j]
    ensures i == j && BatchRun(items, ctx).boundBy[i] == Seed
    decreases j
  {
    var pl := RunPlacing(items, ctx);
    RunFollowsRules(items, ctx);
    assert Ruled(items, ctx, pl, i) && Ruled(items, ctx, pl, j);
    OneLeader(items, ctx, i, j);
    if i != j {
      if PlacedByMid(items, ctx, pl, j, pl.gid[j]) {
        var o: nat :| KeyOwner(items, ctx, pl, j, M.KeyOf(items[j], ctx), o) && pl.gid[o] == pl.gid[j];
        LoneItem(items, ctx, i, o);
      } else {
        var s: nat :| ContentOwner(items, ctx, pl, j, items[j], s) && pl.gid[s] == pl.gid[j];
        LoneItem(items, ctx, i, s);
      }
    }
  }
}
