/** When the backfill pass keeps one Message-ID per group. */
module BackfillAuthority {
  import opened Common
  import opened Grouping
  import opened ScanItems
  import opened GroupLists
  import opened BatchGrouping
  import opened Components
  import opened BackfillLinks
  import opened GroupCandidates
  import M = MidAuthority
  import R = GroupingRules

  // ---- a group's Message-ID is one of its members' ----

  ghost predicate HasMember(items: seq<ScanItem>, gidOf: seq<nat>, g: nat, mid: Option<Bytes>)
    requires |gidOf| == |items|
  {
    exists i :: 0 <= i < |items| && gidOf[i] == g && items[i].Mid() == mid
  }

  ghost predicate BoundByMembers(items: seq<ScanItem>, st: BatchState)
    requires Shape(st)
  {
    |st.gidOf| == |items| && forall g | 0 <= g < |st.groups| && st.bound[g].Some? :: HasMember(items, st.gidOf, g, st.bound[g])
  }

  /** A bound Message-ID is the one its group's first member with a Message-ID brought. */
  lemma RunKeepsMembers(items: seq<ScanItem>, ctx: GroupingContext)
    ensures BoundByMembers(items, BatchRun(items, ctx))
  {
    var st := BatchRun(items, ctx);
    BatchRunInv(items, ctx);
    R.RunTables(items, ctx, |items|);
    assert items[..|items|] == items;
    forall g | 0 <= g < |st.groups| && st.bound[g].Some?
      ensures HasMember(items, st.gidOf, g, st.bound[g])
    {
      assert R.BoundEntry(items, R.RunPlacing(items, ctx), |items|, g, st.bound[g]);
    }
  }

  // ---- links lead from bound groups to unbound ones ----

  ghost predicate Guarded(items: seq<ScanItem>, ctx: GroupingContext) {
    ctx.BlockCrossMid() && ctx.tier1Verify.NoVerify? && ctx.tier1Backfill && (ctx.scope.PerSource? ==> M.NulFree(items))
  }

  /** Two groups bound to the same key are one group. */
  lemma BoundGroupsDiffer(items: seq<ScanItem>, ctx: GroupingContext, a: nat, b: nat)
    requires Guarded(items, ctx)
    requires var st := BatchRun(items, ctx);
             && a < |st.groups| && b < |st.groups| && st.bound[a].Some? && st.bound[a] == st.bound[b]
             && st.groups[a] != [] && st.groups[b] != [] && st.groups[a][0] < |items| && st.groups[b][0] < |items|
             && ScopePrefix(ctx.scope, items[st.groups[a][0]].pathKey) == ScopePrefix(ctx.scope, items[st.groups[b][0]].pathKey)
    ensures a == b
  {
    var st := BatchRun(items, ctx);
    RunKeepsMembers(items, ctx);
    M.RunKeepsPrefix(items, ctx);
    assert HasMember(items, st.gidOf, a, st.bound[a]) && HasMember(items, st.gidOf, b, st.bound[b]);
    var i :| 0 <= i < |items| && st.gidOf[i] == a && items[i].Mid() == st.bound[a];
    var j :| 0 <= j < |items| && st.gidOf[j] == b && items[j].Mid() == st.bound[b];
    M.SameGroupIffSameKey(items, ctx, i, j);
  }

  lemma LinkFacts(bound: seq<Option<Bytes>>, graph: Edges, a: nat, b: nat)
    requires Adjacent(graph, a, b) && forall c, d | (c, d) in graph :: c < |bound| && d < |bound| && Mergeable(bound, c, d)
    requires forall g | 0 <= g < |bound| && bound[g].Some? :: bound[g].value != []
    ensures a < |bound| && b < |bound| && (bound[a].Some? || bound[b].Some?)
    ensures bound[a].Some? && bound[b].Some? ==> bound[a] == bound[b]
  {
  }

  lemma LinkShape(items: seq<ScanItem>, ctx: GroupingContext, a: nat, b: nat)
    requires Guarded(items, ctx) && |BatchRun(items, ctx).gidOf| == |items| && Adjacent(BackfillGraph(items, ctx), a, b) && a != b
    ensures var st := BatchRun(items, ctx);
            a < |st.groups| && b < |st.groups| && (st.bound[a].Some? <==> st.bound[b].None?)
  {
    var st := BatchRun(items, ctx);
    BatchRunInv(items, ctx);
    forall g | 0 <= g < |st.bound| && st.bound[g].Some?
      ensures st.bound[g].value != []
    {
      assert GroupGrounded(items, ctx, st, g);
    }
    LinkFacts(st.bound, BackfillGraph(items, ctx), a, b);
    if st.bound[a].Some? && st.bound[b].Some? {
      LinkedSeeds(items, ctx, a, b);
      BoundGroupsDiffer(items, ctx, a, b);
    }
  }

  lemma LinkedSeeds(items: seq<ScanItem>, ctx: GroupingContext, a: nat, b: nat)
    requires Guarded(items, ctx) && |BatchRun(items, ctx).gidOf| == |items| && Adjacent(BackfillGraph(items, ctx), a, b)
    requires Inv(items, ctx, BatchRun(items, ctx))
    ensures var st := BatchRun(items, ctx);
            && a < |st.groups| && b < |st.groups| && st.groups[a] != [] && st.groups[b] != []
            && st.groups[a][0] < |items| && st.groups[b][0] < |items|
            && ScopePrefix(ctx.scope, items[st.groups[a][0]].pathKey) == ScopePrefix(ctx.scope, items[st.groups[b][0]].pathKey)
  {
    var st := BatchRun(items, ctx);
    if ctx.scope.PerSource? {
      LinkStaysInSource(items, ctx, a, b);
    } else {
      assert GroupGrounded(items, ctx, st, a) && GroupGrounded(items, ctx, st, b);
    }
  }

  /** No group without a Message-ID is linked to two groups that have one. */
  ghost predicate OneNeighbour(items: seq<ScanItem>, ctx: GroupingContext)
    requires |BatchRun(items, ctx).gidOf| == |items|
  {
    var st := BatchRun(items, ctx);
    var graph := BackfillGraph(items, ctx);
    forall u: nat, a: nat, b: nat {:trigger Adjacent(graph, u, a), Adjacent(graph, u, b)} ::
      (Adjacent(graph, u, a) && Adjacent(graph, u, b) && u < |st.groups| && a < |st.groups| && b < |st.groups|
       && st.bound[u].None? && st.bound[a].Some? && st.bound[b].Some?) ==> a == b
  }

  ghost predicate Neighbour(st: BatchState, graph: Edges, g: nat, a: nat)
    requires Shape(st)
  {
    a < |st.groups| && st.bound[a].Some? && Adjacent(graph, g, a)
  }

  /** The bound group a group belongs to, or itself. */
  ghost function Anchor(st: BatchState, graph: Edges, g: nat): nat
    requires Shape(st) && g < |st.groups|
  {
    if st.bound[g].None? && exists a: nat :: Neighbour(st, graph, g, a) then
      var a: nat :| Neighbour(st, graph, g, a);
      a
    else g
  }

  lemma AnchorsAgree(items: seq<ScanItem>, ctx: GroupingContext, a: nat, b: nat)
    requires Guarded(items, ctx) && |BatchRun(items, ctx).gidOf| == |items| && OneNeighbour(items, ctx)
    requires var st := BatchRun(items, ctx); a < |st.groups| && b < |st.groups|
    requires Adjacent(BackfillGraph(items, ctx), a, b)
    ensures var st := BatchRun(items, ctx);
            Anchor(st, BackfillGraph(items, ctx), a) == Anchor(st, BackfillGraph(items, ctx), b)
  {
    var st, graph := BatchRun(items, ctx), BackfillGraph(items, ctx);
    if a != b {
      LinkShape(items, ctx, a, b);
      var (u, c) := if st.bound[a].None? then (a, b) else (b, a);
      assert Neighbour(st, graph, u, c);
      var d := Anchor(st, graph, u);
      assert Neighbour(st, graph, u, d) && Adjacent(graph, u, c) && Adjacent(graph, u, d);
    }
  }

  lemma TogetherSameAnchor(items: seq<ScanItem>, ctx: GroupingContext, i: nat, j: nat)
    requires Guarded(items, ctx) && |BatchRun(items, ctx).gidOf| == |items| && OneNeighbour(items, ctx)
    requires i < |items| && j < |items| && Together(items, ctx, i, j)
    ensures var st := BatchRun(items, ctx);
            && st.gidOf[i] < |st.groups| && st.gidOf[j] < |st.groups|
            && Anchor(st, BackfillGraph(items, ctx), st.gidOf[i]) == Anchor(st, BackfillGraph(items, ctx), st.gidOf[j])
  {
    var st, graph := BatchRun(items, ctx), BackfillGraph(items, ctx);
    BatchRunInv(items, ctx);
    var p :| Joins(graph, p, st.gidOf[i], st.gidOf[j]);
    PathWithin(graph, |st.groups|, p);
    var tag := seq(|st.groups|, g requires 0 <= g < |st.groups| => Anchor(st, graph, g));
    forall a: nat, b: nat | Adjacent(graph, a, b) && a < |tag| && b < |tag|
      ensures tag[a] == tag[b]
    {
      AnchorsAgree(items, ctx, a, b);
    }
    LabelConstantOnPath(graph, tag, p);
  }

  /** Items with Message-IDs that end up together have the same Message-ID key. */
  ghost predicate AuthorityKept(items: seq<ScanItem>, ctx: GroupingContext)
    requires |BatchRun(items, ctx).gidOf| == |items|
  {
    forall i: nat, j: nat {:trigger Together(items, ctx, i, j)} ::
      (i < |items| && j < |items| && items[i].Mid().Some? && items[j].Mid().Some? && Together(items, ctx, i, j)) ==>
        M.KeyOf(items[i], ctx) == M.KeyOf(items[j], ctx)
  }

  lemma OneNeighbourSuffices(items: seq<ScanItem>, ctx: GroupingContext)
    requires Guarded(items, ctx) && |BatchRun(items, ctx).gidOf| == |items| && OneNeighbour(items, ctx)
    ensures AuthorityKept(items, ctx)
  {
    forall i: nat, j: nat | i < |items| && j < |items| && items[i].Mid().Some? && items[j].Mid().Some? && Together(items, ctx, i, j)
      ensures M.KeyOf(items[i], ctx) == M.KeyOf(items[j], ctx)
    {
      TogetherSameKey(items, ctx, i, j);
    }
  }

  lemma TogetherSameKey(items: seq<ScanItem>, ctx: GroupingContext, i: nat, j: nat)
    requires Guarded(items, ctx) && |BatchRun(items, ctx).gidOf| == |items| && OneNeighbour(items, ctx)
    requires i < |items| && j < |items| && items[i].Mid().Some? && items[j].Mid().Some? && Together(items, ctx, i, j)
    ensures M.KeyOf(items[i], ctx) == M.KeyOf(items[j], ctx)
  {
    var st := BatchRun(items, ctx);
    M.RunKeepsAuthority(items, ctx);
    TogetherSameAnchor(items, ctx, i, j);
    assert M.StandsFor(items, ctx, st, st.gidOf[i], M.KeyOf(items[i], ctx));
    assert M.StandsFor(items, ctx, st, st.gidOf[j], M.KeyOf(items[j], ctx));
  }

  lemma TwoNeighboursBreak(items: seq<ScanItem>, ctx: GroupingContext, u: nat, a: nat, b: nat)
    requires Guarded(items, ctx) && |BatchRun(items, ctx).gidOf| == |items|
    requires var st := BatchRun(items, ctx); Neighbour(st, BackfillGraph(items, ctx), u, a) && Neighbour(st, BackfillGraph(items, ctx), u, b)
    requires a != b
    ensures !AuthorityKept(items, ctx)
  {
    var st, graph := BatchRun(items, ctx), BackfillGraph(items, ctx);
    RunKeepsMembers(items, ctx);
    assert HasMember(items, st.gidOf, a, st.bound[a]) && HasMember(items, st.gidOf, b, st.bound[b]);
    var i: nat :| i < |items| && st.gidOf[i] == a && items[i].Mid() == st.bound[a];
    var j: nat :| j < |items| && st.gidOf[j] == b && items[j].Mid() == st.bound[b];
    ConnectedEdge(graph, a, u);
    ConnectedEdge(graph, u, b);
    ConnectedTrans(graph, a, u, b);
    assert Together(items, ctx, i, j);
    M.SameGroupIffSameKey(items, ctx, i, j);
  }

  /**
   Backfill is decided against the Message-IDs the groups had before it, so it can bring two of them together. It keeps
   one Message-ID per group exactly when no group without one is linked to two groups with one.
   */
  lemma BackfillKeepsAuthorityIff(items: seq<ScanItem>, ctx: GroupingContext)
    requires Guarded(items, ctx)
    ensures |BatchRun(items, ctx).gidOf| == |items|
    ensures AuthorityKept(items, ctx) <==> OneNeighbour(items, ctx)
  {
    var st := BatchRun(items, ctx);
    BatchRunInv(items, ctx);
    var graph := BackfillGraph(items, ctx);
    if OneNeighbour(items, ctx) {
      OneNeighbourSuffices(items, ctx);
    } else {
      var u: nat, a: nat, b: nat :|
        Adjacent(graph, u, a) && Adjacent(graph, u, b) && u < |st.groups| && a < |st.groups| && b < |st.groups|
        && st.bound[u].None? && st.bound[a].Some? && st.bound[b].Some? && a != b;
      assert Neighbour(st, graph, u, a) && Neighbour(st, graph, u, b);
      TwoNeighboursBreak(items, ctx, u, a, b);
    }
  }

  /** It does break: a copy without a Message-ID between two copies with different ones. */
  lemma BackfillBreaksAuthority(items: seq<ScanItem>, a: ScanItem, b: ScanItem, c: ScanItem, ctx: GroupingContext)
    requires Guarded(items, ctx) && items == [a, b, c] && !ctx.tier2Enabled
    requires a.Mid().Some? && b.Mid().None? && c.Mid().Some? && a.Mid() != c.Mid()
    requires a.pathKey == b.pathKey == c.pathKey && a.contentHash == b.contentHash == c.contentHash
    ensures |BatchRun(items, ctx).gidOf| == |items| && !AuthorityKept(items, ctx)
  {
    var st := BatchRun(items, ctx);
    ThreeApart(items, a, b, c, ctx);
    BatchRunInv(items, ctx);
    LinksContain(items, ctx, st.gidOf, st.bound, 1, 0);
    LinksContain(items, ctx, st.gidOf, st.bound, 1, 2);
    TwoNeighboursBreak(items, ctx, 1, 0, 2);
  }

  lemma ThreeApart(items: seq<ScanItem>, a: ScanItem, b: ScanItem, c: ScanItem, ctx: GroupingContext)
    requires items == [a, b, c] && !ctx.tier2Enabled && ctx.tier1Verify.NoVerify?
    requires a.Mid().Some? && b.Mid().None? && c.Mid().Some? && a.Mid() != c.Mid() && a.pathKey == c.pathKey
    ensures var st := BatchRun(items, ctx); st.gidOf == [0, 1, 2] && st.bound == [a.Mid(), None, c.Mid()]
  {
    TwoApart(items, a, b, ctx, BatchRun(items[..2], ctx));
    BatchRunAppend(items, 2, ctx);
    assert items[..3] == items;
    var p := ScopePrefix(ctx.scope, a.pathKey);
    var ka, kc := MidKey(ctx.scope, a.pathKey, a.Mid().value), MidKey(ctx.scope, c.pathKey, c.Mid().value);
    assert ka[|p|..] == a.Mid().value && kc[|p|..] == c.Mid().value;
    StepApart(BatchRun(items[..2], ctx), c, ctx);
  }

  lemma TwoApart(items: seq<ScanItem>, a: ScanItem, b: ScanItem, ctx: GroupingContext, two: BatchState)
    requires |items| >= 2 && items[0] == a && items[1] == b && !ctx.tier2Enabled && a.Mid().Some? && b.Mid().None?
    requires two == BatchRun(items[..2], ctx)
    ensures two.gidOf == [0, 1] && |two.groups| == 2 && two.bound == [a.Mid(), None]
    ensures two.midToGroup == map[MidKey(ctx.scope, a.pathKey, a.Mid().value) := 0]
  {
    BatchRunAppend(items, 0, ctx);
    BatchRunAppend(items, 1, ctx);
    assert items[..0] == [];
    StepApart(EMPTY, a, ctx);
    StepApart(BatchRun(items[..1], ctx), b, ctx);
  }

  /** Without hash binding an item with a new Message-ID, or none, starts its own group. */
  lemma StepApart(st: BatchState, item: ScanItem, ctx: GroupingContext)
    requires Shape(st) && !ctx.tier2Enabled
    requires item.Mid().Some? ==> MidKey(ctx.scope, item.pathKey, item.Mid().value) !in st.midToGroup
    ensures var r := BatchStep(st, item, ctx);
            && r.gidOf == st.gidOf + [|st.groups|] && |r.groups| == |st.groups| + 1 && r.bound == st.bound + [item.Mid()]
            && r.midToGroup == if item.Mid().None? then st.midToGroup
                               else st.midToGroup[MidKey(ctx.scope, item.pathKey, item.Mid().value) := |st.groups|]
  {
  }
}
